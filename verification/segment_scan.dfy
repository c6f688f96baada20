/** The segmented scan of dynamodb.go: `Scan` validates the segment count,
    builds the scan request, and turns each page the paginator delivers into
    one batch of items sent to the caller's channel. */
module SegmentScan {
  import opened Wrappers
  import opened DynamoDB

  /** How a ScanPages call ended: the callback saw the last page, the
      paginator reported an error, or the script ran out of pages while the
      callback still asked for more (a page request the script cannot
      answer). */
  datatype PagingEnd = LastPageSeen | PagingFailed(cause: ApiError) | PagesEnded

  /** What a ScanPages call produced: how it ended and the batches handed to
      the channel, in order. */
  datatype Paged = Paged(ending: PagingEnd, batches: seq<seq<Item>>)

  /** ScanPages driving the page callback of `Scan` (dynamodb.go:217-230).
      The callback sends the page's items as one batch and asks for more only
      when the page is not the last; paging also stops at a paging error.
      The paginator's last page is the one it marks as such, so running out
      of events before it means the script could not answer a page request. */
  function Paginate(events: seq<PageEvent>): (r: Paged)
    ensures |r.batches| <= |events|
    ensures r.ending.LastPageSeen? ==> |r.batches| > 0
    ensures r.ending.PagingFailed? ==> |r.batches| < |events|
    ensures r.ending.PagesEnded? ==> |r.batches| == |events|
    decreases |events|
  {
    if |events| == 0 then Paged(PagesEnded, [])
    else match events[0]
      case PageError(cause) => Paged(PagingFailed(cause), [])
      case Page(items, lastPage) =>
        if lastPage then Paged(LastPageSeen, [items])
        else
          var more := Paginate(events[1..]);
          Paged(more.ending, [items] + more.batches)
  }

  /** Every batch is the items of the page at the same position, and every
      page before the last batch's asked for more. */
  lemma {:induction false} PaginateDelivers(events: seq<PageEvent>)
    ensures var r := Paginate(events);
      && (forall i :: 0 <= i < |r.batches| ==> events[i].Page? && r.batches[i] == events[i].items)
      && (forall i :: 0 <= i < |r.batches| - 1 ==> events[i].Page? && !events[i].lastPage)
    decreases |events|
  {
    if |events| > 0 && events[0].Page? && !events[0].lastPage {
      var more := Paginate(events[1..]);
      PaginateDelivers(events[1..]);
      assert Paginate(events).batches == [events[0].items] + more.batches;
      assert forall i :: 0 < i < |more.batches| + 1 ==> events[i] == events[1..][i - 1];
    }
  }

  /** Paging ends in one of three ways: the last delivered page was marked
      last; the event after the delivered pages is a paging error, which is
      reported; or every event was delivered and none was marked last. In the
      last two cases the page before the end, if any, asked for more. */
  lemma {:induction false} PaginateEnds(events: seq<PageEvent>)
    ensures var r := Paginate(events);
      && (r.ending.LastPageSeen? ==>
            |r.batches| > 0 && events[|r.batches| - 1].Page? && events[|r.batches| - 1].lastPage)
      && (r.ending.PagingFailed? ==>
            && |r.batches| < |events|
            && events[|r.batches|] == PageError(r.ending.cause)
            && (|r.batches| == 0 || (events[|r.batches| - 1].Page? && !events[|r.batches| - 1].lastPage)))
      && (r.ending.PagesEnded? ==>
            && |r.batches| == |events|
            && (|r.batches| == 0 || (events[|r.batches| - 1].Page? && !events[|r.batches| - 1].lastPage)))
    decreases |events|
  {
    if |events| > 0 && events[0].Page? && !events[0].lastPage {
      var more := Paginate(events[1..]);
      PaginateEnds(events[1..]);
      var r := Paginate(events);
      assert r.batches == [events[0].items] + more.batches && r.ending == more.ending;
      assert |more.batches| < |events[1..]| ==> events[|r.batches|] == events[1..][|more.batches|];
      assert |more.batches| > 0 ==> events[|r.batches| - 1] == events[1..][|more.batches| - 1];
    }
  }

  /** The request `Scan` sends: segment and total are set only for a
      segmented scan, that is, more than one segment. */
  function ScanInputFor(totalSegments: int, segment: int): (input: ScanInput)
    ensures input.Segmented? <==> totalSegments > 1
    ensures input.Segmented? ==> input.segment == segment && input.totalSegments == totalSegments
  {
    if totalSegments > 1 then Segmented(segment, totalSegments) else Unsegmented
  }

  datatype ScanRun = ScanRun(outcome: Outcome, calls: seq<Call>, batches: seq<seq<Item>>, rest: Backend)

  /** `Scan` (dynamodb.go:202-237). Zero segments is rejected with no call and
      no batch; only zero is rejected, so a negative count scans the whole
      table. Otherwise one ScanPages call is made, each delivered page becomes
      one batch in page order. The scan succeeds only once the page marked
      last has been delivered, and a paging error is returned after the
      batches already delivered. */
  function Scan(totalSegments: int, segment: int, be: Backend): (r: ScanRun)
    ensures totalSegments == 0 ==> r == ScanRun(Fail(InvalidTotalSegments), [], [], be)
    ensures totalSegments != 0 && |be.scanReplies| > 0 ==>
      var events := be.scanReplies[0];
      && r.calls == [ScanPagesCall(ScanInputFor(totalSegments, segment))]
      && r.rest == be.(scanReplies := be.scanReplies[1..])
      && |r.batches| <= |events|
      && (forall i :: 0 <= i < |r.batches| ==> events[i].Page? && r.batches[i] == events[i].items)
      && (forall i :: 0 <= i < |r.batches| - 1 ==> events[i].Page? && !events[i].lastPage)
      && (r.outcome == Ok ==> |r.batches| > 0 && events[|r.batches| - 1].Page? && events[|r.batches| - 1].lastPage)
      && (r.outcome.Fail? ==>
            && |r.batches| < |events|
            && events[|r.batches|].PageError?
            && (|r.batches| == 0 || !events[|r.batches| - 1].lastPage)
            && r.outcome == Fail(ScanFailed(events[|r.batches|].cause)))
      && (r.outcome == ScriptEnded ==>
            |r.batches| == |events| && (|r.batches| == 0 || !events[|r.batches| - 1].lastPage))
  {
    if totalSegments == 0 then ScanRun(Fail(InvalidTotalSegments), [], [], be)
    else if |be.scanReplies| == 0 then ScanRun(ScriptEnded, [], [], be)
    else
      var paged := Paginate(be.scanReplies[0]);
      PaginateDelivers(be.scanReplies[0]);
      PaginateEnds(be.scanReplies[0]);
      var outcome :=
        match paged.ending
        case LastPageSeen => Ok
        case PagingFailed(cause) => Fail(ScanFailed(cause))
        case PagesEnded => ScriptEnded;
      ScanRun(outcome, [ScanPagesCall(ScanInputFor(totalSegments, segment))], paged.batches,
              be.(scanReplies := be.scanReplies[1..]))
  }

  /** A paginator script that stops after a page asking for more does not
      make a successful scan: the page request after it goes unanswered. */
  lemma UnfinishedPagingIsNotSuccess(item: Item)
    ensures var r := Scan(1, 0, Backend([], [], [], [[Page([item], false)]], []));
      r.outcome == ScriptEnded && r.batches == [[item]]
  {
    var events := [Page([item], false)];
    assert events[1..] == [];
    assert Paginate(events) == Paged(PagesEnded, [[item]]);
  }

  /** When the paginator's last page comes at index `n` with no error before
      it, the scan delivers exactly the first `n + 1` pages, so every item of
      the segment is handed on once, in page order, and nothing after the last
      page is read. */
  lemma ScanStopsAfterLastPage(events: seq<PageEvent>, n: nat)
    requires n < |events|
    requires forall i :: 0 <= i <= n ==> events[i].Page?
    requires events[n].lastPage
    requires forall i :: 0 <= i < n ==> !events[i].lastPage
    ensures var r := Paginate(events);
      && r.ending.LastPageSeen?
      && |r.batches| == n + 1
      && Flatten(r.batches) == PageItems(events[..n + 1])
  {
    var r := Paginate(events);
    PaginateDelivers(events);
    PaginateEnds(events);
    BatchesAreItems(r.batches, events, n + 1);
  }

  /** The same for a whole scan: when the page marked last comes at index
      `n` with no error before it, the scan succeeds with exactly the items
      of the first `n + 1` pages. */
  lemma ScanSucceedsAfterLastPage(totalSegments: int, segment: int, be: Backend, n: nat)
    requires totalSegments != 0 && |be.scanReplies| > 0
    requires n < |be.scanReplies[0]|
    requires forall i :: 0 <= i <= n ==> be.scanReplies[0][i].Page?
    requires be.scanReplies[0][n].lastPage
    requires forall i :: 0 <= i < n ==> !be.scanReplies[0][i].lastPage
    ensures var r := Scan(totalSegments, segment, be);
      && r.outcome == Ok
      && |r.batches| == n + 1
      && Flatten(r.batches) == PageItems(be.scanReplies[0][..n + 1])
  {
    ScanStopsAfterLastPage(be.scanReplies[0], n);
  }

  /** Batches that are, one for one, the items of the first `m` pages
      together hold exactly those pages' items in order. */
  lemma {:induction false} BatchesAreItems(batches: seq<seq<Item>>, events: seq<PageEvent>, m: nat)
    requires |batches| == m <= |events|
    requires forall i :: 0 <= i < m ==> events[i].Page? && batches[i] == events[i].items
    ensures Flatten(batches) == PageItems(events[..m])
    decreases m
  {
    if m > 0 {
      BatchesAreItems(batches[1..], events[1..], m - 1);
      assert events[..m][1..] == events[1..][..m - 1];
      assert PageItems(events[..m]) == events[0].items + PageItems(events[1..][..m - 1]);
    } else {
      assert events[..0] == [];
    }
  }

  /** The items of a run of pages, in page order. */
  function PageItems(events: seq<PageEvent>): seq<Item>
  {
    if events == [] then []
    else (if events[0].Page? then events[0].items else []) + PageItems(events[1..])
  }
}
