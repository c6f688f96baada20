/** The top-level copy-table sequence (pkg/cmd/copytable/copytable.go):
    fetch the current provisioning, compute and apply the copy provisioning,
    copy, then restore the provisioning fetched at the start, stopping at the
    first error. */
module CopyTable {
  import opened Wrappers

  /** The copy service `Run` drives, as scripted replies. `P` is the
      provisioning the service fetches and `E` its error type. UpdateProvisioning
      may answer differently on each call, so its reply depends on the call
      number (0 for the first call) as well as on the argument. */
  datatype CopyService<!P, E> = CopyService(
    fetch: Result<P, E>,
    calculate: P -> P,
    update: (nat, P) -> Option<E>,
    copy: Option<E>)

  /** A call `Run` makes on the service. */
  datatype ServiceCall<P> =
    | FetchProvisioning
    | CalculateCopyProvisioning(current: P)
    | UpdateProvisioning(target: P)
    | Copy

  /** The error `Run` returns (`None` for nil) and the calls it made. */
  datatype RunResult<P, E> = RunResult(err: Option<E>, calls: seq<ServiceCall<P>>)

  /** The five calls of a run in which every step succeeds, for initial
      provisioning `initial`. */
  function CompleteRun<P>(initial: P, calculate: P -> P): seq<ServiceCall<P>>
  {
    [FetchProvisioning, CalculateCopyProvisioning(initial), UpdateProvisioning(calculate(initial)),
     Copy, UpdateProvisioning(initial)]
  }

  /** `Run` (copytable.go:52-68). The calls made are always a prefix of the
      complete run, and the run stops right after the first call that fails,
      returning that call's error:
      - a fetch error is returned with no other call;
      - the first update receives the copy provisioning, and if it fails
        Copy is never called;
      - if Copy fails, no restore is attempted;
      - after a successful Copy the last call restores the fetched
        provisioning, and its result is the result of the run. */
  function Run<P(==), E(==)>(s: CopyService<P, E>): (r: RunResult<P, E>)
    ensures s.fetch.Failure? ==> r == RunResult(Some(s.fetch.error), [FetchProvisioning])
    ensures s.fetch.Success? ==>
      var initial := s.fetch.value;
      var elevated := s.calculate(initial);
      && 3 <= |r.calls| <= 5
      && r.calls == CompleteRun(initial, s.calculate)[..|r.calls|]
      && (|r.calls| == 3 <==> s.update(0, elevated).Some?)
      && (|r.calls| == 3 ==> r.err == s.update(0, elevated))
      && (|r.calls| == 4 <==> s.update(0, elevated).None? && s.copy.Some?)
      && (|r.calls| == 4 ==> r.err == s.copy)
      && (|r.calls| == 5 ==> r.err == s.update(1, initial))
    ensures r.err.None? <==>
      && s.fetch.Success?
      && s.update(0, s.calculate(s.fetch.value)).None?
      && s.copy.None?
      && s.update(1, s.fetch.value).None?
  {
    match s.fetch
    case Failure(e) => RunResult(Some(e), [FetchProvisioning])
    case Success(initial) =>
      var elevated := s.calculate(initial);
      var prefix := [FetchProvisioning, CalculateCopyProvisioning(initial), UpdateProvisioning(elevated)];
      match s.update(0, elevated)
      case Some(e) => RunResult(Some(e), prefix)
      case None =>
        match s.copy
        case Some(e) => RunResult(Some(e), prefix + [Copy])
        case None => RunResult(s.update(1, initial), prefix + [Copy, UpdateProvisioning(initial)])
  }

  /** The restore step always targets the provisioning fetched at the start,
      never the elevated one, and it is reached exactly when the elevation
      and the copy both succeeded. */
  lemma RestoreTargetsInitialProvisioning<P, E>(s: CopyService<P, E>)
    requires s.fetch.Success?
    ensures var r := Run(s);
      (exists i :: 0 <= i < |r.calls| && i > 2 && r.calls[i].UpdateProvisioning?) <==>
        s.update(0, s.calculate(s.fetch.value)).None? && s.copy.None?
    ensures var r := Run(s);
      forall i :: 2 < i < |r.calls| && r.calls[i].UpdateProvisioning? ==> r.calls[i].target == s.fetch.value
  {
    var r := Run(s);
    if s.update(0, s.calculate(s.fetch.value)).None? && s.copy.None? {
      assert r.calls[4].UpdateProvisioning?;
    }
  }
}
