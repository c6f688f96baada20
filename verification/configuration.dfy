/** The copy configuration (config.go): the capacity units requested on the
    command line, the worker counts, and the rule that computes the
    provisioning used while copying. */
module Configuration {
  import opened Wrappers
  import opened TableProvisioning

  /** Requested source read units, requested target write units, and the
      number of reader and writer workers. */
  datatype Config = Config(
    readCapacityUnits: Int64,
    writeCapacityUnits: Int64,
    readWorkers: Int64,
    writeWorkers: Int64)

  /** The capacity shape config.go works on: one capacity per table, `None`
      for an on-demand (PAY_PER_REQUEST) table. */
  datatype CapacityProvisioning = CapacityProvisioning(source: Option<Capacity>, target: Option<Capacity>)

  /** A configuration keeps each value in its own role: the units are the
      requested source read and target write units, the counts are readers
      and writers. */
  function NewConfig(readUnits: Int64, writeUnits: Int64, readWorkers: Int64, writeWorkers: Int64): (c: Config)
    ensures c.readCapacityUnits == readUnits && c.writeCapacityUnits == writeUnits
    ensures c.readWorkers == readWorkers && c.writeWorkers == writeWorkers
  {
    Config(readUnits, writeUnits, readWorkers, writeWorkers)
  }

  /** The reader count first, then the writer count; the capacity units play
      no part. */
  function Workers(c: Config): (w: (Int64, Int64))
    ensures w.0 == c.readWorkers && w.1 == c.writeWorkers
  {
    (c.readWorkers, c.writeWorkers)
  }

  /** The worker counts read back are the ones the configuration was built
      with, readers first. */
  lemma WorkersRoundTrip(readUnits: Int64, writeUnits: Int64, readWorkers: Int64, writeWorkers: Int64)
    ensures Workers(NewConfig(readUnits, writeUnits, readWorkers, writeWorkers)) == (readWorkers, writeWorkers)
  {
  }

  /** Source read capacity is raised to the configured read units when, and
      only when, they are strictly greater; likewise target write capacity
      with the configured write units. Nothing else changes. */
  function CopyProvisioning(c: Config, current: CapacityProvisioning): (r: CapacityProvisioning)
    ensures r.source.None? <==> current.source.None?
    ensures r.target.None? <==> current.target.None?
    ensures current.source.Some? ==>
      && r.source.value.write == current.source.value.write
      && r.source.value.read >= current.source.value.read
      && r.source.value.read >= c.readCapacityUnits
      && (r.source.value.read == current.source.value.read || r.source.value.read == c.readCapacityUnits)
    ensures current.target.Some? ==>
      && r.target.value.read == current.target.value.read
      && r.target.value.write >= current.target.value.write
      && r.target.value.write >= c.writeCapacityUnits
      && (r.target.value.write == current.target.value.write || r.target.value.write == c.writeCapacityUnits)
  {
    var src :=
      if current.source.Some? && c.readCapacityUnits > current.source.value.read
      then Some(Capacity(c.readCapacityUnits, current.source.value.write))
      else current.source;
    var trg :=
      if current.target.Some? && c.writeCapacityUnits > current.target.value.write
      then Some(Capacity(current.target.value.read, c.writeCapacityUnits))
      else current.target;
    CapacityProvisioning(src, trg)
  }

  /** No elevation is needed: every provisioned side already has at least the
      configured units. */
  predicate AlreadySufficient(c: Config, current: CapacityProvisioning)
  {
    && (current.source.Some? ==> c.readCapacityUnits <= current.source.value.read)
    && (current.target.Some? ==> c.writeCapacityUnits <= current.target.value.write)
  }

  /** The copy provisioning equals the current one exactly when no side needs
      elevating. */
  lemma CopyProvisioningUnchangedIff(c: Config, current: CapacityProvisioning)
    ensures CopyProvisioning(c, current) == current <==> AlreadySufficient(c, current)
  {
    var r := CopyProvisioning(c, current);
    if r == current && current.source.Some? {
      assert r.source.value.read == current.source.value.read;
    }
    if r == current && current.target.Some? {
      assert r.target.value.write == current.target.value.write;
    }
  }

  /** Elevating an already elevated provisioning changes nothing. */
  lemma CopyProvisioningIdempotent(c: Config, current: CapacityProvisioning)
    ensures CopyProvisioning(c, CopyProvisioning(c, current)) == CopyProvisioning(c, current)
  {
    CopyProvisioningUnchangedIff(c, CopyProvisioning(c, current));
  }
}
