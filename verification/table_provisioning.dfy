/** The table-description shape of provisioning (provisioning.go): the
    capacity pair and the accessors that read it out of the two table
    descriptions captured before a copy. */
module TableProvisioning {
  import opened Wrappers

  const MinInt64: int := -0x8000_0000_0000_0000
  const MaxInt64: int := 0x7FFF_FFFF_FFFF_FFFF

  /** Go's `int64`, and Go's `int` on the 64-bit targets the tool is built for. */
  type Int64 = x: int | MinInt64 <= x <= MaxInt64

  /** Read and write capacity units of one table. */
  datatype Capacity = Capacity(read: Int64, write: Int64)

  /** The provisioned throughput of a table description; absent for an
      on-demand (PAY_PER_REQUEST) table. */
  datatype Throughput = Throughput(readUnits: Int64, writeUnits: Int64)

  /** The part of a DynamoDB table description the tool looks at. */
  datatype TableDescription = TableDescription(status: string, throughput: Option<Throughput>)

  /** The source and target table descriptions captured before a copy. */
  datatype Provisioning = Provisioning(source: TableDescription, target: TableDescription)

  /** The first description is the source table's, the second the target's. */
  function NewProvisioning(src: TableDescription, trg: TableDescription): (p: Provisioning)
    ensures p.source == src && p.target == trg
  {
    Provisioning(src, trg)
  }

  /** Capacity of a provisioned table; Go dereferences the throughput
      pointer, so an on-demand description is outside its domain. */
  function CapacityOf(table: TableDescription): Capacity
    requires table.throughput.Some?
  {
    Capacity(table.throughput.value.readUnits, table.throughput.value.writeUnits)
  }

  function SourceCapacity(p: Provisioning): (c: Capacity)
    requires p.source.throughput.Some?
    ensures c.read == p.source.throughput.value.readUnits
    ensures c.write == p.source.throughput.value.writeUnits
  {
    CapacityOf(p.source)
  }

  function TargetCapacity(p: Provisioning): (c: Capacity)
    requires p.target.throughput.Some?
    ensures c.read == p.target.throughput.value.readUnits
    ensures c.write == p.target.throughput.value.writeUnits
  {
    CapacityOf(p.target)
  }

  /** Building a provisioning from two descriptions and reading it back
      gives the source's units from the first description and the target's
      from the second, read and write unswapped, and neither accessor looks
      at the other table. */
  lemma NewProvisioningRoundTrip(src: TableDescription, trg: TableDescription, other: TableDescription)
    ensures NewProvisioning(src, trg).source == src
    ensures NewProvisioning(src, trg).target == trg
    ensures src.throughput.Some? ==>
      && SourceCapacity(NewProvisioning(src, trg)) == Capacity(src.throughput.value.readUnits, src.throughput.value.writeUnits)
      && SourceCapacity(NewProvisioning(src, trg)) == SourceCapacity(NewProvisioning(src, other))
    ensures trg.throughput.Some? ==>
      && TargetCapacity(NewProvisioning(src, trg)) == Capacity(trg.throughput.value.readUnits, trg.throughput.value.writeUnits)
      && TargetCapacity(NewProvisioning(src, trg)) == TargetCapacity(NewProvisioning(other, trg))
  {
  }
}
