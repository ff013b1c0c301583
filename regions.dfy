/**
 * The region provider: the regions of the standard `aws` partition, keyed by region id, built once
 * from the parsed partition data and only read afterwards.
 */
module AwsRegions {
  import opened Wrappers
  import opened OrderedMaps

  /** One region entry of a partition, as parsed from the endpoints data. */
  datatype PartitionRegion = PartitionRegion(description: string)

  /** A partition; its region table may be absent from the data. */
  datatype Partition = Partition(partition: string, regions: Option<OrderedMap<PartitionRegion>>)

  /** The parsed endpoints data; the partition list may be absent. */
  datatype Partitions = Partitions(partitions: Option<seq<Partition>>)

  /** `AwsRegion(id, name)`. */
  datatype AwsRegion = AwsRegion(id: string, name: string)

  /** The partition whose regions the provider offers. */
  const StandardPartition := "aws"

  /** `DEFAULT_REGION`. */
  const DefaultRegionId := "us-east-1"

  /** `find { it.partition == name }`: the first partition with that name. */
  function FindPartition(partitions: seq<Partition>, name: string): (r: Option<Partition>)
    ensures r.None? <==> forall i | 0 <= i < |partitions| :: partitions[i].partition != name
    ensures r.Some? ==> exists i | 0 <= i < |partitions| ::
      partitions[i] == r.value && r.value.partition == name && forall j | 0 <= j < i :: partitions[j].partition != name
  {
    if partitions == [] then None
    else if partitions[0].partition == name then Some(partitions[0])
    else
      var r := FindPartition(partitions[1..], name);
      assert r.Some? ==> exists i | 0 <= i < |partitions[1..]| ::
        partitions[1..][i] == r.value && forall j | 0 <= j < i :: partitions[1..][j].partition != name;
      assert r.Some? ==> exists i | 0 <= i < |partitions| ::
        partitions[i] == r.value && forall j | 0 <= j < i :: partitions[j].partition != name by {
        if r.Some? {
          var i :| 0 <= i < |partitions[1..]| && partitions[1..][i] == r.value
            && forall j | 0 <= j < i :: partitions[1..][j].partition != name;
          assert partitions[i + 1] == r.value;
          forall j | 0 <= j < i + 1 ensures partitions[j].partition != name {
            if j > 0 { assert partitions[j] == partitions[1..][j - 1]; }
          }
        }
      }
      r
  }

  /** `map { (key, region) -> key to AwsRegion(key, region.description) }.toMap()`. */
  function ToAwsRegions(regions: OrderedMap<PartitionRegion>): (r: OrderedMap<AwsRegion>)
    ensures |r| == |regions|
    ensures forall i | 0 <= i < |regions| :: r[i] == (regions[i].0, AwsRegion(regions[i].0, regions[i].1.description))
  {
    if regions == [] then []
    else [(regions[0].0, AwsRegion(regions[0].0, regions[0].1.description))] + ToAwsRegions(regions[1..])
  }

  /** The regions of the standard partition, or an empty table when any step finds nothing. */
  function RegionTable(parsed: Option<Partitions>): OrderedMap<AwsRegion> {
    if parsed.None? || parsed.value.partitions.None? then []
    else
      match FindPartition(parsed.value.partitions.value, StandardPartition)
      case None => []
      case Some(p) => if p.regions.None? then [] else ToAwsRegions(p.regions.value)
  }

  /** The region table of the first `aws` partition, when the data has one with regions. */
  function StandardRegions(parsed: Option<Partitions>): Option<OrderedMap<PartitionRegion>> {
    if parsed.None? || parsed.value.partitions.None? then None
    else
      match FindPartition(parsed.value.partitions.value, StandardPartition)
      case None => None
      case Some(p) => p.regions
  }

  /** The table is empty when nothing was parsed, there is no `aws` partition, or it lists no regions. */
  lemma RegionTableEmptyCases(parsed: Option<Partitions>)
    ensures parsed.None? ==> RegionTable(parsed) == []
    ensures parsed.Some? && parsed.value.partitions.None? ==> RegionTable(parsed) == []
    ensures parsed.Some? && parsed.value.partitions.Some? &&
            (forall i | 0 <= i < |parsed.value.partitions.value| :: parsed.value.partitions.value[i].partition != StandardPartition)
            ==> RegionTable(parsed) == []
    ensures StandardRegions(parsed).None? ==> RegionTable(parsed) == []
  {
  }

  /**
   * Otherwise the table has one entry per region key of the first `aws` partition, in order: the
   * key, and a region whose id is that key and whose name is the region's description.
   */
  lemma RegionTableEntries(parsed: Option<Partitions>)
    requires StandardRegions(parsed).Some?
    ensures var source := StandardRegions(parsed).value;
      && Keys(RegionTable(parsed)) == Keys(source)
      && forall i | 0 <= i < |source| ::
           RegionTable(parsed)[i].1 == AwsRegion(source[i].0, source[i].1.description)
  {
  }

  /** Every region is stored under its own id, and the table keeps the partition's keys distinct. */
  lemma RegionTableKeyedById(parsed: Option<Partitions>)
    requires StandardRegions(parsed).Some? ==> NoDuplicateKeys(StandardRegions(parsed).value)
    ensures forall i | 0 <= i < |RegionTable(parsed)| :: RegionTable(parsed)[i].1.id == RegionTable(parsed)[i].0
    ensures NoDuplicateKeys(RegionTable(parsed))
  {
  }

  /** Why `defaultRegion()` can fail: `regions[DEFAULT_REGION]!!` on a missing key. */
  datatype RegionError = DefaultRegionMissing

  /** The provider: its table is computed once, when it is created, and never changes. */
  datatype AwsRegionProvider = AwsRegionProvider(regionTable: OrderedMap<AwsRegion>) {
    /** `regions()`. */
    function Regions(): OrderedMap<AwsRegion> {
      regionTable
    }

    /** `defaultRegion()`: the entry for `us-east-1`, failing when there is none. */
    function DefaultRegion(): (r: Result<AwsRegion, RegionError>)
      ensures r.Success? <==> DefaultRegionId in Keys(regionTable)
      ensures r.Success? ==> Get(regionTable, DefaultRegionId) == Some(r.value)
      ensures r.Failure? ==> r.error == DefaultRegionMissing
    {
      match Get(regionTable, DefaultRegionId)
      case Some(region) => Success(region)
      case None => Failure(DefaultRegionMissing)
    }
  }

  /** The provider's `init`: the table of the parsed data. */
  function CreateProvider(parsed: Option<Partitions>): (r: AwsRegionProvider)
    ensures r.Regions() == RegionTable(parsed)
  {
    AwsRegionProvider(RegionTable(parsed))
  }

  /**
   * When the `aws` partition lists `us-east-1`, the default region is that region, with its own id
   * and the description as its name.
   */
  lemma DefaultRegionOfPartition(parsed: Option<Partitions>)
    requires StandardRegions(parsed).Some? && NoDuplicateKeys(StandardRegions(parsed).value)
    ensures var provider := CreateProvider(parsed);
      var source := StandardRegions(parsed).value;
      && (provider.DefaultRegion().Success? <==> DefaultRegionId in Keys(source))
      && (provider.DefaultRegion().Success? ==>
            provider.DefaultRegion().value ==
              AwsRegion(DefaultRegionId, Get(source, DefaultRegionId).value.description))
  {
    var source := StandardRegions(parsed).value;
    var table := RegionTable(parsed);
    RegionTableEntries(parsed);
    RegionTableKeyedById(parsed);
    if DefaultRegionId in Keys(source) {
      var i :| 0 <= i < |source| && source[i] == (DefaultRegionId, Get(source, DefaultRegionId).value);
      GetEntry(table, i);
      assert table[i].0 == Keys(table)[i] == Keys(source)[i] == DefaultRegionId;
    }
  }
}
