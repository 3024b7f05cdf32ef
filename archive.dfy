/**
 * The parameter archive as the filler sees it: per-group segments of rows (PGSegment, as a
 * value), the record of writes to the store (writeToArchive), and the two registries it owns.
 */
module Archive {
  import opened Samples
  import opened Registries

  /** One record of a segment: a timestamp and the values, ordered like the segment's parameter ids. */
  datatype Row = Row(time: int, values: seq<ParameterValue>)

  /** PGSegment: the rows of one parameter group collected for the segment starting at `start`. */
  datatype Segment = Segment(
    groupId: int,
    start: int,
    parameterIds: seq<int>,
    rows: seq<Row>,
    consolidated: bool)

  /** new PGSegment(parameterGroupId, collectionSegmentStart, parameterIds, maxSegmentSize) */
  function NewSegment(groupId: int, start: int, parameterIds: seq<int>): (s: Segment)
    ensures s.groupId == groupId && s.start == start && s.parameterIds == parameterIds
    ensures s.rows == [] && !s.consolidated
  {
    Segment(groupId, start, parameterIds, [], false)
  }

  /** PGSegment.addRecord: append one row; the segment's identity is untouched. */
  function AddRecord(s: Segment, t: int, values: seq<ParameterValue>): (r: Segment)
    ensures r.rows == s.rows + [Row(t, values)]
    ensures r.(rows := s.rows) == s
  {
    s.(rows := s.rows + [Row(t, values)])
  }

  /** PGSegment.consolidate: seal the segment; its rows are kept as they are. */
  function Consolidate(s: Segment): (r: Segment)
    ensures r.consolidated && r.(consolidated := s.consolidated) == s
  {
    s.(consolidated := true)
  }

  /** One call of writeToArchive: the segment start, the sealed segments, and whether the store accepted them. */
  datatype Write = Write(segStart: int, segments: map<int, Segment>, succeeded: bool)

  /** ParameterArchive: owner of both registries; `healthy` says whether writes to the store succeed. */
  class ParameterArchive {
    const parameterIdDb: ParameterIdDb
    const parameterGroupIdDb: ParameterGroupIdDb
    var writes: seq<Write>
    var healthy: bool

    constructor (healthy: bool, groupStoreHealthy: bool)
      ensures fresh(parameterIdDb) && fresh(parameterGroupIdDb)
      ensures parameterIdDb.table == IdTable(map[], 0) && parameterGroupIdDb.table == IdTable(map[], 0)
      ensures ValidTable(parameterIdDb.table) && ValidTable(parameterGroupIdDb.table)
      ensures parameterGroupIdDb.healthy == groupStoreHealthy
      ensures writes == [] && this.healthy == healthy
    {
      parameterIdDb := new ParameterIdDb();
      parameterGroupIdDb := new ParameterGroupIdDb(groupStoreHealthy);
      writes := [];
      this.healthy := healthy;
    }

    /** writeToArchive(segStart, segments): recorded whether or not the store takes it. */
    method WriteToArchive(segStart: int, segments: map<int, Segment>) returns (ok: bool)
      modifies this`writes
      ensures ok == healthy
      ensures writes == old(writes) + [Write(segStart, segments, ok)]
    {
      ok := healthy;
      writes := writes + [Write(segStart, segments, ok)];
    }
  }
}
