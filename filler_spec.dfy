/**
 * The archive filler (ArchiveFillerTask) as a state machine on values: the admission rules of
 * processParameters, the per-timestamp lists, the per-group segments, the shared collection
 * window, flushing and the abort on imminent memory exhaustion. The class in filler_task.dfy
 * is proved to follow these functions step by step.
 */
module FillerSpec {
  import opened Wrappers
  import opened Samples
  import opened Registries
  import opened ParameterLists
  import opened Archive

  // ---------------------------------------------------------------- admission and grouping

  /** The checks of the first loop: not older than the window start, named, not an aggregate. */
  predicate Admitted(pv: ParameterValue, start: int)
  {
    pv.generationTime >= start && pv.qualifiedName.Some? &&
    !(pv.engValue.Some? && pv.engValue.value.Aggregate?)
  }

  /** An admitted sample that SortedParameterList.add keeps: it has an engineering value. */
  predicate Listed(pv: ParameterValue, start: int)
  {
    Admitted(pv, start) && pv.engValue.Some?
  }

  ghost predicate NoDuplicates(s: seq<int>)
  {
    forall i, j :: 0 <= i < j < |s| ==> s[i] != s[j]
  }

  /**
   * The timestamps that get a per-timestamp list, in the order they first occur in the batch
   * (the order in which the model visits the map's entries).
   */
  function Times(items: seq<ParameterValue>, start: int): (ts: seq<int>)
    ensures NoDuplicates(ts)
    ensures forall t :: t in ts ==> t >= start
  {
    if items == [] then []
    else
      var ts := Times(items[..|items| - 1], start);
      var pv := items[|items| - 1];
      if Admitted(pv, start) && pv.generationTime !in ts then ts + [pv.generationTime] else ts
  }

  /** The samples of the batch that end up in the list of timestamp `t`, in arrival order. */
  function SelectedAt(items: seq<ParameterValue>, start: int, t: int): (r: seq<ParameterValue>)
    ensures forall x :: x in r ==> x in items && Listed(x, start) && x.generationTime == t
  {
    if items == [] then []
    else
      var r := SelectedAt(items[..|items| - 1], start, t);
      var pv := items[|items| - 1];
      if Listed(pv, start) && pv.generationTime == t then r + [pv] else r
  }

  /** The number of samples of the batch that reach a per-timestamp list. */
  function ListedCount(items: seq<ParameterValue>, start: int): nat
  {
    if items == [] then 0
    else ListedCount(items[..|items| - 1], start) + (if Listed(items[|items| - 1], start) then 1 else 0)
  }

  /** The parameter-id table after the first loop: one createAndGet per listed sample, in order. */
  function RegisterAll(table: IdTable<ParameterKey>, items: seq<ParameterValue>, start: int): (r: IdTable<ParameterKey>)
    ensures Extends(table.ids, r.ids)
    ensures ValidTable(table) ==> ValidTable(r)
    ensures forall x :: x in items && Listed(x, start) ==> KeyOf(x) in r.ids
  {
    if items == [] then table
    else
      var r := RegisterAll(table, items[..|items| - 1], start);
      var pv := items[|items| - 1];
      if Listed(pv, start) then Assign(r, KeyOf(pv)) else r
  }

  ghost predicate AllKeyed(items: seq<ParameterValue>, start: int, ids: map<ParameterKey, int>)
  {
    forall x :: x in items && Listed(x, start) ==> KeyOf(x) in ids
  }

  /** The map the first loop builds: each timestamp with a list, and that list. */
  function Lists(items: seq<ParameterValue>, start: int, ids: map<ParameterKey, int>): (m: map<int, Entries>)
    requires AllKeyed(items, start, ids)
  {
    map t | t in Times(items, start) :: Collect(SelectedAt(items, start, t), ids)
  }

  /** What the first loop has built so far: the parameter-id table, the timestamps in map order, their lists. */
  datatype Grouping = Grouping(table: IdTable<ParameterKey>, keys: seq<int>, lists: map<int, Entries>)

  ghost predicate WellGrouped(g: Grouping)
  {
    (forall t :: t in g.lists <==> t in g.keys) &&
    (forall t :: t in g.lists ==> |g.lists[t].ids| == |g.lists[t].pvs|)
  }

  /** One iteration of the first loop on sample `pv`. */
  function GroupStep(g: Grouping, pv: ParameterValue, start: int): (r: Grouping)
    requires WellGrouped(g)
    ensures WellGrouped(r)
  {
    if !Admitted(pv, start) then g
    else
      var t := pv.generationTime;
      var keys := if t in g.lists then g.keys else g.keys + [t];
      var e := if t in g.lists then g.lists[t] else Entries([], []);
      if pv.engValue.None? then Grouping(g.table, keys, g.lists[t := e])
      else
        var table := Assign(g.table, KeyOf(pv));
        Grouping(table, keys, g.lists[t := AddEntry(e, table.ids[KeyOf(pv)], pv)])
  }

  /** The first loop over a whole batch. */
  function Group(table: IdTable<ParameterKey>, items: seq<ParameterValue>, start: int): (g: Grouping)
    ensures WellGrouped(g)
  {
    if items == [] then Grouping(table, [], map[])
    else GroupStep(Group(table, items[..|items| - 1], start), items[|items| - 1], start)
  }

  // ---------------------------------------------------------------- task state

  /**
   * How a call ends: normally, with the NullPointerException of a discarded segment map, or with
   * the IndexOutOfBoundsException of items.get(0) on an empty batch.
   */
  datatype Completion = Normal | NullPointer | IndexOutOfBounds

  /** The task's fields and the parts of its collaborators it changes. */
  datatype FillerState = FillerState(
    start: int,                           // collectionSegmentStart
    segments: Option<map<int, Segment>>,  // pgSegments, None once discarded
    numParams: int,
    paramIds: IdTable<ParameterKey>,      // ParameterIdDb
    groups: IdTable<seq<int>>,            // ParameterGroupIdDb
    writes: seq<Write>,                   // what was handed to writeToArchive
    aborted: bool,
    stopRequested: bool)                  // processor.stopAsync() was called

  /** What the task reads but never changes: its configuration and whether the stores accept writes. */
  datatype Env = Env(maxSegmentSize: int, minSegmentStart: int -> int, groupStoreUp: bool, archiveUp: bool)

  /** The result of running rows through processParameters(t, pvList). */
  datatype Pass = Pass(state: FillerState, needsFlush: bool, crashed: bool)

  datatype Outcome = Outcome(state: FillerState, completion: Completion)

  /** The state the task starts in. */
  function Initial(paramIds: IdTable<ParameterKey>, groups: IdTable<seq<int>>): FillerState
  {
    FillerState(0, Some(map[]), 0, paramIds, groups, [], false, false)
  }

  // ---------------------------------------------------------------- the second loop

  /**
   * The row (t, pvs) went to the end of the segment of the list's group, created with the window
   * start if the group had none; every other segment is as it was, and the step asks for a flush
   * exactly when that segment now holds more than `max` rows.
   */
  ghost predicate RowAppended(s: FillerState, p: Pass, t: int, e: Entries, max: int)
    requires s.segments.Some?
  {
    e.ids in p.state.groups.ids && p.state.segments.Some? &&
    var gid := p.state.groups.ids[e.ids];
    var before := s.segments.value;
    var after := p.state.segments.value;
    after.Keys == before.Keys + {gid} &&
    after[gid].rows == (if gid in before then before[gid].rows else []) + [Row(t, e.pvs)] &&
    (gid in before ==> after[gid].(rows := before[gid].rows) == before[gid]) &&
    (gid !in before ==> after[gid].groupId == gid && after[gid].start == s.start &&
                        after[gid].parameterIds == e.ids && !after[gid].consolidated) &&
    (forall g :: g in before && g != gid ==> after[g] == before[g]) &&
    (p.needsFlush <==> |after[gid].rows| > max) &&
    !p.crashed
  }

  /**
   * processParameters(t, pvList): count the list, resolve its group id (a failed store write
   * for a new group skips the row), get or create the group's segment with the current window
   * start, append the row, and report whether the segment now holds more than `max` rows.
   * A discarded segment map throws.
   */
  function RowStep(s: FillerState, t: int, e: Entries, max: int, groupStoreUp: bool): (p: Pass)
    ensures p.state.numParams == s.numParams + |e.ids|
    ensures p.state.(segments := s.segments, numParams := s.numParams, groups := s.groups) == s
    ensures Extends(s.groups.ids, p.state.groups.ids)
    ensures p.crashed <==> s.segments.None? && (e.ids in s.groups.ids || groupStoreUp)
    ensures p.needsFlush ==> p.state.segments.Some?
    ensures e.ids !in s.groups.ids && !groupStoreUp ==> p.state.segments == s.segments && !p.needsFlush
    ensures s.segments.Some? && (e.ids in s.groups.ids || groupStoreUp) ==> RowAppended(s, p, t, e, max)
  {
    var counted := s.(numParams := s.numParams + |e.ids|);
    if e.ids !in s.groups.ids && !groupStoreUp then Pass(counted, false, false)
    else
      var groups := Assign(s.groups, e.ids);
      var gid := groups.ids[e.ids];
      if s.segments.None? then Pass(counted.(groups := groups), false, true)
      else
        var segs := s.segments.value;
        var seg := if gid in segs then segs[gid] else NewSegment(gid, s.start, e.ids);
        var seg' := AddRecord(seg, t, e.pvs);
        Pass(counted.(groups := groups, segments := Some(segs[gid := seg'])), |seg'.rows| > max, false)
  }

  /** The second loop: every timestamp in `keys`, in order, until one throws. */
  function ApplyRows(s: FillerState, keys: seq<int>, lists: map<int, Entries>, max: int, groupStoreUp: bool): (p: Pass)
    requires forall t :: t in keys ==> t in lists
    ensures p.state.(segments := s.segments, numParams := s.numParams, groups := s.groups) == s
    ensures p.state.segments.None? <==> s.segments.None?
    ensures p.crashed ==> s.segments.None?
    ensures p.needsFlush ==> s.segments.Some?
  {
    if keys == [] then Pass(s, false, false)
    else
      var p := ApplyRows(s, keys[..|keys| - 1], lists, max, groupStoreUp);
      if p.crashed then p
      else
        var t := keys[|keys| - 1];
        var q := RowStep(p.state, t, lists[t], max, groupStoreUp);
        Pass(q.state, p.needsFlush || q.needsFlush, q.crashed)
  }

  /** maxTimestamp: the window start, raised to every visited timestamp; it is the largest of them. */
  function MaxTime(start: int, keys: seq<int>): (m: int)
    ensures m >= start
    ensures forall t :: t in keys ==> t <= m
  {
    if keys == [] then start
    else
      var m := MaxTime(start, keys[..|keys| - 1]);
      assert keys == keys[..|keys| - 1] + [keys[|keys| - 1]];
      if keys[|keys| - 1] > m then keys[|keys| - 1] else m
  }

  /** maxTimestamp is attained: it is the window start or one of the visited timestamps. */
  lemma {:induction false} MaxTimeAttained(start: int, keys: seq<int>)
    ensures MaxTime(start, keys) == start || MaxTime(start, keys) in keys
  {
    if keys != [] {
      MaxTimeAttained(start, keys[..|keys| - 1]);
      assert keys == keys[..|keys| - 1] + [keys[|keys| - 1]];
    }
  }

  // ---------------------------------------------------------------- writing, flushing, aborting

  /** Every segment of the map, consolidated. */
  function Sealed(segs: map<int, Segment>): (r: map<int, Segment>)
    ensures r.Keys == segs.Keys
    ensures forall g :: g in r ==> r[g] == Consolidate(segs[g])
  {
    map g | g in segs :: Consolidate(segs[g])
  }

  /**
   * consolidateAndWriteToArchive(segStart): consolidate every live segment, hand them all to
   * the archive in one write (whose failure is only logged), and clear the map.
   */
  function ConsolidateAndWrite(s: FillerState, segStart: int, archiveUp: bool): (r: FillerState)
    requires s.segments.Some?
    ensures r.segments == Some(map[])
    ensures |r.writes| == |s.writes| + 1 && r.writes[..|s.writes|] == s.writes
    ensures var w := r.writes[|s.writes|];
      w.segStart == segStart && w.succeeded == archiveUp && w.segments.Keys == s.segments.value.Keys &&
      forall g :: g in w.segments ==> w.segments[g].consolidated && w.segments[g].rows == s.segments.value[g].rows
    ensures r.(segments := s.segments, writes := s.writes) == s
  {
    s.(writes := s.writes + [Write(segStart, Sealed(s.segments.value), archiveUp)], segments := Some(map[]))
  }

  /** flush(): write out whatever is live, unless the map has been discarded. */
  function FlushSpec(s: FillerState, archiveUp: bool): (r: FillerState)
    ensures s.segments.None? ==> r == s
    ensures s.segments.Some? ==> r.segments == Some(map[]) && |r.writes| == |s.writes| + 1
    ensures r.start == s.start && r.aborted == s.aborted && r.numParams == s.numParams
  {
    if s.segments.Some? then ConsolidateAndWrite(s, s.start, archiveUp) else s
  }

  /** oomImminent() when memory is about to run out: abort, drop the map, ask the processor to stop. */
  function AbortSpec(s: FillerState): (r: FillerState)
    ensures r.aborted && r.segments.None? && r.stopRequested
    ensures r.start == s.start && r.writes == s.writes && r.numParams == s.numParams
  {
    s.(aborted := true, segments := None, stopRequested := true)
  }

  // ---------------------------------------------------------------- the two entry points

  /**
   * processParameters(items): build the per-timestamp lists, run them through the segments,
   * and if any segment overflowed write all of them for the current window and move the
   * window past the batch's largest timestamp.
   */
  function ProcessParametersSpec(s: FillerState, items: seq<ParameterValue>, env: Env): (r: Outcome)
    ensures r.completion != IndexOutOfBounds
    ensures r.completion == NullPointer ==> s.segments.None?
    ensures r.state.start >= s.start
    ensures r.state.start != s.start ==> r.state.segments == Some(map[]) && |r.state.writes| == |s.writes| + 1
    ensures r.state.aborted == s.aborted && r.state.stopRequested == s.stopRequested
  {
    var paramIds := RegisterAll(s.paramIds, items, s.start);
    ProcessGrouped(s, Grouping(paramIds, Times(items, s.start), Lists(items, s.start, paramIds.ids)), env)
  }

  /** The second loop and the flush of processParameters, once the first loop has built `g`. */
  function ProcessGrouped(s: FillerState, g: Grouping, env: Env): (r: Outcome)
    requires forall t :: t in g.keys ==> t in g.lists
    ensures r.completion != IndexOutOfBounds
    ensures r.completion == NullPointer ==> s.segments.None?
    ensures r.state.start >= s.start
    ensures r.state.start != s.start ==> r.state.segments == Some(map[]) && |r.state.writes| == |s.writes| + 1
    ensures r.state.start == s.start ==> r.state.writes == s.writes
    ensures r.state.aborted == s.aborted && r.state.stopRequested == s.stopRequested
  {
    var p := ApplyRows(s.(paramIds := g.table), g.keys, g.lists, env.maxSegmentSize, env.groupStoreUp);
    if p.crashed then Outcome(p.state, NullPointer)
    else if p.needsFlush then
      Outcome(ConsolidateAndWrite(p.state, s.start, env.archiveUp).(start := MaxTime(s.start, g.keys) + 1), Normal)
    else Outcome(p.state, Normal)
  }

  /**
   * updateItems(items): abort when memory exhaustion is imminent; otherwise (an empty batch
   * throws at items.get(0)), if the first sample's aligned segment start lies after the window start, write out the live segments
   * (if any) and move the window there; then process the batch.
   */
  function UpdateItemsSpec(s: FillerState, items: seq<ParameterValue>, memoryExceeded: bool, env: Env): (r: Outcome)
    ensures memoryExceeded ==> r.state.aborted && r.state.segments.None? && r.state.stopRequested
    ensures !memoryExceeded ==> r.state.aborted == s.aborted && r.state.stopRequested == s.stopRequested
    ensures r.completion == IndexOutOfBounds <==> !memoryExceeded && items == []
    ensures r.completion == NullPointer ==> s.segments.None?
    ensures r.state.start >= s.start
  {
    if memoryExceeded then Outcome(AbortSpec(s), Normal)
    else if items == [] then Outcome(s, IndexOutOfBounds)
    else
      var t1 := env.minSegmentStart(items[0].generationTime);
      if t1 > s.start then
        if s.segments.None? then Outcome(s, NullPointer)
        else
          var s1 := if s.segments.value != map[] then ConsolidateAndWrite(s, s.start, env.archiveUp) else s;
          ProcessParametersSpec(s1.(start := t1), items, env)
      else ProcessParametersSpec(s, items, env)
  }
}
