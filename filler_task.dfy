/**
 * ArchiveFillerTask: the object that receives batches of parameter samples, keeps the live
 * per-group segments in a map, and writes them to the parameter archive. Each method is
 * proved to perform exactly the step of the state machine in filler_spec.dfy.
 */
module FillerTask {
  import opened Wrappers
  import opened Samples
  import opened Registries
  import opened ParameterLists
  import opened Archive
  import opened FillerSpec
  import opened FillerProperties
  import FillerInvariant

  const DefaultMaxSegmentSize := 5000

  class ArchiveFillerTask {
    const parameterArchive: ParameterArchive
    const parameterIdMap: ParameterIdDb
    const parameterGroupIdMap: ParameterGroupIdDb
    const maxSegmentSize: int
    /** SortedTimeSegment.getMinSegmentStart: the start of the time segment holding a timestamp. */
    const minSegmentStart: int -> int

    var numParams: int
    /** ParameterGroup id -> PGSegment; None once discarded on abort. */
    var pgSegments: Option<map<int, Segment>>
    /** Data older than this is ignored. */
    var collectionSegmentStart: int
    var aborted: bool
    /** processor.stopAsync() has been called. */
    var stopRequested: bool

    function State(): FillerState
      reads this, parameterArchive, parameterIdMap, parameterGroupIdMap
    {
      FillerState(collectionSegmentStart, pgSegments, numParams, parameterIdMap.table,
                  parameterGroupIdMap.table, parameterArchive.writes, aborted, stopRequested)
    }

    function Env(): FillerSpec.Env
      reads this, parameterArchive, parameterGroupIdMap
    {
      FillerSpec.Env(maxSegmentSize, minSegmentStart, parameterGroupIdMap.healthy, parameterArchive.healthy)
    }

    /** The invariant of FillerInvariant, on this task's state. */
    ghost predicate Consistent()
      reads this, parameterArchive, parameterIdMap, parameterGroupIdMap
    {
      FillerInvariant.Consistent(State(), maxSegmentSize)
    }

    constructor (parameterArchive: ParameterArchive, maxSegmentSize: int, minSegmentStart: int -> int)
      ensures this.parameterArchive == parameterArchive && this.maxSegmentSize == maxSegmentSize
      ensures this.minSegmentStart == minSegmentStart
      ensures parameterIdMap == parameterArchive.parameterIdDb && parameterGroupIdMap == parameterArchive.parameterGroupIdDb
      ensures State() == Initial(parameterIdMap.table, parameterGroupIdMap.table).(writes := parameterArchive.writes)
      ensures ValidTable(parameterIdMap.table) && ValidTable(parameterGroupIdMap.table) &&
              (forall i :: 0 <= i < |parameterArchive.writes| ==> FillerInvariant.WrittenOk(parameterArchive.writes[i]))
              ==> Consistent()
    {
      this.parameterArchive := parameterArchive;
      parameterIdMap := parameterArchive.parameterIdDb;
      parameterGroupIdMap := parameterArchive.parameterGroupIdDb;
      this.maxSegmentSize := maxSegmentSize;
      this.minSegmentStart := minSegmentStart;
      numParams := 0;
      pgSegments := Some(map[]);
      collectionSegmentStart := 0;
      aborted := false;
      stopRequested := false;
      new;
      if ValidTable(parameterIdMap.table) && ValidTable(parameterGroupIdMap.table) &&
         forall i :: 0 <= i < |parameterArchive.writes| ==> FillerInvariant.WrittenOk(parameterArchive.writes[i])
      {
        FillerInvariant.InitialConsistent(parameterIdMap.table, parameterGroupIdMap.table, parameterArchive.writes, maxSegmentSize);
      }
    }

    method SetCollectionSegmentStart(collectionSegmentStart: int)
      modifies this`collectionSegmentStart
      ensures State() == old(State()).(start := collectionSegmentStart)
      ensures old(Consistent()) && (old(pgSegments).Some? ==> old(pgSegments).value == map[]) ==> Consistent()
    {
      ghost var s := State();
      this.collectionSegmentStart := collectionSegmentStart;
      if FillerInvariant.Consistent(s, maxSegmentSize) && (s.segments.Some? ==> s.segments.value == map[]) {
        FillerInvariant.SetStartKeepsConsistent(s, collectionSegmentStart, maxSegmentSize);
      }
    }

    /** processParameters(t, pvList) */
    method ProcessRow(t: int, pvList: SortedParameterList) returns (needsFlush: bool, c: Completion)
      requires |pvList.parameterIdArray| == |pvList.sortedPvList|
      modifies this`numParams, this`pgSegments, parameterGroupIdMap`table
      ensures var p := RowStep(old(State()), t, pvList.Contents(), maxSegmentSize, parameterGroupIdMap.healthy);
              State() == p.state && needsFlush == p.needsFlush && c == (if p.crashed then NullPointer else Normal)
    {
      numParams := numParams + pvList.Size();
      var parameterGroupId := parameterGroupIdMap.CreateAndGet(pvList.parameterIdArray);
      if parameterGroupId.None? {
        // the store rejected the new group: logged, and the row is dropped
        return false, Normal;
      }
      var gid := parameterGroupId.value;
      if pgSegments.None? {
        return false, NullPointer;
      }
      ghost var live := pgSegments.value;
      var pgs: Segment;
      if gid in pgSegments.value {
        pgs := pgSegments.value[gid];
      } else {
        pgs := NewSegment(gid, collectionSegmentStart, pvList.parameterIdArray);
        pgSegments := Some(pgSegments.value[gid := pgs]);
      }
      pgs := AddRecord(pgs, t, pvList.sortedPvList);
      pgSegments := Some(pgSegments.value[gid := pgs]);
      assert pgSegments.value == live[gid := pgs];
      return |pgs.rows| > maxSegmentSize, Normal;
    }

    /** One iteration of the first loop of processParameters(items), on sample `pv`. */
    method SortSample(m: map<int, SortedParameterList>, keys: seq<int>, ghost lists: map<int, Entries>,
                      ghost lived: set<SortedParameterList>, pv: ParameterValue, start: int)
      returns (m': map<int, SortedParameterList>, keys': seq<int>, ghost lists': map<int, Entries>,
               ghost lived': set<SortedParameterList>)
      requires WellGrouped(Grouping(parameterIdMap.table, keys, lists))
      requires forall t :: t in m <==> t in lists
      requires forall t :: t in m ==> m[t] in lived
      requires forall t1, t2 :: t1 in m && t2 in m && t1 != t2 ==> m[t1] != m[t2]
      requires forall t :: t in m ==> Entries(m[t].parameterIdArray, m[t].sortedPvList) == lists[t]
      modifies parameterIdMap`table, lived
      ensures Grouping(parameterIdMap.table, keys', lists') ==
              GroupStep(Grouping(old(parameterIdMap.table), keys, lists), pv, start)
      ensures forall t :: t in m' <==> t in lists'
      ensures forall t :: t in m' ==> m'[t] in lived'
      ensures forall o :: o in lived' ==> o in lived || fresh(o)
      ensures forall t1, t2 :: t1 in m' && t2 in m' && t1 != t2 ==> m'[t1] != m'[t2]
      ensures forall t :: t in m' ==> Entries(m'[t].parameterIdArray, m'[t].sortedPvList) == lists'[t]
    {
      m', keys', lists', lived' := m, keys, lists, lived;
      var t := pv.generationTime;
      if t < start {
        // older than the collection segment: ignored
      } else if pv.qualifiedName.None? {
        // no qualified name: logged and ignored
      } else if pv.engValue.Some? && pv.engValue.value.Aggregate? {
        // aggregate values are not supported: ignored
      } else {
        ghost var e := if t in lists then lists[t] else Entries([], []);
        var l: SortedParameterList;
        if t in m {
          l := m[t];
        } else {
          l := new SortedParameterList();
          m' := m[t := l];
          keys' := keys + [t];
          lived' := lived + {l};
        }
        assert l.Contents() == e;
        l.Add(pv, parameterIdMap);
        lists' := lists[t := Entries(l.parameterIdArray, l.sortedPvList)];
        GroupStepAdmitted(Grouping(old(parameterIdMap.table), keys, lists), pv, start, l.Contents(), parameterIdMap.table);
      }
    }

    /**
     * The first loop of processParameters(items): admitted samples are sorted into one fresh
     * SortedParameterList per timestamp, registering the parameters as they are added.
     */
    method GroupByTime(items: seq<ParameterValue>, start: int)
      returns (m: map<int, SortedParameterList>, keys: seq<int>, ghost lists: map<int, Entries>)
      modifies parameterIdMap`table
      ensures Grouping(parameterIdMap.table, keys, lists) == Group(old(parameterIdMap.table), items, start)
      ensures forall t :: t in m <==> t in lists
      ensures forall t :: t in m ==> m[t].Contents() == lists[t]
    {
      ghost var table0 := parameterIdMap.table;
      ghost var lived: set<SortedParameterList> := {};
      lists := map[];
      m := map[];
      keys := [];
      var i := 0;
      while i < |items|
        invariant 0 <= i <= |items|
        invariant Grouping(parameterIdMap.table, keys, lists) == Group(table0, items[..i], start)
        invariant forall t :: t in m <==> t in lists
        invariant forall t :: t in m ==> m[t] in lived
        invariant forall o :: o in lived ==> fresh(o)
        invariant forall t1, t2 :: t1 in m && t2 in m && t1 != t2 ==> m[t1] != m[t2]
        invariant forall t :: t in m ==> Entries(m[t].parameterIdArray, m[t].sortedPvList) == lists[t]
      {
        GroupSnoc(table0, items, i, start);
        m, keys, lists, lived := SortSample(m, keys, lists, lived, items[i], start);
        i := i + 1;
      }
      assert items[..i] == items;
    }

    /**
     * The second loop of processParameters(items): every timestamp's list goes through
     * processParameters(t, pvList), in map order, until one throws; the largest timestamp is kept.
     */
    method ProcessRows(m: map<int, SortedParameterList>, keys: seq<int>, ghost lists: map<int, Entries>)
      returns (needsFlush: bool, maxTimestamp: int, c: Completion)
      requires forall t :: t in keys ==>
                 t in lists && t in m && m[t].Contents() == lists[t] && |lists[t].ids| == |lists[t].pvs|
      modifies this`numParams, this`pgSegments, parameterGroupIdMap`table
      ensures var p := ApplyRows(old(State()), keys, lists, maxSegmentSize, parameterGroupIdMap.healthy);
              State() == p.state && needsFlush == p.needsFlush && c == (if p.crashed then NullPointer else Normal)
      ensures maxTimestamp == MaxTime(collectionSegmentStart, keys)
    {
      ghost var s0 := State();
      needsFlush := false;
      maxTimestamp := collectionSegmentStart;
      var j := 0;
      ghost var p := Pass(s0, false, false);
      assert keys[..0] == [];
      while j < |keys|
        invariant 0 <= j <= |keys|
        invariant p == ApplyRows(s0, keys[..j], lists, maxSegmentSize, parameterGroupIdMap.healthy)
        invariant State() == p.state && needsFlush == p.needsFlush && !p.crashed
        invariant maxTimestamp == MaxTime(collectionSegmentStart, keys[..j])
      {
        var t := keys[j];
        ApplyRowsSnoc(s0, keys, j, lists, maxSegmentSize, parameterGroupIdMap.healthy);
        MaxTimeSnoc(collectionSegmentStart, keys, j);
        var pvList := m[t];
        var flush, thrown := ProcessRow(t, pvList);
        ghost var q := RowStep(p.state, t, lists[t], maxSegmentSize, parameterGroupIdMap.healthy);
        p := Pass(q.state, p.needsFlush || q.needsFlush, q.crashed);
        if thrown == NullPointer {
          ApplyRowsAfterCrash(s0, keys, j + 1, lists, maxSegmentSize, parameterGroupIdMap.healthy);
          assert keys[..|keys|] == keys;
          // the exception leaves the loop; maxTimestamp is not used by the caller then
          return false, MaxTime(collectionSegmentStart, keys), NullPointer;
        }
        if flush {
          needsFlush := true;
        }
        if t > maxTimestamp {
          maxTimestamp := t;
        }
        j := j + 1;
      }
      assert keys[..j] == keys;
      c := Normal;
    }

    /** processParameters(items) */
    method ProcessParameters(items: seq<ParameterValue>) returns (c: Completion)
      modifies this`numParams, this`pgSegments, this`collectionSegmentStart
      modifies parameterIdMap`table, parameterGroupIdMap`table, parameterArchive`writes
      ensures Outcome(State(), c) == ProcessParametersSpec(old(State()), items, old(Env()))
    {
      ProcessByGroup(State(), items, Env());
      var start := collectionSegmentStart;
      ghost var lists;
      var m, keys;
      m, keys, lists := GroupByTime(items, start);
      c := ProcessGroupedRows(m, keys, lists);
    }

    /** The second loop of processParameters(items) and the flush after it, once the lists are built. */
    method ProcessGroupedRows(m: map<int, SortedParameterList>, keys: seq<int>, ghost lists: map<int, Entries>)
      returns (c: Completion)
      requires forall t :: t in keys ==>
                 t in lists && t in m && m[t].Contents() == lists[t] && |lists[t].ids| == |lists[t].pvs|
      modifies this`numParams, this`pgSegments, this`collectionSegmentStart
      modifies parameterGroupIdMap`table, parameterArchive`writes
      ensures Outcome(State(), c) == ProcessGrouped(old(State()), Grouping(old(parameterIdMap.table), keys, lists), old(Env()))
    {
      ghost var s0 := State();
      assert s0.(paramIds := parameterIdMap.table) == s0;
      var needsFlush, maxTimestamp;
      needsFlush, maxTimestamp, c := ProcessRows(m, keys, lists);
      if c == NullPointer {
        return;
      }
      CloseWindowIf(needsFlush, maxTimestamp);
    }

    /** The end of processParameters(items): on overflow, write every segment and move the window past maxTimestamp. */
    method CloseWindowIf(needsFlush: bool, maxTimestamp: int)
      requires needsFlush ==> pgSegments.Some?
      modifies this`pgSegments, this`collectionSegmentStart, parameterArchive`writes
      ensures State() == if needsFlush
        then ConsolidateAndWrite(old(State()), old(collectionSegmentStart), parameterArchive.healthy).(start := maxTimestamp + 1)
        else old(State())
    {
      if needsFlush {
        ConsolidateAndWriteToArchive(collectionSegmentStart);
        collectionSegmentStart := maxTimestamp + 1;
      }
    }

    /** flush(): write out the live segments unless the map has been discarded. */
    method Flush()
      modifies this`pgSegments, parameterArchive`writes
      ensures State() == FlushSpec(old(State()), parameterArchive.healthy)
    {
      if pgSegments.Some? {
        ConsolidateAndWriteToArchive(collectionSegmentStart);
      }
    }

    /** A non-empty set of group ids has a member to pick next. */
    static lemma SomeMember(s: set<int>)
      requires s != {}
      ensures exists g :: g in s
    {
      if forall g :: g !in s {
        assert false;
      }
    }

    /** consolidateAndWriteToArchive(segStart) */
    method ConsolidateAndWriteToArchive(segStart: int)
      requires pgSegments.Some?
      modifies this`pgSegments, parameterArchive`writes
      ensures State() == ConsolidateAndWrite(old(State()), segStart, parameterArchive.healthy)
    {
      var live := pgSegments.value;
      var pending := live.Keys;
      while pending != {}
        invariant pgSegments.Some? && pgSegments.value.Keys == live.Keys
        invariant pending <= live.Keys
        invariant forall g :: g in live ==>
                    pgSegments.value[g] == if g in pending then live[g] else Consolidate(live[g])
        invariant parameterArchive.writes == old(parameterArchive.writes)
        decreases pending
      {
        SomeMember(pending);
        var g :| g in pending;
        pgSegments := Some(pgSegments.value[g := Consolidate(pgSegments.value[g])]);
        pending := pending - {g};
      }
      forall g | g in live
        ensures pgSegments.value[g] == Sealed(live)[g]
      {
        assert g !in pending;
      }
      assert pgSegments.value.Keys == Sealed(live).Keys;
      assert pgSegments.value == Sealed(live);
      var ok := parameterArchive.WriteToArchive(segStart, pgSegments.value);
      // a failed write is logged; the data is not retried
      pgSegments := Some(map[]);
    }

    /** updateItems(subscriptionId, items) */
    method UpdateItems(subscriptionId: int, items: seq<ParameterValue>, memoryExceeded: bool) returns (c: Completion)
      modifies this`numParams, this`pgSegments, this`collectionSegmentStart, this`aborted, this`stopRequested
      modifies parameterIdMap`table, parameterGroupIdMap`table, parameterArchive`writes
      ensures Outcome(State(), c) == UpdateItemsSpec(old(State()), items, memoryExceeded, old(Env()))
      ensures collectionSegmentStart >= old(collectionSegmentStart)
      ensures old(Consistent()) ==> Consistent()
    {
      ghost var s := State();
      var oom := OomImminent(memoryExceeded);
      if oom {
        c := Normal;
      } else if items == [] {
        c := IndexOutOfBounds;
      } else {
        var t := items[0].generationTime;
        var t1 := minSegmentStart(t);
        if t1 > collectionSegmentStart && pgSegments.None? {
          c := NullPointer;
        } else {
          if t1 > collectionSegmentStart {
            if pgSegments.value != map[] {
              ConsolidateAndWriteToArchive(collectionSegmentStart);
            }
            collectionSegmentStart := t1;
          }
          c := ProcessParameters(items);
        }
      }
      FillerInvariant.WindowNeverMovesBack(s, items, memoryExceeded, old(Env()));
      if FillerInvariant.Consistent(s, maxSegmentSize) {
        FillerInvariant.UpdateItemsKeepsConsistent(s, items, memoryExceeded, old(Env()));
      }
    }

    function GetNumProcessedParameters(): (n: int)
      reads this
      ensures n == State().numParams
    {
      numParams
    }

    /** oomImminent(), with the memory pool's threshold check as the input `memoryExceeded`. */
    method OomImminent(memoryExceeded: bool) returns (r: bool)
      modifies this`aborted, this`pgSegments, this`stopRequested
      ensures r == memoryExceeded
      ensures State() == if memoryExceeded then AbortSpec(old(State())) else old(State())
    {
      if memoryExceeded {
        aborted := true;
        pgSegments := None;
        stopRequested := true;
        return true;
      }
      return false;
    }

    /** isAborted(): true once filling was aborted for imminent memory exhaustion. */
    function IsAborted(): (b: bool)
      reads this
      ensures b == State().aborted
    {
      aborted
    }
  }
}
