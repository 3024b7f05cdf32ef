/**
 * The invariant of the archive filler and the properties of flushing and aborting: every live
 * segment belongs to the current window and to the group its ids resolve to, holds only rows
 * of that window whose values line up with its ids, and stays within maxSegmentSize between
 * calls; every written segment is sealed and holds only data of the window it was written for.
 */
module FillerInvariant {
  import opened Wrappers
  import opened Samples
  import opened Registries
  import opened ParameterLists
  import opened Archive
  import opened FillerSpec
  import opened FillerProperties

  /** A row of the window starting at `start`: its timestamp is in the window and is every value's generation time. */
  ghost predicate RowInWindow(r: Row, start: int)
  {
    r.time >= start && forall v :: v in r.values ==> v.generationTime == r.time
  }

  /** A row whose values have, position by position, the parameter ids of the segment. */
  ghost predicate RowFits(r: Row, parameterIds: seq<int>, ids: map<ParameterKey, int>)
  {
    |r.values| == |parameterIds| &&
    forall j :: 0 <= j < |r.values| ==>
      r.values[j].qualifiedName.Some? && r.values[j].engValue.Some? &&
      KeyOf(r.values[j]) in ids && ids[KeyOf(r.values[j])] == parameterIds[j]
  }

  ghost predicate LiveSegment(seg: Segment, g: int, start: int, groups: IdTable<seq<int>>, ids: map<ParameterKey, int>)
  {
    seg.groupId == g && seg.start == start && !seg.consolidated &&
    seg.parameterIds in groups.ids && groups.ids[seg.parameterIds] == g &&
    forall r :: r in seg.rows ==> RowInWindow(r, start) && RowFits(r, seg.parameterIds, ids)
  }

  ghost predicate LiveOk(s: FillerState)
  {
    ValidTable(s.groups) &&
    (s.segments.Some? ==>
       forall g :: g in s.segments.value ==> LiveSegment(s.segments.value[g], g, s.start, s.groups, s.paramIds.ids))
  }

  ghost predicate Bounded(segs: map<int, Segment>, max: int)
  {
    forall g :: g in segs ==> |segs[g].rows| <= max
  }

  ghost predicate WrittenOk(w: Write)
  {
    forall g :: g in w.segments ==>
      w.segments[g].groupId == g && w.segments[g].start == w.segStart && w.segments[g].consolidated &&
      forall r :: r in w.segments[g].rows ==> RowInWindow(r, w.segStart)
  }

  /** The invariant every call of the task preserves. */
  ghost predicate Consistent(s: FillerState, max: int)
  {
    ValidTable(s.paramIds) && LiveOk(s) && (s.aborted <==> s.segments.None?) &&
    (s.segments.Some? ==> Bounded(s.segments.value, max)) &&
    forall i :: 0 <= i < |s.writes| ==> WrittenOk(s.writes[i])
  }

  /** A list ready to be appended as a row of the window starting at `start`. */
  ghost predicate RowReady(t: int, e: Entries, start: int, ids: map<ParameterKey, int>)
  {
    t >= start && |e.ids| == |e.pvs| &&
    forall j :: 0 <= j < |e.pvs| ==>
      e.pvs[j].generationTime == t && e.pvs[j].qualifiedName.Some? && e.pvs[j].engValue.Some? &&
      KeyOf(e.pvs[j]) in ids && e.ids[j] == ids[KeyOf(e.pvs[j])]
  }

  // ---------------------------------------------------------------- building blocks

  lemma ListsReady(items: seq<ParameterValue>, start: int, ids: map<ParameterKey, int>)
    requires AllKeyed(items, start, ids)
    ensures forall t :: t in Lists(items, start, ids) ==> RowReady(t, Lists(items, start, ids)[t], start, ids)
  {
    forall t | t in Lists(items, start, ids)
      ensures RowReady(t, Lists(items, start, ids)[t], start, ids)
    {
      var sel := SelectedAt(items, start, t);
      CollectSpec(sel, ids);
      var e := Collect(sel, ids);
      forall j | 0 <= j < |e.pvs| ensures e.pvs[j].generationTime == t {
        assert e.pvs[j] in multiset(sel);
      }
    }
  }

  lemma LiveExtends(s: FillerState, table: IdTable<ParameterKey>)
    requires LiveOk(s) && Extends(s.paramIds.ids, table.ids)
    ensures LiveOk(s.(paramIds := table))
  {
  }

  lemma RowStepKeepsLive(s: FillerState, t: int, e: Entries, max: int, up: bool)
    requires LiveOk(s) && RowReady(t, e, s.start, s.paramIds.ids)
    ensures LiveOk(RowStep(s, t, e, max, up).state)
  {
    var q := RowStep(s, t, e, max, up);
    if (e.ids in s.groups.ids || up) && s.segments.Some? {
      var groups := Assign(s.groups, e.ids);
      var gid := groups.ids[e.ids];
      var segs := s.segments.value;
      if gid in segs {
        var k := segs[gid].parameterIds;
        assert groups.ids[k] == gid;
        assert k == e.ids;
      }
      var segs' := q.state.segments.value;
      forall g | g in segs'
        ensures LiveSegment(segs'[g], g, s.start, groups, s.paramIds.ids)
      {
        if g == gid {
          var r := Row(t, e.pvs);
          assert RowInWindow(r, s.start) by {
            forall v | v in r.values ensures v.generationTime == t {
              var j :| 0 <= j < |e.pvs| && e.pvs[j] == v;
            }
          }
        }
      }
    }
  }

  lemma {:induction false} ApplyRowsKeepsLive(s: FillerState, keys: seq<int>, lists: map<int, Entries>, max: int, up: bool)
    requires forall t :: t in keys ==> t in lists && RowReady(t, lists[t], s.start, s.paramIds.ids)
    requires LiveOk(s)
    ensures LiveOk(ApplyRows(s, keys, lists, max, up).state)
  {
    if keys != [] {
      var pre := keys[..|keys| - 1];
      ApplyRowsKeepsLive(s, pre, lists, max, up);
      var p := ApplyRows(s, pre, lists, max, up);
      if !p.crashed {
        var t := keys[|keys| - 1];
        assert t in keys;
        RowStepKeepsLive(p.state, t, lists[t], max, up);
      }
    }
  }

  /** One row only appends to segments; with all segments bounded before, it reports a flush exactly when one is now over the bound. */
  lemma RowStepGrowth(s: FillerState, t: int, e: Entries, max: int, up: bool)
    requires s.segments.Some?
    ensures var q := RowStep(s, t, e, max, up);
            !q.crashed && q.state.segments.Some? &&
            (forall g :: g in s.segments.value ==>
               g in q.state.segments.value && |s.segments.value[g].rows| <= |q.state.segments.value[g].rows|) &&
            (Bounded(s.segments.value, max) ==> (q.needsFlush <==> !Bounded(q.state.segments.value, max)))
  {
    var q := RowStep(s, t, e, max, up);
    if (e.ids in s.groups.ids || up) && Bounded(s.segments.value, max) {
      var gid := Assign(s.groups, e.ids).ids[e.ids];
      var segs' := q.state.segments.value;
      assert gid in segs' && (q.needsFlush <==> |segs'[gid].rows| > max);
      assert forall g :: g in segs' && g != gid ==> g in s.segments.value && segs'[g] == s.segments.value[g];
    }
  }

  /**
   * Starting from bounded segments, the second loop never throws, only adds rows, and reports
   * "needs flush" exactly when some segment ends up holding more than `max` rows.
   */
  lemma {:induction false} NeedsFlushIffOverflow(s: FillerState, keys: seq<int>, lists: map<int, Entries>, max: int, up: bool)
    requires forall t :: t in keys ==> t in lists
    requires s.segments.Some?
    ensures var p := ApplyRows(s, keys, lists, max, up);
            !p.crashed && p.state.segments.Some? &&
            (forall g :: g in s.segments.value ==>
               g in p.state.segments.value && |s.segments.value[g].rows| <= |p.state.segments.value[g].rows|) &&
            (Bounded(s.segments.value, max) ==> (p.needsFlush <==> !Bounded(p.state.segments.value, max)))
  {
    if keys != [] {
      var pre := keys[..|keys| - 1];
      NeedsFlushIffOverflow(s, pre, lists, max, up);
      var p := ApplyRows(s, pre, lists, max, up);
      var t := keys[|keys| - 1];
      assert t in keys;
      RowStepGrowth(p.state, t, lists[t], max, up);
      var q := RowStep(p.state, t, lists[t], max, up);
      if Bounded(s.segments.value, max) && p.needsFlush {
        var g :| g in p.state.segments.value && |p.state.segments.value[g].rows| > max;
        assert g in q.state.segments.value && |q.state.segments.value[g].rows| > max;
      }
    }
  }

  // ---------------------------------------------------------------- the invariant

  lemma InitialConsistent(paramIds: IdTable<ParameterKey>, groups: IdTable<seq<int>>, writes: seq<Write>, max: int)
    requires ValidTable(paramIds) && ValidTable(groups)
    requires forall i :: 0 <= i < |writes| ==> WrittenOk(writes[i])
    ensures Consistent(Initial(paramIds, groups).(writes := writes), max)
  {
  }

  lemma WriteLiveOk(s: FillerState, archiveUp: bool)
    requires LiveOk(s) && s.segments.Some?
    ensures WrittenOk(Write(s.start, Sealed(s.segments.value), archiveUp))
  {
  }

  lemma ConsistentAppendWrite(s: FillerState, w: Write, max: int)
    requires forall i :: 0 <= i < |s.writes| ==> WrittenOk(s.writes[i])
    requires WrittenOk(w)
    ensures forall i :: 0 <= i < |s.writes + [w]| ==> WrittenOk((s.writes + [w])[i])
  {
  }

  /** processParameters preserves the invariant. */
  lemma ProcessParametersKeepsConsistent(s: FillerState, items: seq<ParameterValue>, env: Env)
    requires Consistent(s, env.maxSegmentSize)
    ensures Consistent(ProcessParametersSpec(s, items, env).state, env.maxSegmentSize)
  {
    var max := env.maxSegmentSize;
    var paramIds := RegisterAll(s.paramIds, items, s.start);
    var s0 := s.(paramIds := paramIds);
    LiveExtends(s, paramIds);
    var keys := Times(items, s.start);
    var lists := Lists(items, s.start, paramIds.ids);
    ListsReady(items, s.start, paramIds.ids);
    ApplyRowsKeepsLive(s0, keys, lists, max, env.groupStoreUp);
    var p := ApplyRows(s0, keys, lists, max, env.groupStoreUp);
    if s.segments.Some? {
      NeedsFlushIffOverflow(s0, keys, lists, max, env.groupStoreUp);
      if p.needsFlush {
        WriteLiveOk(p.state, env.archiveUp);
        ConsistentAppendWrite(p.state, Write(s.start, Sealed(p.state.segments.value), env.archiveUp), max);
      }
    }
  }

  /** updateItems preserves the invariant. */
  lemma UpdateItemsKeepsConsistent(s: FillerState, items: seq<ParameterValue>, memoryExceeded: bool, env: Env)
    requires Consistent(s, env.maxSegmentSize)
    ensures Consistent(UpdateItemsSpec(s, items, memoryExceeded, env).state, env.maxSegmentSize)
  {
    if memoryExceeded || items == [] {
      return;
    }
    var t1 := env.minSegmentStart(items[0].generationTime);
    if t1 > s.start && s.segments.Some? {
      var s1 := if s.segments.value != map[] then ConsolidateAndWrite(s, s.start, env.archiveUp) else s;
      if s.segments.value != map[] {
        WriteLiveOk(s, env.archiveUp);
        ConsistentAppendWrite(s, Write(s.start, Sealed(s.segments.value), env.archiveUp), env.maxSegmentSize);
      }
      assert Consistent(s1.(start := t1), env.maxSegmentSize);
      ProcessParametersKeepsConsistent(s1.(start := t1), items, env);
    } else if t1 <= s.start {
      ProcessParametersKeepsConsistent(s, items, env);
    }
  }

  /** setCollectionSegmentStart preserves the invariant when no segment is live. */
  lemma SetStartKeepsConsistent(s: FillerState, t: int, max: int)
    requires Consistent(s, max)
    requires s.segments.Some? ==> s.segments.value == map[]
    ensures Consistent(s.(start := t), max)
  {
  }

  /** flush() preserves the invariant. */
  lemma FlushKeepsConsistent(s: FillerState, archiveUp: bool, max: int)
    requires Consistent(s, max)
    ensures Consistent(FlushSpec(s, archiveUp), max)
  {
    if s.segments.Some? {
      WriteLiveOk(s, archiveUp);
      ConsistentAppendWrite(s, Write(s.start, Sealed(s.segments.value), archiveUp), max);
    }
  }

  // ---------------------------------------------------------------- flushing and the window

  /** The second loop's result as processParameters sees it. */
  function PassOf(s: FillerState, items: seq<ParameterValue>, env: Env): Pass
  {
    var paramIds := RegisterAll(s.paramIds, items, s.start);
    ApplyRows(s.(paramIds := paramIds), Times(items, s.start), Lists(items, s.start, paramIds.ids),
              env.maxSegmentSize, env.groupStoreUp)
  }

  lemma ProcessParametersByPass(s: FillerState, items: seq<ParameterValue>, env: Env)
    ensures var p := PassOf(s, items, env);
            ProcessParametersSpec(s, items, env) ==
              if p.crashed then Outcome(p.state, NullPointer)
              else if p.needsFlush then
                Outcome(ConsolidateAndWrite(p.state, s.start, env.archiveUp).(start := MaxTime(s.start, Times(items, s.start)) + 1), Normal)
              else Outcome(p.state, Normal)
  {
  }

  lemma PassBounds(s: FillerState, items: seq<ParameterValue>, env: Env)
    requires s.segments.Some? && Bounded(s.segments.value, env.maxSegmentSize)
    ensures var p := PassOf(s, items, env);
            !p.crashed && p.state.segments.Some? && p.state.start == s.start && p.state.writes == s.writes &&
            (forall g :: g in s.segments.value ==> g in p.state.segments.value) &&
            (p.needsFlush <==> !Bounded(p.state.segments.value, env.maxSegmentSize))
  {
    var paramIds := RegisterAll(s.paramIds, items, s.start);
    NeedsFlushIffOverflow(s.(paramIds := paramIds), Times(items, s.start), Lists(items, s.start, paramIds.ids),
                          env.maxSegmentSize, env.groupStoreUp);
  }

  /**
   * Without an overflow, processParameters leaves the window and the writes alone and every
   * live segment stays within maxSegmentSize.
   */
  lemma NoOverflowNoWrite(s: FillerState, items: seq<ParameterValue>, env: Env)
    requires s.segments.Some? && Bounded(s.segments.value, env.maxSegmentSize)
    requires !PassOf(s, items, env).needsFlush
    ensures var r := ProcessParametersSpec(s, items, env);
            r.completion == Normal && r.state.start == s.start && r.state.writes == s.writes &&
            r.state.segments.Some? && Bounded(r.state.segments.value, env.maxSegmentSize)
  {
    ProcessParametersByPass(s, items, env);
    PassBounds(s, items, env);
  }

  /**
   * When some segment overflows, processParameters writes every live group's segment, sealed,
   * in one write for the old window start, empties the map, and moves the window to one past
   * the largest admitted timestamp of the batch (one past the old start when none is larger).
   */
  lemma OverflowFlushesEveryGroup(s: FillerState, items: seq<ParameterValue>, env: Env)
    requires s.segments.Some? && Bounded(s.segments.value, env.maxSegmentSize)
    requires PassOf(s, items, env).needsFlush
    ensures var r := ProcessParametersSpec(s, items, env);
            r.completion == Normal && r.state.start > s.start &&
            |r.state.writes| == |s.writes| + 1 && r.state.writes[..|s.writes|] == s.writes &&
            r.state.segments == Some(map[]) &&
            var w := r.state.writes[|s.writes|];
            w.segStart == s.start && s.segments.value.Keys <= w.segments.Keys &&
            (forall g :: g in w.segments ==> w.segments[g].consolidated) &&
            (exists g :: g in w.segments && |w.segments[g].rows| > env.maxSegmentSize) &&
            (forall x :: x in items && Admitted(x, s.start) ==> x.generationTime < r.state.start) &&
            (r.state.start - 1 == s.start ||
             exists x :: x in items && Admitted(x, s.start) && x.generationTime == r.state.start - 1)
  {
    ProcessParametersByPass(s, items, env);
    PassBounds(s, items, env);
    var p := PassOf(s, items, env);
    FlushedWrite(s, p, env.maxSegmentSize, env.archiveUp);
    BatchBelowNewStart(items, s.start);
  }

  lemma FlushedWrite(s: FillerState, p: Pass, max: int, archiveUp: bool)
    requires p.state.segments.Some? && !Bounded(p.state.segments.value, max)
    requires p.state.writes == s.writes && s.segments.Some?
    requires forall g :: g in s.segments.value ==> g in p.state.segments.value
    ensures ConsolidateAndWrite(p.state, s.start, archiveUp).writes ==
            s.writes + [Write(s.start, Sealed(p.state.segments.value), archiveUp)]
    ensures s.segments.value.Keys <= Sealed(p.state.segments.value).Keys
    ensures forall g :: g in Sealed(p.state.segments.value) ==> Sealed(p.state.segments.value)[g].consolidated
    ensures exists g :: g in Sealed(p.state.segments.value) && |Sealed(p.state.segments.value)[g].rows| > max
  {
    var w := Write(s.start, Sealed(p.state.segments.value), archiveUp);
    assert ConsolidateAndWrite(p.state, s.start, archiveUp).writes == s.writes + [w];
    assert (s.writes + [w])[..|s.writes|] == s.writes;
    assert w.segments.Keys == p.state.segments.value.Keys;
    forall g | g in s.segments.value.Keys ensures g in w.segments.Keys {
      assert g in s.segments.value;
    }
    var g :| g in p.state.segments.value && |p.state.segments.value[g].rows| > max;
    assert g in w.segments && |w.segments[g].rows| > max;
  }

  lemma BatchBelowNewStart(items: seq<ParameterValue>, start: int)
    ensures forall x :: x in items && Admitted(x, start) ==> x.generationTime < MaxTime(start, Times(items, start)) + 1
    ensures var m := MaxTime(start, Times(items, start));
            m == start || exists x :: x in items && Admitted(x, start) && x.generationTime == m
  {
    MaxTimeAttained(start, Times(items, start));
    TimesMembers(items, start, MaxTime(start, Times(items, start)));
    forall x | x in items && Admitted(x, start)
      ensures x.generationTime < MaxTime(start, Times(items, start)) + 1
    {
      TimesMembers(items, start, x.generationTime);
    }
  }

  /** The window start never moves backwards. */
  lemma WindowNeverMovesBack(s: FillerState, items: seq<ParameterValue>, memoryExceeded: bool, env: Env)
    ensures UpdateItemsSpec(s, items, memoryExceeded, env).state.start >= s.start
  {
  }

  /**
   * updateItems when the first sample's aligned start lies after the window start: the live
   * segments, if there are any, are written for the old start before anything of the batch is
   * processed, and the batch is processed in the new window.
   */
  lemma WindowAdvanceWritesFirst(s: FillerState, items: seq<ParameterValue>, env: Env)
    requires |items| > 0
    requires s.segments.Some?
    requires env.minSegmentStart(items[0].generationTime) > s.start
    ensures var t1 := env.minSegmentStart(items[0].generationTime);
            var r := UpdateItemsSpec(s, items, false, env);
            var s1 := if s.segments.value == map[] then s.(start := t1)
                      else s.(writes := s.writes + [Write(s.start, Sealed(s.segments.value), env.archiveUp)],
                              segments := Some(map[]), start := t1);
            r == ProcessParametersSpec(s1, items, env) && r.state.start >= t1
  {
  }

  /**
   * Abort finality: once aborted, the segment map stays discarded, the window stays where it
   * was, nothing more is written, and flush() changes nothing. (A later call with memory
   * available throws a NullPointerException when it reaches the map.)
   */
  lemma AbortIsFinal(s: FillerState, items: seq<ParameterValue>, memoryExceeded: bool, env: Env)
    requires Consistent(s, env.maxSegmentSize) && s.aborted
    ensures var r := UpdateItemsSpec(s, items, memoryExceeded, env).state;
            r.aborted && r.segments.None? && r.start == s.start && r.writes == s.writes
    ensures forall ok :: FlushSpec(s, ok) == s
  {
  }

  /** On imminent memory exhaustion nothing of the batch is processed and nothing is written. */
  lemma AbortDropsLiveSegments(s: FillerState, items: seq<ParameterValue>, env: Env)
    ensures var r := UpdateItemsSpec(s, items, true, env);
            r.completion == Normal && r.state.aborted && r.state.segments.None? && r.state.stopRequested &&
            r.state.(aborted := s.aborted, segments := s.segments, stopRequested := s.stopRequested) == s
  {
  }
}
