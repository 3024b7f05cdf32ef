/**
 * Properties of the archive filler's state machine: what the per-timestamp lists admit, how
 * the processed-parameter counter grows, when a flush happens and what it writes, the window
 * that never moves backwards, the invariant every call preserves, and abort finality.
 */
module FillerProperties {
  import opened Wrappers
  import opened Samples
  import opened Registries
  import opened ParameterLists
  import opened Archive
  import opened FillerSpec

  // ---------------------------------------------------------------- unfolding one more sample

  lemma TimesSnoc(init: seq<ParameterValue>, x: ParameterValue, start: int)
    ensures Times(init + [x], start) ==
            if Admitted(x, start) && x.generationTime !in Times(init, start)
            then Times(init, start) + [x.generationTime] else Times(init, start)
  {
    assert (init + [x])[..|init|] == init;
  }

  lemma SelectedSnoc(init: seq<ParameterValue>, x: ParameterValue, start: int, t: int)
    ensures SelectedAt(init + [x], start, t) ==
            if Listed(x, start) && x.generationTime == t
            then SelectedAt(init, start, t) + [x] else SelectedAt(init, start, t)
  {
    assert (init + [x])[..|init|] == init;
  }

  lemma ListedCountSnoc(init: seq<ParameterValue>, x: ParameterValue, start: int)
    ensures ListedCount(init + [x], start) == ListedCount(init, start) + if Listed(x, start) then 1 else 0
  {
    assert (init + [x])[..|init|] == init;
  }

  lemma RegisterSnoc(table: IdTable<ParameterKey>, init: seq<ParameterValue>, x: ParameterValue, start: int)
    ensures RegisterAll(table, init + [x], start) ==
            if Listed(x, start) then Assign(RegisterAll(table, init, start), KeyOf(x)) else RegisterAll(table, init, start)
  {
    assert (init + [x])[..|init|] == init;
  }

  /**
   * One more sample changes the list of its own timestamp only, and only when it is
   * listed: the list it joins gets it by one sorted add.
   */
  lemma CollectSnoc(table: IdTable<ParameterKey>, init: seq<ParameterValue>, x: ParameterValue, start: int, u: int)
    ensures var ids := RegisterAll(table, init, start).ids;
            var ids' := RegisterAll(table, init + [x], start).ids;
            Collect(SelectedAt(init + [x], start, u), ids') ==
              if Listed(x, start) && x.generationTime == u
              then AddEntry(Collect(SelectedAt(init, start, u), ids), ids'[KeyOf(x)], x)
              else Collect(SelectedAt(init, start, u), ids)
  {
    var ids := RegisterAll(table, init, start).ids;
    var ids' := RegisterAll(table, init + [x], start).ids;
    RegisterSnoc(table, init, x, start);
    SelectedSnoc(init, x, start, u);
    var sel := SelectedAt(init, start, u);
    CollectStable(sel, ids, ids');
    if Listed(x, start) && x.generationTime == u {
      assert (sel + [x])[..|sel|] == sel;
    }
  }

  /** The timestamps of the per-timestamp map are those of Times. */
  lemma ListsKeys(items: seq<ParameterValue>, start: int, ids: map<ParameterKey, int>, u: int)
    requires AllKeyed(items, start, ids)
    ensures u in Lists(items, start, ids) <==> u in Times(items, start)
    ensures u in Times(items, start) ==> Lists(items, start, ids)[u] == Collect(SelectedAt(items, start, u), ids)
  {
  }

  lemma GroupSnoc(table: IdTable<ParameterKey>, items: seq<ParameterValue>, i: nat, start: int)
    requires i < |items|
    ensures Group(table, items[..i + 1], start) == GroupStep(Group(table, items[..i], start), items[i], start)
  {
    assert items[..i + 1][..i] == items[..i];
  }

  /** One admitted sample: the step extends the keys if needed and replaces the list of its timestamp. */
  lemma GroupStepAdmitted(g: Grouping, x: ParameterValue, start: int, e: Entries, table: IdTable<ParameterKey>)
    requires WellGrouped(g) && Admitted(x, start)
    requires var before := if x.generationTime in g.lists then g.lists[x.generationTime] else Entries([], []);
             if x.engValue.Some?
             then table == Assign(g.table, KeyOf(x)) && e == AddEntry(before, table.ids[KeyOf(x)], x)
             else table == g.table && e == before
    ensures var t := x.generationTime;
            GroupStep(g, x, start) ==
              Grouping(table, if t in g.lists then g.keys else g.keys + [t], g.lists[t := e])
  {
  }

  /** What one step of the first loop does to the list of timestamp `u` and to the table. */
  lemma GroupStepAt(g: Grouping, x: ParameterValue, start: int, u: int)
    requires WellGrouped(g)
    ensures var g' := GroupStep(g, x, start);
            var before := if u in g.lists then g.lists[u] else Entries([], []);
            var hit := Admitted(x, start) && u == x.generationTime;
            (u in g'.lists <==> u in g.lists || hit) &&
            (u in g'.lists ==>
              g'.lists[u] == if hit && x.engValue.Some?
                             then AddEntry(before, g'.table.ids[KeyOf(x)], x) else before) &&
            g'.table == if Listed(x, start) then Assign(g.table, KeyOf(x)) else g.table
  {
  }

  /** The list of one timestamp after one more sample, as the first loop's step computes it. */
  lemma ListsSnocAt(table: IdTable<ParameterKey>, init: seq<ParameterValue>, x: ParameterValue, start: int, u: int)
    requires u in Times(init + [x], start)
    ensures var r := RegisterAll(table, init, start);
            var r' := RegisterAll(table, init + [x], start);
            var g := GroupStep(Grouping(r, Times(init, start), Lists(init, start, r.ids)), x, start);
            u in g.lists && g.lists[u] == Lists(init + [x], start, r'.ids)[u]
  {
    TimesSnoc(init, x, start);
    RegisterSnoc(table, init, x, start);
    CollectSnoc(table, init, x, start, u);
    var r := RegisterAll(table, init, start);
    var r' := RegisterAll(table, init + [x], start);
    var L := Lists(init, start, r.ids);
    ListsKeys(init + [x], start, r'.ids, u);
    ListsKeys(init, start, r.ids, u);
    if u !in Times(init, start) {
      SelectedOutsideTimes(init, start, u);
    }
    GroupStepAt(Grouping(r, Times(init, start), L), x, start, u);
  }

  lemma ListsSnoc(table: IdTable<ParameterKey>, init: seq<ParameterValue>, x: ParameterValue, start: int)
    ensures var r := RegisterAll(table, init, start);
            var r' := RegisterAll(table, init + [x], start);
            GroupStep(Grouping(r, Times(init, start), Lists(init, start, r.ids)), x, start) ==
              Grouping(r', Times(init + [x], start), Lists(init + [x], start, r'.ids))
  {
    TimesSnoc(init, x, start);
    RegisterSnoc(table, init, x, start);
    var r := RegisterAll(table, init, start);
    var r' := RegisterAll(table, init + [x], start);
    var g := GroupStep(Grouping(r, Times(init, start), Lists(init, start, r.ids)), x, start);
    var want := Lists(init + [x], start, r'.ids);
    forall u | u in want
      ensures u in g.lists && g.lists[u] == want[u]
    {
      ListsKeys(init + [x], start, r'.ids, u);
      ListsSnocAt(table, init, x, start, u);
    }
    forall u | u in g.lists
      ensures u in want
    {
      ListsKeys(init + [x], start, r'.ids, u);
    }
    assert g.lists == want;
    assert g.table == r' && g.keys == Times(init + [x], start);
  }

  /**
   * The first loop of processParameters builds exactly the registered table, the timestamps
   * in first-seen order, and for each of them the sorted list of its listed samples.
   */
  lemma {:induction false} GroupIsListing(table: IdTable<ParameterKey>, items: seq<ParameterValue>, start: int)
    ensures var r := RegisterAll(table, items, start);
            Group(table, items, start) == Grouping(r, Times(items, start), Lists(items, start, r.ids))
  {
    if items != [] {
      var init := items[..|items| - 1];
      var x := items[|items| - 1];
      assert items == init + [x];
      GroupIsListing(table, init, start);
      ListsSnoc(table, init, x, start);
    }
  }

  /** processParameters as the composition of its first loop (Group) and the rest. */
  lemma ProcessByGroup(s: FillerState, items: seq<ParameterValue>, env: Env)
    ensures var g := Group(s.paramIds, items, s.start);
            (forall t :: t in g.keys ==> t in g.lists) &&
            ProcessParametersSpec(s, items, env) == ProcessGrouped(s, g, env)
  {
    GroupIsListing(s.paramIds, items, s.start);
  }

  lemma MaxTimeSnoc(start: int, keys: seq<int>, j: nat)
    requires j < |keys|
    ensures MaxTime(start, keys[..j + 1]) ==
            if keys[j] > MaxTime(start, keys[..j]) then keys[j] else MaxTime(start, keys[..j])
  {
    assert keys[..j + 1][..j] == keys[..j];
  }

  lemma {:induction false} ApplyRowsAfterCrash(s: FillerState, keys: seq<int>, j: nat, lists: map<int, Entries>, max: int, up: bool)
    requires j <= |keys|
    requires forall t :: t in keys ==> t in lists
    requires ApplyRows(s, keys[..j], lists, max, up).crashed
    ensures ApplyRows(s, keys, lists, max, up) == ApplyRows(s, keys[..j], lists, max, up)
  {
    if j < |keys| {
      var pre := keys[..|keys| - 1];
      assert pre[..j] == keys[..j];
      ApplyRowsAfterCrash(s, pre, j, lists, max, up);
    } else {
      assert keys[..j] == keys;
    }
  }

  lemma ApplyRowsSnoc(s: FillerState, keys: seq<int>, j: nat, lists: map<int, Entries>, max: int, up: bool)
    requires j < |keys|
    requires forall t :: t in keys ==> t in lists
    ensures keys[j] in lists
    ensures var p := ApplyRows(s, keys[..j], lists, max, up);
            var q := RowStep(p.state, keys[j], lists[keys[j]], max, up);
            ApplyRows(s, keys[..j + 1], lists, max, up) ==
              if p.crashed then p else Pass(q.state, p.needsFlush || q.needsFlush, q.crashed)
  {
    var t := keys[j];
    assert t in keys;
    assert keys[..j + 1][..j] == keys[..j];
  }

  /** A timestamp gets a list exactly when some admitted sample carries it. */
  lemma {:induction false} TimesMembers(items: seq<ParameterValue>, start: int, t: int)
    ensures t in Times(items, start) <==> exists x :: x in items && Admitted(x, start) && x.generationTime == t
  {
    if items != [] {
      var init, pv := items[..|items| - 1], items[|items| - 1];
      assert items == init + [pv];
      TimesMembers(init, start, t);
      TimesSnoc(init, pv, start);
      if t in Times(items, start) {
        if t in Times(init, start) {
          var x :| x in init && Admitted(x, start) && x.generationTime == t;
          assert x in items;
        } else {
          assert pv in items;
        }
      }
      if exists x :: x in items && Admitted(x, start) && x.generationTime == t {
        var x :| x in items && Admitted(x, start) && x.generationTime == t;
        if x in init {
        } else {
          assert x == pv;
        }
      }
    }
  }

  lemma SelectedOutsideTimes(items: seq<ParameterValue>, start: int, t: int)
    requires t !in Times(items, start)
    ensures SelectedAt(items, start, t) == []
  {
    if SelectedAt(items, start, t) != [] {
      var x := SelectedAt(items, start, t)[0];
      assert x in SelectedAt(items, start, t);
      TimesMembers(items, start, t);
    }
  }

  // ---------------------------------------------------------------- what the lists hold

  /**
   * A sample that is not listed -- older than the window start, without a qualified name,
   * with an aggregate engineering value, or without an engineering value -- is in no
   * per-timestamp list, so no row and no segment ever receives it.
   */
  lemma UnlistedSampleInNoList(items: seq<ParameterValue>, start: int, ids: map<ParameterKey, int>, x: ParameterValue)
    requires AllKeyed(items, start, ids)
    requires !Listed(x, start)
    ensures forall t :: t in Lists(items, start, ids) ==> x !in Lists(items, start, ids)[t].pvs
  {
    forall t | t in Lists(items, start, ids)
      ensures x !in Lists(items, start, ids)[t].pvs
    {
      NotCollected(SelectedAt(items, start, t), ids, x);
    }
  }

  lemma NotCollected(sel: seq<ParameterValue>, ids: map<ParameterKey, int>, x: ParameterValue)
    requires Keyed(sel, ids) && x !in sel
    ensures x !in Collect(sel, ids).pvs
  {
    CollectSpec(sel, ids);
    assert x !in multiset(sel);
  }

  /**
   * The list of timestamp t holds exactly the listed samples generated at t, with their
   * parameter ids ascending and every id at the position of its sample.
   */
  lemma ListContents(items: seq<ParameterValue>, start: int, ids: map<ParameterKey, int>, t: int)
    requires AllKeyed(items, start, ids)
    requires t in Lists(items, start, ids)
    ensures var e := Lists(items, start, ids)[t];
            Sorted(e.ids) && |e.ids| == |e.pvs| &&
            (forall x :: x in e.pvs <==> x in items && Listed(x, start) && x.generationTime == t) &&
            (forall j :: 0 <= j < |e.pvs| ==> e.ids[j] == ids[KeyOf(e.pvs[j])])
  {
    var sel := SelectedAt(items, start, t);
    CollectSpec(sel, ids);
    var e := Lists(items, start, ids)[t];
    forall x ensures x in e.pvs <==> x in items && Listed(x, start) && x.generationTime == t {
      assert x in e.pvs <==> x in multiset(sel);
      if x in items && Listed(x, start) && x.generationTime == t {
        SelectedHas(items, start, x);
      }
    }
  }

  lemma {:induction false} SelectedHas(items: seq<ParameterValue>, start: int, x: ParameterValue)
    requires x in items && Listed(x, start)
    ensures x in SelectedAt(items, start, x.generationTime)
  {
    var init, pv := items[..|items| - 1], items[|items| - 1];
    assert items == init + [pv];
    SelectedSnoc(init, pv, start, x.generationTime);
    if x != pv {
      SelectedHas(init, start, x);
    }
  }

  // ---------------------------------------------------------------- the processed-parameter counter

  function SumSizes(keys: seq<int>, lists: map<int, Entries>): int
    requires forall t :: t in keys ==> t in lists
  {
    if keys == [] then 0
    else
      var last := keys[|keys| - 1];
      assert last in keys;
      SumSizes(keys[..|keys| - 1], lists) + |lists[last].ids|
  }

  function SumSelected(items: seq<ParameterValue>, start: int, ts: seq<int>): int
  {
    if ts == [] then 0 else SumSelected(items, start, ts[..|ts| - 1]) + |SelectedAt(items, start, ts[|ts| - 1])|
  }

  /** Without a throw, the second loop adds the size of every list it visits. */
  // ---------------------------------------------------------------- where the second loop puts the rows

  /** The rows the second loop adds to the segment of group `g`: one per visited list of that group, in visiting order. */
  ghost function RowsFor(keys: seq<int>, lists: map<int, Entries>, groupIds: map<seq<int>, int>, g: int): seq<Row>
    requires forall t :: t in keys ==> t in lists && lists[t].ids in groupIds
    decreases |keys|
  {
    if keys == [] then []
    else
      var t := keys[|keys| - 1];
      RowsFor(keys[..|keys| - 1], lists, groupIds, g) +
      (if groupIds[lists[t].ids] == g then [Row(t, lists[t].pvs)] else [])
  }

  /** The groups of the visited lists. */
  ghost function GroupsOf(keys: seq<int>, lists: map<int, Entries>, groupIds: map<seq<int>, int>): set<int>
    requires forall t :: t in keys ==> t in lists && lists[t].ids in groupIds
  {
    set t | t in keys :: groupIds[lists[t].ids]
  }

  lemma {:induction false} RowsForExtends(keys: seq<int>, lists: map<int, Entries>, ids: map<seq<int>, int>,
                                          ids': map<seq<int>, int>, g: int)
    requires forall t :: t in keys ==> t in lists && lists[t].ids in ids
    requires Extends(ids, ids')
    ensures forall t :: t in keys ==> lists[t].ids in ids'
    ensures RowsFor(keys, lists, ids', g) == RowsFor(keys, lists, ids, g)
    ensures GroupsOf(keys, lists, ids') == GroupsOf(keys, lists, ids)
    decreases |keys|
  {
    if keys != [] {
      RowsForExtends(keys[..|keys| - 1], lists, ids, ids', g);
    }
  }

  lemma {:induction false} RowsForAbsent(keys: seq<int>, lists: map<int, Entries>, ids: map<seq<int>, int>, g: int)
    requires forall t :: t in keys ==> t in lists && lists[t].ids in ids
    requires g !in GroupsOf(keys, lists, ids)
    ensures RowsFor(keys, lists, ids, g) == []
    decreases |keys|
  {
    if keys != [] {
      var pre := keys[..|keys| - 1];
      var t := keys[|keys| - 1];
      assert t in keys;
      assert ids[lists[t].ids] in GroupsOf(keys, lists, ids);
      assert GroupsOf(pre, lists, ids) <= GroupsOf(keys, lists, ids);
      RowsForAbsent(pre, lists, ids, g);
    }
  }

  /** `after` is `before` with the rows of the visited lists appended, each to the segment of its group. */
  ghost predicate RowsAppended(before: map<int, Segment>, after: map<int, Segment>, keys: seq<int>,
                               lists: map<int, Entries>, ids: map<seq<int>, int>)
    requires forall t :: t in keys ==> t in lists && lists[t].ids in ids
  {
    after.Keys == before.Keys + GroupsOf(keys, lists, ids) &&
    forall g :: g in after ==> after[g].rows == (if g in before then before[g].rows else []) + RowsFor(keys, lists, ids, g)
  }

  /**
   * With a live map and a working group store, the second loop appends Row(t, pvs) of every
   * visited list to the segment of that list's group, in visiting order; the live groups are the
   * old ones plus those of the visited lists, and nothing else is added.
   */
  lemma {:induction false} ApplyRowsAppends(s: FillerState, keys: seq<int>, lists: map<int, Entries>, max: int)
    requires s.segments.Some?
    requires forall t :: t in keys ==> t in lists
    ensures var p := ApplyRows(s, keys, lists, max, true);
      !p.crashed && p.state.segments.Some? &&
      (forall t :: t in keys ==> lists[t].ids in p.state.groups.ids) &&
      RowsAppended(s.segments.value, p.state.segments.value, keys, lists, p.state.groups.ids)
    decreases |keys|
  {
    if keys != [] {
      var pre := keys[..|keys| - 1];
      var t := keys[|keys| - 1];
      assert keys == pre + [t];
      ApplyRowsAppends(s, pre, lists, max);
      var P := ApplyRows(s, pre, lists, max, true);
      var q := RowStep(P.state, t, lists[t], max, true);
      assert ApplyRows(s, keys, lists, max, true) == Pass(q.state, P.needsFlush || q.needsFlush, q.crashed);
      assert RowAppended(P.state, q, t, lists[t], max);
      RowsAppendedExtends(s.segments.value, P.state.segments.value, pre, lists, P.state.groups.ids, q.state.groups.ids);
      RowsAppendedSnoc(s.segments.value, P.state.segments.value, q.state.segments.value, pre, t, lists,
                       q.state.groups.ids);
    }
  }

  /** RowsAppended survives growing the group table. */
  lemma RowsAppendedExtends(before: map<int, Segment>, after: map<int, Segment>, keys: seq<int>,
                            lists: map<int, Entries>, ids: map<seq<int>, int>, ids': map<seq<int>, int>)
    requires forall u :: u in keys ==> u in lists && lists[u].ids in ids
    requires Extends(ids, ids')
    requires RowsAppended(before, after, keys, lists, ids)
    ensures forall u :: u in keys ==> lists[u].ids in ids'
    ensures RowsAppended(before, after, keys, lists, ids')
  {
    RowsForExtends(keys, lists, ids, ids', 0);
    forall g ensures RowsFor(keys, lists, ids', g) == RowsFor(keys, lists, ids, g) {
      RowsForExtends(keys, lists, ids, ids', g);
    }
  }

  /** One more row step keeps RowsAppended, with the visited list added at the end. */
  lemma RowsAppendedSnoc(before: map<int, Segment>, mid: map<int, Segment>, after: map<int, Segment>,
                         pre: seq<int>, t: int, lists: map<int, Entries>, ids: map<seq<int>, int>)
    requires forall u :: u in pre ==> u in lists && lists[u].ids in ids
    requires t in lists && lists[t].ids in ids
    requires RowsAppended(before, mid, pre, lists, ids)
    requires var gid := ids[lists[t].ids];
      after.Keys == mid.Keys + {gid} &&
      after[gid].rows == (if gid in mid then mid[gid].rows else []) + [Row(t, lists[t].pvs)] &&
      forall g :: g in mid && g != gid ==> after[g] == mid[g]
    ensures forall u :: u in pre + [t] ==> lists[u].ids in ids
    ensures RowsAppended(before, after, pre + [t], lists, ids)
  {
    var keys := pre + [t];
    var gid := ids[lists[t].ids];
    GroupsOfSnoc(pre, t, lists, ids);
    forall g | g in after
      ensures after[g].rows == (if g in before then before[g].rows else []) + RowsFor(keys, lists, ids, g)
    {
      RowAppendedAt(before, mid, after, pre, t, lists, ids, g);
    }
  }

  /** RowsAppendedSnoc for the segment of one group `g`. */
  lemma RowAppendedAt(before: map<int, Segment>, mid: map<int, Segment>, after: map<int, Segment>,
                      pre: seq<int>, t: int, lists: map<int, Entries>, ids: map<seq<int>, int>, g: int)
    requires forall u :: u in pre + [t] ==> u in lists && lists[u].ids in ids
    requires g in after
    requires g !in mid ==> g !in before && g !in GroupsOf(pre, lists, ids)
    requires g in mid ==> mid[g].rows == (if g in before then before[g].rows else []) + RowsFor(pre, lists, ids, g)
    requires g == ids[lists[t].ids] ==> after[g].rows == (if g in mid then mid[g].rows else []) + [Row(t, lists[t].pvs)]
    requires g != ids[lists[t].ids] ==> g in mid && after[g] == mid[g]
    ensures after[g].rows == (if g in before then before[g].rows else []) + RowsFor(pre + [t], lists, ids, g)
  {
    var before_g := if g in before then before[g].rows else [];
    var added := if ids[lists[t].ids] == g then [Row(t, lists[t].pvs)] else [];
    RowsForSnoc(pre, t, lists, ids, g);
    if g !in mid {
      RowsForAbsent(pre, lists, ids, g);
      assert after[g].rows == before_g + RowsFor(pre, lists, ids, g) + added;
    } else {
      assert after[g].rows == mid[g].rows + added;
    }
  }

  lemma GroupsOfSnoc(pre: seq<int>, t: int, lists: map<int, Entries>, ids: map<seq<int>, int>)
    requires forall u :: u in pre + [t] ==> u in lists && lists[u].ids in ids
    ensures GroupsOf(pre + [t], lists, ids) == GroupsOf(pre, lists, ids) + {ids[lists[t].ids]}
  {
    forall x | x in GroupsOf(pre + [t], lists, ids) ensures x in GroupsOf(pre, lists, ids) + {ids[lists[t].ids]} {
      var u :| u in pre + [t] && x == ids[lists[u].ids];
      if u != t {
        assert u in pre;
      }
    }
    assert t in pre + [t];
  }

  lemma RowsForSnoc(pre: seq<int>, t: int, lists: map<int, Entries>, ids: map<seq<int>, int>, g: int)
    requires forall u :: u in pre + [t] ==> u in lists && lists[u].ids in ids
    ensures RowsFor(pre + [t], lists, ids, g) ==
            RowsFor(pre, lists, ids, g) + (if ids[lists[t].ids] == g then [Row(t, lists[t].pvs)] else [])
  {
    assert (pre + [t])[..|pre + [t]| - 1] == pre;
  }

  lemma {:induction false} ApplyRowsCount(s: FillerState, keys: seq<int>, lists: map<int, Entries>, max: int, up: bool)
    requires forall t :: t in keys ==> t in lists
    ensures !ApplyRows(s, keys, lists, max, up).crashed ==>
            ApplyRows(s, keys, lists, max, up).state.numParams == s.numParams + SumSizes(keys, lists)
  {
    if keys != [] {
      ApplyRowsCount(s, keys[..|keys| - 1], lists, max, up);
    }
  }

  lemma {:induction false} SumSizesOfLists(items: seq<ParameterValue>, start: int, ids: map<ParameterKey, int>, ts: seq<int>)
    requires AllKeyed(items, start, ids)
    requires forall t :: t in ts ==> t in Times(items, start)
    ensures SumSizes(ts, Lists(items, start, ids)) == SumSelected(items, start, ts)
  {
    if ts != [] {
      SumSizesOfLists(items, start, ids, ts[..|ts| - 1]);
    }
  }

  lemma {:induction false} SumSelectedSnoc(init: seq<ParameterValue>, x: ParameterValue, start: int, ts: seq<int>)
    requires NoDuplicates(ts)
    ensures SumSelected(init + [x], start, ts) ==
            SumSelected(init, start, ts) + if Listed(x, start) && x.generationTime in ts then 1 else 0
  {
    if ts != [] {
      var pre, u := ts[..|ts| - 1], ts[|ts| - 1];
      assert ts == pre + [u];
      assert NoDuplicates(pre) by {
        forall i, j | 0 <= i < j < |pre| ensures pre[i] != pre[j] {
          assert pre[i] == ts[i] && pre[j] == ts[j];
        }
      }
      assert u !in pre by {
        forall i | 0 <= i < |pre| ensures pre[i] != u {
          assert pre[i] == ts[i];
        }
      }
      SumSelectedSnoc(init, x, start, pre);
      SelectedSnoc(init, x, start, u);
    }
  }

  lemma {:induction false} SumSelectedOverTimes(items: seq<ParameterValue>, start: int)
    ensures SumSelected(items, start, Times(items, start)) == ListedCount(items, start)
  {
    if items != [] {
      var init, x := items[..|items| - 1], items[|items| - 1];
      assert items == init + [x];
      SumSelectedOverTimes(init, start);
      TimesSnoc(init, x, start);
      ListedCountSnoc(init, x, start);
      var ts := Times(init, start);
      SumSelectedSnoc(init, x, start, ts);
      if Admitted(x, start) && x.generationTime !in ts {
        var ts' := ts + [x.generationTime];
        assert ts'[..|ts|] == ts;
        SelectedSnoc(init, x, start, x.generationTime);
        SelectedOutsideTimes(init, start, x.generationTime);
      }
    }
  }

  /**
   * Unless it throws, processParameters raises numParams by exactly the number of samples of
   * the batch that reached a per-timestamp list.
   */
  lemma ProcessedCount(s: FillerState, items: seq<ParameterValue>, env: Env)
    ensures ProcessParametersSpec(s, items, env).completion == Normal ==>
            ProcessParametersSpec(s, items, env).state.numParams == s.numParams + ListedCount(items, s.start)
  {
    var paramIds := RegisterAll(s.paramIds, items, s.start);
    var keys := Times(items, s.start);
    var lists := Lists(items, s.start, paramIds.ids);
    ApplyRowsCount(s.(paramIds := paramIds), keys, lists, env.maxSegmentSize, env.groupStoreUp);
    SumSizesOfLists(items, s.start, paramIds.ids, keys);
    SumSelectedOverTimes(items, s.start);
  }
}
