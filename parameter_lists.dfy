/**
 * ArchiveFillerTask.SortedParameterList: the values of one timestamp, kept sorted by parameter
 * id through an incremental sorted insert (SortedIntArray.insert) with the values moved in step.
 */
module ParameterLists {
  import opened Samples
  import opened Registries

  ghost predicate Sorted(s: seq<int>)
  {
    forall i, j :: 0 <= i < j < |s| ==> s[i] <= s[j]
  }

  /** The position SortedIntArray.insert gives `x`: just after the elements smaller than it. */
  function InsertPos(s: seq<int>, x: int): (p: nat)
    ensures p <= |s|
  {
    if s == [] || x <= s[0] then 0 else 1 + InsertPos(s[1..], x)
  }

  /** Everything before the insertion position is smaller than `x`, the element at it is not. */
  lemma {:induction false} InsertPosBounds(s: seq<int>, x: int)
    ensures var p := InsertPos(s, x);
            (forall i :: 0 <= i < p ==> s[i] < x) && (p < |s| ==> x <= s[p])
  {
    if s != [] && x > s[0] {
      InsertPosBounds(s[1..], x);
    }
  }

  /** `s` with `x` inserted at position `p` (List.add(pos, x)). */
  function InsertAt<T>(s: seq<T>, p: nat, x: T): (r: seq<T>)
    requires p <= |s|
    ensures |r| == |s| + 1
  {
    s[..p] + [x] + s[p..]
  }

  /** The inserted element sits at `p`, the others keep their order around it. */
  lemma InsertAtFacts<T>(s: seq<T>, p: nat, x: T)
    requires p <= |s|
    ensures var r := InsertAt(s, p, x);
            r[p] == x &&
            (forall i :: 0 <= i < p ==> r[i] == s[i]) &&
            (forall i :: p < i < |r| ==> r[i] == s[i - 1]) &&
            multiset(r) == multiset(s) + multiset{x}
  {
    assert s == s[..p] + s[p..];
  }

  /** Inserting at InsertPos keeps a sorted sequence sorted. */
  lemma InsertKeepsSorted(s: seq<int>, x: int)
    requires Sorted(s)
    ensures Sorted(InsertAt(s, InsertPos(s, x), x))
  {
    var p := InsertPos(s, x);
    var r := InsertAt(s, p, x);
    InsertPosBounds(s, x);
    InsertAtFacts(s, p, x);
    forall i, j | 0 <= i < j < |r| ensures r[i] <= r[j] {
      if j < p {
      } else if j == p {
      } else if i < p {
        assert r[j] == s[j - 1] && x <= s[p] <= s[j - 1];
      } else if i == p {
        assert x <= s[p] <= s[j - 1];
      } else {
      }
    }
  }

  /** The two lists of a SortedParameterList as values: parameter ids and the samples at the same positions. */
  datatype Entries = Entries(ids: seq<int>, pvs: seq<ParameterValue>)

  /** One add: the id goes in at its sorted position and the sample at the same position. */
  function AddEntry(e: Entries, id: int, pv: ParameterValue): Entries
    requires |e.ids| == |e.pvs|
  {
    var p := InsertPos(e.ids, id);
    Entries(InsertAt(e.ids, p, id), InsertAt(e.pvs, p, pv))
  }

  /** Every sample of `sel` has a name, an engineering value and a parameter id in `ids`. */
  ghost predicate Keyed(sel: seq<ParameterValue>, ids: map<ParameterKey, int>)
  {
    forall x :: x in sel ==> x.qualifiedName.Some? && x.engValue.Some? && KeyOf(x) in ids
  }

  /** The parameter ids of `sel`, in arrival order. */
  function IdsOf(sel: seq<ParameterValue>, ids: map<ParameterKey, int>): (r: seq<int>)
    requires Keyed(sel, ids)
    ensures |r| == |sel|
  {
    if sel == [] then [] else IdsOf(sel[..|sel| - 1], ids) + [ids[KeyOf(sel[|sel| - 1])]]
  }

  /** The list SortedParameterList.add builds from the samples `sel`, added in that order. */
  function Collect(sel: seq<ParameterValue>, ids: map<ParameterKey, int>): (e: Entries)
    requires Keyed(sel, ids)
    ensures |e.ids| == |e.pvs| == |sel|
  {
    if sel == [] then Entries([], [])
    else
      var x := sel[|sel| - 1];
      AddEntry(Collect(sel[..|sel| - 1], ids), ids[KeyOf(x)], x)
  }

  /**
   * The built list holds exactly the added samples, its ids are ascending, and the id at each
   * position is the id of the sample at that position.
   */
  lemma {:induction false} CollectSpec(sel: seq<ParameterValue>, ids: map<ParameterKey, int>)
    requires Keyed(sel, ids)
    ensures Sorted(Collect(sel, ids).ids)
    ensures multiset(Collect(sel, ids).pvs) == multiset(sel)
    ensures multiset(Collect(sel, ids).ids) == multiset(IdsOf(sel, ids))
    ensures forall j :: 0 <= j < |sel| ==>
              var pv := Collect(sel, ids).pvs[j];
              pv.qualifiedName.Some? && pv.engValue.Some? && KeyOf(pv) in ids &&
              Collect(sel, ids).ids[j] == ids[KeyOf(pv)]
  {
    if sel != [] {
      var init, x := sel[..|sel| - 1], sel[|sel| - 1];
      assert sel == init + [x];
      CollectSpec(init, ids);
      var e := Collect(init, ids);
      InsertKeepsSorted(e.ids, ids[KeyOf(x)]);
      var p := InsertPos(e.ids, ids[KeyOf(x)]);
      var r := Collect(sel, ids);
      assert r == Entries(InsertAt(e.ids, p, ids[KeyOf(x)]), InsertAt(e.pvs, p, x));
      InsertAtFacts(e.ids, p, ids[KeyOf(x)]);
      InsertAtFacts(e.pvs, p, x);
      forall j | 0 <= j < |sel|
        ensures r.pvs[j].qualifiedName.Some? && r.pvs[j].engValue.Some? && KeyOf(r.pvs[j]) in ids
        ensures r.ids[j] == ids[KeyOf(r.pvs[j])]
      {
        if j < p {
          assert r.pvs[j] == e.pvs[j];
        } else if j > p {
          assert r.pvs[j] == e.pvs[j - 1];
        }
      }
    }
  }

  /** Collecting with a table that only gained entries gives the same list. */
  lemma {:induction false} CollectStable(sel: seq<ParameterValue>, ids: map<ParameterKey, int>, ids2: map<ParameterKey, int>)
    requires Keyed(sel, ids) && Extends(ids, ids2)
    ensures Keyed(sel, ids2) && Collect(sel, ids) == Collect(sel, ids2)
  {
    if sel != [] {
      CollectStable(sel[..|sel| - 1], ids, ids2);
    }
  }

  /** The head of a sorted sequence is its least element. */
  lemma HeadIsLeast(a: seq<int>, x: int)
    requires Sorted(a) && x in a
    ensures a[0] <= x
  {
    var k :| 0 <= k < |a| && a[k] == x;
    assert k == 0 || a[0] <= a[k];
  }

  lemma MultisetTail(a: seq<int>)
    requires a != []
    ensures multiset(a[1..]) == multiset(a) - multiset{a[0]}
  {
    assert a == [a[0]] + a[1..];
  }

  lemma SortedTail(a: seq<int>)
    requires Sorted(a) && a != []
    ensures Sorted(a[1..])
  {
    forall i, j | 0 <= i < j < |a| - 1
      ensures a[1..][i] <= a[1..][j]
    {
      assert a[1..][i] == a[i + 1] && a[1..][j] == a[j + 1];
    }
  }

  /** Two sorted sequences holding the same elements are equal. */
  lemma {:induction false} SortedUnique(a: seq<int>, b: seq<int>)
    requires Sorted(a) && Sorted(b) && multiset(a) == multiset(b)
    ensures a == b
  {
    if a != [] {
      assert |b| == |multiset(b)| == |multiset(a)| == |a|;
      assert a[0] in multiset(b) && b[0] in multiset(a);
      HeadIsLeast(b, a[0]);
      HeadIsLeast(a, b[0]);
      MultisetTail(a);
      MultisetTail(b);
      SortedTail(a);
      SortedTail(b);
      assert a[0] == b[0];
      assert multiset(a[1..]) == multiset(b[1..]);
      SortedUnique(a[1..], b[1..]);
      assert a == [a[0]] + a[1..] && b == [b[0]] + b[1..];
    }
  }

  /**
   * Group key independence of arrival order: two timestamps whose samples carry the same
   * parameter ids, in whatever order they arrived, get the same sorted id array, and therefore
   * the same group id.
   */
  lemma SameParametersSameKey(a: seq<ParameterValue>, b: seq<ParameterValue>, ids: map<ParameterKey, int>)
    requires Keyed(a, ids) && Keyed(b, ids)
    requires multiset(IdsOf(a, ids)) == multiset(IdsOf(b, ids))
    ensures Collect(a, ids).ids == Collect(b, ids).ids
  {
    CollectSpec(a, ids);
    CollectSpec(b, ids);
    SortedUnique(Collect(a, ids).ids, Collect(b, ids).ids);
  }

  /** SortedParameterList: a list of parameter ids kept sorted, and the samples in the same order. */
  class SortedParameterList {
    var parameterIdArray: seq<int>
    var sortedPvList: seq<ParameterValue>

    constructor ()
      ensures parameterIdArray == [] && sortedPvList == []
    {
      parameterIdArray := [];
      sortedPvList := [];
    }

    function Contents(): Entries
      reads this
    {
      Entries(parameterIdArray, sortedPvList)
    }

    /**
     * add(pv): a sample without an engineering value is ignored; otherwise its parameter id
     * is looked up (and created if new) and inserted at its sorted position, and the sample
     * at the same position.
     */
    method Add(pv: ParameterValue, parameterIdMap: ParameterIdDb)
      requires pv.qualifiedName.Some?
      requires |parameterIdArray| == |sortedPvList|
      modifies this, parameterIdMap`table
      ensures pv.engValue.None? ==> Contents() == old(Contents()) && parameterIdMap.table == old(parameterIdMap.table)
      ensures pv.engValue.Some? ==>
                parameterIdMap.table == Assign(old(parameterIdMap.table), KeyOf(pv)) &&
                Contents() == AddEntry(old(Contents()), parameterIdMap.table.ids[KeyOf(pv)], pv)
    {
      if pv.engValue.None? {
        return;
      }
      var parameterId := parameterIdMap.CreateAndGet(KeyOf(pv));
      var pos := InsertPos(parameterIdArray, parameterId);
      parameterIdArray := InsertAt(parameterIdArray, pos, parameterId);
      sortedPvList := InsertAt(sortedPvList, pos, pv);
    }

    /** size(): the number of ids, which is also the number of samples held. */
    function Size(): (n: nat)
      reads this
      requires |parameterIdArray| == |sortedPvList|
      ensures n == |sortedPvList|
    {
      |parameterIdArray|
    }
  }
}
