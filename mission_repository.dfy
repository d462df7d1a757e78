/** The mission table's queries and its one bulk update, over the table as a
    map from mission id to mission: membership probes scoped to one star
    system, the maximum rank, the rank-ordered listing, and the shifts that
    open or close a gap in a system's ranks. */
module MissionRanks {
  import opened Errors
  import opened Authority
  import opened Entities

  type Missions = map<Id, Mission>

  /** The ids of the missions of star system `s`. */
  function InSystem(ms: Missions, s: Id): set<Id>
  {
    set id | id in ms && ms[id].starSystem == s
  }

  /** The ranks used in star system `s`. */
  function RanksIn(ms: Missions, s: Id): set<int>
  {
    set id | id in ms && ms[id].starSystem == s :: ms[id].orderInSystem
  }

  /** existsByStarSystemIdAndName: a mission of `s` has this name. */
  predicate NameTaken(ms: Missions, s: Id, name: string)
  {
    exists id :: id in ms && ms[id].starSystem == s && ms[id].name == name
  }

  /** existsByStarSystemIdAndOrderInSystem: a mission of `s` has this rank. */
  predicate RankTaken(ms: Missions, s: Id, k: int)
  {
    exists id :: id in ms && ms[id].starSystem == s && ms[id].orderInSystem == k
  }

  /** The central invariant: within one star system no two missions share a rank. */
  predicate RanksDistinct(ms: Missions)
  {
    forall a, b :: a in ms && b in ms && a != b && ms[a].starSystem == ms[b].starSystem
      ==> ms[a].orderInSystem != ms[b].orderInSystem
  }

  /** The probes look only at the named system: missions elsewhere with the
      same name or rank do not make them true. */
  lemma ProbesScopedToSystem(ms: Missions, s: Id, name: string, k: int)
    ensures NameTaken(ms, s, name) <==> exists id :: id in InSystem(ms, s) && ms[id].name == name
    ensures RankTaken(ms, s, k) <==> k in RanksIn(ms, s)
  {
    if k in RanksIn(ms, s) {
      var id :| id in ms && ms[id].starSystem == s && ms[id].orderInSystem == k;
    }
    if NameTaken(ms, s, name) {
      var id :| id in ms && ms[id].starSystem == s && ms[id].name == name;
      assert id in InSystem(ms, s);
    }
  }

  /** shiftOrdersUp(s, k): every mission of `s` ranked k or higher moves up by one. */
  function ShiftedUp(ms: Missions, s: Id, k: int): (r: Missions)
    ensures r.Keys == ms.Keys
  {
    map id | id in ms ::
      if ms[id].starSystem == s && ms[id].orderInSystem >= k
      then ms[id].(orderInSystem := ms[id].orderInSystem + 1)
      else ms[id]
  }

  /** shiftOrdersDown(s, d): every mission of `s` ranked above d moves down by
      one. The repository does not declare this query; this is the assumed
      counterpart of ShiftedUp. */
  function ShiftedDown(ms: Missions, s: Id, d: int): (r: Missions)
    ensures r.Keys == ms.Keys
  {
    map id | id in ms ::
      if ms[id].starSystem == s && ms[id].orderInSystem > d
      then ms[id].(orderInSystem := ms[id].orderInSystem - 1)
      else ms[id]
  }

  /** The up-shift changes exactly the rank of the missions of `s` at or
      above k, by one, and nothing else of any mission. */
  lemma ShiftedUpExact(ms: Missions, s: Id, k: int)
    ensures forall id | id in ms ::
      var m, m' := ms[id], ShiftedUp(ms, s, k)[id];
      m'.(orderInSystem := m.orderInSystem) == m &&
      (m'.orderInSystem == m.orderInSystem + 1 <==> (m.starSystem == s && m.orderInSystem >= k)) &&
      (m'.orderInSystem == m.orderInSystem <==> !(m.starSystem == s && m.orderInSystem >= k))
  {
  }

  /** After the up-shift rank k is free in `s`, and distinct ranks stay distinct. */
  lemma {:induction false} ShiftedUpFreesRank(ms: Missions, s: Id, k: int)
    requires RanksDistinct(ms)
    ensures !RankTaken(ShiftedUp(ms, s, k), s, k)
    ensures RanksDistinct(ShiftedUp(ms, s, k))
  {
    var r := ShiftedUp(ms, s, k);
    forall a, b | a in r && b in r && a != b && r[a].starSystem == r[b].starSystem
      ensures r[a].orderInSystem != r[b].orderInSystem
    {
      assert ms[a].orderInSystem != ms[b].orderInSystem;
    }
  }

  /** Deleting a mission and then shifting its system down keeps ranks distinct. */
  lemma {:induction false} DeleteThenShiftDownKeepsDistinct(ms: Missions, id: Id)
    requires id in ms && RanksDistinct(ms)
    ensures RanksDistinct(ShiftedDown(ms - {id}, ms[id].starSystem, ms[id].orderInSystem))
  {
    var s, d := ms[id].starSystem, ms[id].orderInSystem;
    var r := ShiftedDown(ms - {id}, s, d);
    forall a, b | a in r && b in r && a != b && r[a].starSystem == r[b].starSystem
      ensures r[a].orderInSystem != r[b].orderInSystem
    {
      assert a != id && b != id;
      assert ms[a].orderInSystem != ms[b].orderInSystem;
      assert ms[a].starSystem == s ==> ms[a].orderInSystem != d;
      assert ms[b].starSystem == s ==> ms[b].orderInSystem != d;
    }
  }

  /** Deleting a mission and then shifting its system down closes the gap:
      the ranks below the deleted one stay, each rank above it moves down one. */
  lemma {:induction false} DeleteThenShiftDownClosesGap(ms: Missions, id: Id, k: int)
    requires id in ms && RanksDistinct(ms)
    ensures var s, d := ms[id].starSystem, ms[id].orderInSystem;
      k in RanksIn(ShiftedDown(ms - {id}, s, d), s) <==>
        (k < d && k in RanksIn(ms, s)) || (k >= d && k + 1 in RanksIn(ms, s))
  {
    var s, d := ms[id].starSystem, ms[id].orderInSystem;
    if k in RanksIn(ShiftedDown(ms - {id}, s, d), s) {
      ShiftedDownRankCameFrom(ms, id, k);
    }
    if (k < d && k in RanksIn(ms, s)) || (k >= d && k + 1 in RanksIn(ms, s)) {
      ShiftedDownRankGoesTo(ms, id, k);
    }
  }

  /** A rank after the delete and shift came from the rank itself below the
      deleted one, or from the next one up above it. */
  lemma ShiftedDownRankCameFrom(ms: Missions, id: Id, k: int)
    requires id in ms && RanksDistinct(ms)
    requires k in RanksIn(ShiftedDown(ms - {id}, ms[id].starSystem, ms[id].orderInSystem), ms[id].starSystem)
    ensures var s, d := ms[id].starSystem, ms[id].orderInSystem;
      (k < d && k in RanksIn(ms, s)) || (k >= d && k + 1 in RanksIn(ms, s))
  {
    var s, d := ms[id].starSystem, ms[id].orderInSystem;
    var r := ShiftedDown(ms - {id}, s, d);
    var x :| x in r && r[x].starSystem == s && r[x].orderInSystem == k;
    assert x != id && ms[x].orderInSystem != d;
    assert ms[x].orderInSystem in RanksIn(ms, s);
  }

  /** A rank below the deleted one stays, and one above it arrives one lower. */
  lemma ShiftedDownRankGoesTo(ms: Missions, id: Id, k: int)
    requires id in ms && RanksDistinct(ms)
    requires var s, d := ms[id].starSystem, ms[id].orderInSystem;
      (k < d && k in RanksIn(ms, s)) || (k >= d && k + 1 in RanksIn(ms, s))
    ensures k in RanksIn(ShiftedDown(ms - {id}, ms[id].starSystem, ms[id].orderInSystem), ms[id].starSystem)
  {
    var s, d := ms[id].starSystem, ms[id].orderInSystem;
    var r := ShiftedDown(ms - {id}, s, d);
    var x :| x in ms && ms[x].starSystem == s && ms[x].orderInSystem == (if k < d then k else k + 1);
    assert x != id;
    assert x in r && r[x].starSystem == s && r[x].orderInSystem == k;
  }

  /** `m` is the largest element of `rs`. */
  predicate IsMax(m: int, rs: set<int>)
  {
    m in rs && forall r :: r in rs ==> r <= m
  }

  /** A finite non-empty set of ranks has a largest element. */
  lemma {:induction false} HasMax(rs: set<int>)
    requires rs != {}
    ensures exists m :: IsMax(m, rs)
  {
    if forall x :: x !in rs { assert false; }
    var x :| x in rs;
    var rest := rs - {x};
    if rest == {} {
      assert rs == {x};
      assert IsMax(x, rs);
    } else {
      HasMax(rest);
      var m :| IsMax(m, rest);
      var best := if x <= m then m else x;
      forall r | r in rs ensures r <= best {
        if r != x { assert r in rest; }
      }
      assert IsMax(best, rs);
    }
  }

  /** findMaxOrderInSystem: the largest rank in `s`, or 0 when `s` has no
      missions (the query's COALESCE). */
  function MaxOrder(ms: Missions, s: Id): (m: int)
    ensures RanksIn(ms, s) == {} ==> m == 0
    ensures RanksIn(ms, s) != {} ==> m in RanksIn(ms, s) && forall r :: r in RanksIn(ms, s) ==> r <= m
  {
    var rs := RanksIn(ms, s);
    if rs == {} then 0
    else
      HasMax(rs);
      var m :| IsMax(m, rs);
      m
  }

  /** getNextOrderForStarSystem: one past the largest rank, 1 for an empty system. */
  function NextOrder(ms: Missions, s: Id): (n: int)
    ensures RanksIn(ms, s) == {} ==> n == 1
    ensures forall r :: r in RanksIn(ms, s) ==> r < n
    ensures RanksIn(ms, s) != {} ==> n - 1 in RanksIn(ms, s)
  {
    MaxOrder(ms, s) + 1
  }

  /** The next order is always free, so inserting there never needs a shift. */
  lemma NextOrderIsFree(ms: Missions, s: Id)
    ensures !RankTaken(ms, s, NextOrder(ms, s))
  {
    ProbesScopedToSystem(ms, s, "", NextOrder(ms, s));
  }

  /** The listing order: by rank, ties (only possible when the invariant is
      broken) by id. */
  predicate Before(ms: Missions, a: Id, b: Id)
    requires a in ms && b in ms
  {
    ms[a].orderInSystem < ms[b].orderInSystem ||
    (ms[a].orderInSystem == ms[b].orderInSystem && a <= b)
  }

  /** `f` comes first among `ids` in listing order. */
  predicate IsFirst(ms: Missions, f: Id, ids: set<Id>)
    requires ids <= ms.Keys
  {
    f in ids && forall o :: o in ids ==> Before(ms, f, o)
  }

  lemma {:induction false} HasFirst(ms: Missions, ids: set<Id>)
    requires ids != {} && ids <= ms.Keys
    ensures exists f :: IsFirst(ms, f, ids)
  {
    var x :| x in ids;
    var rest := ids - {x};
    if rest == {} {
      assert ids == {x};
      assert IsFirst(ms, x, ids);
    } else {
      HasFirst(ms, rest);
      var f :| IsFirst(ms, f, rest);
      var best := if Before(ms, f, x) then f else x;
      forall o | o in ids ensures Before(ms, best, o) {
        if o != x { assert o in rest; }
      }
      assert IsFirst(ms, best, ids);
    }
  }

  /** The missions `ids` in listing order, ascending by rank. */
  function Sorted(ms: Missions, ids: set<Id>): (l: seq<Id>)
    requires ids <= ms.Keys
    ensures |l| == |ids|
    ensures forall i :: 0 <= i < |l| ==> l[i] in ids
    ensures forall i :: 0 < i < |l| ==> ms[l[i-1]].orderInSystem <= ms[l[i]].orderInSystem
    decreases |ids|
  {
    if ids == {} then []
    else
      HasFirst(ms, ids);
      var f :| IsFirst(ms, f, ids);
      [f] + Sorted(ms, ids - {f})
  }

  /** Every one of `ids` is listed, and none twice. */
  lemma {:induction false} SortedIsPermutation(ms: Missions, ids: set<Id>)
    requires ids <= ms.Keys
    ensures forall x :: x in ids ==> x in Sorted(ms, ids)
    ensures forall i, j :: 0 <= i < j < |Sorted(ms, ids)| ==> Sorted(ms, ids)[i] != Sorted(ms, ids)[j]
    decreases |ids|
  {
    if ids != {} {
      var l := Sorted(ms, ids);
      var f := l[0];
      var rest := ids - {f};
      assert l == [f] + Sorted(ms, rest);
      SortedIsPermutation(ms, rest);
      forall x | x in ids ensures x in l {
        if x != f { assert x in Sorted(ms, rest); }
      }
      forall i, j | 0 <= i < j < |l| ensures l[i] != l[j] {
        if i == 0 { assert l[j] in rest; }
      }
    }
  }

  /** findAllByStarSystemIdOrderByOrderInSystemAsc. */
  function Listing(ms: Missions, s: Id): seq<Id>
  {
    Sorted(ms, InSystem(ms, s))
  }

  /** The listing holds exactly the system's missions, each once, by ascending rank. */
  lemma ListingCorrect(ms: Missions, s: Id)
    ensures var l := Listing(ms, s);
      (forall i :: 0 <= i < |l| ==> l[i] in ms && ms[l[i]].starSystem == s) &&
      (forall id :: id in ms && ms[id].starSystem == s ==> id in l) &&
      (forall i, j :: 0 <= i < j < |l| ==> l[i] != l[j]) &&
      (forall i :: 0 < i < |l| ==> ms[l[i-1]].orderInSystem <= ms[l[i]].orderInSystem)
  {
    SortedIsPermutation(ms, InSystem(ms, s));
  }

  /** Two concrete runs. Ranks {1, 2, 3}, insert at 2: the old 2 and 3
      become 3 and 4 and 2 is free. Ranks {1, 2, 3, 5}, delete 2: the rest
      become {1, 2, 4}. */
  lemma ShiftExamples()
    ensures var m := Mission(7, "", None, "", "", "", 0, None, Draft, 0, 0);
      var ms := map[1 := m.(orderInSystem := 1), 2 := m.(orderInSystem := 2), 3 := m.(orderInSystem := 3)];
      RanksIn(ShiftedUp(ms, 7, 2), 7) == {1, 3, 4}
    ensures var m := Mission(7, "", None, "", "", "", 0, None, Draft, 0, 0);
      var ms := map[1 := m.(orderInSystem := 1), 2 := m.(orderInSystem := 2), 3 := m.(orderInSystem := 3), 4 := m.(orderInSystem := 5)];
      RanksIn(ShiftedDown(ms - {2}, 7, 2), 7) == {1, 2, 4}
  {
    var m := Mission(7, "", None, "", "", "", 0, None, Draft, 0, 0);
    var ms := map[1 := m.(orderInSystem := 1), 2 := m.(orderInSystem := 2), 3 := m.(orderInSystem := 3)];
    var up := ShiftedUp(ms, 7, 2);
    assert up[1].orderInSystem == 1 && up[2].orderInSystem == 3 && up[3].orderInSystem == 4;
    assert RanksIn(up, 7) == {1, 3, 4};
    var ms2 := map[1 := m.(orderInSystem := 1), 2 := m.(orderInSystem := 2), 3 := m.(orderInSystem := 3), 4 := m.(orderInSystem := 5)];
    var down := ShiftedDown(ms2 - {2}, 7, 2);
    assert down.Keys == {1, 3, 4};
    assert down[1].orderInSystem == 1 && down[3].orderInSystem == 2 && down[4].orderInSystem == 4;
    assert RanksIn(down, 7) == {1, 2, 4};
  }
}
