/**
 * The bucket: a list of items, the set of object ids each item holds, and
 * the running object count.
 *
 * `Item.Objects` of the source becomes the field `objects`, one set per item
 * at the item's position in `items`; objects are identified by their ids.
 * `Choose` returns a position, and `None` where the source returns null.
 */
module Buckets {

  import opened Words
  import opened Selection

  /** The ids held by any of the sets. */
  function Union(ss: seq<set<Word>>): set<Word>
  {
    if ss == [] then {} else Union(ss[..|ss| - 1]) + ss[|ss| - 1]
  }

  /** An id is in the union exactly when one of the sets holds it. */
  lemma {:induction false} InUnion(ss: seq<set<Word>>, o: Word)
    ensures o in Union(ss) <==> exists i :: 0 <= i < |ss| && o in ss[i]
  {
    if ss != [] {
      var n := |ss| - 1;
      InUnion(ss[..n], o);
      if o in Union(ss[..n]) {
        var i :| 0 <= i < n && o in ss[..n][i];
        assert o in ss[i];
      }
      if i :| 0 <= i < |ss| && o in ss[i] {
        if i < n {
          assert o in ss[..n][i];
        }
      }
    }
  }

  /** No id is held by two items. */
  predicate Disjoint(ss: seq<set<Word>>)
  {
    forall i, j, o :: 0 <= i < |ss| && 0 <= j < |ss| && o in ss[i] && o in ss[j] ==> i == j
  }

  /** Where `Choose(obj)` puts each object id, over the given items. */
  function HomeOf(alg: Alg, items: seq<Item>): Word -> Option<nat>
  {
    (o: Word) => Pick(alg, items, o, 0)
  }

  /**
   * A function that agrees with `HomeOf(alg, items)` wherever `Pick` is
   * applied. Proofs reason about it so that only the choices they actually
   * make are evaluated.
   */
  lemma Homes(alg: Alg, items: seq<Item>) returns (home: Word -> Option<nat>)
    ensures forall o {:trigger Pick(alg, items, o, 0)} :: home(o) == Pick(alg, items, o, 0)
  {
    home := HomeOf(alg, items);
  }

  /** Being settled carries over from such a function to `HomeOf`. */
  lemma SettledBridge(alg: Alg, items: seq<Item>, home: Word -> Option<nat>, ss: seq<set<Word>>)
    requires forall o {:trigger Pick(alg, items, o, 0)} :: home(o) == Pick(alg, items, o, 0)
    ensures Settled(home, ss) <==> Settled(HomeOf(alg, items), ss)
  {
    forall i, o | 0 <= i < |ss| && o in ss[i]
      ensures home(o) == HomeOf(alg, items)(o)
    {
      assert HomeOf(alg, items)(o) == Pick(alg, items, o, 0);
    }
  }

  /** So does the set of misplaced ids. */
  lemma MisplacedBridge(alg: Alg, items: seq<Item>, home: Word -> Option<nat>, ss: seq<set<Word>>)
    requires forall o {:trigger Pick(alg, items, o, 0)} :: home(o) == Pick(alg, items, o, 0)
    ensures Misplaced(home, ss) == Misplaced(HomeOf(alg, items), ss)
  {
    forall i, o | 0 <= i < |ss| && o in ss[i]
      ensures home(o) == HomeOf(alg, items)(o)
    {
      assert HomeOf(alg, items)(o) == Pick(alg, items, o, 0);
    }
  }

  /** The ids held by an item other than their home. */
  function Misplaced(home: Word -> Option<nat>, ss: seq<set<Word>>): set<Word>
  {
    set i, o | 0 <= i < |ss| && o in ss[i] && home(o) != Some(i) :: o
  }

  /** Every held id sits in its home item. */
  predicate Settled(home: Word -> Option<nat>, ss: seq<set<Word>>)
  {
    forall i, o :: 0 <= i < |ss| && o in ss[i] ==> home(o) == Some(i)
  }

  /** Settled means nothing is misplaced. */
  lemma SettledIff(home: Word -> Option<nat>, ss: seq<set<Word>>)
    ensures Settled(home, ss) <==> Misplaced(home, ss) == {}
  {
    if !Settled(home, ss) {
      var i, o :| 0 <= i < |ss| && o in ss[i] && home(o) != Some(i);
      assert o in Misplaced(home, ss);
    }
  }

  /** When no id has a home, only empty sets are settled. */
  lemma SettledEmpty(home: Word -> Option<nat>, ss: seq<set<Word>>)
    requires Settled(home, ss) && forall o :: home(o).None?
    ensures Union(ss) == {}
  {
    forall o
      ensures o !in Union(ss)
    {
      InUnion(ss, o);
      assert home(o).None?;
    }
  }

  /** Id `o` is held by its home item. */
  predicate AtHome(home: Word -> Option<nat>, ss: seq<set<Word>>, o: Word)
  {
    home(o).Some? && home(o).value < |ss| && o in ss[home(o).value]
  }

  /** Adding a fresh id to one set: `HashSet.Add`. */
  lemma AddTo(ss: seq<set<Word>>, k: nat, o: Word)
    requires k < |ss| && Disjoint(ss) && o !in Union(ss)
    ensures var t := ss[k := ss[k] + {o}];
            Disjoint(t) && Union(t) == Union(ss) + {o}
  {
    var t := ss[k := ss[k] + {o}];
    InUnion(ss, o);
    forall x
      ensures x in Union(t) <==> x in Union(ss) + {o}
    {
      InUnion(t, x);
      InUnion(ss, x);
      if x in ss[k] {
        assert x in t[k];
      }
      if x == o {
        assert x in t[k];
      }
      if i :| 0 <= i < |ss| && i != k && x in ss[i] {
        assert x in t[i];
      }
    }
  }

  /** Removing one id from its set: `HashSet.Remove`. */
  lemma RemoveFrom(ss: seq<set<Word>>, k: nat, o: Word)
    requires k < |ss| && Disjoint(ss) && o in ss[k]
    ensures var t := ss[k := ss[k] - {o}];
            Disjoint(t) && Union(t) == Union(ss) - {o}
  {
    var t := ss[k := ss[k] - {o}];
    forall x | x in Union(t)
      ensures x in Union(ss) - {o}
    {
      InUnion(t, x);
      InUnion(ss, x);
      var i :| 0 <= i < |t| && x in t[i];
      assert x in ss[i];
    }
    forall x | x in Union(ss) - {o}
      ensures x in Union(t)
    {
      InUnion(t, x);
      InUnion(ss, x);
      var i :| 0 <= i < |ss| && x in ss[i];
      assert x in t[i];
    }
  }

  /** `item.Objects.Remove(obj)` followed by `dest.Objects.Add(obj)`. */
  function Move(ss: seq<set<Word>>, k: nat, j: nat, o: Word): (t: seq<set<Word>>)
    requires k < |ss| && j < |ss|
    ensures |t| == |ss|
  {
    ss[k := ss[k] - {o}][j := ss[j] + {o}]
  }

  /** A move between two items keeps the sets disjoint and their union unchanged. */
  lemma MoveKeeps(ss: seq<set<Word>>, k: nat, j: nat, o: Word)
    requires k < |ss| && j < |ss| && j != k && Disjoint(ss) && o in ss[k]
    ensures Disjoint(Move(ss, k, j, o)) && Union(Move(ss, k, j, o)) == Union(ss)
  {
    var u := ss[k := ss[k] - {o}];
    RemoveFrom(ss, k, o);
    InUnion(ss, o);
    assert u[j] == ss[j];
    assert Move(ss, k, j, o) == u[j := u[j] + {o}];
    AddTo(u, j, o);
  }

  /** Moving an id to its home takes it off the misplaced ids and changes nothing else there. */
  lemma MoveMisplaced(home: Word -> Option<nat>, ss: seq<set<Word>>, k: nat, j: nat, o: Word)
    requires k < |ss| && j < |ss| && j != k && Disjoint(ss)
    requires o in ss[k] && home(o) == Some(j)
    ensures o in Misplaced(home, ss)
    ensures Misplaced(home, Move(ss, k, j, o)) == Misplaced(home, ss) - {o}
  {
    var t := Move(ss, k, j, o);
    forall x | x in Misplaced(home, t)
      ensures x in Misplaced(home, ss) - {o}
    {
      var i :| 0 <= i < |t| && x in t[i] && home(x) != Some(i);
      assert x != o;
      assert x in ss[i];
    }
    forall x | x in Misplaced(home, ss) - {o}
      ensures x in Misplaced(home, t)
    {
      var i :| 0 <= i < |ss| && x in ss[i] && home(x) != Some(i);
      assert x in t[i];
    }
  }

  /** The items before `k` hold only ids whose home they are. */
  predicate SettledBelow(home: Word -> Option<nat>, ss: seq<set<Word>>, k: nat)
  {
    forall j, o :: 0 <= j < k && j < |ss| && o in ss[j] ==> home(o) == Some(j)
  }

  /** Of the ids in `s`, those not in `rest` have home `k`. */
  predicate Checked(home: Word -> Option<nat>, s: set<Word>, rest: set<Word>, k: nat)
  {
    forall o :: o in s && o !in rest ==> home(o) == Some(k)
  }

  /**
   * While item `k` is walked, moving the next unvisited id `o` to its home
   * keeps the earlier items settled and the visited ids of item `k` at home.
   */
  lemma MoveSettled(home: Word -> Option<nat>, ss: seq<set<Word>>, k: nat, j: nat, o: Word, rest: set<Word>)
    requires k < |ss| && j < |ss| && j != k
    requires o in rest && rest <= ss[k] && home(o) == Some(j)
    requires SettledBelow(home, ss, k) && Checked(home, ss[k], rest, k)
    ensures var t := Move(ss, k, j, o);
            SettledBelow(home, t, k) && Checked(home, t[k], rest - {o}, k) && rest - {o} <= t[k]
  {
  }

  /** The ids listed in `xs`. */
  function Elems(xs: seq<Word>): set<Word>
  {
    if xs == [] then {} else Elems(xs[..|xs| - 1]) + {xs[|xs| - 1]}
  }

  /** An id is among the elements exactly when the list contains it. */
  lemma {:induction false} InElems(xs: seq<Word>, o: Word)
    ensures o in Elems(xs) <==> o in xs
  {
    if xs != [] {
      var n := |xs| - 1;
      InElems(xs[..n], o);
      assert xs == xs[..n] + [xs[n]];
    }
  }

  /** With distinct ids, the next id is not among the earlier ones. */
  lemma ElemsSnoc(xs: seq<Word>, i: nat)
    requires i < |xs|
    requires forall m, n :: 0 <= m < n < |xs| ==> xs[m] != xs[n]
    ensures Elems(xs[..i + 1]) == Elems(xs[..i]) + {xs[i]}
    ensures xs[i] !in Elems(xs[..i])
  {
    assert xs[..i + 1][..i] == xs[..i];
    InElems(xs[..i], xs[i]);
  }

  /** The sets after each id of `xs`, in order, has been added to its home item. */
  function Placed(home: Word -> Option<nat>, ss: seq<set<Word>>, xs: seq<Word>): (t: seq<set<Word>>)
    ensures |t| == |ss|
    decreases |xs|
  {
    if xs == [] then ss
    else
      var t := Placed(home, ss, xs[..|xs| - 1]);
      var o := xs[|xs| - 1];
      if home(o).Some? && home(o).value < |t| then t[home(o).value := t[home(o).value] + {o}] else t
  }

  /**
   * Placing ids grows each set by exactly the listed ids whose home it is:
   * ids held before stay where they were and no set loses anything.
   */
  lemma {:induction false} PlacedAt(home: Word -> Option<nat>, ss: seq<set<Word>>, xs: seq<Word>, k: nat)
    requires k < |ss|
    ensures Placed(home, ss, xs)[k] == ss[k] + (set o | o in xs && home(o) == Some(k))
    decreases |xs|
  {
    if xs != [] {
      var n := |xs| - 1;
      var o := xs[n];
      PlacedAt(home, ss, xs[..n], k);
      assert xs == xs[..n] + [o];
      var before := set x | x in xs[..n] && home(x) == Some(k);
      var after := set x | x in xs && home(x) == Some(k);
      assert after == before + (if home(o) == Some(k) then {o} else {});
    }
  }

  /** Placing carries over from a function that agrees with `HomeOf`. */
  lemma {:induction false} PlacedBridge(alg: Alg, items: seq<Item>, home: Word -> Option<nat>, ss: seq<set<Word>>, xs: seq<Word>)
    requires forall o {:trigger Pick(alg, items, o, 0)} :: home(o) == Pick(alg, items, o, 0)
    ensures Placed(home, ss, xs) == Placed(HomeOf(alg, items), ss, xs)
    decreases |xs|
  {
    if xs != [] {
      var n := |xs| - 1;
      PlacedBridge(alg, items, home, ss, xs[..n]);
      assert HomeOf(alg, items)(xs[n]) == Pick(alg, items, xs[n], 0);
    }
  }

  /** Placing one more id: its home set takes it. */
  lemma PlacedSnoc(home: Word -> Option<nat>, ss: seq<set<Word>>, xs: seq<Word>, i: nat, t: seq<set<Word>>, d: nat)
    requires i < |xs| && t == Placed(home, ss, xs[..i]) && home(xs[i]) == Some(d) && d < |t|
    ensures t[d := t[d] + {xs[i]}] == Placed(home, ss, xs[..i + 1])
  {
    assert xs[..i + 1][..i] == xs[..i];
  }

  /** What placing ids with such a function leaves in each set, stated with `HomeOf`. */
  lemma PlacedSets(alg: Alg, items: seq<Item>, home: Word -> Option<nat>, ss: seq<set<Word>>, xs: seq<Word>, t: seq<set<Word>>)
    requires forall o {:trigger Pick(alg, items, o, 0)} :: home(o) == Pick(alg, items, o, 0)
    requires t == Placed(home, ss, xs)
    requires |ss| == |items| && (xs == [] || HasEligible(items))
    ensures t == Placed(HomeOf(alg, items), ss, xs)
    ensures forall k :: 0 <= k < |t| ==> t[k] == ss[k] + (set o | o in xs && HomeOf(alg, items)(o) == Some(k))
    ensures forall o :: o in xs ==> AtHome(HomeOf(alg, items), t, o)
  {
    PlacedBridge(alg, items, home, ss, xs);
    forall k | 0 <= k < |t|
      ensures t[k] == ss[k] + (set o | o in xs && HomeOf(alg, items)(o) == Some(k))
    {
      PlacedAt(HomeOf(alg, items), ss, xs, k);
    }
    forall o | o in xs
      ensures AtHome(HomeOf(alg, items), t, o)
    {
      assert HomeOf(alg, items)(o) == Pick(alg, items, o, 0);
      PlacedAt(HomeOf(alg, items), ss, xs, Pick(alg, items, o, 0).value);
    }
  }

  class Bucket {
    /** The selection strategy the bucket was built with. */
    const alg: Alg
    /** `Items`, in list order. */
    var items: seq<Item>
    /** `Item.Objects` of each item, by position in `items`. */
    var objects: seq<set<Word>>
    /** `ObjectCount`. */
    var objectCount: int

    /** One set per item, and no object held twice. */
    ghost predicate Valid()
      reads this
    {
      |objects| == |items| && Disjoint(objects)
    }

    /** Every object the bucket holds. */
    function Held(): set<Word>
      reads this
    {
      Union(objects)
    }

    /** `ObjectCount` is the number of objects held. */
    ghost predicate Tallied()
      reads this
    {
      objectCount == |Held()|
    }

    /** `new Bucket(alg, weights)`: one enabled, empty item per weight. */
    constructor(alg: Alg, weights: seq<Int32>, ids: seq<Word>)
      requires |ids| == |weights|
      ensures this.alg == alg && objectCount == 0
      ensures |items| == |weights|
      ensures forall i :: 0 <= i < |weights| ==> items[i] == Item(ids[i], weights[i], false)
      ensures objects == seq(|weights|, _ => {})
      ensures Valid() && Held() == {} && Tallied()
    {
      this.alg := alg;
      items := seq(|weights|, i requires 0 <= i < |weights| => Item(ids[i], weights[i], false));
      objects := seq(|weights|, _ => {});
      objectCount := 0;
      new;
      forall o
        ensures o !in Union(objects)
      {
        InUnion(objects, o);
      }
    }

    /** `Choose(obj, r)`: the strategy's choice over the current items. */
    method Choose(obj: Word, r: Word) returns (dest: Option<nat>)
      ensures dest == Pick(alg, items, obj, r)
    {
      match alg
      case Straw2(ln) =>
        dest := ChooseStraw2(ln, items, obj, r);
      case Straw2Plus =>
        dest := ChooseStraw2Plus(items, obj, r);
    }

    /**
     * `AddObject(obj)`: the chosen item takes the object and the count goes
     * up by one. With no eligible item the source dereferences null before
     * changing anything; that is the `None` outcome, with the state unchanged.
     */
    method AddObject(obj: Word) returns (dest: Option<nat>)
      requires Valid() && obj !in Held()
      modifies this
      ensures dest == Pick(alg, items, obj, 0)
      ensures items == old(items) && Valid()
      ensures dest.None? ==> objects == old(objects) && objectCount == old(objectCount)
      ensures dest.Some? ==> objects == old(objects)[dest.value := old(objects)[dest.value] + {obj}]
      ensures dest.Some? ==> objectCount == old(objectCount) + 1
      ensures Held() == if dest.Some? then old(Held()) + {obj} else old(Held())
      ensures old(Tallied()) ==> Tallied()
    {
      dest := Choose(obj, 0);
      if dest.Some? {
        AddTo(objects, dest.value, obj);
        objects := objects[dest.value := objects[dest.value] + {obj}];
        objectCount := objectCount + 1;
      }
    }

    /**
     * `AddObjects(count)` for `count == |ids|`, the ids of the new objects in
     * creation order. Either every object is placed, or (no eligible item)
     * the first one fails and nothing changes.
     */
    method AddObjects(ids: seq<Word>) returns (ok: bool)
      requires Valid()
      requires forall i, j :: 0 <= i < j < |ids| ==> ids[i] != ids[j]
      requires forall i :: 0 <= i < |ids| ==> ids[i] !in Held()
      modifies this
      ensures items == old(items) && Valid()
      ensures ok <==> |ids| == 0 || HasEligible(items)
      ensures ok ==> objectCount == old(objectCount) + |ids|
      ensures ok ==> Held() == old(Held()) + Elems(ids)
      ensures ok ==> forall o :: o in ids ==> AtHome(HomeOf(alg, items), objects, o)
      ensures ok ==> objects == Placed(HomeOf(alg, items), old(objects), ids)
      ensures ok ==> forall k :: 0 <= k < |objects| ==>
                       objects[k] == old(objects)[k] + (set o | o in ids && HomeOf(alg, items)(o) == Some(k))
      ensures !ok ==> objects == old(objects) && objectCount == old(objectCount)
      ensures old(Tallied()) ==> Tallied()
    {
      ghost var home := Homes(alg, items);
      ok := true;
      var i := 0;
      while i < |ids|
        invariant 0 <= i <= |ids|
        invariant items == old(items) && Valid()
        invariant objectCount == old(objectCount) + i
        invariant Held() == old(Held()) + Elems(ids[..i])
        invariant objects == Placed(home, old(objects), ids[..i])
        invariant i == 0 ==> objects == old(objects)
        invariant i > 0 ==> HasEligible(items)
        invariant old(Tallied()) ==> Tallied()
      {
        ElemsSnoc(ids, i);
        ghost var before := objects;
        var dest := AddObject(ids[i]);
        if dest.None? {
          ok := false;
          return;
        }
        PlacedSnoc(home, old(objects), ids, i, before, dest.value);
        i := i + 1;
      }
      assert ids[..i] == ids;
      PlacedSets(alg, items, home, old(objects), ids, objects);
    }

    /**
     * `Rebalance` without the `expected` estimate: each item's set is walked
     * over a snapshot, in item order, and every object whose chosen item is
     * another one is moved there. On success every object ends at its chosen
     * item and `moved` counts the objects that were misplaced. With no
     * eligible item the first object visited is removed and then the source
     * dereferences null: `ok` is false and that object is lost.
     */
    method Rebalance() returns (moved: int, ok: bool)
      requires Valid()
      modifies this
      ensures items == old(items) && objectCount == old(objectCount)
      ensures ok <==> old(Held()) == {} || HasEligible(items)
      ensures ok ==> Valid() && Held() == old(Held()) && Settled(HomeOf(alg, items), objects)
      ensures ok ==> moved == |Misplaced(HomeOf(alg, items), old(objects))|
      ensures ok && old(Tallied()) ==> Tallied()
      ensures ok && old(Settled(HomeOf(alg, items), objects)) ==> moved == 0
      ensures !ok ==> exists k, o :: 0 <= k < |old(objects)| && o in old(objects)[k] &&
                                     objects == old(objects)[k := old(objects)[k] - {o}]
    {
      ghost var home := Homes(alg, items);
      ghost var m0 := Misplaced(home, objects);
      moved := 0;
      ok := true;
      var k := 0;
      while k < |items|
        invariant 0 <= k <= |items|
        invariant items == old(items) && objectCount == old(objectCount) && Valid()
        invariant Held() == old(Held())
        invariant SettledBelow(home, objects, k)
        invariant Misplaced(home, objects) <= m0
        invariant moved + |Misplaced(home, objects)| == |m0|
        invariant !HasEligible(items) ==> objects == old(objects)
      {
        var snapshot := objects[k];
        var rest := snapshot;
        while rest != {}
          invariant items == old(items) && objectCount == old(objectCount) && Valid()
          invariant Held() == old(Held())
          invariant rest <= objects[k] && Checked(home, objects[k], rest, k)
          invariant SettledBelow(home, objects, k)
          invariant Misplaced(home, objects) <= m0
          invariant moved + |Misplaced(home, objects)| == |m0|
          invariant !HasEligible(items) ==> objects == old(objects)
          decreases rest
        {
          var o :| o in rest;
          var dest := Choose(o, 0);
          if dest != Some(k) {
            if dest.None? {
              InUnion(objects, o);
              objects := objects[k := objects[k] - {o}];
              ok := false;
              return;
            }
            var j := dest.value;
            MoveKeeps(objects, k, j, o);
            MoveMisplaced(home, objects, k, j, o);
            MoveSettled(home, objects, k, j, o, rest);
            objects := Move(objects, k, j, o);
            moved := moved + 1;
          }
          rest := rest - {o};
        }
        k := k + 1;
      }
      SettledIff(home, objects);
      SettledIff(home, old(objects));
      if !HasEligible(items) {
        forall o
          ensures home(o).None?
        {
          assert Pick(alg, items, o, 0).None?;
        }
        SettledEmpty(home, objects);
      }
      SettledBridge(alg, items, home, objects);
      SettledBridge(alg, items, home, old(objects));
      MisplacedBridge(alg, items, home, old(objects));
    }

    /** The driver's `item.Weight = w`: no object moves until the next `Rebalance`. */
    method SetWeight(k: nat, w: Int32)
      requires Valid() && k < |items|
      modifies this
      ensures items == old(items)[k := old(items)[k].(weight := w)]
      ensures objects == old(objects) && objectCount == old(objectCount) && Valid()
    {
      items := items[k := items[k].(weight := w)];
    }

    /** The driver's `item.disabled = d`: no object moves until the next `Rebalance`. */
    method SetDisabled(k: nat, d: bool)
      requires Valid() && k < |items|
      modifies this
      ensures items == old(items)[k := old(items)[k].(disabled := d)]
      ensures objects == old(objects) && objectCount == old(objectCount) && Valid()
    {
      items := items[k := items[k].(disabled := d)];
    }

    /** The driver's `Items.Add(new Item { Weight = w })`: a new, empty, enabled item at the end. */
    method AddItem(id: Word, w: Int32)
      requires Valid()
      modifies this
      ensures items == old(items) + [Item(id, w, false)]
      ensures objects == old(objects) + [{}] && objectCount == old(objectCount)
      ensures Valid() && Held() == old(Held())
    {
      items := items + [Item(id, w, false)];
      objects := objects + [{}];
      assert objects[..|objects| - 1] == old(objects);
    }
  }
}
