/**
 * The two weighted "straw2" selectors of the placement engine.
 *
 * Each eligible item (non-zero weight, not disabled) gets a score computed
 * from the object id, the item id and the attempt number `r` alone; the
 * selector returns the eligible item with the best score, the earliest one
 * on ties. `Pick` is that choice, folded over the list of scores the way
 * the source's loops fold it; `IsWinner` states it outright; the two
 * `foreach` loops of the source are methods proved equal to `Pick`.
 *
 * Items are identified by their position in the bucket's list, so a
 * selector returns an index rather than a reference.
 */
module Selection {

  import opened Words
  import opened Hash

  datatype Option<T> = None | Some(value: T)

  /** A C# `int`. */
  type Int32 = x: int | -0x8000_0000 <= x < 0x8000_0000

  /** `long.MinValue` and `long.MaxValue`, the two selectors' sentinels. */
  const LongMin: int := -0x8000_0000_0000_0000
  const LongMax: int := 0x7fff_ffff_ffff_ffff

  /** 2^48, the offset Straw2 subtracts from the log table. */
  const LnOffset: int := 0x1_0000_0000_0000

  /** An item of a bucket: its id, its (possibly negative) weight and its disabled flag. */
  datatype Item = Item(id: Word, weight: Int32, disabled: bool)

  /** Both selectors skip items with weight 0 or the disabled flag set. */
  predicate Eligible(it: Item)
  {
    it.weight != 0 && !it.disabled
  }

  predicate HasEligible(items: seq<Item>)
  {
    exists i :: 0 <= i < |items| && Eligible(items[i])
  }

  /**
   * The fixed-point logarithm table `Ln.Get`, indexed by a 16-bit value.
   * Its contents are not part of this model; its range is [0, 2^48].
   */
  type LnTable = f: Word -> int | forall u: Word :: 0 <= f(u) <= LnOffset
    witness (u: Word) => 0

  /** The selection strategy a bucket was built with. */
  datatype Alg = Straw2(ln: LnTable) | Straw2Plus

  function Abs(x: int): nat
  {
    if x < 0 then -x else x
  }

  lemma DivMod(x: nat, y: nat)
    requires y > 0
    ensures 0 <= x % y < y && x == (x / y) * y + x % y && 0 <= x / y <= x
  {
    DivShrinks(x, y);
  }

  lemma NegMul(m: int, y: int)
    ensures m * (-y) == -(m * y) && (-m) * (-y) == m * y && (-m) * y == -(m * y)
  {
  }

  /** C# division on `long`: the quotient of the magnitudes, truncated toward zero, with the sign of the true quotient. */
  function TruncDiv(a: int, b: int): (q: int)
    requires b != 0
    ensures Abs(q) <= Abs(a)
  {
    DivShrinks(Abs(a), Abs(b));
    if (a < 0) == (b < 0) then Abs(a) / Abs(b) else -(Abs(a) / Abs(b))
  }

  /**
   * `TruncDiv` is C#'s `/`: the remainder is smaller than the divisor in
   * magnitude and has the sign of the dividend.
   */
  lemma TruncDivRemainder(a: int, b: int)
    requires b != 0
    ensures Abs(a - TruncDiv(a, b) * b) < Abs(b)
    ensures a - TruncDiv(a, b) * b == 0 || (a - TruncDiv(a, b) * b < 0 <==> a < 0)
  {
    var m := Abs(a) / Abs(b);
    var rem := Abs(a) % Abs(b);
    DivMod(Abs(a), Abs(b));
    assert 0 <= rem < Abs(b);
    NegMul(m, Abs(b));
    if a >= 0 && b > 0 {
      assert a - m * b == rem;
    } else if a < 0 && b < 0 {
      assert a - m * b == -rem;
    } else if a >= 0 {
      assert a - (-m) * b == rem;
    } else {
      assert a - (-m) * b == -rem;
    }
  }

  // ---------------------------------------------------------------------------
  // Scores
  // ---------------------------------------------------------------------------

  /** `Hash.Calculate(obj.Id, item.Id, r)`, the first draw of both selectors. */
  function Draw(objId: Word, it: Item, r: Word): Word
  {
    HashOf([objId, it.id, r])
  }

  /** Straw2: `(Ln.Get(u & 0xffff) - 2^48) / Weight`; `u & 0xffff` is `u % 2^16`. */
  function Straw2Score(ln: LnTable, objId: Word, it: Item, r: Word): (d: int)
    requires it.weight != 0
    ensures -LnOffset <= d <= LnOffset
    ensures LongMin < d
  {
    var u := Draw(objId, it, r) % 0x1_0000;
    TruncDiv(ln(u) - LnOffset, it.weight)
  }

  /** Half of four maximal bytes: the centre `4 * byte.MaxValue / 2` of each lane. */
  const Center: int := 510

  /** `x & 0x00ff00ff` on `uint`: bytes 0 and 2 of `x`, left in place. */
  function MaskBytes02(x: Word): Word
  {
    x % 0x100 + x / 0x1_0000 % 0x100 * 0x1_0000
  }

  /**
   * The lane sum `s` of Straw2Plus: the masked draws and the masked draws
   * shifted right by 8, added with `uint` wrap-around.
   */
  function Lanes(r1: Word, r2: Word): Word
  {
    Add(Add(Add(MaskBytes02(r1), MaskBytes02(Shr(r1, 8))), MaskBytes02(r2)), MaskBytes02(Shr(r2, 8)))
  }

  lemma NoWrap(a: Word, b: Word)
    requires a + b < Modulus
    ensures Add(a, b) == a + b
  {
  }

  lemma SplitLane(lo: int, hi: int)
    requires 0 <= lo < 0x1_0000 && 0 <= hi
    ensures (lo + hi * 0x1_0000) % 0x1_0000 == lo && (lo + hi * 0x1_0000) / 0x1_0000 == hi
  {
  }

  /** The sum of bytes 0 and 1 of both draws. */
  function LowLane(r1: Word, r2: Word): int
  {
    r1 % 0x100 + Shr(r1, 8) % 0x100 + r2 % 0x100 + Shr(r2, 8) % 0x100
  }

  /** The sum of bytes 2 and 3 of both draws. */
  function HighLane(r1: Word, r2: Word): int
  {
    r1 / 0x1_0000 % 0x100 + Shr(r1, 8) / 0x1_0000 % 0x100 + r2 / 0x1_0000 % 0x100 + Shr(r2, 8) / 0x1_0000 % 0x100
  }

  /** The four masked terms add up without wrapping around. */
  lemma LanesSum(r1: Word, r2: Word)
    ensures 0 <= LowLane(r1, r2) <= 4 * 255 && 0 <= HighLane(r1, r2) <= 4 * 255
    ensures Lanes(r1, r2) == LowLane(r1, r2) + HighLane(r1, r2) * 0x1_0000
  {
    var a, b, c, d := MaskBytes02(r1), MaskBytes02(Shr(r1, 8)), MaskBytes02(r2), MaskBytes02(Shr(r2, 8));
    NoWrap(a, b);
    NoWrap(Add(a, b), c);
    NoWrap(Add(Add(a, b), c), d);
  }

  /**
   * Neither lane can carry into the other: `s & 0xffff` is the sum of bytes 0
   * and 1 of both draws and `s >> 16` the sum of bytes 2 and 3.
   */
  lemma LanesNoCarry(r1: Word, r2: Word)
    ensures Lanes(r1, r2) % 0x1_0000 == LowLane(r1, r2)
    ensures Shr(Lanes(r1, r2), 16) == HighLane(r1, r2)
  {
    LanesSum(r1, r2);
    SplitLane(LowLane(r1, r2), HighLane(r1, r2));
    assert Pow2(16) == 0x1_0000 by { Pow2Word(); }
  }

  /** So each lane is at most 4 * 255. */
  lemma LanesBound(r1: Word, r2: Word)
    ensures Lanes(r1, r2) % 0x1_0000 <= 4 * 255
    ensures Shr(Lanes(r1, r2), 16) <= 4 * 255
  {
    LanesNoCarry(r1, r2);
    LanesSum(r1, r2);
  }

  /**
   * `sum1 * sum1 + sum2 * sum2` for two draws: `sum1` is the low lane
   * (`s & 0xffff`) and `sum2` the high lane (`s >> 16`), each recentred on 510.
   */
  function LaneSquares(rnd1: Word, rnd2: Word): int
  {
    var s := Lanes(rnd1, rnd2);
    var sum1 := s % 0x1_0000 - Center;
    var sum2 := Shr(s, 16) - Center;
    sum1 * sum1 + sum2 * sum2
  }

  /** Each recentred lane is within 510 of zero, so the squares sum to at most 2 * 510^2. */
  lemma LaneSquaresBound(rnd1: Word, rnd2: Word)
    ensures 0 <= LaneSquares(rnd1, rnd2) <= 2 * Center * Center
  {
    var s := Lanes(rnd1, rnd2);
    LanesBound(rnd1, rnd2);
    SquareBound(s % 0x1_0000 - Center, Center);
    SquareBound(Shr(s, 16) - Center, Center);
  }

  /**
   * Straw2Plus before the shift: the lane squares of the first draw and of
   * the one-input hash of the first draw xor 0xa5a5a5a5.
   */
  function Straw2PlusSquares(objId: Word, it: Item, r: Word): (v: int)
    ensures 0 <= v <= 2 * Center * Center
  {
    var rnd1 := Draw(objId, it, r);
    var rnd2 := HashOf([Xor(rnd1, 0xa5a5a5a5)]);
    LaneSquaresBound(rnd1, rnd2);
    LaneSquares(rnd1, rnd2)
  }

  lemma SquareBound(x: int, c: int)
    requires Abs(x) <= c
    ensures 0 <= x * x <= c * c
  {
    assert x * x == Abs(x) * Abs(x);
    assert Abs(x) * Abs(x) <= c * Abs(x) <= c * c;
  }

  /** 2^42, the left shift of Straw2Plus. */
  const Shift42: int := 0x400_0000_0000

  /** Straw2Plus: `(squares << 42) / Weight`. */
  function Straw2PlusScore(objId: Word, it: Item, r: Word): (d: int)
    requires it.weight != 0
    ensures Abs(d) <= 2 * Center * Center * Shift42
  {
    TruncDiv(Straw2PlusSquares(objId, it, r) * Shift42, it.weight)
  }

  /**
   * None of the Straw2Plus arithmetic overflows: the squares fit in `int`, the
   * shifted value stays below 2^62, and every score is strictly between the
   * `long` limits, so the sentinel `long.MaxValue` is always beaten.
   */
  lemma Straw2PlusNoOverflow(objId: Word, it: Item, r: Word)
    requires it.weight != 0
    ensures Straw2PlusSquares(objId, it, r) < 0x8000_0000
    ensures Straw2PlusSquares(objId, it, r) * Shift42 < 0x4000_0000_0000_0000
    ensures LongMin < Straw2PlusScore(objId, it, r) < LongMax
  {
  }

  function Score(alg: Alg, objId: Word, it: Item, r: Word): (d: int)
    requires it.weight != 0
    ensures LongMin < d < LongMax
  {
    match alg
    case Straw2(ln) => Straw2Score(ln, objId, it, r)
    case Straw2Plus => Straw2PlusScore(objId, it, r)
  }

  /** Straw2 keeps the highest draw, Straw2Plus the lowest score. */
  predicate Beats(alg: Alg, x: int, y: int)
  {
    match alg
    case Straw2(_) => x > y
    case Straw2Plus => x < y
  }

  // ---------------------------------------------------------------------------
  // The choice
  // ---------------------------------------------------------------------------

  /**
   * What a selector sees of each item: nothing if it is skipped, else its
   * `Score`. One function value per strategy, so that reasoning about one
   * strategy never evaluates the other's score.
   */
  function Scorer(alg: Alg, objId: Word, r: Word): Item -> Option<int>
  {
    match alg
    case Straw2(ln) => (it: Item) => if Eligible(it) then Some(Straw2Score(ln, objId, it, r)) else None
    case Straw2Plus => (it: Item) => if Eligible(it) then Some(Straw2PlusScore(objId, it, r)) else None
  }

  /** What a selector sees of one item. */
  function Scored(alg: Alg, objId: Word, r: Word, it: Item): (o: Option<int>)
    ensures o.Some? <==> Eligible(it)
    ensures o.Some? ==> o.value == Score(alg, objId, it, r)
  {
    Scorer(alg, objId, r)(it)
  }

  /** `f` applied to each item, in list order. */
  function MapItems(f: Item -> Option<int>, items: seq<Item>): (s: seq<Option<int>>)
    ensures |s| == |items|
    decreases |items|
  {
    if items == [] then [] else MapItems(f, items[..|items| - 1]) + [f(items[|items| - 1])]
  }

  lemma {:induction false} MapItemsAt(f: Item -> Option<int>, items: seq<Item>, i: nat)
    requires i < |items|
    ensures MapItems(f, items)[i] == f(items[i])
    decreases |items|
  {
    var n := |items| - 1;
    if i < n {
      MapItemsAt(f, items[..n], i);
      assert items[..n][i] == items[i];
    }
  }

  /** What a selector sees of each item, in list order. */
  function Scores(alg: Alg, items: seq<Item>, objId: Word, r: Word): (s: seq<Option<int>>)
    ensures |s| == |items|
  {
    MapItems(Scorer(alg, objId, r), items)
  }

  lemma ScoresAt(alg: Alg, items: seq<Item>, objId: Word, r: Word, i: nat)
    requires i < |items|
    ensures Scores(alg, items, objId, r)[i] == Scored(alg, objId, r, items[i])
  {
    MapItemsAt(Scorer(alg, objId, r), items, i);
  }

  /** Position `i` of the scores is the score of item `i`. */
  lemma ScoresAll(alg: Alg, items: seq<Item>, objId: Word, r: Word)
    ensures forall i :: 0 <= i < |items| ==> Scores(alg, items, objId, r)[i] == Scored(alg, objId, r, items[i])
  {
    forall i | 0 <= i < |items| {
      ScoresAt(alg, items, objId, r, i);
    }
  }

  /** Score `x` at position `i` wins against score `y` at position `k`: better, or equal and earlier. */
  predicate Better(alg: Alg, x: int, i: nat, y: int, k: nat)
  {
    Beats(alg, x, y) || (x == y && i < k)
  }

  /** Position `w` holds a score that wins against every other score present. */
  predicate Wins(alg: Alg, s: seq<Option<int>>, w: nat)
  {
    w < |s| && s[w].Some? &&
    forall i :: 0 <= i < |s| && i != w && s[i].Some? ==> Better(alg, s[w].value, w, s[i].value, i)
  }

  /**
   * The running choice of a selector loop over a sequence of scores: a later
   * score replaces the choice only if it beats it.
   */
  function Best(alg: Alg, s: seq<Option<int>>): (p: Option<nat>)
    ensures p.Some? ==> p.value < |s| && s[p.value].Some?
    decreases |s|
  {
    if s == [] then None
    else
      var n := |s| - 1;
      var prev := Best(alg, s[..n]);
      match s[n]
      case None => prev
      case Some(x) =>
        if prev.None? || Beats(alg, x, s[prev.value].value) then Some(n) else prev
  }

  /** One step of a selector loop: how the choice over a prefix grows by one score. */
  lemma BestStep(alg: Alg, s: seq<Option<int>>, i: nat)
    requires i < |s|
    ensures var p := Best(alg, s[..i]);
            Best(alg, s[..i + 1]) ==
              match s[i]
              case None => p
              case Some(x) => if p.None? || Beats(alg, x, s[p.value].value) then Some(i) else p
  {
    assert s[..i + 1][..i] == s[..i];
  }

  /** The choice is `None` exactly when every score is missing. */
  lemma {:induction false} BestNone(alg: Alg, s: seq<Option<int>>)
    ensures Best(alg, s).None? <==> forall i :: 0 <= i < |s| ==> s[i].None?
    decreases |s|
  {
    if s != [] {
      var n := |s| - 1;
      BestNone(alg, s[..n]);
      assert forall i :: 0 <= i < n ==> s[..n][i] == s[i];
    }
  }

  /** The choice wins against every other score present. */
  lemma {:induction false} BestWins(alg: Alg, s: seq<Option<int>>)
    ensures Best(alg, s).Some? ==> Wins(alg, s, Best(alg, s).value)
    decreases |s|
  {
    if s != [] {
      var n := |s| - 1;
      BestNone(alg, s[..n]);
      BestWins(alg, s[..n]);
      assert forall i :: 0 <= i < n ==> s[..n][i] == s[i];
    }
  }

  /** There is at most one winner. */
  lemma WinsUnique(alg: Alg, s: seq<Option<int>>, w1: nat, w2: nat)
    requires Wins(alg, s, w1) && Wins(alg, s, w2)
    ensures w1 == w2
  {
  }

  /** `Best` returns `Some(w)` exactly for the winner `w`. */
  lemma BestIsWinner(alg: Alg, s: seq<Option<int>>, w: nat)
    ensures Best(alg, s) == Some(w) <==> Wins(alg, s, w)
  {
    BestNone(alg, s);
    BestWins(alg, s);
    var p := Best(alg, s);
    if Wins(alg, s, w) {
      WinsUnique(alg, s, p.value, w);
    }
  }

  /** The selectors' choice: `None` when no item is eligible. */
  function Pick(alg: Alg, items: seq<Item>, objId: Word, r: Word): (p: Option<nat>)
    ensures p.None? <==> !HasEligible(items)
    ensures p.Some? ==> p.value < |items| && Eligible(items[p.value])
  {
    var s := Scores(alg, items, objId, r);
    ScoresAll(alg, items, objId, r);
    BestNone(alg, s);
    Best(alg, s)
  }

  /**
   * The choice stated outright: the eligible item with the best score, the
   * earliest one among equal scores. Straw2 keeps the highest draw,
   * Straw2Plus the lowest score.
   */
  predicate IsWinner(alg: Alg, items: seq<Item>, objId: Word, r: Word, w: nat)
  {
    w < |items| && Eligible(items[w]) &&
    forall i :: 0 <= i < |items| && i != w && Eligible(items[i]) ==>
      var sw := Score(alg, objId, items[w], r);
      var si := Score(alg, objId, items[i], r);
      if i < w then Beats(alg, sw, si) else !Beats(alg, si, sw)
  }

  /** `Pick` returns `Some(w)` exactly when `w` is the winner. */
  lemma PickIsWinner(alg: Alg, items: seq<Item>, objId: Word, r: Word, w: nat)
    ensures Pick(alg, items, objId, r) == Some(w) <==> IsWinner(alg, items, objId, r, w)
  {
    var s := Scores(alg, items, objId, r);
    BestIsWinner(alg, s, w);
    WinsOrderedIff(alg, s, w);
    IsWinnerScores(alg, items, objId, r, w);
  }

  /** `Wins`, with the tie-break spelled out by position. */
  predicate WinsOrdered(alg: Alg, s: seq<Option<int>>, w: nat)
  {
    w < |s| && s[w].Some? &&
    forall i :: 0 <= i < |s| && i != w && s[i].Some? ==>
      if i < w then Beats(alg, s[w].value, s[i].value) else !Beats(alg, s[i].value, s[w].value)
  }

  lemma WinsOrderedIff(alg: Alg, s: seq<Option<int>>, w: nat)
    ensures Wins(alg, s, w) <==> WinsOrdered(alg, s, w)
  {
    if w < |s| && s[w].Some? {
      forall i | 0 <= i < |s| && i != w && s[i].Some?
        ensures Better(alg, s[w].value, w, s[i].value, i) <==>
                  if i < w then Beats(alg, s[w].value, s[i].value) else !Beats(alg, s[i].value, s[w].value)
      {
        BetterOrder(alg, s[w].value, w, s[i].value, i);
      }
    }
  }

  lemma IsWinnerScores(alg: Alg, items: seq<Item>, objId: Word, r: Word, w: nat)
    ensures IsWinner(alg, items, objId, r, w) <==> WinsOrdered(alg, Scores(alg, items, objId, r), w)
  {
    ScoresAll(alg, items, objId, r);
  }

  /** Between two positions, `Better` is `Beats` for the later one and "not beaten" for the earlier. */
  lemma BetterOrder(alg: Alg, x: int, i: nat, y: int, k: nat)
    requires i != k
    ensures Better(alg, x, i, y, k) <==> if k < i then Beats(alg, x, y) else !Beats(alg, y, x)
  {
  }

  /** Changing one score can only move the winner onto or off its position. */
  lemma BestReplace(alg: Alg, s: seq<Option<int>>, j: nat, o: Option<int>)
    requires j < |s|
    ensures var p := Best(alg, s);
            var q := Best(alg, s[j := o]);
            q == p || q == Some(j) || p == Some(j)
  {
    var t := s[j := o];
    var p := Best(alg, s);
    var q := Best(alg, t);
    BestNone(alg, s);
    BestNone(alg, t);
    BestWins(alg, s);
    BestWins(alg, t);
    if p != Some(j) && q != Some(j) {
      if p.Some? {
        assert t[p.value] == s[p.value];
      }
      if q.Some? {
        assert t[q.value] == s[q.value];
      }
    }
  }

  /**
   * Locality: an item's score depends on that item alone, so changing one
   * item (its weight or its disabled flag) can only move the choice onto or
   * off that item.
   */
  lemma ReplaceLocality(alg: Alg, items: seq<Item>, objId: Word, r: Word, j: nat, it: Item)
    requires j < |items|
    ensures var p := Pick(alg, items, objId, r);
            var q := Pick(alg, items[j := it], objId, r);
            q == p || q == Some(j) || p == Some(j)
  {
    var s := Scores(alg, items, objId, r);
    ScoresAll(alg, items, objId, r);
    ScoresAll(alg, items[j := it], objId, r);
    assert Scores(alg, items[j := it], objId, r) == s[j := Scored(alg, objId, r, it)];
    BestReplace(alg, s, j, Scored(alg, objId, r, it));
  }

  /** Appending an item can only move the winner onto the new item. */
  lemma AppendLocality(alg: Alg, items: seq<Item>, objId: Word, r: Word, it: Item)
    ensures var q := Pick(alg, items + [it], objId, r);
            q == Pick(alg, items, objId, r) || q == Some(|items|)
  {
    assert (items + [it])[..|items|] == items;
    var s := Scores(alg, items + [it], objId, r);
    assert s[..|items|] == Scores(alg, items, objId, r);
  }

  // ---------------------------------------------------------------------------
  // The two selector loops
  // ---------------------------------------------------------------------------

  /** The body of one `Choose_Straw2` iteration for an eligible item: its draw. */
  method Straw2ItemDraw(ln: LnTable, objId: Word, it: Item, r: Word) returns (draw: int)
    requires it.weight != 0
    ensures draw == Straw2Score(ln, objId, it, r)
  {
    var u := Calculate3(objId, it.id, r);
    u := u % 0x1_0000;
    var lnu := ln(u) - LnOffset;
    draw := TruncDiv(lnu, it.weight);
  }

  /** The body of one `Choose_Straw2Plus` iteration for an eligible item: its score. */
  method Straw2PlusItemScore(objId: Word, it: Item, r: Word) returns (rnd: int)
    requires it.weight != 0
    ensures rnd == Straw2PlusScore(objId, it, r)
  {
    var rnd1 := Calculate3(objId, it.id, r);
    var rnd2 := Calculate1(Xor(rnd1, 0xa5a5a5a5));
    rnd := LaneSquares(rnd1, rnd2);
    rnd := rnd * Shift42;
    rnd := TruncDiv(rnd, it.weight);
  }

  /** `Program.Choose_Straw2`: the highest draw wins; `long.MinValue` is the sentinel. */
  method ChooseStraw2(ln: LnTable, items: seq<Item>, objId: Word, r: Word) returns (selected: Option<nat>)
    ensures selected == Pick(Straw2(ln), items, objId, r)
  {
    ghost var sc := Scores(Straw2(ln), items, objId, r);
    ScoresAll(Straw2(ln), items, objId, r);
    selected := None;
    var highDraw := LongMin;
    var i := 0;
    while i < |items|
      invariant 0 <= i <= |items|
      invariant selected == Best(Straw2(ln), sc[..i])
      invariant selected.None? ==> highDraw == LongMin
      invariant selected.Some? ==> selected.value < i && sc[selected.value] == Some(highDraw)
    {
      var it := items[i];
      BestStep(Straw2(ln), sc, i);
      if it.weight != 0 && !it.disabled {
        var draw := Straw2ItemDraw(ln, objId, it, r);
        if draw > highDraw {
          selected := Some(i);
          highDraw := draw;
        }
      }
      i := i + 1;
    }
    assert sc[..i] == sc;
  }

  /** `Program.Choose_Straw2Plus`: the lowest score wins; `long.MaxValue` is the sentinel. */
  method ChooseStraw2Plus(items: seq<Item>, objId: Word, r: Word) returns (selected: Option<nat>)
    ensures selected == Pick(Straw2Plus, items, objId, r)
  {
    ghost var sc := Scores(Straw2Plus, items, objId, r);
    ScoresAll(Straw2Plus, items, objId, r);
    selected := None;
    var min := LongMax;
    var i := 0;
    while i < |items|
      invariant 0 <= i <= |items|
      invariant selected == Best(Straw2Plus, sc[..i])
      invariant selected.None? ==> min == LongMax
      invariant selected.Some? ==> selected.value < i && sc[selected.value] == Some(min)
    {
      var it := items[i];
      BestStep(Straw2Plus, sc, i);
      if it.weight != 0 && !it.disabled {
        var rnd := Straw2PlusItemScore(objId, it, r);
        if rnd < min {
          min := rnd;
          selected := Some(i);
        }
      }
      i := i + 1;
    }
    assert sc[..i] == sc;
  }
}
