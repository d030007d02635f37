/**
 * The Jenkins-style mixer of the placement engine (the `rjenkins1` hash of
 * CRUSH): a nine-row mix of three 32-bit registers and five hash overloads
 * that fold one to five inputs through it.
 *
 * All arithmetic is `uint` arithmetic (module Words): every subtraction and
 * left shift wraps modulo 2^32.
 */
module Hash {

  import opened Words

  /** The odd seed xored into the accumulator of every overload. */
  const HashSeed: Word := 1315423911
  /** Initial values of the two auxiliary registers `x` and `y`. */
  const X0: Word := 231232
  const Y0: Word := 1232

  /** The three registers one `Hashmix` call works on. */
  datatype Regs = Regs(a: Word, b: Word, c: Word)

  // ---------------------------------------------------------------------------
  // The mix as a composition of nine rows, each with its inverse
  // ---------------------------------------------------------------------------

  /** One line of a row: x -= y; x -= z; x ^= t. */
  function Line(x: Word, y: Word, z: Word, t: Word): Word
  {
    Xor(Sub(Sub(x, y), z), t)
  }

  /** Undoes `Line` when y, z and t are known. */
  function UnLine(l: Word, y: Word, z: Word, t: Word): Word
  {
    Add(Add(Xor(l, t), z), y)
  }

  lemma LineInverse(x: Word, y: Word, z: Word, t: Word)
    ensures UnLine(Line(x, y, z, t), y, z, t) == x
    ensures Line(UnLine(x, y, z, t), y, z, t) == x
  {
    XorInvolution(Sub(Sub(x, y), z), t);
    AddSub(Sub(x, y), z);
    AddSub(x, y);
    XorInvolution(x, t);
    AddSub(Add(Xor(x, t), z), y);
    AddSub(Xor(x, t), z);
  }

  /*
   * The three kinds of row. Each rewrites one register from the other two;
   * `t` is the shifted register that the row xors in, which the row leaves
   * unchanged, so the row can be undone.
   */
  function RowA(r: Regs, t: Word): Regs { r.(a := Line(r.a, r.b, r.c, t)) }
  function RowB(r: Regs, t: Word): Regs { r.(b := Line(r.b, r.c, r.a, t)) }
  function RowC(r: Regs, t: Word): Regs { r.(c := Line(r.c, r.a, r.b, t)) }
  function UnRowA(r: Regs, t: Word): Regs { r.(a := UnLine(r.a, r.b, r.c, t)) }
  function UnRowB(r: Regs, t: Word): Regs { r.(b := UnLine(r.b, r.c, r.a, t)) }
  function UnRowC(r: Regs, t: Word): Regs { r.(c := UnLine(r.c, r.a, r.b, t)) }

  /** The shift amounts of the nine rows of `Hashmix`, in order. */
  const Shifts: seq<nat> := [13, 8, 13, 12, 16, 5, 3, 10, 15]

  /**
   * Row `k` (0 to 8) of Bob Jenkins' 96-bit mix: rows 0, 3 and 6 rewrite `a`
   * with `c >> s`, rows 1, 4 and 7 rewrite `b` with `a << s`, rows 2, 5 and 8
   * rewrite `c` with `b >> s`.
   */
  function Row(r: Regs, k: nat): Regs
    requires k < 9
  {
    if k % 3 == 0 then RowA(r, Shr(r.c, Shifts[k]))
    else if k % 3 == 1 then RowB(r, Shl(r.a, Shifts[k]))
    else RowC(r, Shr(r.b, Shifts[k]))
  }

  /** Undoes row `k`: the xored-in shift is read from a register the row does not change. */
  function UnRow(r: Regs, k: nat): Regs
    requires k < 9
  {
    if k % 3 == 0 then UnRowA(r, Shr(r.c, Shifts[k]))
    else if k % 3 == 1 then UnRowB(r, Shl(r.a, Shifts[k]))
    else UnRowC(r, Shr(r.b, Shifts[k]))
  }

  /** Rows `k` to 8 applied in order. */
  function Rows(r: Regs, k: nat): Regs
    requires k <= 9
    decreases 9 - k
  {
    if k == 9 then r else Rows(Row(r, k), k + 1)
  }

  /** Rows 8 down to `k` undone in order. */
  function UnRows(r: Regs, k: nat): Regs
    requires k <= 9
    decreases 9 - k
  {
    if k == 9 then r else UnRow(UnRows(r, k + 1), k)
  }

  /** `Hashmix`: all nine rows. */
  function Mix(r: Regs): Regs
  {
    Rows(r, 0)
  }

  function Unmix(r: Regs): Regs
  {
    UnRows(r, 0)
  }

  lemma LinesInverse(r: Regs, t: Word)
    ensures UnRowA(RowA(r, t), t) == r && RowA(UnRowA(r, t), t) == r
    ensures UnRowB(RowB(r, t), t) == r && RowB(UnRowB(r, t), t) == r
    ensures UnRowC(RowC(r, t), t) == r && RowC(UnRowC(r, t), t) == r
  {
    LineInverse(r.a, r.b, r.c, t);
    LineInverse(r.b, r.c, r.a, t);
    LineInverse(r.c, r.a, r.b, t);
  }

  lemma RowInverse(r: Regs, k: nat)
    requires k < 9
    ensures UnRow(Row(r, k), k) == r
    ensures Row(UnRow(r, k), k) == r
  {
    if k % 3 == 0 {
      LinesInverse(r, Shr(r.c, Shifts[k]));
    } else if k % 3 == 1 {
      LinesInverse(r, Shl(r.a, Shifts[k]));
    } else {
      LinesInverse(r, Shr(r.b, Shifts[k]));
    }
  }

  lemma {:induction false} RowsInverse(r: Regs, k: nat)
    requires k <= 9
    ensures UnRows(Rows(r, k), k) == r
    ensures Rows(UnRows(r, k), k) == r
    decreases 9 - k
  {
    if k < 9 {
      RowsInverse(Row(r, k), k + 1);
      RowInverse(r, k);
      RowsInverse(r, k + 1);
      RowInverse(UnRows(r, k + 1), k);
    }
  }

  /** `Mix` is a bijection on register triples: `Unmix` undoes it on both sides. */
  lemma MixInverse(r: Regs)
    ensures Unmix(Mix(r)) == r
    ensures Mix(Unmix(r)) == r
  {
    RowsInverse(r, 0);
  }

  lemma MixInjective(r: Regs, q: Regs)
    requires Mix(r) == Mix(q)
    ensures r == q
  {
    MixInverse(r);
    MixInverse(q);
  }

  /**
   * `Hashmix(ref a, ref b, ref c)`: the three registers are rewritten in
   * place, row after row; the out-parameters are their final values.
   */
  method Hashmix(a0: Word, b0: Word, c0: Word) returns (a: Word, b: Word, c: Word)
    ensures Regs(a, b, c) == Mix(Regs(a0, b0, c0))
  {
    a, b, c := a0, b0, c0;
    a := Sub(a, b);  a := Sub(a, c);  a := Xor(a, Shr(c, 13));
    assert Mix(Regs(a0, b0, c0)) == Rows(Regs(a, b, c), 1);
    b := Sub(b, c);  b := Sub(b, a);  b := Xor(b, Shl(a, 8));
    assert Mix(Regs(a0, b0, c0)) == Rows(Regs(a, b, c), 2);
    c := Sub(c, a);  c := Sub(c, b);  c := Xor(c, Shr(b, 13));
    assert Mix(Regs(a0, b0, c0)) == Rows(Regs(a, b, c), 3);
    a := Sub(a, b);  a := Sub(a, c);  a := Xor(a, Shr(c, 12));
    assert Mix(Regs(a0, b0, c0)) == Rows(Regs(a, b, c), 4);
    b := Sub(b, c);  b := Sub(b, a);  b := Xor(b, Shl(a, 16));
    assert Mix(Regs(a0, b0, c0)) == Rows(Regs(a, b, c), 5);
    c := Sub(c, a);  c := Sub(c, b);  c := Xor(c, Shr(b, 5));
    assert Mix(Regs(a0, b0, c0)) == Rows(Regs(a, b, c), 6);
    a := Sub(a, b);  a := Sub(a, c);  a := Xor(a, Shr(c, 3));
    assert Mix(Regs(a0, b0, c0)) == Rows(Regs(a, b, c), 7);
    b := Sub(b, c);  b := Sub(b, a);  b := Xor(b, Shl(a, 10));
    assert Mix(Regs(a0, b0, c0)) == Rows(Regs(a, b, c), 8);
    c := Sub(c, a);  c := Sub(c, b);  c := Xor(c, Shr(b, 15));
    assert Mix(Regs(a0, b0, c0)) == Rows(Regs(a, b, c), 9);
  }

  // ---------------------------------------------------------------------------
  // The overloads as a register-file machine driven by a schedule
  // ---------------------------------------------------------------------------

  /** The local variables of a `Calculate` overload: inputs a..e, x, y, hash. */
  datatype Reg = A | B | C | D | E | X | Y | H

  datatype File = File(a: Word, b: Word, c: Word, d: Word, e: Word, x: Word, y: Word, h: Word)
  {
    function Get(r: Reg): Word
    {
      match r
      case A => a
      case B => b
      case C => c
      case D => d
      case E => e
      case X => x
      case Y => y
      case H => h
    }

    function Set(r: Reg, v: Word): File
    {
      match r
      case A => this.(a := v)
      case B => this.(b := v)
      case C => this.(c := v)
      case D => this.(d := v)
      case E => this.(e := v)
      case X => this.(x := v)
      case Y => this.(y := v)
      case H => this.(h := v)
    }
  }

  /** One `Hashmix(ref fst, ref snd, ref hash)` call of an overload. */
  datatype Call = Call(fst: Reg, snd: Reg)

  /** A call never passes the same local twice, nor `hash` as its first two arguments. */
  predicate ValidCall(p: Call)
  {
    p.fst != p.snd && p.fst != H && p.snd != H
  }

  predicate ValidSchedule(s: seq<Call>)
  {
    forall i :: 0 <= i < |s| ==> ValidCall(s[i])
  }

  function Step(f: File, p: Call): File
    requires ValidCall(p)
  {
    var m := Mix(Regs(f.Get(p.fst), f.Get(p.snd), f.h));
    f.Set(p.fst, m.a).Set(p.snd, m.b).Set(H, m.c)
  }

  function UnStep(f: File, p: Call): File
    requires ValidCall(p)
  {
    var m := Unmix(Regs(f.Get(p.fst), f.Get(p.snd), f.h));
    f.Set(p.fst, m.a).Set(p.snd, m.b).Set(H, m.c)
  }

  /**
   * The effect of calls `k` onwards of a schedule: each call sees the
   * registers left by the previous one.
   */
  function Run(f: File, s: seq<Call>, k: nat): File
    requires ValidSchedule(s) && k <= |s|
    decreases |s| - k
  {
    if k == |s| then f else Run(Step(f, s[k]), s, k + 1)
  }

  /** Undoes calls `k` onwards, last call first. */
  function UnRun(f: File, s: seq<Call>, k: nat): File
    requires ValidSchedule(s) && k <= |s|
    decreases |s| - k
  {
    if k == |s| then f else UnStep(UnRun(f, s, k + 1), s[k])
  }

  lemma GetSet(f: File, r: Reg, v: Word)
    ensures forall q :: f.Set(r, v).Get(q) == if q == r then v else f.Get(q)
  {
  }

  lemma SameRegisters(f: File, g: File)
    requires forall q :: f.Get(q) == g.Get(q)
    ensures f == g
  {
    assert f.Get(A) == g.Get(A) && f.Get(B) == g.Get(B) && f.Get(C) == g.Get(C) && f.Get(D) == g.Get(D);
    assert f.Get(E) == g.Get(E) && f.Get(X) == g.Get(X) && f.Get(Y) == g.Get(Y) && f.Get(H) == g.Get(H);
  }

  lemma StepInverse(f: File, p: Call)
    requires ValidCall(p)
    ensures UnStep(Step(f, p), p) == f
  {
    var r := Regs(f.Get(p.fst), f.Get(p.snd), f.h);
    var m := Mix(r);
    MixInverse(r);
    var g1 := f.Set(p.fst, m.a);
    var g2 := g1.Set(p.snd, m.b);
    var g := g2.Set(H, m.c);
    GetSet(f, p.fst, m.a);
    GetSet(g1, p.snd, m.b);
    GetSet(g2, H, m.c);
    assert Regs(g.Get(p.fst), g.Get(p.snd), g.h) == m;
    var u1 := g.Set(p.fst, r.a);
    var u2 := u1.Set(p.snd, r.b);
    var u := u2.Set(H, r.c);
    GetSet(g, p.fst, r.a);
    GetSet(u1, p.snd, r.b);
    GetSet(u2, H, r.c);
    SameRegisters(u, f);
  }

  /** Every overload's register file evolves bijectively: its start state can be recovered. */
  lemma {:induction false} RunInverse(f: File, s: seq<Call>, k: nat)
    requires ValidSchedule(s) && k <= |s|
    ensures UnRun(Run(f, s, k), s, k) == f
    decreases |s| - k
  {
    if k < |s| {
      RunInverse(Step(f, s[k]), s, k + 1);
      StepInverse(f, s[k]);
    }
  }

  lemma RunInjective(f: File, g: File, s: seq<Call>)
    requires ValidSchedule(s)
    requires Run(f, s, 0) == Run(g, s, 0)
    ensures f == g
  {
    RunInverse(f, s, 0);
    RunInverse(g, s, 0);
  }

  /** The exact `Hashmix` calls of the overload with `n` inputs, in order. */
  function Schedule(n: nat): (s: seq<Call>)
    requires 1 <= n <= 5
    ensures ValidSchedule(s)
  {
    if n == 1 then [Call(B, X), Call(Y, A)]
    else if n == 2 then [Call(A, B), Call(X, A), Call(B, Y)]
    else if n == 3 then [Call(A, B), Call(C, X), Call(Y, A), Call(B, X), Call(Y, C)]
    else if n == 4 then [Call(A, B), Call(C, D), Call(A, X), Call(Y, B), Call(C, X), Call(Y, D)]
    else [Call(A, B), Call(C, D), Call(E, X), Call(Y, A), Call(B, X), Call(Y, C), Call(D, X), Call(Y, E)]
  }

  /** `HashSeed ^ in[0] ^ ... ^ in[k-1]`, xored left to right as the source writes it. */
  function Seeded(inputs: seq<Word>, k: nat): Word
    requires k <= |inputs|
  {
    if k == 0 then HashSeed else Xor(Seeded(inputs, k - 1), inputs[k - 1])
  }

  function InputOr(inputs: seq<Word>, i: nat, otherwise: Word): Word
  {
    if i < |inputs| then inputs[i] else otherwise
  }

  /**
   * The locals of an overload before its first mix: the inputs in a..e (the
   * one-input overload also copies `a` into `b`; unused locals are 0), the
   * auxiliary constants in x and y, and the seeded accumulator in hash.
   */
  function Start(inputs: seq<Word>): File
    requires 1 <= |inputs| <= 5
  {
    File(inputs[0], InputOr(inputs, 1, inputs[0]), InputOr(inputs, 2, 0), InputOr(inputs, 3, 0),
         InputOr(inputs, 4, 0), X0, Y0, Seeded(inputs, |inputs|))
  }

  /** `Hash.Calculate` on one to five inputs, as a function. */
  function HashOf(inputs: seq<Word>): Word
    requires 1 <= |inputs| <= 5
  {
    Run(Start(inputs), Schedule(|inputs|), 0).h
  }

  lemma {:induction false} SeededZeros(inputs: seq<Word>, k: nat)
    requires k <= |inputs|
    requires forall i :: 0 <= i < |inputs| ==> inputs[i] == 0
    ensures Seeded(inputs, k) == HashSeed
  {
    if k > 0 {
      SeededZeros(inputs, k - 1);
      XorZero(HashSeed);
    }
  }

  /**
   * The seeding: the accumulator starts at HashSeed xor all inputs, so with
   * all-zero inputs it is 1315423911 and not 0; x and y start at 231232 and 1232.
   */
  lemma SeedOfZeroInputs(inputs: seq<Word>)
    requires 1 <= |inputs| <= 5
    requires forall i :: 0 <= i < |inputs| ==> inputs[i] == 0
    ensures Start(inputs).h == 1315423911
    ensures Start(inputs).x == 231232 && Start(inputs).y == 1232
  {
    SeededZeros(inputs, |inputs|);
  }

  lemma StartInjective(in1: seq<Word>, in2: seq<Word>)
    requires 1 <= |in1| == |in2| <= 5
    requires Start(in1) == Start(in2)
    ensures in1 == in2
  {
    var n := |in1|;
    assert n > 1 ==> in1[1] == in2[1] by { assert InputOr(in1, 1, in1[0]) == InputOr(in2, 1, in2[0]); }
    assert n > 2 ==> in1[2] == in2[2] by { assert InputOr(in1, 2, 0) == InputOr(in2, 2, 0); }
    assert n > 3 ==> in1[3] == in2[3] by { assert InputOr(in1, 3, 0) == InputOr(in2, 3, 0); }
    assert n > 4 ==> in1[4] == in2[4] by { assert InputOr(in1, 4, 0) == InputOr(in2, 4, 0); }
  }

  /** The full final register file of an overload determines its inputs. */
  lemma FinalRegistersDetermineInputs(in1: seq<Word>, in2: seq<Word>)
    requires 1 <= |in1| == |in2| <= 5
    requires Run(Start(in1), Schedule(|in1|), 0) == Run(Start(in2), Schedule(|in2|), 0)
    ensures in1 == in2
  {
    RunInjective(Start(in1), Start(in2), Schedule(|in1|));
    StartInjective(in1, in2);
  }

  // ---------------------------------------------------------------------------
  // The five overloads, with the source's ref threading
  // ---------------------------------------------------------------------------

  /**
   * One call of an overload: if `g` is the register file after mixing the
   * scheduled pair of `f` into `m`, the rest of the run from `g` is the rest
   * of the run from `f`.
   */
  lemma RunStep(f: File, s: seq<Call>, k: nat, m: Regs, g: File)
    requires ValidSchedule(s) && k < |s|
    requires m == Mix(Regs(f.Get(s[k].fst), f.Get(s[k].snd), f.h))
    requires g == f.Set(s[k].fst, m.a).Set(s[k].snd, m.b).Set(H, m.c)
    ensures Run(f, s, k) == Run(g, s, k + 1)
  {
  }

  /** `Hash.Calculate` with 1 input, threading the locals through `Hashmix` as the source does. */
  method Calculate1(a0: Word) returns (hash: Word)
    ensures hash == HashOf([a0])
  {
    var a := a0;
    hash := Xor(HashSeed, a);
    var b := a;
    var x: Word := 231232;
    var y: Word := 1232;
    ghost var inputs := [a0];
    ghost var s := Schedule(1);
    assert Seeded(inputs, 1) == Xor(Seeded(inputs, 0), a0);
    ghost var f := File(a, b, 0, 0, 0, x, y, hash);
    assert f == Start(inputs);
    b, x, hash := Hashmix(b, x, hash);
    RunStep(f, s, 0, Regs(b, x, hash), File(a, b, 0, 0, 0, x, y, hash));
    f := File(a, b, 0, 0, 0, x, y, hash);
    y, a, hash := Hashmix(y, a, hash);
    RunStep(f, s, 1, Regs(y, a, hash), File(a, b, 0, 0, 0, x, y, hash));
    f := File(a, b, 0, 0, 0, x, y, hash);
  }

  /** `Hash.Calculate` with 2 inputs, threading the locals through `Hashmix` as the source does. */
  method Calculate2(a0: Word, b0: Word) returns (hash: Word)
    ensures hash == HashOf([a0, b0])
  {
    var a, b := a0, b0;
    hash := Xor(Xor(HashSeed, a), b);
    var x: Word := 231232;
    var y: Word := 1232;
    ghost var inputs := [a0, b0];
    ghost var s := Schedule(2);
    assert Seeded(inputs, 1) == Xor(Seeded(inputs, 0), a0);
    assert Seeded(inputs, 2) == Xor(Seeded(inputs, 1), b0);
    ghost var f := File(a, b, 0, 0, 0, x, y, hash);
    assert f == Start(inputs);
    a, b, hash := Hashmix(a, b, hash);
    RunStep(f, s, 0, Regs(a, b, hash), File(a, b, 0, 0, 0, x, y, hash));
    f := File(a, b, 0, 0, 0, x, y, hash);
    x, a, hash := Hashmix(x, a, hash);
    RunStep(f, s, 1, Regs(x, a, hash), File(a, b, 0, 0, 0, x, y, hash));
    f := File(a, b, 0, 0, 0, x, y, hash);
    b, y, hash := Hashmix(b, y, hash);
    RunStep(f, s, 2, Regs(b, y, hash), File(a, b, 0, 0, 0, x, y, hash));
    f := File(a, b, 0, 0, 0, x, y, hash);
  }

  /** `Hash.Calculate` with 3 inputs, threading the locals through `Hashmix` as the source does. */
  method Calculate3(a0: Word, b0: Word, c0: Word) returns (hash: Word)
    ensures hash == HashOf([a0, b0, c0])
  {
    var a, b, c := a0, b0, c0;
    hash := Xor(Xor(Xor(HashSeed, a), b), c);
    var x: Word := 231232;
    var y: Word := 1232;
    ghost var inputs := [a0, b0, c0];
    ghost var s := Schedule(3);
    assert Seeded(inputs, 1) == Xor(Seeded(inputs, 0), a0);
    assert Seeded(inputs, 2) == Xor(Seeded(inputs, 1), b0);
    assert Seeded(inputs, 3) == Xor(Seeded(inputs, 2), c0);
    ghost var f := File(a, b, c, 0, 0, x, y, hash);
    assert f == Start(inputs);
    a, b, hash := Hashmix(a, b, hash);
    RunStep(f, s, 0, Regs(a, b, hash), File(a, b, c, 0, 0, x, y, hash));
    f := File(a, b, c, 0, 0, x, y, hash);
    c, x, hash := Hashmix(c, x, hash);
    RunStep(f, s, 1, Regs(c, x, hash), File(a, b, c, 0, 0, x, y, hash));
    f := File(a, b, c, 0, 0, x, y, hash);
    y, a, hash := Hashmix(y, a, hash);
    RunStep(f, s, 2, Regs(y, a, hash), File(a, b, c, 0, 0, x, y, hash));
    f := File(a, b, c, 0, 0, x, y, hash);
    b, x, hash := Hashmix(b, x, hash);
    RunStep(f, s, 3, Regs(b, x, hash), File(a, b, c, 0, 0, x, y, hash));
    f := File(a, b, c, 0, 0, x, y, hash);
    y, c, hash := Hashmix(y, c, hash);
    RunStep(f, s, 4, Regs(y, c, hash), File(a, b, c, 0, 0, x, y, hash));
    f := File(a, b, c, 0, 0, x, y, hash);
  }

  /** `Hash.Calculate` with 4 inputs, threading the locals through `Hashmix` as the source does. */
  method Calculate4(a0: Word, b0: Word, c0: Word, d0: Word) returns (hash: Word)
    ensures hash == HashOf([a0, b0, c0, d0])
  {
    var a, b, c, d := a0, b0, c0, d0;
    hash := Xor(Xor(Xor(Xor(HashSeed, a), b), c), d);
    var x: Word := 231232;
    var y: Word := 1232;
    ghost var inputs := [a0, b0, c0, d0];
    ghost var s := Schedule(4);
    assert Seeded(inputs, 1) == Xor(Seeded(inputs, 0), a0);
    assert Seeded(inputs, 2) == Xor(Seeded(inputs, 1), b0);
    assert Seeded(inputs, 3) == Xor(Seeded(inputs, 2), c0);
    assert Seeded(inputs, 4) == Xor(Seeded(inputs, 3), d0);
    ghost var f := File(a, b, c, d, 0, x, y, hash);
    assert f == Start(inputs);
    a, b, hash := Hashmix(a, b, hash);
    RunStep(f, s, 0, Regs(a, b, hash), File(a, b, c, d, 0, x, y, hash));
    f := File(a, b, c, d, 0, x, y, hash);
    c, d, hash := Hashmix(c, d, hash);
    RunStep(f, s, 1, Regs(c, d, hash), File(a, b, c, d, 0, x, y, hash));
    f := File(a, b, c, d, 0, x, y, hash);
    a, x, hash := Hashmix(a, x, hash);
    RunStep(f, s, 2, Regs(a, x, hash), File(a, b, c, d, 0, x, y, hash));
    f := File(a, b, c, d, 0, x, y, hash);
    y, b, hash := Hashmix(y, b, hash);
    RunStep(f, s, 3, Regs(y, b, hash), File(a, b, c, d, 0, x, y, hash));
    f := File(a, b, c, d, 0, x, y, hash);
    c, x, hash := Hashmix(c, x, hash);
    RunStep(f, s, 4, Regs(c, x, hash), File(a, b, c, d, 0, x, y, hash));
    f := File(a, b, c, d, 0, x, y, hash);
    y, d, hash := Hashmix(y, d, hash);
    RunStep(f, s, 5, Regs(y, d, hash), File(a, b, c, d, 0, x, y, hash));
    f := File(a, b, c, d, 0, x, y, hash);
  }

  /** `Hash.Calculate` with 5 inputs, threading the locals through `Hashmix` as the source does. */
  method Calculate5(a0: Word, b0: Word, c0: Word, d0: Word, e0: Word) returns (hash: Word)
    ensures hash == HashOf([a0, b0, c0, d0, e0])
  {
    var a, b, c, d, e := a0, b0, c0, d0, e0;
    hash := Xor(Xor(Xor(Xor(Xor(HashSeed, a), b), c), d), e);
    var x: Word := 231232;
    var y: Word := 1232;
    ghost var inputs := [a0, b0, c0, d0, e0];
    ghost var s := Schedule(5);
    assert Seeded(inputs, 1) == Xor(Seeded(inputs, 0), a0);
    assert Seeded(inputs, 2) == Xor(Seeded(inputs, 1), b0);
    assert Seeded(inputs, 3) == Xor(Seeded(inputs, 2), c0);
    assert Seeded(inputs, 4) == Xor(Seeded(inputs, 3), d0);
    assert Seeded(inputs, 5) == Xor(Seeded(inputs, 4), e0);
    ghost var f := File(a, b, c, d, e, x, y, hash);
    assert f == Start(inputs);
    a, b, hash := Hashmix(a, b, hash);
    RunStep(f, s, 0, Regs(a, b, hash), File(a, b, c, d, e, x, y, hash));
    f := File(a, b, c, d, e, x, y, hash);
    c, d, hash := Hashmix(c, d, hash);
    RunStep(f, s, 1, Regs(c, d, hash), File(a, b, c, d, e, x, y, hash));
    f := File(a, b, c, d, e, x, y, hash);
    e, x, hash := Hashmix(e, x, hash);
    RunStep(f, s, 2, Regs(e, x, hash), File(a, b, c, d, e, x, y, hash));
    f := File(a, b, c, d, e, x, y, hash);
    y, a, hash := Hashmix(y, a, hash);
    RunStep(f, s, 3, Regs(y, a, hash), File(a, b, c, d, e, x, y, hash));
    f := File(a, b, c, d, e, x, y, hash);
    b, x, hash := Hashmix(b, x, hash);
    RunStep(f, s, 4, Regs(b, x, hash), File(a, b, c, d, e, x, y, hash));
    f := File(a, b, c, d, e, x, y, hash);
    y, c, hash := Hashmix(y, c, hash);
    RunStep(f, s, 5, Regs(y, c, hash), File(a, b, c, d, e, x, y, hash));
    f := File(a, b, c, d, e, x, y, hash);
    d, x, hash := Hashmix(d, x, hash);
    RunStep(f, s, 6, Regs(d, x, hash), File(a, b, c, d, e, x, y, hash));
    f := File(a, b, c, d, e, x, y, hash);
    y, e, hash := Hashmix(y, e, hash);
    RunStep(f, s, 7, Regs(y, e, hash), File(a, b, c, d, e, x, y, hash));
    f := File(a, b, c, d, e, x, y, hash);
  }
}
