/** Node identifiers (types/node_id.go): a 128-bit ring position kept in two 64-bit halves, and the
    two reserved identifiers. `Value` is the ring position; everything below is related to it. */
module NodeIds {
  import opened Bits

  const M: nat := 0x1_0000_0000_0000_0000_0000_0000_0000_0000

  datatype Option<+T> = None | Some(value: T)

  /** Constructors in the order of the source's type tags, which `Smaller` compares first. */
  datatype NodeID = Normal(id0: U64, id1: U64) | Local | Neighborhoods

  function Join(h: U64, l: U64): (v: nat)
    ensures v < M
  {
    h * W + l
  }

  function Value(n: NodeID): (v: nat)
    requires n.Normal?
    ensures v < M
  {
    Join(n.id0, n.id1)
  }

  function FromValue(v: nat): (n: NodeID)
    requires v < M
    ensures n.Normal? && Value(n) == v
  {
    Normal(v / W, v % W)
  }

  lemma ValueInjective(a: NodeID, b: NodeID)
    requires a.Normal? && b.Normal? && Value(a) == Value(b)
    ensures a == b
  {
    DivModUnique(Value(a), W, a.id0, a.id1);
    DivModUnique(Value(b), W, b.id0, b.id1);
  }

  // ---------------------------------------------------------------- addition

  /** Addition on the ring of 2^128 positions. */
  function Plus(x: nat, y: nat): (r: nat)
    requires x < M && y < M
    ensures r < M
  {
    if x + y < M then x + y else x + y - M
  }

  function Minus(x: nat, y: nat): (r: nat)
    requires x < M && y < M
    ensures r < M
  {
    if y <= x then x - y else x - y + M
  }

  lemma RingIsModular(x: nat, y: nat)
    requires x < M && y < M
    ensures Plus(x, y) == (x + y) % M && Minus(x, y) == (x - y) % M
  {}

  /** Lower word of the sum and its carry. */
  function LowWord(a: U64, b: U64): (r: (U64, nat))
    ensures r.1 < 2 && a + b == r.0 + r.1 * W
  {
    hide Low63, Merge63, Top1;
    var c := Add64(Low63(a), Low63(b));
    var d := Top1(a) + Top1(b) + Top1(c);
    LowCarry(a, b, c, d);
    (Merge63(d, c), d / 2)
  }

  /** Upper word of the sum and the carry that falls off the ring. */
  function HighWord(a: U64, b: U64, carry: nat): (r: (U64, nat))
    requires carry < 2
    ensures r.1 < 2 && a + b + carry == r.0 + r.1 * W
  {
    hide Low62, Merge62, Top2;
    var c := Add64(Add64(Low62(a), Low62(b)), carry);
    var d := Top2(a) + Top2(b) + Top2(c);
    HighCarry(a, b, carry, c, d);
    (Merge62(d, c), d / 4)
  }

  /** Two-word addition with hand-made carries: it is addition modulo 2^128. */
  function AddMod(a0: U64, a1: U64, b0: U64, b1: U64): (r: (U64, U64))
    ensures Join(r.0, r.1) == Plus(Join(a0, a1), Join(b0, b1))
  {
    hide LowWord, HighWord;
    var (r1, carry) := LowWord(a1, b1);
    var (r0, lost) := HighWord(a0, b0, carry);
    CarryLaw(a0, a1, b0, b1, r0, r1, carry, lost);
    (r0, r1)
  }

  lemma CarryLaw(a0: U64, a1: U64, b0: U64, b1: U64, r0: U64, r1: U64, low: nat, high: nat)
    requires low < 2 && high < 2
    requires a1 + b1 == r1 + low * W
    requires a0 + b0 + low == r0 + high * W
    ensures Join(r0, r1) == Plus(Join(a0, a1), Join(b0, b1))
  {
    assert Join(a0, a1) + Join(b0, b1) == Join(r0, r1) + high * M;
  }

  lemma LowCarry(a: U64, b: U64, c: nat, d: nat)
    requires c == (a % P63 + b % P63) % W
    requires d == a / P63 + b / P63 + c / P63
    ensures d < 4 && a + b == (d % 2) * P63 + c % P63 + (d / 2) * W
  {}

  lemma HighCarry(a: U64, b: U64, carry: nat, c: nat, d: nat)
    requires carry < 2
    requires c == ((a % P62 + b % P62) % W + carry) % W
    requires d == a / P62 + b / P62 + c / P62
    ensures d < 16 && d / 4 < 2 && a + b + carry == (d % 4) * P62 + c % P62 + (d / 4) * W
  {
    assert c == a % P62 + b % P62 + carry;
    assert a + b + carry == d * P62 + c % P62;
  }

  function Add(n: NodeID, o: NodeID): (r: NodeID)
    requires n.Normal? && o.Normal?
    ensures r.Normal?
  {
    var (r0, r1) := AddMod(n.id0, n.id1, o.id0, o.id1);
    Normal(r0, r1)
  }

  function Sub(n: NodeID, o: NodeID): (r: NodeID)
    requires n.Normal? && o.Normal?
    ensures r.Normal?
  {
    var (r0, r1) := AddMod(n.id0, n.id1, Not64(o.id0), Not64(o.id1));
    var (s0, s1) := AddMod(r0, r1, 0, 1);
    Normal(s0, s1)
  }

  /** Add and Sub are addition and subtraction modulo 2^128, and they undo each other. */
  lemma AddSubCorrect(n: NodeID, o: NodeID)
    requires n.Normal? && o.Normal?
    ensures Value(Add(n, o)) == Plus(Value(n), Value(o))
    ensures Value(Sub(n, o)) == Minus(Value(n), Value(o))
    ensures Sub(Add(n, o), o) == n && Add(Sub(n, o), o) == n
  {
    hide AddMod;
    AddSubValues(n, o);
    AddSubValues(Add(n, o), o);
    AddSubValues(Sub(n, o), o);
    ValueInjective(Sub(Add(n, o), o), n);
    ValueInjective(Add(Sub(n, o), o), n);
  }

  lemma AddSubValues(n: NodeID, o: NodeID)
    requires n.Normal? && o.Normal?
    ensures Value(Add(n, o)) == Plus(Value(n), Value(o))
    ensures Value(Sub(n, o)) == Minus(Value(n), Value(o))
  {
    hide AddMod;
    assert Join(Not64(o.id0), Not64(o.id1)) == M - 1 - Value(o);
  }

  // ---------------------------------------------------------------- order

  function Rank(n: NodeID): nat {
    match n
    case Normal(_, _) => 2
    case Local => 3
    case Neighborhoods => 4
  }

  predicate Smaller(n: NodeID, o: NodeID) {
    if Rank(n) != Rank(o) then Rank(n) < Rank(o)
    else if !n.Normal? then false
    else if n.id0 != o.id0 then n.id0 < o.id0
    else n.id1 < o.id1
  }

  function Compare(n: NodeID, o: NodeID): int {
    if n == o then 0 else if Smaller(n, o) then -1 else 1
  }

  /** On ring positions the order is the numeric one. */
  lemma SmallerIsNumeric(n: NodeID, o: NodeID)
    requires n.Normal? && o.Normal?
    ensures Smaller(n, o) <==> Value(n) < Value(o)
    ensures Compare(n, o) == 0 <==> Value(n) == Value(o)
  {
    if n.id0 < o.id0 {
      assert (n.id0 + 1) * W <= o.id0 * W;
    } else if o.id0 < n.id0 {
      assert (o.id0 + 1) * W <= n.id0 * W;
    }
    if Value(n) == Value(o) { ValueInjective(n, o); }
  }

  /** `Smaller` is a strict total order on all identifiers, and `Compare` agrees with it both ways. */
  lemma SmallerIsStrictTotal(a: NodeID, b: NodeID, c: NodeID)
    ensures !Smaller(a, a)
    ensures Smaller(a, b) && Smaller(b, c) ==> Smaller(a, c)
    ensures a != b <==> (Smaller(a, b) || Smaller(b, a))
    ensures !(Smaller(a, b) && Smaller(b, a))
    ensures Compare(a, b) == -Compare(b, a)
  {
  }

  // ---------------------------------------------------------------- distance

  function DistanceFrom(n: NodeID, o: NodeID): (r: NodeID)
    requires n.Normal? && o.Normal?
    ensures r.Normal?
  {
    var (a0, a1, b0, b1) :=
      if Smaller(n, o) then (o.id0, o.id1, Not64(n.id0), Not64(n.id1))
      else (n.id0, n.id1, Not64(o.id0), Not64(o.id1));
    var (s0, s1) := AddMod(a0, a1, b0, b1);
    var (t0, t1) := AddMod(s0, s1, 0, 1);
    if t0 >= 0x8000_0000_0000_0000 then
      var (u0, u1) := AddMod(Not64(t0), Not64(t1), 0, 1);
      Normal(u0, u1)
    else
      Normal(t0, t1)
  }

  function RingDistance(a: nat, b: nat): nat
    requires a < M && b < M
  {
    var d := if a < b then b - a else a - b;
    if d <= M - d then d else M - d
  }

  /** DistanceFrom is the shorter way round the ring. */
  lemma DistanceCorrect(n: NodeID, o: NodeID)
    requires n.Normal? && o.Normal?
    ensures Value(DistanceFrom(n, o)) == RingDistance(Value(n), Value(o))
  {
    hide AddMod;
    SmallerIsNumeric(n, o);
    var (x, y) := if Smaller(n, o) then (o, n) else (n, o);
    var (s0, s1) := AddMod(x.id0, x.id1, Not64(y.id0), Not64(y.id1));
    assert Join(Not64(y.id0), Not64(y.id1)) == M - 1 - Value(y);
    var (t0, t1) := AddMod(s0, s1, 0, 1);
    assert Join(t0, t1) == Value(x) - Value(y);
    assert Join(Not64(t0), Not64(t1)) == M - 1 - Join(t0, t1);
  }

  lemma RingTriangle(a: nat, b: nat, c: nat)
    requires a < M && b < M && c < M
    ensures RingDistance(a, c) <= RingDistance(a, b) + RingDistance(b, c)
  {}

  /** DistanceFrom is a metric on ring positions, bounded by half the ring. */
  lemma DistanceIsMetric(a: NodeID, b: NodeID, c: NodeID)
    requires a.Normal? && b.Normal? && c.Normal?
    ensures Value(DistanceFrom(a, b)) == 0 <==> a == b
    ensures DistanceFrom(a, b) == DistanceFrom(b, a)
    ensures Value(DistanceFrom(a, c)) <= Value(DistanceFrom(a, b)) + Value(DistanceFrom(b, c))
    ensures 2 * Value(DistanceFrom(a, b)) <= M
  {
    hide DistanceFrom;
    DistanceCorrect(a, b);
    DistanceCorrect(b, a);
    DistanceCorrect(b, c);
    DistanceCorrect(a, c);
    RingTriangle(Value(a), Value(b), Value(c));
    if Value(a) == Value(b) { ValueInjective(a, b); }
    ValueInjective(DistanceFrom(a, b), DistanceFrom(b, a));
  }
}
