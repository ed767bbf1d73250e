/** Ring positions as numbers below 2^128, clockwise distance, and ordered sequences of positions.
    The bridge lemmas tie each notion to the two-word operations of types/node_id.go. */
module Ring {
  import opened NodeIds
  import HexIds

  type Id = x: nat | x < M

  /** A point of the plane on which nodes also have positions. */
  type Pos = (real, real)

  /** Clockwise distance: how far to go up the ring from `a` to reach `b`. */
  function Cw(a: Id, b: Id): (d: Id) {
    if a <= b then b - a else b - a + M
  }

  function Dist(a: Id, b: Id): nat {
    RingDistance(a, b)
  }

  /** The identifier operations, read through `Value`, are the ring operations used from here on. */
  lemma Bridge(a: NodeID, b: NodeID)
    requires a.Normal? && b.Normal?
    ensures Value(Sub(b, a)) == Cw(Value(a), Value(b))
    ensures Value(DistanceFrom(a, b)) == Dist(Value(a), Value(b))
    ensures Smaller(a, b) <==> Value(a) < Value(b)
    ensures a == b <==> Value(a) == Value(b)
  {
    hide Sub, DistanceFrom, Add;
    AddSubCorrect(b, a);
    DistanceCorrect(a, b);
    SmallerIsNumeric(a, b);
    if Value(a) == Value(b) { ValueInjective(a, b); }
  }

  /** Key of a node in a routing packet. */
  function Key(x: Id): string {
    HexIds.Print(FromValue(x))
  }

  function ParseKey(s: string): Option<Id> {
    match HexIds.Parse(s)
    case None => None
    case Some(n) => Some(Value(n))
  }

  lemma KeyRoundTrip(x: Id)
    ensures ParseKey(Key(x)) == Some(x)
  {
    HexIds.ParseOfPrint(FromValue(x));
  }

  lemma ParseKeyRoundTrip(s: string)
    ensures ParseKey(s).Some? ==> Key(ParseKey(s).value) == s
  {
    HexIds.PrintOfParse(s);
    if HexIds.Parse(s).Some? {
      ValueInjective(FromValue(ParseKey(s).value), HexIds.Parse(s).value);
    }
  }

  // ---------------------------------------------------------------- ordered sequences

  function Elems(s: seq<Id>): set<Id> {
    set x | x in s
  }

  /** Strictly increasing by clockwise distance from `base`; with base 0 this is numeric order. */
  ghost predicate Ordered(base: Id, s: seq<Id>) {
    forall i, j :: 0 <= i < j < |s| ==> Cw(base, s[i]) < Cw(base, s[j])
  }

  lemma {:induction false} OrderedUnique(base: Id, p: seq<Id>, q: seq<Id>)
    requires Ordered(base, p) && Ordered(base, q) && Elems(p) == Elems(q)
    ensures p == q
  {
    if p == [] {
      OrderedCard(base, q);
    } else {
      assert p[0] in Elems(p);
      assert q != [];
      assert q[0] in Elems(q);
      assert p[0] in q && q[0] in p;
      var i :| 0 <= i < |q| && q[i] == p[0];
      var j :| 0 <= j < |p| && p[j] == q[0];
      assert p[0] == q[0];
      forall x | x in p[1..] ensures x in q[1..] { TailMember(base, p, q, x); }
      forall x | x in q[1..] ensures x in p[1..] { TailMember(base, q, p, x); }
      OrderedUnique(base, p[1..], q[1..]);
    }
  }

  lemma TailMember(base: Id, p: seq<Id>, q: seq<Id>, x: Id)
    requires Ordered(base, p) && p != [] && q != [] && p[0] == q[0] && Elems(p) == Elems(q)
    requires x in p[1..]
    ensures x in q[1..]
  {
    var i :| 0 <= i < |p[1..]| && p[1..][i] == x;
    assert Cw(base, p[0]) < Cw(base, p[i + 1]);
    assert x in Elems(p);
    assert x in q && x != q[0];
  }

  lemma {:induction false} OrderedCard(base: Id, s: seq<Id>)
    requires Ordered(base, s)
    ensures |Elems(s)| == |s|
  {
    if s != [] {
      OrderedCard(base, s[1..]);
      assert s[0] !in s[1..];
      assert Elems(s) == {s[0]} + Elems(s[1..]);
    }
  }

  /** Insertion into numeric order, the step of the sort. */
  function Insert(x: Id, s: seq<Id>): (r: seq<Id>) {
    if s == [] || x <= s[0] then [x] + s else [s[0]] + Insert(x, s[1..])
  }

  lemma {:induction false} InsertElems(x: Id, s: seq<Id>)
    ensures Elems(Insert(x, s)) == Elems(s) + {x}
  {
    if s == [] || x <= s[0] {
    } else {
      InsertElems(x, s[1..]);
      assert Elems(s) == Elems(s[1..]) + {s[0]};
      assert Elems(Insert(x, s)) == Elems(Insert(x, s[1..])) + {s[0]};
    }
  }

  lemma {:induction false} InsertOrdered(x: Id, s: seq<Id>)
    requires Ordered(0, s) && x !in s
    ensures Ordered(0, Insert(x, s))
  {
    if s == [] || x <= s[0] {
    } else {
      InsertOrdered(x, s[1..]);
      var t := Insert(x, s[1..]);
      InsertElems(x, s[1..]);
      forall i | 0 <= i < |t| ensures s[0] < t[i] {
        assert t[i] in Elems(t);
      }
    }
  }

  /** `SortNodeIDs` over the keys of a map, visited in any order. */
  method SortNodeIDs(ids: set<Id>) returns (s: seq<Id>)
    ensures Ordered(0, s) && Elems(s) == ids
  {
    s := [];
    var todo := ids;
    while todo != {}
      invariant todo <= ids
      invariant Ordered(0, s) && Elems(s) == ids - todo
    {
      var x :| x in todo;
      assert x !in Elems(s);
      InsertOrdered(x, s);
      InsertElems(x, s);
      s := Insert(x, s);
      todo := todo - {x};
    }
  }
}
