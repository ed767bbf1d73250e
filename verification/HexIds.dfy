/** The 32-digit hexadecimal form of a node identifier (types/node_id.go, String and
    NewNodeIDFromString). */
module HexIds {
  import opened Bits
  import opened NodeIds

  predicate IsHex(c: char) {
    '0' <= c <= '9' || 'a' <= c <= 'f'
  }

  function Digit(d: nat): (c: char)
    requires d < 16
    ensures IsHex(c)
  {
    if d < 10 then '0' + d as char else 'a' + (d - 10) as char
  }

  function DigitValue(c: char): (d: nat)
    requires IsHex(c)
    ensures d < 16
  {
    if c <= '9' then (c - '0') as nat else (c - 'a') as nat + 10
  }

  /** `%0nx` for a number of at most `n` digits. */
  function Hex(x: nat, n: nat): (s: string)
    ensures |s| == n && forall c :: c in s ==> IsHex(c)
  {
    if n == 0 then "" else Hex(x / 16, n - 1) + [Digit(x % 16)]
  }

  /** `strconv.ParseUint(s, 16, 64)` on a string of hex digits. */
  function ParseHex(s: string): (x: nat)
    requires forall c :: c in s ==> IsHex(c)
  {
    if s == "" then 0 else ParseHex(s[..|s| - 1]) * 16 + DigitValue(s[|s| - 1])
  }

  function Pow16(n: nat): nat {
    if n == 0 then 1 else 16 * Pow16(n - 1)
  }

  lemma {:induction false} ParseHexOfHex(x: nat, n: nat)
    requires x < Pow16(n)
    ensures ParseHex(Hex(x, n)) == x
  {
    if n > 0 {
      ParseHexOfHex(x / 16, n - 1);
      var s := Hex(x, n);
      assert s[..|s| - 1] == Hex(x / 16, n - 1);
    }
  }

  lemma DigitOfValue(c: char)
    requires IsHex(c)
    ensures Digit(DigitValue(c)) == c
  {}

  lemma HexAppend(x: nat, d: nat, n: nat)
    requires d < 16
    ensures Hex(x * 16 + d, n + 1) == Hex(x, n) + [Digit(d)]
    ensures x < Pow16(n) ==> x * 16 + d < Pow16(n + 1)
  {
    assert (x * 16 + d) / 16 == x && (x * 16 + d) % 16 == d;
  }

  lemma {:induction false} HexOfParseHex(s: string)
    requires forall c :: c in s ==> IsHex(c)
    ensures ParseHex(s) < Pow16(|s|) && Hex(ParseHex(s), |s|) == s
  {
    if s != "" {
      var n := |s| - 1;
      var t, c := s[..n], s[n];
      hide ParseHex, Hex, Pow16, Digit, DigitValue;
      assert t + [c] == s;
      ParseAppend(s);
      HexOfParseHex(t);
      DigitOfValue(c);
      HexAppend(ParseHex(t), DigitValue(c), n);
    }
  }

  lemma ParseAppend(s: string)
    requires s != "" && forall c :: c in s ==> IsHex(c)
    ensures ParseHex(s) == ParseHex(s[..|s| - 1]) * 16 + DigitValue(s[|s| - 1])
  {}

  lemma Pow16Word()
    ensures Pow16(16) == W
  {
    assert Pow16(8) == 0x1_0000_0000;
    assert Pow16(12) == 0x1_0000_0000_0000;
  }

  function Print(n: NodeID): string {
    match n
    case Normal(id0, id1) => Hex(id0, 16) + Hex(id1, 16)
    case Local => "local"
    case Neighborhoods => "neighbor"
  }

  predicate WellFormed(s: string) {
    |s| == 32 && forall c :: c in s ==> IsHex(c)
  }

  function Parse(s: string): (r: Option<NodeID>)
    ensures r.Some? <==> WellFormed(s)
    ensures r.Some? ==> r.value.Normal?
  {
    if WellFormed(s) then
      HexOfParseHex(s[..16]);
      HexOfParseHex(s[16..]);
      Pow16Word();
      Some(Normal(ParseHex(s[..16]), ParseHex(s[16..])))
    else None
  }

  /** Printing then parsing gives the identifier back. */
  lemma ParseOfPrint(n: NodeID)
    requires n.Normal?
    ensures WellFormed(Print(n)) && Parse(Print(n)) == Some(n)
  {
    Pow16Word();
    ParseHexOfHex(n.id0, 16);
    ParseHexOfHex(n.id1, 16);
    assert Print(n)[..16] == Hex(n.id0, 16) && Print(n)[16..] == Hex(n.id1, 16);
  }

  /** Parsing then printing gives the string back; the reserved names never parse. */
  lemma PrintOfParse(s: string)
    ensures Parse(s).Some? ==> Print(Parse(s).value) == s
    ensures s == Print(Local) || s == Print(Neighborhoods) ==> Parse(s).None?
  {
    if WellFormed(s) {
      HexOfParseHex(s[..16]);
      HexOfParseHex(s[16..]);
      assert s[..16] + s[16..] == s;
    }
  }

  /** The parser with the source's validation loop. */
  method NewNodeIDFromString(s: string) returns (r: Option<NodeID>)
    ensures r == Parse(s)
  {
    if |s| != 32 {
      return None;
    }
    for i := 0 to |s|
      invariant forall j :: 0 <= j < i ==> IsHex(s[j])
    {
      if !IsHex(s[i]) {
        assert s[i] in s;
        return None;
      }
    }
    return Parse(s);
  }
}
