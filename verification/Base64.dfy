/** Section 4 of RFC 4648, with padding; decoding accepts exactly what encoding produces. */
module Base64 {
  import opened Wrappers
  import opened Bytes
  import opened TextUtil

  type sextet = x: int | 0 <= x < 64

  function Symbol(x: sextet): char {
    if x < 26 then (x + 'A' as int) as char
    else if x < 52 then (x - 26 + 'a' as int) as char
    else if x < 62 then (x - 52 + '0' as int) as char
    else if x == 62 then '+' else '/'
  }

  function SextetOf(c: char): Option<sextet> {
    if 'A' <= c <= 'Z' then Some(c as int - 'A' as int)
    else if 'a' <= c <= 'z' then Some(c as int - 'a' as int + 26)
    else if '0' <= c <= '9' then Some(c as int - '0' as int + 52)
    else if c == '+' then Some(62)
    else if c == '/' then Some(63)
    else None
  }

  /** The alphabet of table 1. */
  lemma SymbolsListed(x: sextet)
    ensures Symbol(x) == (UPPERS + LOWERS + DIGITS + "+/")[x]
  {
    LettersInOrder();
    hide UPPERS;
    hide LOWERS;
    hide DIGITS;
  }

  lemma SymbolRoundTrip(x: sextet)
    ensures SextetOf(Symbol(x)) == Some(x)
  {
  }

  lemma SextetRoundTrip(c: char)
    requires SextetOf(c).Some?
    ensures Symbol(SextetOf(c).value) == c && c != '='
  {
  }

  /** Three bytes as four symbols. */
  function EncodeGroup(a: byte, b: byte, c: byte): string {
    [Symbol(a / 4), Symbol(a % 4 * 16 + b / 16), Symbol(b % 16 * 4 + c / 64), Symbol(c % 64)]
  }

  /** Four sextets as three bytes. */
  function Group(p: sextet, q: sextet, r: sextet, t: sextet): seq<byte> {
    [p as int * 4 + q / 16, q as int % 16 * 16 + r / 4, r as int % 4 * 64 + t]
  }

  function Encode(b: seq<byte>): string {
    if |b| == 0 then ""
    else if |b| == 1 then [Symbol(b[0] / 4), Symbol(b[0] % 4 * 16), '=', '=']
    else if |b| == 2 then [Symbol(b[0] / 4), Symbol(b[0] % 4 * 16 + b[1] / 16), Symbol(b[1] % 16 * 4), '=']
    else EncodeGroup(b[0], b[1], b[2]) + Encode(b[3..])
  }

  /** The bytes of a padded last group; bits that are cut off must be zero. */
  function DecodeLast(s: string): Option<seq<byte>>
    requires |s| == 4 && s[3] == '='
  {
    var (p, q) := (SextetOf(s[0]), SextetOf(s[1]));
    if p == None || q == None then None
    else if s[2] == '=' then
      if q.value % 16 != 0 then None else Some([p.value * 4 + q.value / 16])
    else
      var r := SextetOf(s[2]);
      if r == None || r.value % 4 != 0 then None
      else Some([p.value * 4 + q.value / 16, q.value % 16 * 16 + r.value / 4])
  }

  function Decode(s: string): Option<seq<byte>> {
    if s == "" then Some([])
    else if |s| < 4 then None
    else if |s| == 4 && s[3] == '=' then DecodeLast(s)
    else
      var (p, q, r, t) := (SextetOf(s[0]), SextetOf(s[1]), SextetOf(s[2]), SextetOf(s[3]));
      var rest := Decode(s[4..]);
      if p == None || q == None || r == None || t == None || rest == None then None
      else Some(Group(p.value, q.value, r.value, t.value) + rest.value)
  }

  lemma GroupRoundTrip(a: byte, b: byte, c: byte)
    ensures a / 4 * 4 + (a % 4 * 16 + b / 16) / 16 == a
    ensures (a % 4 * 16 + b / 16) % 16 * 16 + (b % 16 * 4 + c / 64) / 4 == b
    ensures (b % 16 * 4 + c / 64) % 4 * 64 + c % 64 == c
  {
  }

  lemma OneByteRoundTrip(a: byte)
    ensures Decode(Encode([a])) == Some([a])
  {
    SymbolRoundTrip(a / 4);
    SymbolRoundTrip(a % 4 * 16);
    hide Symbol;
    hide SextetOf;
    var s := [Symbol(a / 4), Symbol(a % 4 * 16), '=', '='];
    assert Encode([a]) == s;
    assert Decode(s) == DecodeLast(s);
    assert a / 4 * 4 + a % 4 * 16 / 16 == a;
  }

  lemma TwoBytesRoundTrip(a: byte, b: byte)
    ensures Decode(Encode([a, b])) == Some([a, b])
  {
    SymbolRoundTrip(a / 4);
    SymbolRoundTrip(a % 4 * 16 + b / 16);
    SymbolRoundTrip(b % 16 * 4);
    SextetRoundTrip(Symbol(b % 16 * 4));
    GroupRoundTrip(a, b, 0);
    hide Symbol;
    hide SextetOf;
    var s := [Symbol(a / 4), Symbol(a % 4 * 16 + b / 16), Symbol(b % 16 * 4), '='];
    assert Encode([a, b]) == s;
    assert Decode(s) == DecodeLast(s);
  }

  lemma DecodeStep(s: string, rest: string)
    requires |s| == 4 && (forall i :: 0 <= i < 4 ==> SextetOf(s[i]).Some?) && Decode(rest).Some?
    ensures Decode(s + rest)
            == Some(Group(SextetOf(s[0]).value, SextetOf(s[1]).value, SextetOf(s[2]).value, SextetOf(s[3]).value)
                    + Decode(rest).value)
  {
    SextetRoundTrip(s[3]);
    hide SextetOf;
    hide Group;
    var t := s + rest;
    assert t[4..] == rest;
    assert t[0] == s[0] && t[1] == s[1] && t[2] == s[2] && t[3] == s[3];
  }

  lemma GroupDecodes(a: byte, b: byte, c: byte, rest: string)
    requires Decode(rest).Some?
    ensures Decode(EncodeGroup(a, b, c) + rest) == Some([a, b, c] + Decode(rest).value)
  {
    SymbolRoundTrip(a / 4);
    SymbolRoundTrip(a % 4 * 16 + b / 16);
    SymbolRoundTrip(b % 16 * 4 + c / 64);
    SymbolRoundTrip(c % 64);
    GroupRoundTrip(a, b, c);
    hide Symbol;
    hide SextetOf;
    hide Decode;
    DecodeStep(EncodeGroup(a, b, c), rest);
  }

  lemma {:induction false} DecodeEncode(b: seq<byte>)
    ensures Decode(Encode(b)) == Some(b)
  {
    if |b| == 1 {
      OneByteRoundTrip(b[0]);
      assert b == [b[0]];
    } else if |b| == 2 {
      TwoBytesRoundTrip(b[0], b[1]);
      assert b == [b[0], b[1]];
    } else if |b| > 2 {
      DecodeEncode(b[3..]);
      assert b == [b[0], b[1], b[2]] + b[3..];
      assert Encode(b) == EncodeGroup(b[0], b[1], b[2]) + Encode(b[3..]);
      hide Decode;
      GroupDecodes(b[0], b[1], b[2], Encode(b[3..]));
    }
  }

  lemma GroupCanonical(p: sextet, q: sextet, r: sextet, t: sextet)
    ensures var g := Group(p, q, r, t);
            var (a, b, c) := (g[0], g[1], g[2]);
            a / 4 == p && a % 4 * 16 + b / 16 == q && b % 16 * 4 + c / 64 == r && c % 64 == t
  {
  }

  lemma LastCanonical(s: string)
    requires |s| == 4 && s[3] == '=' && DecodeLast(s).Some?
    ensures Encode(DecodeLast(s).value) == s
  {
    SextetRoundTrip(s[0]);
    SextetRoundTrip(s[1]);
    var p, q := SextetOf(s[0]).value, SextetOf(s[1]).value;
    if s[2] == '=' {
      GroupCanonical(p, q, 0, 0);
      assert s == [s[0], s[1], '=', '='];
    } else {
      SextetRoundTrip(s[2]);
      GroupCanonical(p, q, SextetOf(s[2]).value, 0);
      assert s == [s[0], s[1], s[2], '='];
    }
  }

  lemma FullGroupCanonical(s: string)
    requires |s| == 4 && forall i :: 0 <= i < 4 ==> SextetOf(s[i]).Some?
    ensures var g := Group(SextetOf(s[0]).value, SextetOf(s[1]).value, SextetOf(s[2]).value, SextetOf(s[3]).value);
            EncodeGroup(g[0], g[1], g[2]) == s
  {
    SextetRoundTrip(s[0]);
    SextetRoundTrip(s[1]);
    SextetRoundTrip(s[2]);
    SextetRoundTrip(s[3]);
    GroupCanonical(SextetOf(s[0]).value, SextetOf(s[1]).value, SextetOf(s[2]).value, SextetOf(s[3]).value);
    assert s == [s[0], s[1], s[2], s[3]];
  }

  lemma {:induction false} EncodeDecode(s: string)
    requires Decode(s).Some?
    ensures Encode(Decode(s).value) == s
  {
    if s == "" {
    } else if |s| == 4 && s[3] == '=' {
      LastCanonical(s);
    } else {
      EncodeDecode(s[4..]);
      var rest := Decode(s[4..]).value;
      assert s == s[..4] + s[4..];
      FullGroupCanonical(s[..4]);
      assert Decode(s).value[3..] == rest;
    }
  }

  /** Two of the test vectors of section 10. */
  lemma TestVectors()
    ensures Encode([0x66]) == "Zg==" && Encode([0x66, 0x6F, 0x6F, 0x62, 0x61, 0x72]) == "Zm9vYmFy"
  {
    assert [0x66, 0x6F, 0x6F, 0x62, 0x61, 0x72][3..] == [0x62, 0x61, 0x72] && [0x62, 0x61, 0x72][3..] == [];
    assert EncodeGroup(0x66, 0x6F, 0x6F) == "Zm9v" && EncodeGroup(0x62, 0x61, 0x72) == "YmFy";
    assert Encode([0x62, 0x61, 0x72]) == "YmFy";
  }

  predicate IsSymbol(c: char) {
    SextetOf(c).Some? || c == '='
  }

  lemma {:induction false} EncodeUsesSymbols(b: seq<byte>)
    ensures forall i :: 0 <= i < |Encode(b)| ==> IsSymbol(Encode(b)[i])
  {
    if |b| > 2 {
      EncodeUsesSymbols(b[3..]);
    }
  }

  /** Four symbols for every three bytes begun. */
  lemma {:induction false} EncodedLength(b: seq<byte>, groups: nat)
    requires 3 * groups < |b| <= 3 * groups + 3
    ensures |Encode(b)| == 4 * groups + 4
    decreases groups
  {
    hide Symbol;
    if groups > 0 {
      EncodedLength(b[3..], groups - 1);
    } else if |b| == 3 {
      assert Encode(b[3..]) == "";
    }
  }
}
