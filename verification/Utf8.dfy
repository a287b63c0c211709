/** Section 3 of RFC 3629: encoding, and the strict decoding `str::from_utf8` does. */
module Utf8 {
  import opened Wrappers
  import opened Bytes

  function EncodeChar(c: char): (r: seq<byte>)
    ensures 1 <= |r| <= 4
  {
    var v := c as int;
    if v < 0x80 then [v]
    else if v < 0x800 then [0xC0 + v / 64, 0x80 + v % 64]
    else if v < 0x1_0000 then [0xE0 + v / 4096, 0x80 + v / 64 % 64, 0x80 + v % 64]
    else [0xF0 + v / 262144, 0x80 + v / 4096 % 64, 0x80 + v / 64 % 64, 0x80 + v % 64]
  }

  function Encode(s: string): seq<byte> {
    if s == "" then [] else EncodeChar(s[0]) + Encode(s[1..])
  }

  /** The first and the last of the examples in section 7. */
  lemma Examples()
    ensures Encode("A\U{2262}\U{0391}.") == [0x41, 0xE2, 0x89, 0xA2, 0xCE, 0x91, 0x2E]
    ensures EncodeChar('\U{FEFF}') + EncodeChar('\U{233B4}') == [0xEF, 0xBB, 0xBF, 0xF0, 0xA3, 0x8E, 0xB4]
  {
    var s := "A\U{2262}\U{0391}.";
    assert s[1..][1..] == s[2..] && s[2..][1..] == s[3..] && s[3..][1..] == "";
    assert Encode(s[3..]) == [0x2E];
    assert Encode(s[2..]) == [0xCE, 0x91] + Encode(s[3..]);
    assert Encode(s[1..]) == [0xE2, 0x89, 0xA2] + Encode(s[2..]);
  }

  predicate Continues(b: seq<byte>, n: nat) {
    n < |b| && 0x80 <= b[n] < 0xC0
  }

  /** The value the first `n` bytes spell, without any check of its range. */
  function Spelled(b: seq<byte>, n: nat): nat
    requires 1 <= n <= 4 && n <= |b|
    requires n == 2 ==> b[0] >= 0xC0 && Continues(b, 1)
    requires n == 3 ==> b[0] >= 0xE0 && Continues(b, 1) && Continues(b, 2)
    requires n == 4 ==> b[0] >= 0xF0 && Continues(b, 1) && Continues(b, 2) && Continues(b, 3)
  {
    if n == 1 then b[0]
    else if n == 2 then (b[0] as int - 0xC0) * 64 + (b[1] as int - 0x80)
    else if n == 3 then ((b[0] as int - 0xE0) * 64 + (b[1] as int - 0x80)) * 64 + (b[2] as int - 0x80)
    else (((b[0] as int - 0xF0) * 64 + (b[1] as int - 0x80)) * 64 + (b[2] as int - 0x80)) * 64 + (b[3] as int - 0x80)
  }

  /** The first character and its length. Overlong forms, surrogates and values beyond U+10FFFF are errors. */
  function DecodeFirst(b: seq<byte>): Option<(char, nat)>
    requires b != []
  {
    if b[0] < 0x80 then Some((b[0] as char, 1))
    else if 0xC0 <= b[0] < 0xE0 && Continues(b, 1) then
      var v := Spelled(b, 2);
      if v < 0x80 then None else Some((v as char, 2))
    else if 0xE0 <= b[0] < 0xF0 && Continues(b, 1) && Continues(b, 2) then
      var v := Spelled(b, 3);
      if v < 0x800 || 0xD800 <= v < 0xE000 then None else Some((v as char, 3))
    else if 0xF0 <= b[0] < 0xF8 && Continues(b, 1) && Continues(b, 2) && Continues(b, 3) then
      var v := Spelled(b, 4);
      if v < 0x1_0000 || v >= 0x11_0000 then None else Some((v as char, 4))
    else None
  }

  function Decode(b: seq<byte>): Option<string> {
    if b == [] then Some("")
    else
      var first := DecodeFirst(b);
      if first == None || first.value.1 > |b| || first.value.1 == 0 then None
      else
        var rest := Decode(b[first.value.1..]);
        if rest == None then None else Some([first.value.0] + rest.value)
  }

  // Base 64: the digits of a value give it back, and its digits are what it was put together from.

  lemma Digits2(v: nat)
    ensures v / 64 * 64 + v % 64 == v
  {
  }

  lemma Digits3(v: nat)
    ensures v / 4096 == v / 64 / 64
    ensures (v / 4096 * 64 + v / 64 % 64) * 64 + v % 64 == v
  {
    Digits2(v / 64);
  }

  lemma Digits4(v: nat)
    ensures v / 262144 == v / 64 / 4096
    ensures ((v / 262144 * 64 + v / 4096 % 64) * 64 + v / 64 % 64) * 64 + v % 64 == v
  {
    Digits3(v / 64);
    assert v / 4096 == v / 64 / 64;
  }

  lemma Join2(p: nat, q: nat)
    requires q < 64
    ensures (p * 64 + q) / 64 == p && (p * 64 + q) % 64 == q
  {
  }

  lemma Join3(p: nat, q: nat, r: nat)
    requires q < 64 && r < 64
    ensures var v := (p * 64 + q) * 64 + r;
            v / 4096 == p && v / 64 % 64 == q && v % 64 == r
  {
    Join2(p * 64 + q, r);
    Join2(p, q);
    Digits3((p * 64 + q) * 64 + r);
  }

  lemma Join4(p: nat, q: nat, r: nat, t: nat)
    requires q < 64 && r < 64 && t < 64
    ensures var v := ((p * 64 + q) * 64 + r) * 64 + t;
            v / 262144 == p && v / 4096 % 64 == q && v / 64 % 64 == r && v % 64 == t
  {
    var v := ((p * 64 + q) * 64 + r) * 64 + t;
    Join2((p * 64 + q) * 64 + r, t);
    Join3(p, q, r);
    Digits4(v);
    Digits3(v);
  }

  lemma FirstRoundTrip(c: char, rest: seq<byte>)
    ensures DecodeFirst(EncodeChar(c) + rest) == Some((c, |EncodeChar(c)|))
  {
    var v := c as int;
    var b := EncodeChar(c) + rest;
    if v < 0x80 {
    } else if v < 0x800 {
      Digits2(v);
      assert b[0] == 0xC0 + v / 64 && b[1] == 0x80 + v % 64;
      assert Spelled(b, 2) == v;
    } else if v < 0x1_0000 {
      Digits3(v);
      assert b[0] == 0xE0 + v / 4096 && b[1] == 0x80 + v / 64 % 64 && b[2] == 0x80 + v % 64;
      assert Spelled(b, 3) == v;
    } else {
      Digits4(v);
      assert b[0] == 0xF0 + v / 262144 && b[1] == 0x80 + v / 4096 % 64;
      assert b[2] == 0x80 + v / 64 % 64 && b[3] == 0x80 + v % 64;
      assert Spelled(b, 4) == v;
    }
  }

  /** Only the encoding of a character decodes to it. */
  lemma FirstIsCanonical(b: seq<byte>)
    requires b != [] && DecodeFirst(b).Some?
    ensures var (c, n) := DecodeFirst(b).value; 1 <= n <= |b| && EncodeChar(c) == b[..n]
  {
    var n := DecodeFirst(b).value.1;
    if n == 1 {
      assert b[..1] == [b[0]];
    } else if n == 2 {
      Join2(b[0] as int - 0xC0, b[1] as int - 0x80);
      assert b[..2] == [b[0], b[1]];
    } else if n == 3 {
      Join3(b[0] as int - 0xE0, b[1] as int - 0x80, b[2] as int - 0x80);
      assert b[..3] == [b[0], b[1], b[2]];
    } else {
      Join4(b[0] as int - 0xF0, b[1] as int - 0x80, b[2] as int - 0x80, b[3] as int - 0x80);
      assert b[..4] == [b[0], b[1], b[2], b[3]];
    }
  }

  lemma {:induction false} DecodeEncode(s: string)
    ensures Decode(Encode(s)) == Some(s)
  {
    if s != "" {
      FirstRoundTrip(s[0], Encode(s[1..]));
      hide DecodeFirst;
      hide EncodeChar;
      DecodeEncode(s[1..]);
      assert Encode(s)[|EncodeChar(s[0])|..] == Encode(s[1..]);
      assert s == [s[0]] + s[1..];
    }
  }

  lemma DecodeNothing()
    ensures Decode([]) == Some("") && Encode("") == []
  {
  }

  lemma DecodeStep(b: seq<byte>)
    requires b != [] && Decode(b).Some?
    ensures DecodeFirst(b).Some?
    ensures var (c, n) := DecodeFirst(b).value;
            0 < n <= |b| && Decode(b[n..]).Some? && Decode(b).value == [c] + Decode(b[n..]).value
  {
    hide DecodeFirst;
  }

  lemma EncodeStep(c: char, s: string)
    ensures Encode([c] + s) == EncodeChar(c) + Encode(s)
  {
    hide EncodeChar;
    assert ([c] + s)[1..] == s;
  }

  lemma {:induction false} EncodeDecode(b: seq<byte>)
    requires Decode(b).Some?
    ensures Encode(Decode(b).value) == b
  {
    DecodeNothing();
    hide *;
    if b != [] {
      DecodeStep(b);
      FirstIsCanonical(b);
      var (c, n) := DecodeFirst(b).value;
      EncodeDecode(b[n..]);
      EncodeStep(c, Decode(b[n..]).value);
      assert b == b[..n] + b[n..];
    }
  }

  lemma {:induction false} EncodeConcat(s: string, t: string)
    ensures Encode(s + t) == Encode(s) + Encode(t)
  {
    if s == "" {
      assert s + t == t;
    } else {
      assert (s + t)[1..] == s[1..] + t;
      EncodeConcat(s[1..], t);
    }
  }

  lemma {:induction false} AsciiIsOneByteEach(s: string)
    requires forall i :: 0 <= i < |s| ==> s[i] as int < 0x80
    ensures |Encode(s)| == |s|
  {
    if s != "" {
      AsciiIsOneByteEach(s[1..]);
    }
  }
}
