/** Objects printed by the grammar of RFC 8259 (sections 2 to 7), and what the scanner makes of them. */
module JsonGrammar {
  import opened Wrappers
  import opened Bytes
  import opened JsonScan

  /** A character of a string: a plain byte (multi-byte characters are runs of them), a two-character escape,
      or `\u` with four hexadecimal digits. */
  datatype StringItem = Plain(b: byte) | Escape(b: byte) | Unicode(digits: seq<byte>)

  /** `before` and `after` are white space around the structural characters. */
  datatype Json =
    | Atom(text: seq<byte>)
    | Str(items: seq<StringItem>)
    | Arr(inside: seq<byte>, elems: Elems)
    | Obj(inside: seq<byte>, members: Members)

  datatype Elems = NoElems | Elem(before: seq<byte>, value: Json, after: seq<byte>, rest: Elems)

  datatype Members =
    | NoMembers
    | Member(before: seq<byte>, key: seq<StringItem>, afterKey: seq<byte>, beforeValue: seq<byte>, value: Json,
             after: seq<byte>, rest: Members)

  // ----- grammar

  predicate IsSpace(b: byte) {
    b == 0x20 || b == 0x09 || b == 0x0A || b == 0x0D
  }

  predicate AllSpace(s: seq<byte>) {
    forall i :: 0 <= i < |s| ==> IsSpace(s[i])
  }

  predicate IsHexDigit(b: byte) {
    0x30 <= b <= 0x39 || 0x41 <= b <= 0x46 || 0x61 <= b <= 0x66
  }

  /** After a backslash: quote, backslash, slash, b, f, n, r, t. */
  predicate IsEscapable(b: byte) {
    b in {0x22, 0x5C, 0x2F, 0x62, 0x66, 0x6E, 0x72, 0x74}
  }

  predicate ItemOk(c: StringItem) {
    match c
    case Plain(b) => b >= 0x20 && b != QUOTE && b != BACKSLASH
    case Escape(b) => IsEscapable(b)
    case Unicode(d) => |d| == 4 && forall i :: 0 <= i < 4 ==> IsHexDigit(d[i])
  }

  predicate ItemsOk(s: seq<StringItem>) {
    forall i :: 0 <= i < |s| ==> ItemOk(s[i])
  }

  /** Letters, digits, signs and points: every number and the three literal names, and more. */
  predicate AtomByte(b: byte) {
    0x30 <= b <= 0x39 || 0x41 <= b <= 0x5A || 0x61 <= b <= 0x7A || b == 0x2B || b == 0x2D || b == 0x2E
  }

  predicate JsonOk(v: Json) {
    match v
    case Atom(t) => t != [] && forall i :: 0 <= i < |t| ==> AtomByte(t[i])
    case Str(items) => ItemsOk(items)
    case Arr(w, es) => AllSpace(w) && ElemsOk(es)
    case Obj(w, ms) => AllSpace(w) && MembersOk(ms)
  }

  predicate ElemsOk(es: Elems) {
    es.Elem? ==> AllSpace(es.before) && AllSpace(es.after) && JsonOk(es.value) && ElemsOk(es.rest)
  }

  predicate MembersOk(ms: Members) {
    ms.Member? ==>
      AllSpace(ms.before) && AllSpace(ms.afterKey) && AllSpace(ms.beforeValue) && AllSpace(ms.after)
      && ItemsOk(ms.key) && JsonOk(ms.value) && MembersOk(ms.rest)
  }

  // ----- printing

  function PrintItem(c: StringItem): seq<byte> {
    match c
    case Plain(b) => [b]
    case Escape(b) => [BACKSLASH, b]
    case Unicode(d) => [BACKSLASH, 0x75] + d
  }

  function PrintItems(s: seq<StringItem>): seq<byte> {
    if s == [] then [] else PrintItem(s[0]) + PrintItems(s[1..])
  }

  function PrintString(s: seq<StringItem>): seq<byte> {
    [QUOTE] + (PrintItems(s) + [QUOTE])
  }

  function Print(v: Json): seq<byte> {
    match v
    case Atom(t) => t
    case Str(items) => PrintString(items)
    case Arr(w, es) => [LBRACKET] + (w + (PrintElems(es) + [RBRACKET]))
    case Obj(w, ms) => [LBRACE] + (w + (PrintMembers(ms) + [RBRACE]))
  }

  function PrintElems(es: Elems): seq<byte> {
    match es
    case NoElems => []
    case Elem(before, value, after, rest) =>
      before + (Print(value) + (after + ((if rest == NoElems then [] else [COMMA]) + PrintElems(rest))))
  }

  function PrintMembers(ms: Members): seq<byte> {
    match ms
    case NoMembers => []
    case Member(before, key, afterKey, beforeValue, value, after, rest) =>
      before + (PrintString(key) + (afterKey + ([COLON] + (beforeValue + (Print(value)
        + (after + ((if rest == NoMembers then [] else [COMMA]) + PrintMembers(rest))))))))
  }

  /** How deep objects nest. */
  function Nesting(v: Json): nat {
    match v
    case Atom(_) => 0
    case Str(_) => 0
    case Arr(_, es) => ElemsNesting(es)
    case Obj(_, ms) => 1 + MembersNesting(ms)
  }

  function Max(a: nat, b: nat): nat {
    if a < b then b else a
  }

  function ElemsNesting(es: Elems): nat {
    if es.NoElems? then 0 else Max(Nesting(es.value), ElemsNesting(es.rest))
  }

  function MembersNesting(ms: Members): nat {
    if ms.NoMembers? then 0 else Max(Nesting(ms.value), MembersNesting(ms.rest))
  }

  // ----- the scanner over printed text

  /** The scanner `d` braces deep, outside strings. */
  function Deep(d: nat): Lexer {
    Lexer(Wrap32(d), false, false)
  }

  /** Beyond this depth the 32-bit counter comes round to zero too early. */
  const LIMIT: nat := 0x1_0000_0000

  /** Text that nests `n` braces: passed over unless the counter comes round inside it. */
  ghost predicate PassedOver(s: seq<byte>, d: nat, n: nat) {
    if d + n <= LIMIT then Scan(Deep(d), s) == None && Fed(Deep(d), s) == Deep(d)
    else Scan(Deep(d), s).Some?
  }

  lemma Concat(a: seq<byte>, m: nat, b: seq<byte>, n: nat, d: nat)
    requires PassedOver(a, d, m) && PassedOver(b, d, n)
    ensures PassedOver(a + b, d, Max(m, n))
  {
    ScanConcat(Deep(d), a, b);
  }

  /** Text the scanner ignores outside strings. */
  predicate Inert(s: seq<byte>) {
    forall i :: 0 <= i < |s| ==> s[i] != QUOTE && s[i] != LBRACE && s[i] != RBRACE
  }

  lemma {:induction false} InertIsPassedOver(s: seq<byte>, d: nat)
    requires Inert(s) && d <= LIMIT
    ensures PassedOver(s, d, 0)
  {
    if s != [] {
      assert Feed(Deep(d), s[0]) == Deep(d);
      InertIsPassedOver(s[1..], d);
    }
  }

  lemma {:induction false} ItemsStayInString(s: seq<StringItem>, l: Lexer)
    requires ItemsOk(s) && l.inString && !l.escaped
    ensures Scan(l, PrintItems(s)) == None && Fed(l, PrintItems(s)) == l
  {
    if s != [] {
      ItemStaysInString(s[0], l);
      ItemsStayInString(s[1..], l);
      ScanConcat(l, PrintItem(s[0]), PrintItems(s[1..]));
    }
  }

  lemma ItemStaysInString(c: StringItem, l: Lexer)
    requires ItemOk(c) && l.inString && !l.escaped
    ensures Scan(l, PrintItem(c)) == None && Fed(l, PrintItem(c)) == l
  {
    match c
    case Plain(b) => OneByte(l, b);
    case Escape(b) => TwoBytes(l, BACKSLASH, b);
    case Unicode(d) =>
      TwoBytes(l, BACKSLASH, 0x75);
      ScanConcat(l, [BACKSLASH, 0x75], d);
      HexDigitsStay(d, l);
  }

  lemma OneByte(l: Lexer, a: byte)
    ensures Fed(l, [a]) == Feed(l, a)
    ensures Scan(l, [a]) == if Closes(l, a) then Some(0) else None
  {
    assert [a][1..] == [];
  }

  lemma TwoBytes(l: Lexer, a: byte, b: byte)
    requires !Closes(l, a) && !Closes(Feed(l, a), b)
    ensures Scan(l, [a, b]) == None && Fed(l, [a, b]) == Feed(Feed(l, a), b)
  {
    OneByte(Feed(l, a), b);
    assert [a, b][1..] == [b];
  }

  lemma {:induction false} HexDigitsStay(d: seq<byte>, l: Lexer)
    requires (forall i :: 0 <= i < |d| ==> IsHexDigit(d[i])) && l.inString && !l.escaped
    ensures Scan(l, d) == None && Fed(l, d) == l
  {
    if d != [] {
      HexDigitsStay(d[1..], l);
    }
  }

  lemma StringIsPassedOver(s: seq<StringItem>, d: nat)
    requires ItemsOk(s) && d <= LIMIT
    ensures PassedOver(PrintString(s), d, 0)
  {
    var inside := Deep(d).(inString := true);
    ItemsStayInString(s, inside);
    OneByte(inside, QUOTE);
    ScanConcat(inside, PrintItems(s), [QUOTE]);
    OneByte(Deep(d), QUOTE);
    ScanConcat(Deep(d), [QUOTE], PrintItems(s) + [QUOTE]);
  }

  lemma BraceSteps(d: nat)
    requires d <= LIMIT
    ensures Feed(Deep(d), LBRACE) == Deep(d + 1) && !Closes(Deep(d), LBRACE)
    ensures Feed(Deep(d + 1), RBRACE) == Deep(d)
    ensures Closes(Deep(d + 1), RBRACE) <==> d == 0 || d == LIMIT
  {
  }

  /** A brace pair around text nested `n` deep. */
  lemma BracesAround(s: seq<byte>, n: nat, d: nat)
    requires 0 < d < LIMIT && PassedOver(s, d + 1, n)
    ensures PassedOver([LBRACE] + (s + [RBRACE]), d, n + 1)
  {
    BraceSteps(d);
    OneByte(Deep(d), LBRACE);
    OneByte(Deep(d + 1), RBRACE);
    ScanConcat(Deep(d), [LBRACE], s + [RBRACE]);
    ScanConcat(Deep(d + 1), s, [RBRACE]);
  }

  /** From counter zero the pair is where the scan stops, unless it stops inside. */
  lemma BracesStop(s: seq<byte>, n: nat)
    requires PassedOver(s, 1, n)
    ensures n < LIMIT ==> Scan(START, [LBRACE] + (s + [RBRACE])) == Some(|s| + 1)
    ensures n >= LIMIT ==> Scan(START, [LBRACE] + (s + [RBRACE])).Some?
                           && Scan(START, [LBRACE] + (s + [RBRACE])).value <= |s|
  {
    BraceSteps(0);
    OneByte(START, LBRACE);
    OneByte(Deep(1), RBRACE);
    ScanConcat(START, [LBRACE], s + [RBRACE]);
    ScanConcat(Deep(1), s, [RBRACE]);
  }

  lemma {:induction false} ValueIsPassedOver(v: Json, d: nat)
    requires JsonOk(v) && 0 < d <= LIMIT
    ensures PassedOver(Print(v), d, Nesting(v))
    decreases v
  {
    match v
    case Atom(t) => InertIsPassedOver(t, d);
    case Str(items) => StringIsPassedOver(items, d);
    case Arr(w, es) =>
      InertIsPassedOver([LBRACKET], d);
      InertIsPassedOver(w, d);
      InertIsPassedOver([RBRACKET], d);
      ElemsArePassedOver(es, d);
      Concat(PrintElems(es), ElemsNesting(es), [RBRACKET], 0, d);
      Concat(w, 0, PrintElems(es) + [RBRACKET], ElemsNesting(es), d);
      Concat([LBRACKET], 0, w + (PrintElems(es) + [RBRACKET]), ElemsNesting(es), d);
    case Obj(w, ms) => ObjectIsPassedOver(w, ms, d);
  }

  lemma {:induction false} ObjectIsPassedOver(w: seq<byte>, ms: Members, d: nat)
    requires AllSpace(w) && MembersOk(ms) && 0 < d <= LIMIT
    ensures PassedOver(Print(Obj(w, ms)), d, 1 + MembersNesting(ms))
    decreases ms, 1
  {
    var inner := if d < LIMIT then d + 1 else 1;
    InertIsPassedOver(w, inner);
    MembersArePassedOver(ms, inner);
    Concat(w, 0, PrintMembers(ms), MembersNesting(ms), inner);
    assert Print(Obj(w, ms)) == [LBRACE] + ((w + PrintMembers(ms)) + [RBRACE]);
    if d < LIMIT {
      BracesAround(w + PrintMembers(ms), MembersNesting(ms), d);
    } else {
      BracesStop(w + PrintMembers(ms), MembersNesting(ms));
      assert Deep(LIMIT) == START;
    }
  }

  lemma {:induction false} ElemsArePassedOver(es: Elems, d: nat)
    requires ElemsOk(es) && 0 < d <= LIMIT
    ensures PassedOver(PrintElems(es), d, ElemsNesting(es))
    decreases es, 0
  {
    match es
    case NoElems => InertIsPassedOver([], d);
    case Elem(before, value, after, rest) =>
      var comma := if rest == NoElems then [] else [COMMA];
      InertIsPassedOver(before, d);
      InertIsPassedOver(after, d);
      InertIsPassedOver(comma, d);
      ValueIsPassedOver(value, d);
      ElemsArePassedOver(rest, d);
      Concat(comma, 0, PrintElems(rest), ElemsNesting(rest), d);
      Concat(after, 0, comma + PrintElems(rest), ElemsNesting(rest), d);
      Concat(Print(value), Nesting(value), after + (comma + PrintElems(rest)), ElemsNesting(rest), d);
      Concat(before, 0, Print(value) + (after + (comma + PrintElems(rest))), ElemsNesting(es), d);
  }

  lemma {:induction false} MembersArePassedOver(ms: Members, d: nat)
    requires MembersOk(ms) && 0 < d <= LIMIT
    ensures PassedOver(PrintMembers(ms), d, MembersNesting(ms))
    decreases ms, 0
  {
    match ms
    case NoMembers => InertIsPassedOver([], d);
    case Member(before, key, afterKey, beforeValue, value, after, rest) =>
      var comma := if rest == NoMembers then [] else [COMMA];
      InertIsPassedOver(after, d);
      InertIsPassedOver(comma, d);
      ValueIsPassedOver(value, d);
      MembersArePassedOver(rest, d);
      var n := MembersNesting(rest);
      var tail := after + (comma + PrintMembers(rest));
      Concat(comma, 0, PrintMembers(rest), n, d);
      Concat(after, 0, comma + PrintMembers(rest), n, d);
      Concat(Print(value), Nesting(value), tail, n, d);
      KeyIsPassedOver(before, key, afterKey, beforeValue, Print(value) + tail, MembersNesting(ms), d);
  }

  /** A member's key and colon in front of the rest. */
  lemma KeyIsPassedOver(before: seq<byte>, key: seq<StringItem>, afterKey: seq<byte>, beforeValue: seq<byte>,
                        rest: seq<byte>, n: nat, d: nat)
    requires AllSpace(before) && AllSpace(afterKey) && AllSpace(beforeValue) && ItemsOk(key)
    requires 0 < d <= LIMIT && PassedOver(rest, d, n)
    ensures PassedOver(before + (PrintString(key) + (afterKey + ([COLON] + (beforeValue + rest)))), d, n)
  {
    InertIsPassedOver(before, d);
    InertIsPassedOver(afterKey, d);
    InertIsPassedOver([COLON], d);
    InertIsPassedOver(beforeValue, d);
    StringIsPassedOver(key, d);
    Concat(beforeValue, 0, rest, n, d);
    Concat([COLON], 0, beforeValue + rest, n, d);
    Concat(afterKey, 0, [COLON] + (beforeValue + rest), n, d);
    Concat(PrintString(key), 0, afterKey + ([COLON] + (beforeValue + rest)), n, d);
    Concat(before, 0, PrintString(key) + (afterKey + ([COLON] + (beforeValue + rest))), n, d);
  }

  // ----- the main result

  lemma {:induction false} FirstBraceAfter(prefix: seq<byte>, rest: seq<byte>)
    requires LBRACE !in prefix && rest != [] && rest[0] == LBRACE
    ensures FirstBrace(prefix + rest) == |prefix|
  {
    if prefix != [] {
      assert (prefix + rest)[1..] == prefix[1..] + rest;
      FirstBraceAfter(prefix[1..], rest);
    } else {
      assert prefix + rest == rest;
    }
  }

  /** The scan of a printed object stops inside it or at its end; at its end exactly when the counter never
      comes round. */
  lemma ObjectIsScanned(w: seq<byte>, ms: Members)
    requires JsonOk(Obj(w, ms))
    ensures var obj := Print(Obj(w, ms));
            obj != [] && obj[0] == LBRACE && Scan(START, obj).Some?
            && (Scan(START, obj).value + 1 == |obj| <==> Nesting(Obj(w, ms)) <= LIMIT)
  {
    var body := w + PrintMembers(ms);
    InertIsPassedOver(w, 1);
    MembersArePassedOver(ms, 1);
    Concat(w, 0, PrintMembers(ms), MembersNesting(ms), 1);
    BracesStop(body, MembersNesting(ms));
    assert Print(Obj(w, ms)) == [LBRACE] + (body + [RBRACE]);
  }

  /** A printed object between a prefix without an opening brace and any suffix is cut out exactly, if and only
      if its objects nest at most 2^32 deep. */
  lemma ObjectIsExtracted(prefix: seq<byte>, w: seq<byte>, ms: Members, suffix: seq<byte>)
    requires LBRACE !in prefix && JsonOk(Obj(w, ms))
    ensures Extract(prefix + (Print(Obj(w, ms)) + suffix)) == Some(Print(Obj(w, ms))) <==> Nesting(Obj(w, ms)) <= LIMIT
  {
    hide Print;
    hide Nesting;
    hide Scan;
    hide Fed;
    hide JsonOk;
    hide FirstBrace;
    var obj := Print(Obj(w, ms));
    ObjectIsScanned(w, ms);
    ScanConcat(START, obj, suffix);
    FirstBraceAfter(prefix, obj + suffix);
    assert (prefix + (obj + suffix))[|prefix|..] == obj + suffix;
    SliceFromPrefix(prefix, obj, suffix, Scan(START, obj).value);
  }

  lemma SliceFromPrefix(prefix: seq<byte>, obj: seq<byte>, suffix: seq<byte>, end: nat)
    requires end < |obj|
    ensures var raw := prefix + (obj + suffix); raw[|prefix|..|prefix| + end + 1] == obj <==> end + 1 == |obj|
  {
  }
}
