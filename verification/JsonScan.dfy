/** ai.rs: the brace scanner that cuts the first JSON object out of a model's answer. */
module JsonScan {
  import opened Wrappers
  import opened Bytes

  const I32_MODULUS: int := 0x1_0000_0000
  const I32_HALF: int := 0x8000_0000

  /** The scanner's counter is 32 bits wide and wraps; its arguments are less than a modulus out of range. */
  function Wrap32(x: int): int {
    if x >= I32_HALF then x - I32_MODULUS else if x < -I32_HALF then x + I32_MODULUS else x
  }

  datatype Lexer = Lexer(depth: int, inString: bool, escaped: bool)

  const START := Lexer(0, false, false)

  function Feed(l: Lexer, b: byte): Lexer {
    if l.escaped then l.(escaped := false)
    else if b == BACKSLASH && l.inString then l.(escaped := true)
    else if b == QUOTE then l.(inString := !l.inString)
    else if b == LBRACE && !l.inString then l.(depth := Wrap32(l.depth + 1))
    else if b == RBRACE && !l.inString then l.(depth := Wrap32(l.depth - 1))
    else l
  }

  /** The byte closes the outermost brace. */
  predicate Closes(l: Lexer, b: byte) {
    !l.escaped && !l.inString && b == RBRACE && Wrap32(l.depth - 1) == 0
  }

  function Fed(l: Lexer, s: seq<byte>): Lexer
    decreases s
  {
    if s == [] then l else Fed(Feed(l, s[0]), s[1..])
  }

  /** Where the scan of `s` from `l` stops. */
  function Scan(l: Lexer, s: seq<byte>): (r: Option<nat>)
    ensures r.Some? ==> r.value < |s|
    decreases s
  {
    if s == [] then None
    else if Closes(l, s[0]) then Some(0)
    else
      var rest := Scan(Feed(l, s[0]), s[1..]);
      if rest == None then None else Some(rest.value + 1)
  }

  function FirstBrace(raw: seq<byte>): (i: nat)
    ensures i <= |raw| && (forall j :: 0 <= j < i ==> raw[j] != LBRACE) && (i < |raw| ==> raw[i] == LBRACE)
  {
    if raw == [] || raw[0] == LBRACE then 0 else 1 + FirstBrace(raw[1..])
  }

  function Extract(raw: seq<byte>): Option<seq<byte>> {
    var start := FirstBrace(raw);
    var end := Scan(START, raw[start..]);
    if end == None then None else Some(raw[start..start + end.value + 1])
  }

  /** The scan of the whole text goes on at `i` from lexer `l`. */
  ghost predicate At(raw: seq<byte>, start: nat, i: nat, l: Lexer) {
    start <= i <= |raw|
    && Scan(START, raw[start..]) == match Scan(l, raw[i..]) case None => None case Some(k) => Some(k + i - start)
  }

  lemma AtStep(raw: seq<byte>, start: nat, i: nat, l: Lexer)
    requires At(raw, start, i, l) && i < |raw|
    ensures Closes(l, raw[i]) ==> Scan(START, raw[start..]) == Some(i - start)
    ensures !Closes(l, raw[i]) ==> At(raw, start, i + 1, Feed(l, raw[i]))
  {
    assert raw[i..][0] == raw[i] && raw[i..][1..] == raw[i + 1..];
  }

  lemma AtEnds(raw: seq<byte>, start: nat, l: Lexer)
    requires start <= |raw|
    ensures At(raw, start, start, START)
    ensures At(raw, start, |raw|, l) ==> Scan(START, raw[start..]) == None
  {
    assert raw[|raw|..] == [];
  }

  /** `extract_json`. */
  method ExtractJson(raw: seq<byte>) returns (r: Option<seq<byte>>)
    ensures r == Extract(raw)
  {
    var start := 0;
    while start < |raw| && raw[start] != LBRACE
      invariant start <= |raw| && forall j :: 0 <= j < start ==> raw[j] != LBRACE
    {
      start := start + 1;
    }
    assert FirstBrace(raw) == start;
    if start == |raw| {
      return None;
    }
    var depth, inString, escaped := 0, false, false;
    AtEnds(raw, start, START);
    hide Scan;
    hide At;
    hide Wrap32;
    hide FirstBrace;
    for i := start to |raw|
      invariant At(raw, start, i, Lexer(depth, inString, escaped))
    {
      var b := raw[i];
      AtStep(raw, start, i, Lexer(depth, inString, escaped));
      if escaped {
        escaped := false;
        continue;
      }
      if b == BACKSLASH && inString {
        escaped := true;
      } else if b == QUOTE {
        inString := !inString;
      } else if b == LBRACE && !inString {
        depth := Wrap32(depth + 1);
      } else if b == RBRACE && !inString {
        depth := Wrap32(depth - 1);
        if depth == 0 {
          return Some(raw[start..i + 1]);
        }
      }
    }
    AtEnds(raw, start, Lexer(depth, inString, escaped));
    return None;
  }

  // ----- concatenation

  lemma {:induction false} ScanConcat(l: Lexer, a: seq<byte>, b: seq<byte>)
    ensures Fed(l, a + b) == Fed(Fed(l, a), b)
    ensures Scan(l, a).Some? ==> Scan(l, a + b) == Scan(l, a)
    ensures Scan(l, a) == None ==>
              Scan(l, a + b) == match Scan(Fed(l, a), b) case None => None case Some(k) => Some(|a| + k)
    decreases a
  {
    if a == [] {
      assert a + b == b;
    } else {
      assert (a + b)[0] == a[0] && (a + b)[1..] == a[1..] + b;
      ScanConcat(Feed(l, a[0]), a[1..], b);
    }
  }

  // ----- what a returned slice looks like

  lemma {:induction false} FedPrefix(l: Lexer, s: seq<byte>, k: nat)
    requires 0 < k <= |s|
    ensures Fed(l, s[..k]) == Fed(Feed(l, s[0]), s[1..][..k - 1])
  {
    assert s[..k][0] == s[0] && s[..k][1..] == s[1..][..k - 1];
  }

  /** The scanner with a counter that never wraps. */
  function Count(l: Lexer, b: byte): Lexer {
    if l.escaped then l.(escaped := false)
    else if b == BACKSLASH && l.inString then l.(escaped := true)
    else if b == QUOTE then l.(inString := !l.inString)
    else if b == LBRACE && !l.inString then l.(depth := l.depth + 1)
    else if b == RBRACE && !l.inString then l.(depth := l.depth - 1)
    else l
  }

  function Counted(l: Lexer, s: seq<byte>): Lexer
    decreases s
  {
    if s == [] then l else Counted(Count(l, s[0]), s[1..])
  }

  lemma CountedPrefix(l: Lexer, s: seq<byte>, k: nat)
    requires 0 < k <= |s|
    ensures Counted(l, s[..k]) == Counted(Count(l, s[0]), s[1..][..k - 1])
  {
    assert s[..k][0] == s[0] && s[..k][1..] == s[1..][..k - 1];
  }

  /** The depth, as the scanner counts it, is positive after each of the first `k` bytes. */
  ghost predicate Positive(l: Lexer, s: seq<byte>, k: nat)
    requires k <= |s|
  {
    forall i: nat :: 0 < i <= k ==> Fed(l, s[..i]).depth >= 1
  }

  /** The true depth stays within the counter's range. */
  ghost predicate InRange(l: Lexer, s: seq<byte>, k: nat)
    requires k <= |s|
  {
    forall i: nat :: 0 < i <= k ==> Counted(l, s[..i]).depth < I32_HALF
  }

  lemma PositiveTail(l: Lexer, s: seq<byte>, k: nat)
    requires 0 < k <= |s|
    ensures Positive(l, s, k) <==> Feed(l, s[0]).depth >= 1 && Positive(Feed(l, s[0]), s[1..], k - 1)
    ensures InRange(l, s, k) <==> Count(l, s[0]).depth < I32_HALF && InRange(Count(l, s[0]), s[1..], k - 1)
  {
    forall i: nat | 0 < i <= k
      ensures Fed(l, s[..i]) == Fed(Feed(l, s[0]), s[1..][..i - 1])
      ensures Counted(l, s[..i]) == Counted(Count(l, s[0]), s[1..][..i - 1])
    {
      FedPrefix(l, s, i);
      CountedPrefix(l, s, i);
    }
    assert s[1..][..0] == [];
    assert Fed(l, s[..1]) == Feed(l, s[0]) && Counted(l, s[..1]) == Count(l, s[0]);
    if Positive(l, s, k) {
      forall i: nat | 0 < i <= k - 1 ensures Fed(Feed(l, s[0]), s[1..][..i]).depth >= 1 {
        assert Fed(l, s[..i + 1]).depth >= 1;
      }
    }
    if InRange(l, s, k) {
      forall i: nat | 0 < i <= k - 1 ensures Counted(Count(l, s[0]), s[1..][..i]).depth < I32_HALF {
        assert Counted(l, s[..i + 1]).depth < I32_HALF;
      }
    }
  }

  /** One byte that closes nothing: the counter stays positive exactly when the true depth stays in range. */
  lemma OneStep(l: Lexer, b: byte)
    requires 1 <= l.depth < I32_HALF && !Closes(l, b)
    ensures Feed(l, b).depth >= 1 <==> Count(l, b).depth < I32_HALF
    ensures Feed(l, b).depth >= 1 ==> Feed(l, b) == Count(l, b) && Feed(l, b).depth < I32_HALF
  {
  }

  /** Up to where the scan stops, the counter is positive exactly as long as the true depth is in range, and then
      it is the true depth. */
  lemma {:induction false} PositiveUntilStop(l: Lexer, s: seq<byte>, k: nat)
    requires 1 <= l.depth < I32_HALF && Scan(l, s).Some? && k <= Scan(l, s).value
    ensures Positive(l, s, k) <==> InRange(l, s, k)
    ensures Positive(l, s, k) ==> Fed(l, s[..k]) == Counted(l, s[..k])
    decreases s
  {
    assert s[..0] == [];
    if k > 0 {
      PositiveTail(l, s, k);
      FedPrefix(l, s, k);
      CountedPrefix(l, s, k);
      OneStep(l, s[0]);
      hide Fed;
      hide Counted;
      hide Positive;
      hide InRange;
      if Feed(l, s[0]).depth >= 1 {
        PositiveUntilStop(Feed(l, s[0]), s[1..], k - 1);
      }
    }
  }

  /** Right after the byte at which it stops, the scanner is back where it started. */
  lemma {:induction false} StopIsStart(l: Lexer, s: seq<byte>)
    requires Scan(l, s).Some?
    ensures Fed(l, s[..Scan(l, s).value + 1]) == START
    decreases s
  {
    FedPrefix(l, s, Scan(l, s).value + 1);
    if Closes(l, s[0]) {
      assert s[1..][..0] == [];
    } else {
      StopIsStart(Feed(l, s[0]), s[1..]);
    }
  }

  /** Whatever is cut out starts at the first brace, and the scanner is back at its start at the end of it. The depth
      is positive on every proper prefix exactly when the true depth never reaches the end of the counter's range. */
  lemma SliceIsBalanced(raw: seq<byte>)
    requires Extract(raw).Some?
    ensures var slice := Extract(raw).value;
            slice != [] && slice <= raw[FirstBrace(raw)..] && Fed(START, slice) == START
            && (Positive(START, slice, |slice| - 1) <==> InRange(START, slice, |slice| - 1))
  {
    var s := raw[FirstBrace(raw)..];
    var slice := Extract(raw).value;
    var end := Scan(START, s).value;
    StopIsStart(START, s);
    assert slice == s[..end + 1];
    assert s[0] == LBRACE && Feed(START, s[0]) == Count(START, s[0]) == Lexer(1, false, false);
    assert end > 0;
    PositiveTail(START, slice, end);
    StopsInSlice(Feed(START, s[0]), s[1..]);
    assert slice[1..] == s[1..][..end];
    PositiveUntilStop(Feed(START, s[0]), slice[1..], end - 1);
  }

  /** The bytes after the stop do not matter. */
  lemma {:induction false} StopsInSlice(l: Lexer, s: seq<byte>)
    requires Scan(l, s).Some?
    ensures Scan(l, s[..Scan(l, s).value + 1]) == Scan(l, s)
    decreases s
  {
    var t := s[..Scan(l, s).value + 1];
    assert t[0] == s[0];
    if !Closes(l, s[0]) {
      StopsInSlice(Feed(l, s[0]), s[1..]);
      assert t[1..] == s[1..][..Scan(l, s).value];
    }
  }

  /** Nothing is cut out exactly when no brace is ever closed down to depth zero. */
  lemma {:induction false} NothingExtracted(l: Lexer, s: seq<byte>)
    ensures Scan(l, s) == None <==> forall i :: 0 <= i < |s| ==> !Closes(Fed(l, s[..i]), s[i])
    decreases s
  {
    if s != [] {
      NothingExtracted(Feed(l, s[0]), s[1..]);
      assert s[..0] == [];
      forall i | 0 < i < |s| ensures Fed(l, s[..i]) == Fed(Feed(l, s[0]), s[1..][..i - 1]) && s[i] == s[1..][i - 1] {
        FedPrefix(l, s, i);
      }
      if Scan(l, s) == None {
        forall i | 0 <= i < |s| ensures !Closes(Fed(l, s[..i]), s[i]) {
        }
      } else if Closes(l, s[0]) {
        assert Closes(Fed(l, s[..0]), s[0]);
      } else {
        var i :| 0 <= i < |s[1..]| && Closes(Fed(Feed(l, s[0]), s[1..][..i]), s[1..][i]);
        assert Closes(Fed(l, s[..i + 1]), s[i + 1]);
      }
    }
  }
}
