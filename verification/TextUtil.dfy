/** String operations of the source's standard library that several files rely on:
    `str::find`, `str::replace`, `str::trim`, `u64::to_string`. */
module TextUtil {
  import opened Wrappers

  predicate OccursAt(s: string, i: int, pat: string) {
    0 <= i <= |s| - |pat| && s[i..i + |pat|] == pat
  }

  /** The first occurrence at or after `from`. */
  function FindFrom(s: string, pat: string, from: nat): (r: Option<nat>)
    requires from <= |s|
    ensures r.Some? ==> from <= r.value <= |s| - |pat|
    decreases |s| - from
  {
    if OccursAt(s, from, pat) then Some(from)
    else if from == |s| then None
    else FindFrom(s, pat, from + 1)
  }

  function Find(s: string, pat: string): (r: Option<nat>)
    ensures r.Some? ==> r.value + |pat| <= |s|
  {
    FindFrom(s, pat, 0)
  }

  lemma {:induction false} FindFromSpec(s: string, pat: string, from: nat)
    requires from <= |s|
    ensures var r := FindFrom(s, pat, from);
            (r.Some? ==> OccursAt(s, r.value, pat) && forall j :: from <= j < r.value ==> !OccursAt(s, j, pat))
            && (r == None ==> forall j :: from <= j ==> !OccursAt(s, j, pat))
    decreases |s| - from
  {
    if !OccursAt(s, from, pat) && from < |s| {
      FindFromSpec(s, pat, from + 1);
    }
  }

  /** `Find` gives the least index at which the pattern occurs, if there is one. */
  lemma FindSpec(s: string, pat: string)
    ensures var r := Find(s, pat);
            (r.Some? ==> OccursAt(s, r.value, pat) && forall j :: 0 <= j < r.value ==> !OccursAt(s, j, pat))
            && (r == None ==> forall j :: 0 <= j ==> !OccursAt(s, j, pat))
  {
    FindFromSpec(s, pat, 0);
  }

  lemma FindIs(s: string, pat: string, i: nat)
    requires OccursAt(s, i, pat)
    requires forall j :: 0 <= j < i ==> !OccursAt(s, j, pat)
    ensures Find(s, pat) == Some(i)
  {
    FindSpec(s, pat);
  }

  /** One character that differs is enough. */
  lemma Differs(s: string, i: nat, pat: string, k: nat)
    requires k < |pat|
    requires i + k < |s| ==> s[i + k] != pat[k]
    ensures !OccursAt(s, i, pat)
  {
    if i + |pat| <= |s| {
      assert s[i..i + |pat|][k] == s[i + k];
    }
  }

  lemma OccursHasFirst(s: string, i: int, pat: string)
    requires pat != "" && OccursAt(s, i, pat)
    ensures pat[0] in s
  {
    assert s[i..i + |pat|][0] == s[i];
  }

  /** A pattern whose first character is nowhere is nowhere. */
  lemma FindNothing(s: string, pat: string)
    requires pat != "" && pat[0] !in s
    ensures Find(s, pat) == None
  {
    FindSpec(s, pat);
    if Find(s, pat).Some? {
      OccursHasFirst(s, Find(s, pat).value, pat);
    }
  }

  /** Replaces every leftmost, non-overlapping occurrence. */
  function ReplaceAll(s: string, pat: string, rep: string): string
    requires pat != ""
  {
    if s == "" then ""
    else if OccursAt(s, 0, pat) then rep + ReplaceAll(s[|pat|..], pat, rep)
    else [s[0]] + ReplaceAll(s[1..], pat, rep)
  }

  predicate IsWhite(c: char) {
    '\t' <= c <= '\r' || c == ' ' || c == '\U{0085}' || c == '\U{00A0}' || c == '\U{1680}'
    || '\U{2000}' <= c <= '\U{200A}' || c == '\U{2028}' || c == '\U{2029}' || c == '\U{202F}'
    || c == '\U{205F}' || c == '\U{3000}'
  }

  /** The 25 characters with the White_Space property of Unicode. */
  const WHITES := "\U{0009}\U{000A}\U{000B}\U{000C}\U{000D}\U{0020}\U{0085}\U{00A0}\U{1680}"
                  + "\U{2000}\U{2001}\U{2002}\U{2003}\U{2004}\U{2005}\U{2006}\U{2007}\U{2008}\U{2009}\U{200A}"
                  + "\U{2028}\U{2029}\U{202F}\U{205F}\U{3000}"

  lemma WhitesListed(c: char)
    ensures IsWhite(c) <==> c in WHITES
  {
  }

  function TrimStart(s: string): string {
    if s != "" && IsWhite(s[0]) then TrimStart(s[1..]) else s
  }

  function TrimEnd(s: string): string {
    if s != "" && IsWhite(s[|s| - 1]) then TrimEnd(s[..|s| - 1]) else s
  }

  function Trim(s: string): string {
    TrimEnd(TrimStart(s))
  }

  /** The code of an ASCII letter or digit. */
  predicate AlphanumericCode(n: int) {
    0x30 <= n <= 0x39 || 0x41 <= n <= 0x5A || 0x61 <= n <= 0x7A
  }

  const DIGITS := "0123456789"
  const UPPERS := "ABCDEFGHIJKLMNOPQRSTUVWXYZ"
  const LOWERS := "abcdefghijklmnopqrstuvwxyz"

  lemma LettersInOrder()
    ensures |UPPERS| == |LOWERS| == 26 && |DIGITS| == 10
    ensures forall i :: 0 <= i < 26 ==> UPPERS[i] as int == 0x41 + i
    ensures forall i :: 0 <= i < 26 ==> LOWERS[i] as int == 0x61 + i
    ensures forall i :: 0 <= i < 10 ==> DIGITS[i] as int == 0x30 + i
  {
  }

  /** The letters and digits one by one. */
  lemma AlphanumericsListed(c: char)
    ensures AlphanumericCode(c as int) <==> c in DIGITS || c in UPPERS || c in LOWERS
  {
    LettersInOrder();
    hide DIGITS;
    hide UPPERS;
    hide LOWERS;
    var n := c as int;
    assert 0x41 <= n <= 0x5A ==> UPPERS[n - 0x41] == c;
    assert 0x61 <= n <= 0x7A ==> LOWERS[n - 0x61] == c;
    assert 0x30 <= n <= 0x39 ==> DIGITS[n - 0x30] == c;
  }

  function AsciiLower(s: string): string {
    seq(|s|, i requires 0 <= i < |s| => if 'A' <= s[i] <= 'Z' then s[i] + ('a' - 'A') else s[i])
  }

  function Decimal(n: nat): string {
    if n < 10 then [DIGITS[n]] else Decimal(n / 10) + [DIGITS[n % 10]]
  }

  function DigitValue(c: char): nat {
    if '0' <= c <= '9' then (c as int) - ('0' as int) else 0
  }

  function ParseDecimal(s: string): nat {
    if s == "" then 0 else 10 * ParseDecimal(s[..|s| - 1]) + DigitValue(s[|s| - 1])
  }

  lemma DigitRoundTrip(d: nat)
    requires d < 10
    ensures '0' <= DIGITS[d] <= '9' && DigitValue(DIGITS[d]) == d
  {
    assert DIGITS == ['0', '1', '2', '3', '4', '5', '6', '7', '8', '9'];
  }

  lemma {:induction false} DecimalRoundTrip(n: nat)
    ensures ParseDecimal(Decimal(n)) == n
    ensures Decimal(n) != "" && forall i :: 0 <= i < |Decimal(n)| ==> '0' <= Decimal(n)[i] <= '9'
  {
    DigitRoundTrip(n % 10);
    if n < 10 {
      assert Decimal(n)[..0] == "";
      assert ParseDecimal(Decimal(n)[..0]) == 0;
    } else {
      DecimalRoundTrip(n / 10);
      assert Decimal(n)[..|Decimal(n)| - 1] == Decimal(n / 10);
    }
  }
}
