/** router.rs: the card title. A chain of `str::replace` calls against filling in every placeholder at once, for
    values of any text. */
module TitleTemplate {
  import opened Wrappers
  import opened TextUtil

  /** A template is a text whose braces come only as `{name}`. On the way through the chain its pieces may also be
      values of any text. */
  datatype Piece = Lit(text: string) | Hole(name: string)

  predicate BraceFree(s: string) {
    '{' !in s && '}' !in s
  }

  predicate WellFormed(t: seq<Piece>) {
    forall i :: 0 <= i < |t| ==> BraceFree(if t[i].Lit? then t[i].text else t[i].name)
  }

  function Token(name: string): (r: string)
    ensures |r| == |name| + 2
  {
    "{" + name + "}"
  }

  function Text(p: Piece): string {
    if p.Lit? then p.text else Token(p.name)
  }

  function Print(t: seq<Piece>): string {
    if t == [] then "" else Text(t[0]) + Print(t[1..])
  }

  datatype Pair = Pair(key: string, value: string)

  /** The replacements one after the other, each over the whole text. */
  function Chain(s: string, pairs: seq<Pair>): string
    decreases |pairs|
  {
    if pairs == [] then s else Chain(ReplaceAll(s, Token(pairs[0].key), pairs[0].value), pairs[1..])
  }

  function Lookup(pairs: seq<Pair>, name: string): Option<string> {
    if pairs == [] then None
    else if pairs[0].key == name then Some(pairs[0].value)
    else Lookup(pairs[1..], name)
  }

  function Filled(p: Piece, pairs: seq<Pair>): string {
    match p
    case Lit(text) => text
    case Hole(name) => if Lookup(pairs, name).Some? then Lookup(pairs, name).value else Token(name)
  }

  /** Every placeholder gets its value, and no value is looked at again. */
  function Fill(t: seq<Piece>, pairs: seq<Pair>): string {
    if t == [] then "" else Filled(t[0], pairs) + Fill(t[1..], pairs)
  }

  // ----- when a replacement touches more than its placeholders

  predicate Contains(s: string, pat: string) {
    exists i | 0 <= i <= |s| :: OccursAt(s, i, pat)
  }

  predicate EndsIn(s: string, pat: string) {
    OccursAt(s, |s| - |pat|, pat)
  }

  /** The text ends in an opening brace and the first `a` characters of the key. */
  predicate Opens(key: string, v: string, a: nat) {
    a <= |key| && EndsIn(v, "{" + key[..a])
  }

  /** The text begins with the last `b` characters of the key and a closing brace. */
  predicate Closes(key: string, w: string, b: nat) {
    b <= |key| && OccursAt(w, 0, key[|key| - b..] + "}")
  }

  /** `v` opens a placeholder and `w` closes it, with parts of the key that do not overlap: the rest of the key
      between them completes it. */
  predicate Joins(key: string, v: string, w: string) {
    exists a: nat, b: nat | a <= |key| && b <= |key| :: a + b <= |key| && Opens(key, v, a) && Closes(key, w, b)
  }

  /** None of the values holds the placeholder, and no two of them make it. */
  predicate Clear(key: string, values: seq<string>) {
    (forall v :: v in values ==> !Contains(v, Token(key)))
    && (forall v, w :: v in values && w in values ==> !Joins(key, v, w))
  }

  lemma ClearOfFewer(key: string, values: seq<string>, fewer: seq<string>)
    requires Clear(key, values) && forall v :: v in fewer ==> v in values
    ensures Clear(key, fewer)
  {
  }

  // ----- one replacement

  /** A text in which the pattern does not start is copied. */
  lemma {:induction false} ReplaceSkips(s: string, rest: string, pat: string, rep: string)
    requires pat != "" && forall i :: 0 <= i < |s| ==> !OccursAt(s + rest, i, pat)
    ensures ReplaceAll(s + rest, pat, rep) == s + ReplaceAll(rest, pat, rep)
  {
    var u := s + rest;
    if s == "" {
      assert u == rest;
    } else {
      assert u[1..] == s[1..] + rest && u[0] == s[0];
      forall i | 0 <= i < |s[1..]| ensures !OccursAt(s[1..] + rest, i, pat) {
        assert !OccursAt(u, i + 1, pat);
        OccursShifted(u, i, pat);
      }
      ReplaceSkips(s[1..], rest, pat, rep);
      assert !OccursAt(u, 0, pat);
      assert s == [s[0]] + s[1..];
    }
  }

  lemma OccursShifted(u: string, i: nat, pat: string)
    requires u != ""
    ensures OccursAt(u[1..], i, pat) <==> OccursAt(u, i + 1, pat)
  {
    if i + 1 + |pat| <= |u| {
      assert u[1..][i..i + |pat|] == u[i + 1..i + 1 + |pat|];
    }
  }

  lemma NoBraceNoStart(s: string, rest: string, pat: string)
    requires pat != "" && pat[0] == '{' && '{' !in s
    ensures forall i :: 0 <= i < |s| ==> !OccursAt(s + rest, i, pat)
  {
    forall i | 0 <= i < |s| ensures !OccursAt(s + rest, i, pat) {
      assert s[i] in s;
      Differs(s + rest, i, pat, 0);
    }
  }

  lemma TokenAtFront(name: string, key: string, rest: string)
    requires BraceFree(name) && BraceFree(key)
    ensures OccursAt(Token(name) + rest, 0, Token(key)) <==> name == key
  {
    var u, v := Token(name) + rest, Token(key);
    if name == key {
      assert u[0..|v|] == v;
    } else if name <= key {
      assert key[|name|] in key;
      Differs(u, 0, v, |name| + 1);
    } else if key <= name {
      assert name[|key|] in name;
      Differs(u, 0, v, |key| + 1);
    } else {
      var k :| 0 <= k < |name| && k < |key| && name[k] != key[k];
      Differs(u, 0, v, k + 1);
    }
  }

  lemma ReplaceToken(name: string, key: string, rest: string, rep: string)
    requires BraceFree(name) && BraceFree(key)
    ensures ReplaceAll(Token(name) + rest, Token(key), rep)
            == (if name == key then rep else Token(name)) + ReplaceAll(rest, Token(key), rep)
  {
    var u := Token(name) + rest;
    TokenAtFront(name, key, rest);
    if name == key {
      assert u[|Token(key)|..] == rest;
    } else {
      assert u[1..] == (name + "}") + rest;
      NoBraceNoStart(name + "}", rest, Token(key));
      ReplaceSkips(name + "}", rest, Token(key), rep);
      assert Token(name) == [u[0]] + (name + "}");
    }
  }

  /** Replacing a text by itself changes nothing. */
  lemma {:induction false} ReplaceBySelf(s: string, pat: string)
    requires pat != ""
    ensures ReplaceAll(s, pat, pat) == s
  {
    if s != "" {
      if OccursAt(s, 0, pat) {
        ReplaceBySelf(s[|pat|..], pat);
        assert s == s[0..|pat|] + s[|pat|..];
      } else {
        ReplaceBySelf(s[1..], pat);
        assert s == [s[0]] + s[1..];
      }
    }
  }

  lemma {:induction false} ReplaceLength(s: string, pat: string, rep: string)
    requires pat != ""
    ensures |rep| <= |pat| ==> |ReplaceAll(s, pat, rep)| <= |s|
    ensures |rep| >= |pat| ==> |ReplaceAll(s, pat, rep)| >= |s|
  {
    if s != "" {
      if OccursAt(s, 0, pat) {
        ReplaceLength(s[|pat|..], pat, rep);
      } else {
        ReplaceLength(s[1..], pat, rep);
      }
    }
  }

  /** Replacing a text that occurs by another text changes something. */
  lemma {:induction false} ReplaceChanges(s: string, i: nat, pat: string, rep: string)
    requires pat != "" && rep != pat && OccursAt(s, i, pat)
    ensures ReplaceAll(s, pat, rep) != s
  {
    if OccursAt(s, 0, pat) {
      var r := ReplaceAll(s[|pat|..], pat, rep);
      ReplaceLength(s[|pat|..], pat, rep);
      if |rep| == |pat| {
        assert (rep + r)[..|pat|] == rep && s[..|pat|] == s[0..|pat|] == pat;
      }
    } else {
      OccursShifted(s, i - 1, pat);
      ReplaceChanges(s[1..], i - 1, pat, rep);
      assert ReplaceAll(s, pat, rep)[1..] == ReplaceAll(s[1..], pat, rep);
    }
  }

  // ----- one replacement on pieces that may be values

  /** Placeholders, brace-free texts, and some of the values. */
  predicate Made(u: seq<Piece>, values: seq<string>) {
    forall i :: 0 <= i < |u| ==>
      if u[i].Hole? then BraceFree(u[i].name) else BraceFree(u[i].text) || u[i].text in values
  }

  function Substituted(u: seq<Piece>, key: string, value: string): (r: seq<Piece>)
    ensures |r| == |u|
    ensures forall i :: 0 <= i < |u| ==> r[i] == if u[i] == Hole(key) then Lit(value) else u[i]
  {
    seq(|u|, i requires 0 <= i < |u| => if u[i] == Hole(key) then Lit(value) else u[i])
  }

  lemma SubstitutedCons(u: seq<Piece>, key: string, value: string)
    requires u != []
    ensures Substituted(u, key, value)[0] == if u[0] == Hole(key) then Lit(value) else u[0]
    ensures Substituted(u, key, value)[1..] == Substituted(u[1..], key, value)
  {
  }

  /** A text in two parts that begins with `q` and a closing brace. */
  lemma ClosesInParts(x: string, rest: string, q: string)
    requires BraceFree(q) && OccursAt(x + rest, 0, q + "}")
    ensures |x| > |q| ==> OccursAt(x, 0, q + "}") && !BraceFree(x)
    ensures |x| <= |q| ==> x == q[..|x|] && BraceFree(x) && BraceFree(q[|x|..]) && OccursAt(rest, 0, q[|x|..] + "}")
  {
    var s, n := x + rest, |q| + 1;
    assert s[0..n] == q + "}";
    if |x| > |q| {
      assert x[0..n] == s[0..n];
      assert x[|q|] == (q + "}")[|q|];
    } else {
      assert x == s[0..n][..|x|] == q[..|x|];
      assert forall c :: c in q[..|x|] ==> c in q;
      assert forall c :: c in q[|x|..] ==> c in q;
      assert rest[0..n - |x|] == s[0..n][|x|..] == q[|x|..] + "}";
    }
  }

  /** If the pieces begin with the end of a placeholder, one of the values does so too, after some of it. */
  lemma {:induction false} SomeValueCloses(u: seq<Piece>, values: seq<string>, q: string) returns (w: string, b: nat)
    requires Made(u, values) && BraceFree(q) && OccursAt(Print(u), 0, q + "}")
    ensures w in values && Closes(q, w, b)
    decreases |u|
  {
    PrintStarts(u, q);
    var x, rest := Text(u[0]), Print(u[1..]);
    ClosesInParts(x, rest, q);
    if |x| > |q| {
      TokenOpens(u[0], q);
      w, b := x, |q|;
      assert q[0..] == q;
    } else {
      w, b := SomeValueCloses(u[1..], values, q[|x|..]);
      ClosesMore(q, |x|, w, b);
    }
  }

  lemma PrintStarts(u: seq<Piece>, q: string)
    requires OccursAt(Print(u), 0, q + "}")
    ensures u != [] && Print(u) == Text(u[0]) + Print(u[1..])
  {
  }

  /** A placeholder does not begin with the end of one. */
  lemma TokenOpens(p: Piece, q: string)
    requires BraceFree(q) && OccursAt(Text(p), 0, q + "}")
    ensures p.Lit?
  {
    assert Text(p)[0..|q| + 1][0] == (q + "}")[0];
    assert q != "" ==> q[0] in q;
  }

  lemma ClosesMore(q: string, n: nat, w: string, b: nat)
    requires n <= |q| && Closes(q[n..], w, b)
    ensures Closes(q, w, b)
  {
    assert q[n..][|q| - n - b..] == q[|q| - b..];
  }

  /** In a value in front of the pieces no placeholder starts. */
  lemma NoStartInValue(v: string, u: seq<Piece>, key: string, values: seq<string>)
    requires Made(u, values) && v in values && BraceFree(key) && Clear(key, values)
    ensures forall i :: 0 <= i < |v| ==> !OccursAt(v + Print(u), i, Token(key))
  {
    forall i | 0 <= i < |v| ensures !OccursAt(v + Print(u), i, Token(key)) {
      if OccursAt(v + Print(u), i, Token(key)) {
        StartInValue(v, u, key, values, i);
      }
    }
  }

  lemma StartInValue(v: string, u: seq<Piece>, key: string, values: seq<string>, i: nat)
    requires Made(u, values) && v in values && BraceFree(key) && i < |v| && OccursAt(v + Print(u), i, Token(key))
    ensures !Clear(key, values)
  {
    if i + |Token(key)| <= |v| {
      assert v[i..i + |Token(key)|] == (v + Print(u))[i..i + |Token(key)|];
      assert OccursAt(v, i, Token(key));
      assert Contains(v, Token(key));
    } else {
      var a := |v| - i - 1;
      StartSplits(v, Print(u), key, i);
      assert forall c :: c in key[a..] ==> c in key;
      var w, b := SomeValueCloses(u, values, key[a..]);
      ClosesMore(key, a, w, b);
      assert Joins(key, v, w);
    }
  }

  lemma TokenHalves(key: string, a: nat)
    requires a <= |key|
    ensures Token(key)[..a + 1] == "{" + key[..a] && Token(key)[a + 1..] == key[a..] + "}"
  {
    var x, y := "{" + key[..a], key[a..] + "}";
    assert key == key[..a] + key[a..];
    assert Token(key) == x + y;
  }

  /** A placeholder that starts in the value and reaches over its end. */
  lemma StartSplits(v: string, rest: string, key: string, i: nat)
    requires i < |v| < i + |Token(key)| && OccursAt(v + rest, i, Token(key))
    ensures var a := |v| - i - 1; a <= |key| && Opens(key, v, a) && OccursAt(rest, 0, key[a..] + "}")
  {
    var s, tok, a := v + rest, Token(key), |v| - i - 1;
    TokenHalves(key, a);
    hide Token;
    var end := i + |tok|;
    assert s[i..end] == tok;
    assert v[i..] == s[i..|v|];
    assert s[i..|v|] == tok[..a + 1];
    assert v[i..i + a + 1] == v[i..];
    assert rest[0..end - |v|] == s[|v|..end];
    assert s[|v|..end] == tok[a + 1..];
  }

  /** With clear values a replacement touches exactly the placeholders of its name. */
  lemma {:induction false} ReplaceIsSubstituted(u: seq<Piece>, key: string, value: string, values: seq<string>)
    requires Made(u, values) && BraceFree(key) && Clear(key, values)
    ensures ReplaceAll(Print(u), Token(key), value) == Print(Substituted(u, key, value))
    decreases |u|
  {
    if u != [] {
      var rest := Print(u[1..]);
      ReplaceIsSubstituted(u[1..], key, value, values);
      SubstitutedCons(u, key, value);
      match u[0]
      case Hole(name) => ReplaceToken(name, key, rest, value);
      case Lit(text) =>
        if BraceFree(text) {
          NoBraceNoStart(text, rest, Token(key));
        } else {
          NoStartInValue(text, u[1..], key, values);
        }
        ReplaceSkips(text, rest, Token(key), value);
    }
  }

  // ----- a chain in order

  predicate DistinctKeys(pairs: seq<Pair>) {
    forall i, j :: 0 <= i < j < |pairs| ==> pairs[i].key != pairs[j].key
  }

  predicate PlainKeys(pairs: seq<Pair>) {
    forall i :: 0 <= i < |pairs| ==> BraceFree(pairs[i].key)
  }

  function Values(pairs: seq<Pair>): (r: seq<string>)
    ensures |r| == |pairs| && forall i :: 0 <= i < |pairs| ==> r[i] == pairs[i].value
  {
    seq(|pairs|, i requires 0 <= i < |pairs| => pairs[i].value)
  }

  /** A placeholder whose value is its own text is never changed. */
  predicate Idle(p: Pair) {
    p.value == Token(p.key)
  }

  /** Every replacement but the idle ones finds the values before it clear. */
  predicate SafeInOrder(pairs: seq<Pair>) {
    forall i :: 0 <= i < |pairs| ==> Idle(pairs[i]) || Clear(pairs[i].key, Values(pairs[..i]))
  }

  lemma {:induction false} LookupAbsent(pairs: seq<Pair>, name: string)
    ensures Lookup(pairs, name) == None <==> forall i :: 0 <= i < |pairs| ==> pairs[i].key != name
  {
    if pairs != [] {
      LookupAbsent(pairs[1..], name);
      assert pairs[0].key != name ==>
          (forall i :: 0 <= i < |pairs| ==> pairs[i].key != name)
          == (forall i :: 0 <= i < |pairs[1..]| ==> pairs[1..][i].key != name) by {
        assert forall i :: 0 < i < |pairs| ==> pairs[i] == pairs[1..][i - 1];
      }
    }
  }

  lemma {:induction false} FillSubstituted(u: seq<Piece>, pairs: seq<Pair>)
    requires pairs != [] && DistinctKeys(pairs)
    ensures Fill(Substituted(u, pairs[0].key, pairs[0].value), pairs[1..]) == Fill(u, pairs)
    ensures Idle(pairs[0]) ==> Fill(u, pairs[1..]) == Fill(u, pairs)
  {
    if u != [] {
      SubstitutedCons(u, pairs[0].key, pairs[0].value);
      FillSubstituted(u[1..], pairs);
      LookupAbsent(pairs[1..], pairs[0].key);
    }
  }

  lemma {:induction false} FillNothing(u: seq<Piece>)
    ensures Fill(u, []) == Print(u)
  {
    if u != [] {
      FillNothing(u[1..]);
    }
  }

  /** The values already in the text, then those of the chain. */
  predicate SafeAfter(values: seq<string>, pairs: seq<Pair>) {
    forall i :: 0 <= i < |pairs| ==> Idle(pairs[i]) || Clear(pairs[i].key, values + Values(pairs[..i]))
  }

  lemma SafeTail(values: seq<string>, pairs: seq<Pair>)
    requires pairs != [] && SafeAfter(values, pairs)
    ensures Idle(pairs[0]) || Clear(pairs[0].key, values)
    ensures SafeAfter(values + [pairs[0].value], pairs[1..])
  {
    assert values + Values(pairs[..0]) == values;
    var more, rest := values + [pairs[0].value], pairs[1..];
    forall i | 0 <= i < |rest| ensures Idle(rest[i]) || Clear(rest[i].key, more + Values(rest[..i])) {
      assert rest[i] == pairs[i + 1];
      assert values + Values(pairs[..i + 1]) == more + Values(rest[..i]);
    }
  }

  /** A safe chain fills in what is left to fill in. */
  lemma {:induction false} SafeChainFills(u: seq<Piece>, pairs: seq<Pair>, values: seq<string>)
    requires Made(u, values) && PlainKeys(pairs) && DistinctKeys(pairs) && SafeAfter(values, pairs)
    ensures Chain(Print(u), pairs) == Fill(u, pairs)
    decreases |pairs|
  {
    FillNothing(u);
    if pairs != [] {
      var (key, value, rest) := (pairs[0].key, pairs[0].value, pairs[1..]);
      SafeTail(values, pairs);
      FillSubstituted(u, pairs);
      hide SafeAfter;
      hide Clear;
      hide Fill;
      hide ReplaceAll;
      if Idle(pairs[0]) {
        ReplaceBySelf(Print(u), Token(key));
        SafeChainFills(u, rest, values + [value]);
      } else {
        ReplaceIsSubstituted(u, key, value, values);
        SafeChainFills(Substituted(u, key, value), rest, values + [value]);
      }
    }
  }

  /** With values that are clear for every later key, the chain fills in every template at once. */
  lemma ChainFills(t: seq<Piece>, pairs: seq<Pair>)
    requires WellFormed(t) && PlainKeys(pairs) && DistinctKeys(pairs) && SafeInOrder(pairs)
    ensures Chain(Print(t), pairs) == Fill(t, pairs)
  {
    forall i | 0 <= i < |pairs| ensures Idle(pairs[i]) || Clear(pairs[i].key, [] + Values(pairs[..i])) {
      assert [] + Values(pairs[..i]) == Values(pairs[..i]);
    }
    assert Made(t, []);
    SafeChainFills(t, pairs, []);
  }

  // ----- how an unsafe chain goes wrong

  lemma {:induction false} ChainConcat(s: string, a: seq<Pair>, b: seq<Pair>)
    ensures Chain(s, a + b) == Chain(Chain(s, a), b)
    decreases |a|
  {
    if a == [] {
      assert a + b == b;
    } else {
      assert (a + b)[0] == a[0] && (a + b)[1..] == a[1..] + b;
      hide ReplaceAll;
      ChainConcat(ReplaceAll(s, Token(a[0].key), a[0].value), a[1..], b);
    }
  }

  /** Keys the template does not have. */
  predicate Absent(t: seq<Piece>, pairs: seq<Pair>) {
    forall i :: 0 <= i < |pairs| ==> Hole(pairs[i].key) !in t
  }

  lemma {:induction false} AbsentKeysDoNothing(t: seq<Piece>, pairs: seq<Pair>)
    requires WellFormed(t) && PlainKeys(pairs) && Absent(t, pairs)
    ensures Chain(Print(t), pairs) == Print(t)
    decreases |pairs|
  {
    if pairs != [] {
      assert Made(t, []);
      ReplaceIsSubstituted(t, pairs[0].key, pairs[0].value, []);
      assert Substituted(t, pairs[0].key, pairs[0].value) == t;
      AbsentKeysDoNothing(t, pairs[1..]);
    }
  }

  lemma {:induction false} FillIgnores(t: seq<Piece>, a: seq<Pair>, b: seq<Pair>)
    requires forall i :: 0 <= i < |t| ==> Filled(t[i], a) == Filled(t[i], b)
    ensures Fill(t, a) == Fill(t, b)
  {
    if t != [] {
      FillIgnores(t[1..], a, b);
    }
  }

  lemma {:induction false} LookupConcat(a: seq<Pair>, b: seq<Pair>, name: string)
    ensures Lookup(a + b, name) == if Lookup(a, name).Some? then Lookup(a, name) else Lookup(b, name)
  {
    if a == [] {
      assert a + b == b;
    } else {
      assert (a + b)[1..] == a[1..] + b;
      LookupConcat(a[1..], b, name);
    }
  }

  lemma FillSkips(t: seq<Piece>, a: seq<Pair>, b: seq<Pair>)
    requires Absent(t, a)
    ensures Fill(t, a + b) == Fill(t, b) && Fill(t, b + a) == Fill(t, b)
  {
    forall i | 0 <= i < |t| ensures Filled(t[i], a + b) == Filled(t[i], b) == Filled(t[i], b + a) {
      if t[i].Hole? {
        LookupAbsent(a, t[i].name);
        LookupConcat(a, b, t[i].name);
        LookupConcat(b, a, t[i].name);
      }
    }
    FillIgnores(t, a + b, b);
    FillIgnores(t, b + a, b);
  }

  /** A safe chain, and then a replacement that finds its placeholder in a text the template did not have it in. */
  lemma LastStepBreaks(t: seq<Piece>, idle: seq<Pair>, safe: seq<Pair>, p: Pair, i: nat)
    requires WellFormed(t) && PlainKeys(idle) && Absent(t, idle) && Absent(t, [p])
    requires PlainKeys(safe) && DistinctKeys(safe) && SafeInOrder(safe) && BraceFree(p.key)
    requires OccursAt(Fill(t, safe), i, Token(p.key)) && !Idle(p)
    ensures Chain(Print(t), idle + safe + [p]) != Fill(t, idle + safe + [p])
    ensures Fill(t, idle + safe + [p]) == Fill(t, safe)
  {
    var s := Fill(t, safe);
    AbsentKeysDoNothing(t, idle);
    ChainFills(t, safe);
    FillSkips(t, [p], idle + safe);
    FillSkips(t, idle, safe);
    ReplaceChanges(s, i, Token(p.key), p.value);
    hide ReplaceAll;
    hide Fill;
    hide Print;
    ChainConcat(Print(t), idle, safe);
    ChainConcat(Print(t), idle + safe, [p]);
    assert [p][1..] == [];
    assert Chain(s, [p]) == ReplaceAll(s, Token(p.key), p.value);
  }

  // ----- templates that show it

  lemma FillTwo(a: string, m: string, b: string, pairs: seq<Pair>)
    ensures Fill([Hole(a), Lit(m), Hole(b)], pairs) == Filled(Hole(a), pairs) + (m + Filled(Hole(b), pairs))
    ensures Fill([Hole(a)], pairs) == Filled(Hole(a), pairs)
  {
    var t := [Hole(a), Lit(m), Hole(b)];
    hide Filled;
    assert [Hole(a)][1..] == [] && [Hole(b)][1..] == [];
    assert t[1..][1..] == [Hole(b)];
    assert Fill([Hole(b)], pairs) == Filled(Hole(b), pairs);
    assert Filled(Lit(m), pairs) == m by {
      FilledLit(m, pairs);
    }
    assert Fill(t[1..], pairs) == m + Filled(Hole(b), pairs);
  }

  lemma FilledLit(m: string, pairs: seq<Pair>)
    ensures Filled(Lit(m), pairs) == m
  {
  }

  /** The part of the key between the two values. */
  lemma JoinedText(key: string, v: string, w: string) returns (m: string, i: nat)
    requires BraceFree(key) && Joins(key, v, w)
    ensures BraceFree(m) && OccursAt(v + (m + w), i, Token(key))
  {
    var a: nat, b: nat :| a + b <= |key| && Opens(key, v, a) && Closes(key, w, b);
    m := key[a..|key| - b];
    assert forall c :: c in m ==> c in key;
    i := |v| - a - 1;
    var x, y, z := "{" + key[..a], key[|key| - b..] + "}", w[b + 1..];
    assert v == v[..i] + x by {
      assert v[i..i + a + 1] == v[i..];
    }
    assert w == y + z by {
      assert w[0..b + 1] == w[..b + 1];
    }
    TokenInParts(key, a, b);
    Middle(v[..i], x, m, y, z, Token(key));
  }

  lemma TokenInParts(key: string, a: nat, b: nat)
    requires a + b <= |key|
    ensures Token(key) == ("{" + key[..a]) + (key[a..|key| - b] + (key[|key| - b..] + "}"))
  {
    assert key == key[..a] + (key[a..|key| - b] + key[|key| - b..]);
  }

  lemma Middle(left: string, x: string, m: string, y: string, right: string, pat: string)
    requires pat == x + (m + y)
    ensures OccursAt((left + x) + (m + (y + right)), |left|, pat)
  {
    assert (left + x) + (m + (y + right)) == left + (pat + right);
    assert (left + (pat + right))[|left|..|left| + |pat|] == pat;
  }

  /** What makes a value, alone or twice, hold or make the placeholder. */
  predicate Bad(key: string, v: string, w: string) {
    (v == w && Contains(v, Token(key))) || Joins(key, v, w)
  }

  lemma NotClear(key: string, values: seq<string>) returns (v: string, w: string)
    requires !Clear(key, values)
    ensures v in values && w in values && Bad(key, v, w)
  {
    if v' :| v' in values && Contains(v', Token(key)) {
      v, w := v', v';
    } else {
      v, w :| v in values && w in values && Joins(key, v, w);
    }
  }

  /** A template with the placeholders `a` and `b` on which two such values show. */
  lemma BadShows(key: string, a: string, b: string, safe: seq<Pair>) returns (t: seq<Piece>, i: nat)
    requires BraceFree(key) && BraceFree(a) && BraceFree(b) && key != a && key != b
    requires Lookup(safe, a).Some? && Lookup(safe, b).Some?
    requires Bad(key, Lookup(safe, a).value, Lookup(safe, b).value)
    ensures WellFormed(t) && OccursAt(Fill(t, safe), i, Token(key))
    ensures forall p :: p in t && p.Hole? ==> p.name == a || p.name == b
  {
    var v, w := Lookup(safe, a).value, Lookup(safe, b).value;
    if Joins(key, v, w) {
      var m, k := JoinedText(key, v, w);
      t, i := [Hole(a), Lit(m), Hole(b)], k;
      FillTwo(a, m, b, safe);
    } else {
      var k :| 0 <= k <= |v| && OccursAt(v, k, Token(key));
      t, i := [Hole(a)], k;
      FillTwo(a, "", b, safe);
    }
  }
}
