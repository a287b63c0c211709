/** router.rs: which labels make the order of the replacements matter, and the title itself. */
module CardTitle {
  import opened Wrappers
  import opened TextUtil
  import opened TitleTemplate

  // ----- every order

  /** The same replacements, each once, in some order. */
  ghost predicate Reorders(others: seq<Pair>, pairs: seq<Pair>) {
    DistinctKeys(others) && forall p :: p in others <==> p in pairs
  }

  function Others(pairs: seq<Pair>, i: nat): seq<Pair>
    requires i < |pairs|
  {
    pairs[..i] + pairs[i + 1..]
  }

  /** Every value is clear for every other key, unless the key's own value is its placeholder. */
  predicate SafeInEveryOrder(pairs: seq<Pair>) {
    forall i :: 0 <= i < |pairs| ==> Idle(pairs[i]) || Clear(pairs[i].key, Values(Others(pairs, i)))
  }

  lemma {:induction false} LookupIs(pairs: seq<Pair>, p: Pair)
    requires DistinctKeys(pairs) && p in pairs
    ensures Lookup(pairs, p.key) == Some(p.value)
  {
    if pairs[0] != p {
      assert p in pairs[1..];
      LookupIs(pairs[1..], p);
    }
  }

  lemma SameLookup(others: seq<Pair>, pairs: seq<Pair>, name: string)
    requires DistinctKeys(pairs) && Reorders(others, pairs)
    ensures Lookup(others, name) == Lookup(pairs, name)
  {
    LookupAbsent(others, name);
    LookupAbsent(pairs, name);
    if i :| 0 <= i < |pairs| && pairs[i].key == name {
      LookupIs(pairs, pairs[i]);
      LookupIs(others, pairs[i]);
    } else {
      forall i | 0 <= i < |others| ensures others[i].key != name {
        assert others[i] in pairs;
      }
    }
  }

  lemma SameFill(t: seq<Piece>, others: seq<Pair>, pairs: seq<Pair>)
    requires DistinctKeys(pairs) && Reorders(others, pairs)
    ensures Fill(t, others) == Fill(t, pairs)
  {
    forall i | 0 <= i < |t| ensures Filled(t[i], others) == Filled(t[i], pairs) {
      if t[i].Hole? {
        SameLookup(others, pairs, t[i].name);
      }
    }
    FillIgnores(t, others, pairs);
  }

  lemma ReorderedIsSafe(others: seq<Pair>, pairs: seq<Pair>)
    requires PlainKeys(pairs) && DistinctKeys(pairs) && Reorders(others, pairs) && SafeInEveryOrder(pairs)
    ensures PlainKeys(others) && SafeInOrder(others)
  {
    forall i | 0 <= i < |others|
      ensures BraceFree(others[i].key) && (Idle(others[i]) || Clear(others[i].key, Values(others[..i])))
    {
      assert others[i] in others && others[i] in pairs;
      var k :| 0 <= k < |pairs| && pairs[k] == others[i];
      forall v | v in Values(others[..i]) ensures v in Values(Others(pairs, k)) {
        var j :| 0 <= j < i && v == others[j].value;
        assert others[j] in pairs && others[j].key != others[i].key;
        assert others[j] in Others(pairs, k);
        var m :| 0 <= m < |Others(pairs, k)| && Others(pairs, k)[m] == others[j];
        assert Values(Others(pairs, k))[m] == v;
      }
      if !Idle(pairs[k]) {
        ClearOfFewer(pairs[k].key, Values(Others(pairs, k)), Values(others[..i]));
      }
    }
  }

  /** With such values every order fills in every template at once. */
  lemma EveryOrderFills(t: seq<Piece>, others: seq<Pair>, pairs: seq<Pair>)
    requires WellFormed(t) && PlainKeys(pairs) && DistinctKeys(pairs) && Reorders(others, pairs)
    requires SafeInEveryOrder(pairs)
    ensures Chain(Print(t), others) == Fill(t, pairs)
  {
    ReorderedIsSafe(others, pairs);
    ChainFills(t, others);
    SameFill(t, others, pairs);
  }

  // ----- two orders that differ

  function Without(pairs: seq<Pair>, gone: seq<Pair>): (r: seq<Pair>)
    ensures forall p :: p in r <==> p in pairs && p !in gone
  {
    if pairs == [] then [] else (if pairs[0] in gone then [] else [pairs[0]]) + Without(pairs[1..], gone)
  }

  lemma {:induction false} WithoutIsDistinct(pairs: seq<Pair>, gone: seq<Pair>)
    requires DistinctKeys(pairs)
    ensures DistinctKeys(Without(pairs, gone))
  {
    if pairs != [] {
      WithoutIsDistinct(pairs[1..], gone);
      var rest := Without(pairs[1..], gone);
      forall i | 0 <= i < |rest| ensures rest[i].key != pairs[0].key {
        assert rest[i] in pairs[1..];
      }
    }
  }

  lemma TwoListsDistinct(a: seq<Pair>, b: seq<Pair>, pairs: seq<Pair>)
    requires DistinctKeys(pairs) && DistinctKeys(a) && DistinctKeys(b)
    requires (forall p :: p in a ==> p in pairs && p !in b) && (forall p :: p in b ==> p in pairs)
    ensures DistinctKeys(a + b)
  {
    forall i, j | 0 <= i < |a| && 0 <= j < |b| ensures a[i].key != b[j].key {
      assert a[i] in a && b[j] in b;
      KeyTells(pairs, a[i], b[j]);
    }
  }

  lemma KeyTells(pairs: seq<Pair>, p: Pair, q: Pair)
    requires DistinctKeys(pairs) && p in pairs && q in pairs && p != q
    ensures p.key != q.key
  {
  }

  /** Some replacements in front, the rest before or after one of them. */
  lemma TwoOrders(pairs: seq<Pair>, safe: seq<Pair>, p: Pair) returns (idle: seq<Pair>)
    requires DistinctKeys(pairs) && DistinctKeys(safe) && p in pairs && p !in safe
    requires forall q :: q in safe ==> q in pairs
    ensures Reorders(idle + safe + [p], pairs) && Reorders((idle + [p]) + safe, pairs)
    ensures forall q :: q in idle ==> q in pairs && q !in safe && q != p
  {
    idle := Without(pairs, safe + [p]);
    WithoutIsDistinct(pairs, safe + [p]);
    TwoListsDistinct(idle, safe, pairs);
    TwoListsDistinct(idle + safe, [p], pairs);
    TwoListsDistinct(idle, [p], pairs);
    TwoListsDistinct(idle + [p], safe, pairs);
  }

  lemma AbsentOthers(pairs: seq<Pair>, t: seq<Piece>, some: seq<Pair>, safe: seq<Pair>)
    requires DistinctKeys(pairs) && (forall q :: q in safe ==> q in pairs)
    requires forall q :: q in some ==> q in pairs && q !in safe
    requires forall h :: h in t && h.Hole? ==> exists q :: q in safe && q.key == h.name
    ensures Absent(t, some)
  {
    forall i | 0 <= i < |some| ensures Hole(some[i].key) !in t {
      assert some[i] in some;
      forall q | q in safe ensures q.key != some[i].key {
        KeyTells(pairs, q, some[i]);
      }
    }
  }

  /** A safe beginning whose values are bad for one more key gives a template and two orders that differ on it. */
  lemma OrdersDiffer(pairs: seq<Pair>, safe: seq<Pair>, p: Pair, a: Pair, b: Pair)
      returns (good: seq<Pair>, bad: seq<Pair>, t: seq<Piece>)
    requires PlainKeys(pairs) && DistinctKeys(pairs) && p in pairs && !Idle(p) && p !in safe
    requires DistinctKeys(safe) && PlainKeys(safe) && SafeInOrder(safe) && forall q :: q in safe ==> q in pairs
    requires a in safe && b in safe && Bad(p.key, a.value, b.value)
    ensures Reorders(good, pairs) && Reorders(bad, pairs) && WellFormed(t)
    ensures Chain(Print(t), good) == Fill(t, pairs) != Chain(Print(t), bad)
  {
    KeyTells(pairs, p, a);
    KeyTells(pairs, p, b);
    LookupIs(safe, a);
    LookupIs(safe, b);
    var i;
    t, i := BadShows(p.key, a.key, b.key, safe);
    var idle := TwoOrders(pairs, safe, p);
    good, bad := (idle + [p]) + safe, idle + safe + [p];
    hide Clear;
    hide Bad;
    AbsentOthers(pairs, t, idle, safe);
    AbsentOthers(pairs, t, [p], safe);
    AbsentOthers(pairs, t, idle + [p], safe);
    KeysStayPlain(idle, pairs);
    KeysStayPlain(idle + [p], pairs);
    LastStepBreaks(t, idle, safe, p, i);
    SameFill(t, bad, pairs);
    AbsentKeysDoNothing(t, idle + [p]);
    ChainConcat(Print(t), idle + [p], safe);
    ChainFills(t, safe);
  }

  lemma KeysStayPlain(some: seq<Pair>, pairs: seq<Pair>)
    requires PlainKeys(pairs) && forall q :: q in some ==> q in pairs
    ensures PlainKeys(some)
  {
    forall i | 0 <= i < |some| ensures BraceFree(some[i].key) {
      assert some[i] in pairs;
    }
  }

  lemma OneIsSafe(a: Pair)
    ensures SafeInOrder([a]) && DistinctKeys([a])
  {
    assert [a][..0] == [];
  }

  lemma TwoAreSafe(a: Pair, b: Pair)
    requires a.key != b.key && (Idle(b) || Clear(b.key, [a.value]))
    ensures SafeInOrder([a, b]) && DistinctKeys([a, b])
  {
    assert Values([a, b][..0]) == [] && Values([a, b][..1]) == [a.value];
  }

  /** Unsafe values show in two orders. */
  lemma UnsafeShows(pairs: seq<Pair>) returns (good: seq<Pair>, bad: seq<Pair>, t: seq<Piece>)
    requires PlainKeys(pairs) && DistinctKeys(pairs) && !SafeInEveryOrder(pairs)
    ensures Reorders(good, pairs) && Reorders(bad, pairs) && WellFormed(t)
    ensures Chain(Print(t), good) == Fill(t, pairs) != Chain(Print(t), bad)
  {
    var i :| 0 <= i < |pairs| && !Idle(pairs[i]) && !Clear(pairs[i].key, Values(Others(pairs, i)));
    var v, w := NotClear(pairs[i].key, Values(Others(pairs, i)));
    var a := PairOf(pairs, i, v);
    var b := PairOf(pairs, i, w);
    hide Clear;
    hide Bad;
    KeysStayPlain([a], pairs);
    if a == b {
      OneIsSafe(a);
      good, bad, t := OrdersDiffer(pairs, [a], pairs[i], a, a);
    } else {
      KeyTells(pairs, a, b);
      if Idle(b) || Clear(b.key, [a.value]) {
        TwoAreSafe(a, b);
        KeysStayPlain([a, b], pairs);
        good, bad, t := OrdersDiffer(pairs, [a, b], pairs[i], a, b);
      } else {
        var v', w' := NotClear(b.key, [a.value]);
        OneIsSafe(a);
        good, bad, t := OrdersDiffer(pairs, [a], b, a, a);
      }
    }
  }

  lemma PairOf(pairs: seq<Pair>, i: nat, v: string) returns (p: Pair)
    requires DistinctKeys(pairs) && i < |pairs| && v in Values(Others(pairs, i))
    ensures p in pairs && p != pairs[i] && p.value == v
  {
    var m :| 0 <= m < |Others(pairs, i)| && Others(pairs, i)[m].value == v;
    p := Others(pairs, i)[m];
  }

  /** Every order fills in every template at once exactly when the values are safe in every order. */
  lemma SimultaneousExactly(pairs: seq<Pair>)
    requires PlainKeys(pairs) && DistinctKeys(pairs)
    ensures SafeInEveryOrder(pairs)
            <==> forall others, t | Reorders(others, pairs) && WellFormed(t) ::
                   Chain(Print(t), others) == Fill(t, pairs)
  {
    hide SafeInEveryOrder;
    if SafeInEveryOrder(pairs) {
      forall others, t | Reorders(others, pairs) && WellFormed(t) ensures Chain(Print(t), others) == Fill(t, pairs) {
        EveryOrderFills(t, others, pairs);
      }
    } else {
      var good, bad, t := UnsafeShows(pairs);
    }
  }

  predicate Agree(s: string, a: seq<Pair>, b: seq<Pair>) {
    Chain(s, a) == Chain(s, b)
  }

  /** The order of the replacements is irrelevant for every template exactly when the values are safe in every
      order. */
  lemma OrderIsIrrelevantExactly(pairs: seq<Pair>)
    requires PlainKeys(pairs) && DistinctKeys(pairs)
    ensures SafeInEveryOrder(pairs)
            <==> forall a, b, t | Reorders(a, pairs) && Reorders(b, pairs) && WellFormed(t) :: Agree(Print(t), a, b)
  {
    hide SafeInEveryOrder;
    if SafeInEveryOrder(pairs) {
      forall a, b, t | Reorders(a, pairs) && Reorders(b, pairs) && WellFormed(t) ensures Agree(Print(t), a, b) {
        EveryOrderFills(t, a, pairs);
        EveryOrderFills(t, b, pairs);
      }
    } else {
      var good, bad, t := UnsafeShows(pairs);
      assert !Agree(Print(t), good, bad);
    }
  }

  // ----- values with one kind of brace

  lemma ClearWithoutOpening(key: string, values: seq<string>)
    requires forall v :: v in values ==> '{' !in v
    ensures Clear(key, values)
  {
    forall v | v in values ensures !Contains(v, Token(key)) {
      forall i | 0 <= i <= |v| ensures !OccursAt(v, i, Token(key)) {
        NoFirstCharacter(v, i, Token(key));
      }
    }
    forall v, w | v in values && w in values ensures !Joins(key, v, w) {
      forall a: nat | a <= |key| ensures !Opens(key, v, a) {
        NoFirstCharacter(v, |v| - |"{" + key[..a]|, "{" + key[..a]);
      }
    }
  }

  lemma NoFirstCharacter(s: string, i: int, pat: string)
    requires pat != "" && pat[0] !in s
    ensures !OccursAt(s, i, pat)
  {
    if OccursAt(s, i, pat) {
      OccursHasFirst(s, i, pat);
    }
  }

  lemma NoLastCharacter(s: string, i: int, pat: string)
    requires pat != "" && pat[|pat| - 1] !in s
    ensures !OccursAt(s, i, pat)
  {
    if 0 <= i <= |s| - |pat| {
      assert s[i + |pat| - 1] in s;
      Differs(s, i, pat, |pat| - 1);
    }
  }

  lemma ClearWithoutClosing(key: string, values: seq<string>)
    requires forall v :: v in values ==> '}' !in v
    ensures Clear(key, values)
  {
    forall v | v in values ensures !Contains(v, Token(key)) {
      forall i | 0 <= i <= |v| ensures !OccursAt(v, i, Token(key)) {
        NoLastCharacter(v, i, Token(key));
      }
    }
    forall v, w | v in values && w in values ensures !Joins(key, v, w) {
      forall b: nat | b <= |key| ensures !Closes(key, w, b) {
        NoLastCharacter(w, 0, key[|key| - b..] + "}");
      }
    }
  }

  /** A brace-free value does no harm among others. */
  lemma ClearWithPlain(key: string, plain: string, values: seq<string>)
    requires BraceFree(plain) && Clear(key, values)
    ensures Clear(key, [plain] + values)
  {
    forall i | 0 <= i <= |plain| ensures !OccursAt(plain, i, Token(key)) {
      NoFirstCharacter(plain, i, Token(key));
    }
    forall a: nat | a <= |key| ensures !Opens(key, plain, a) {
      NoFirstCharacter(plain, |plain| - |"{" + key[..a]|, "{" + key[..a]);
    }
    forall b: nat | b <= |key| ensures !Closes(key, plain, b) {
      NoLastCharacter(plain, 0, key[|key| - b..] + "}");
    }
    forall v, w | v in [plain] + values && w in [plain] + values ensures !Joins(key, v, w) {
      if v != plain && w != plain {
        assert v in values && w in values;
      }
    }
  }

  // ----- the title

  function RenderTitle(template: string, count: nat, country: string, city: string, date: string): string {
    var a := ReplaceAll(template, "{count}", Decimal(count));
    var b := ReplaceAll(a, "{country}", country);
    var c := ReplaceAll(b, "{city}", city);
    ReplaceAll(c, "{date}", date)
  }

  function Places(count: nat, country: string, city: string): seq<Pair> {
    [Pair("count", Decimal(count)), Pair("country", country), Pair("city", city)]
  }

  function Scope(count: nat, country: string, city: string, date: string): seq<Pair> {
    Places(count, country, city) + [Pair("date", date)]
  }

  lemma ChainOf(s: string, pairs: seq<Pair>)
    requires pairs != []
    ensures Chain(s, pairs) == Chain(ReplaceAll(s, Token(pairs[0].key), pairs[0].value), pairs[1..])
  {
  }

  lemma Tokens()
    ensures Token("count") == "{count}" && Token("country") == "{country}"
    ensures Token("city") == "{city}" && Token("date") == "{date}"
  {
  }

  lemma Names()
    ensures BraceFree("count") && BraceFree("country") && BraceFree("city") && BraceFree("date")
    ensures "count" != "country" && "count" != "city" && "count" != "date"
    ensures "country" != "city" && "country" != "date" && "city" != "date"
  {
    assert "count"[0] == "country"[0] == "city"[0] == 'c' && "date"[0] == 'd';
    assert |"count"| == 5 && |"country"| == 7 && |"city"| == 4;
  }

  lemma CountIsPlain(count: nat)
    ensures BraceFree(Decimal(count))
  {
    DecimalRoundTrip(count);
  }

  lemma TitleIsChain(template: string, count: nat, country: string, city: string, date: string)
    ensures RenderTitle(template, count, country, city, date) == Chain(template, Scope(count, country, city, date))
  {
    var pairs := Scope(count, country, city, date);
    Tokens();
    hide ReplaceAll;
    hide Decimal;
    hide Token;
    ChainOf(template, pairs);
    assert pairs[1..][0] == pairs[1] && pairs[2..][0] == pairs[2] && pairs[3..][0] == pairs[3];
    var a := ReplaceAll(template, "{count}", Decimal(count));
    var b := ReplaceAll(a, "{country}", country);
    var c := ReplaceAll(b, "{city}", city);
    ChainOf(a, pairs[1..]);
    ChainOf(b, pairs[2..]);
    ChainOf(c, pairs[3..]);
    assert pairs[1..][1..] == pairs[2..] && pairs[2..][1..] == pairs[3..] && pairs[3..][1..] == [];
  }

  lemma ScopeIsPlain(count: nat, country: string, city: string, date: string)
    ensures PlainKeys(Scope(count, country, city, date)) && DistinctKeys(Scope(count, country, city, date))
    ensures PlainKeys(Places(count, country, city)) && DistinctKeys(Places(count, country, city))
  {
    Names();
    hide BraceFree;
    hide Decimal;
  }

  /** The labels that are replaced before others, and so are looked at again. */
  predicate TitleSafe(country: string, city: string) {
    (city == "{city}" || Clear("city", [country])) && Clear("date", [country, city])
  }

  lemma PlacesAreSafe(count: nat, country: string, city: string)
    requires city == "{city}" || Clear("city", [country])
    ensures SafeInOrder(Places(count, country, city))
  {
    var pairs, c := Places(count, country, city), Decimal(count);
    CountIsPlain(count);
    Tokens();
    hide Decimal;
    hide Contains;
    hide Joins;
    assert Clear("count", []) && Clear("country", []);
    ClearWithPlain("country", c, []);
    assert Values(pairs[..0]) == [] && Values(pairs[..1]) == [c] + [] && Values(pairs[..2]) == [c] + [country];
    if city != "{city}" {
      ClearWithPlain("city", c, [country]);
    }
  }

  lemma ScopeIsSafe(count: nat, country: string, city: string, date: string)
    requires TitleSafe(country, city)
    ensures SafeInOrder(Scope(count, country, city, date))
  {
    var pairs, c := Scope(count, country, city, date), Decimal(count);
    PlacesAreSafe(count, country, city);
    CountIsPlain(count);
    ClearWithPlain("date", c, [country, city]);
    hide Decimal;
    hide Clear;
    assert Values(pairs[..3]) == [c] + [country, city];
    forall i | 0 <= i < 3 ensures pairs[..i] == Places(count, country, city)[..i] {
    }
  }

  /** With such labels the title is its template with every placeholder filled in at once. */
  lemma TitleIsSimultaneous(t: seq<Piece>, count: nat, country: string, city: string, date: string)
    requires WellFormed(t) && TitleSafe(country, city)
    ensures RenderTitle(Print(t), count, country, city, date) == Fill(t, Scope(count, country, city, date))
  {
    hide *;
    TitleIsChain(Print(t), count, country, city, date);
    ScopeIsPlain(count, country, city, date);
    ScopeIsSafe(count, country, city, date);
    ChainFills(t, Scope(count, country, city, date));
  }

  /** Labels without opening braces are such labels, and so are labels without closing braces. */
  lemma OneKindOfBraceIsSafe(country: string, city: string)
    requires ('{' !in country && '{' !in city) || ('}' !in country && '}' !in city)
    ensures TitleSafe(country, city)
  {
    hide Clear;
    if '{' !in country && '{' !in city {
      ClearWithoutOpening("city", [country]);
      ClearWithoutOpening("date", [country, city]);
    } else {
      ClearWithoutClosing("city", [country]);
      ClearWithoutClosing("date", [country, city]);
    }
  }

  /** The wrong title of a label that is bad for the city: a date label that is its own placeholder leaves it. */
  lemma CityShows(count: nat, country: string, city: string) returns (t: seq<Piece>)
    requires city != "{city}" && !Clear("city", [country])
    ensures WellFormed(t)
    ensures RenderTitle(Print(t), count, country, city, "{date}") != Fill(t, Scope(count, country, city, "{date}"))
  {
    var c := Decimal(count);
    var safe, p, d := [Pair("count", c), Pair("country", country)], Pair("city", city), Pair("date", "{date}");
    var v, w := NotClear("city", [country]);
    Names();
    Tokens();
    CountIsPlain(count);
    TwoPlacesAreSafe(c, country);
    var i;
    t, i := BadShows("city", "country", "country", safe);
    hide Clear;
    hide Bad;
    hide BraceFree;
    assert Absent(t, []) && PlainKeys([]);
    assert Absent(t, [p]) && Absent(t, [d]);
    LastStepBreaks(t, [], safe, p, i);
    assert [] + safe + [p] == Places(count, country, city);
    FillSkips(t, [d], Places(count, country, city));
    var s := Chain(Print(t), Places(count, country, city));
    ChainConcat(Print(t), Places(count, country, city), [d]);
    ChainOf(s, [d]);
    ReplaceBySelf(s, "{date}");
    TitleIsChain(Print(t), count, country, city, "{date}");
  }

  lemma TwoPlacesAreSafe(c: string, country: string)
    requires BraceFree(c)
    ensures var safe := [Pair("count", c), Pair("country", country)];
            SafeInOrder(safe) && PlainKeys(safe) && DistinctKeys(safe) && Lookup(safe, "country") == Some(country)
  {
    var safe := [Pair("count", c), Pair("country", country)];
    Names();
    assert Clear("country", []);
    ClearWithPlain("country", c, []);
    TwoAreSafe(safe[0], safe[1]);
    LookupIs(safe, safe[1]);
  }

  /** The wrong title of labels that are bad for the date. */
  lemma DateShows(count: nat, country: string, city: string, date: string) returns (t: seq<Piece>)
    requires (city == "{city}" || Clear("city", [country])) && !Clear("date", [country, city]) && date != "{date}"
    ensures WellFormed(t)
    ensures RenderTitle(Print(t), count, country, city, date) != Fill(t, Scope(count, country, city, date))
  {
    var safe, p := Places(count, country, city), Pair("date", date);
    var v, w := NotClear("date", [country, city]);
    Names();
    Tokens();
    ScopeIsPlain(count, country, city, date);
    PlacesAreSafe(count, country, city);
    LookupIs(safe, safe[1]);
    LookupIs(safe, safe[2]);
    var a, b := if v == country then "country" else "city", if w == country then "country" else "city";
    var i;
    t, i := BadShows("date", a, b, safe);
    hide Clear;
    hide Bad;
    hide BraceFree;
    hide Decimal;
    assert Absent(t, []) && PlainKeys([]) && Absent(t, [p]);
    LastStepBreaks(t, [], safe, p, i);
    assert [] + safe + [p] == Scope(count, country, city, date);
    TitleIsChain(Print(t), count, country, city, date);
  }

  predicate FilledAtOnce(t: seq<Piece>, count: nat, country: string, city: string, date: string) {
    RenderTitle(Print(t), count, country, city, date) == Fill(t, Scope(count, country, city, date))
  }

  /** Whatever the labels are: the title is filled in at once for every template and every date label exactly when
      the country and the city neither hold nor make a placeholder that is replaced after them. */
  lemma TitleIsSimultaneousExactly(count: nat, country: string, city: string)
    ensures TitleSafe(country, city)
            <==> forall t, date | WellFormed(t) :: FilledAtOnce(t, count, country, city, date)
  {
    if TitleSafe(country, city) {
      forall t, date | WellFormed(t) ensures FilledAtOnce(t, count, country, city, date) {
        TitleIsSimultaneous(t, count, country, city, date);
      }
    } else if city != "{city}" && !Clear("city", [country]) {
      var t := CityShows(count, country, city);
      assert !FilledAtOnce(t, count, country, city, "{date}");
    } else {
      var t := DateShows(count, country, city, "");
      assert !FilledAtOnce(t, count, country, city, "");
    }
  }

  lemma IdleDateIsSafe(count: nat, country: string, city: string, date: string)
    requires (city == "{city}" || Clear("city", [country])) && (date == "{date}" || Clear("date", [country, city]))
    ensures SafeInOrder(Scope(count, country, city, date))
  {
    if date == "{date}" {
      var pairs := Scope(count, country, city, date);
      PlacesAreSafe(count, country, city);
      Tokens();
      hide Decimal;
      hide Clear;
      forall i | 0 <= i < 3 ensures pairs[..i] == Places(count, country, city)[..i] {
      }
    } else {
      ScopeIsSafe(count, country, city, date);
    }
  }

  /** For one date label, after a country that is clear for the city: every template is filled in at once exactly when
      country and city are clear for the date, or the date stands for itself. */
  lemma TitleWithDateExactly(count: nat, country: string, city: string, date: string)
    requires city == "{city}" || Clear("city", [country])
    ensures (date == "{date}" || Clear("date", [country, city]))
            <==> forall t | WellFormed(t) :: FilledAtOnce(t, count, country, city, date)
  {
    if date == "{date}" || Clear("date", [country, city]) {
      forall t | WellFormed(t) ensures FilledAtOnce(t, count, country, city, date) {
        IdleDateIsSafe(count, country, city, date);
        ScopeIsPlain(count, country, city, date);
        ChainFills(t, Scope(count, country, city, date));
        TitleIsChain(Print(t), count, country, city, date);
      }
    } else {
      var t := DateShows(count, country, city, date);
      assert !FilledAtOnce(t, count, country, city, date);
    }
  }

  /** Labels that are safe in every order: any order of the four replacements gives the title. */
  lemma TitleInAnyOrder(t: seq<Piece>, count: nat, country: string, city: string, date: string, others: seq<Pair>)
    requires WellFormed(t) && Reorders(others, Scope(count, country, city, date))
    requires SafeInEveryOrder(Scope(count, country, city, date))
    ensures RenderTitle(Print(t), count, country, city, date) == Chain(Print(t), others)
  {
    hide *;
    var pairs := Scope(count, country, city, date);
    TitleIsChain(Print(t), count, country, city, date);
    ScopeIsPlain(count, country, city, date);
    EveryOrderFills(t, others, pairs);
    ReordersItself(pairs);
    EveryOrderFills(t, pairs, pairs);
  }

  lemma ReordersItself(pairs: seq<Pair>)
    requires DistinctKeys(pairs)
    ensures Reorders(pairs, pairs)
  {
  }

  /** Neither label holds a placeholder, and the template has no date: replaced last, the date label is the whole
      title; replaced first, it is not in it. */
  lemma TitleDependsOnOrder(count: nat, date: string)
    requires date != "{date}"
    ensures var t := [Hole("country"), Lit("date"), Hole("city")];
            var dateFirst := [Pair("date", date)] + Places(count, "{", "}");
            WellFormed(t) && Reorders(dateFirst, Scope(count, "{", "}", date))
            && RenderTitle(Print(t), count, "{", "}", date) == date
            && Chain(Print(t), dateFirst) == "{date}" == Fill(t, Scope(count, "{", "}", date))
  {
    hide Clear;
    hide Decimal;
    hide ReplaceAll;
    var t, safe, d := [Hole("country"), Lit("date"), Hole("city")], Places(count, "{", "}"), [Pair("date", date)];
    Names();
    Tokens();
    ScopeIsPlain(count, "{", "}", date);
    ClearWithoutClosing("city", ["{"]);
    PlacesAreSafe(count, "{", "}");
    LookupIs(safe, safe[1]);
    LookupIs(safe, safe[2]);
    FillTwo("country", "date", "city", safe);
    ReplaceToken("date", "date", "", date);
    TitleIsChain(Print(t), count, "{", "}", date);
    OneDate(date);
    hide Print;
    hide Fill;
    hide Lookup;
    hide Token;
    assert Absent(t, d) && WellFormed(t) && PlainKeys(d);
    ChainFills(t, safe);
    ChainConcat(Print(t), safe, d);
    ChainConcat(Print(t), d, safe);
    AbsentKeysDoNothing(t, d);
    FillSkips(t, d, safe);
    DateFirstReorders(d[0], safe);
  }

  lemma OneDate(date: string)
    ensures Chain("{date}", [Pair("date", date)]) == date
    ensures "{" + ("date" + "}") == "{date}"
  {
    Names();
    Tokens();
    ReplaceToken("date", "date", "", date);
    assert "{date}" + "" == "{date}" && date + "" == date;
    hide ReplaceAll;
    ChainOf("{date}", [Pair("date", date)]);
    assert [Pair("date", date)][1..] == [];
  }

  lemma DateFirstReorders(d: Pair, safe: seq<Pair>)
    requires DistinctKeys(safe + [d])
    ensures Reorders([d] + safe, safe + [d])
  {
    forall i | 0 <= i < |safe| ensures safe[i].key != d.key {
      assert (safe + [d])[i] == safe[i] && (safe + [d])[|safe|] == d;
    }
    forall i, j | 0 <= i < j < |safe| ensures safe[i].key != safe[j].key {
      assert (safe + [d])[i] == safe[i] && (safe + [d])[j] == safe[j];
    }
  }
}
