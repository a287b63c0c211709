/** router.rs: labels whose title is right for every template, though the country holds the city's placeholder. */
module DateRepair {
  import opened Wrappers
  import opened TextUtil
  import opened TitleTemplate
  import opened CardTitle

  const HOLDS_CITY := "{da{city}"
  const CLOSES := "te}"

  /** The country's value read as an opening part and the city's placeholder. */
  function Opened(p: Piece): seq<Piece> {
    if p == Hole("country") then [Lit("{da"), Hole("city")] else [p]
  }

  /** The text of the pieces once the country is in. */
  function WithCountry(u: seq<Piece>): seq<Piece> {
    if u == [] then [] else Opened(u[0]) + WithCountry(u[1..])
  }

  /** And once the city is in: where the country was there is now the placeholder of the date. */
  function WithCity(p: Piece): Piece {
    if p == Hole("country") then Hole("date") else if p == Hole("city") then Lit(CLOSES) else p
  }

  function AllWithCity(u: seq<Piece>): (r: seq<Piece>)
    ensures |r| == |u| && forall i :: 0 <= i < |u| ==> r[i] == WithCity(u[i])
  {
    seq(|u|, i requires 0 <= i < |u| => WithCity(u[i]))
  }

  lemma PrintTwo(p: Piece, q: Piece, rest: seq<Piece>)
    ensures Print([p] + rest) == Text(p) + Print(rest)
    ensures Print([p, q] + rest) == Text(p) + (Text(q) + Print(rest))
  {
    assert ([p] + rest)[1..] == rest;
    assert ([p, q] + rest)[1..] == [q] + rest && ([q] + rest)[1..] == rest;
  }

  lemma Spellings()
    ensures HOLDS_CITY == "{da" + Token("city") && "{da" + CLOSES == Token("date")
    ensures !BraceFree(HOLDS_CITY) && !BraceFree(CLOSES)
    ensures '}' !in "{da" && '{' !in CLOSES
  {
    assert HOLDS_CITY[0] == '{' && CLOSES[2] == '}';
  }

  lemma PrintOpened(p: Piece, rest: seq<Piece>)
    ensures Print(Opened(p) + rest) == (if p == Hole("country") then HOLDS_CITY else Text(p)) + Print(rest)
  {
    PrintTwo(p, p, rest);
    PrintTwo(Lit("{da"), Hole("city"), rest);
    Spellings();
    hide Print;
    hide Token;
    assert "{da" + (Token("city") + Print(rest)) == ("{da" + Token("city")) + Print(rest);
  }

  lemma PrintCons(u: seq<Piece>)
    requires u != []
    ensures Print(u) == Text(u[0]) + Print(u[1..])
  {
  }

  lemma {:induction false} PrintWithCountry(u: seq<Piece>)
    ensures Print(WithCountry(u)) == Print(Substituted(u, "country", HOLDS_CITY))
  {
    if u != [] {
      PrintWithCountry(u[1..]);
      SubstitutedCons(u, "country", HOLDS_CITY);
      PrintCons(Substituted(u, "country", HOLDS_CITY));
      PrintOpened(u[0], WithCountry(u[1..]));
      hide Print;
      hide Opened;
    }
  }

  lemma {:induction false} WithCountryIsMade(u: seq<Piece>)
    requires WellFormed(u)
    ensures Made(WithCountry(u), ["{da"])
  {
    if u != [] {
      WithCountryIsMade(u[1..]);
      Names();
    }
  }

  lemma SubstitutedConcat(a: seq<Piece>, b: seq<Piece>, key: string, value: string)
    ensures Substituted(a + b, key, value) == Substituted(a, key, value) + Substituted(b, key, value)
  {
  }

  lemma PrintClosed(p: Piece, rest: seq<Piece>)
    ensures Print(Substituted(Opened(p), "city", CLOSES) + rest) == Text(WithCity(p)) + Print(rest)
  {
    PrintTwo(WithCity(p), p, rest);
    PrintTwo(Lit("{da"), Lit(CLOSES), rest);
    Spellings();
    hide Print;
    hide Token;
    if p == Hole("country") {
      assert Substituted(Opened(p), "city", CLOSES) == [Lit("{da"), Lit(CLOSES)];
      assert "{da" + (CLOSES + Print(rest)) == ("{da" + CLOSES) + Print(rest);
    } else {
      assert Substituted(Opened(p), "city", CLOSES) == [WithCity(p)];
    }
  }

  lemma {:induction false} PrintWithCity(u: seq<Piece>)
    ensures Print(Substituted(WithCountry(u), "city", CLOSES)) == Print(AllWithCity(u))
  {
    if u != [] {
      PrintWithCity(u[1..]);
      SubstitutedConcat(Opened(u[0]), WithCountry(u[1..]), "city", CLOSES);
      PrintClosed(u[0], Substituted(WithCountry(u[1..]), "city", CLOSES));
      PrintCons(AllWithCity(u));
      assert AllWithCity(u)[1..] == AllWithCity(u[1..]);
      hide Print;
      hide Opened;
      hide WithCity;
    }
  }

  lemma {:induction false} PrintIsFill(u: seq<Piece>, t: seq<Piece>, pairs: seq<Pair>)
    requires |u| == |t| && forall i :: 0 <= i < |t| ==> Text(u[i]) == Filled(t[i], pairs)
    ensures Print(u) == Fill(t, pairs)
  {
    if t != [] {
      PrintIsFill(u[1..], t[1..], pairs);
    }
  }

  lemma LookupCons(p: Pair, rest: seq<Pair>, name: string)
    ensures Lookup([p] + rest, name) == if p.key == name then Some(p.value) else Lookup(rest, name)
    ensures Lookup([], name) == None
  {
    assert ([p] + rest)[1..] == rest;
  }

  lemma ScopeLookup(count: nat, country: string, city: string, date: string, name: string)
    ensures Lookup(Scope(count, country, city, date), name)
            == if name == "count" then Some(Decimal(count))
               else if name == "country" then Some(country)
               else if name == "city" then Some(city)
               else if name == "date" then Some(date)
               else None
  {
    var pairs := Scope(count, country, city, date);
    Names();
    LookupCons(pairs[3], [], name);
    LookupCons(pairs[2], [pairs[3]], name);
    LookupCons(pairs[1], [pairs[2], pairs[3]], name);
    LookupCons(pairs[0], [pairs[1], pairs[2], pairs[3]], name);
    hide Lookup;
    hide Decimal;
    assert [pairs[3]] == [pairs[3]] + [] && [pairs[2], pairs[3]] == [pairs[2]] + [pairs[3]];
    assert [pairs[1], pairs[2], pairs[3]] == [pairs[1]] + [pairs[2], pairs[3]];
    assert pairs == [pairs[0]] + [pairs[1], pairs[2], pairs[3]];
  }

  /** One piece of the template on its way through the four replacements. */
  lemma PieceFills(p: Piece, count: nat)
    requires WellFormed([p])
    ensures var a := if p == Hole("count") then Lit(Decimal(count)) else p;
            var b := if WithCity(a) == Hole("date") then Lit(HOLDS_CITY) else WithCity(a);
            Text(b) == Filled(p, Scope(count, HOLDS_CITY, CLOSES, HOLDS_CITY))
  {
    Names();
    if p.Hole? {
      ScopeLookup(count, HOLDS_CITY, CLOSES, HOLDS_CITY, p.name);
    }
  }

  lemma ThreeSteps(t: seq<Piece>, count: nat)
    requires WellFormed(t)
    ensures var u := Substituted(t, "count", Decimal(count));
            RenderTitle(Print(t), count, HOLDS_CITY, CLOSES, HOLDS_CITY)
            == ReplaceAll(Print(AllWithCity(u)), "{date}", HOLDS_CITY)
            && WellFormed(u)
  {
    var u := Substituted(t, "count", Decimal(count));
    CountIsPlain(count);
    Tokens();
    Names();
    ClearWithoutClosing("city", ["{da"]);
    assert Clear("count", []) && Clear("country", []);
    assert Made(t, []) && Made(u, []);
    hide ReplaceAll;
    hide Decimal;
    hide Clear;
    ReplaceIsSubstituted(t, "count", Decimal(count), []);
    ReplaceIsSubstituted(u, "country", HOLDS_CITY, []);
    PrintWithCountry(u);
    WithCountryIsMade(u);
    ReplaceIsSubstituted(WithCountry(u), "city", CLOSES, ["{da"]);
    PrintWithCity(u);
  }

  lemma LastStep(u: seq<Piece>)
    requires WellFormed(u)
    ensures ReplaceAll(Print(AllWithCity(u)), "{date}", HOLDS_CITY)
            == Print(Substituted(AllWithCity(u), "date", HOLDS_CITY))
  {
    Tokens();
    Names();
    ClearWithoutOpening("date", [CLOSES]);
    hide ReplaceAll;
    hide Clear;
    ReplaceIsSubstituted(AllWithCity(u), "date", HOLDS_CITY, [CLOSES]);
  }

  lemma LastIsFill(t: seq<Piece>, count: nat)
    requires WellFormed(t)
    ensures Print(Substituted(AllWithCity(Substituted(t, "count", Decimal(count))), "date", HOLDS_CITY))
            == Fill(t, Scope(count, HOLDS_CITY, CLOSES, HOLDS_CITY))
  {
    var u := Substituted(AllWithCity(Substituted(t, "count", Decimal(count))), "date", HOLDS_CITY);
    forall i | 0 <= i < |t| ensures Text(u[i]) == Filled(t[i], Scope(count, HOLDS_CITY, CLOSES, HOLDS_CITY)) {
      PieceFills(t[i], count);
    }
    PrintIsFill(u, t, Scope(count, HOLDS_CITY, CLOSES, HOLDS_CITY));
  }

  lemma HoldsTheCity()
    ensures CLOSES != "{city}" && !Clear("city", [HOLDS_CITY])
  {
    assert HOLDS_CITY[3..9] == Token("city");
    assert OccursAt(HOLDS_CITY, 3, Token("city"));
    assert Contains(HOLDS_CITY, Token("city"));
    assert HOLDS_CITY in [HOLDS_CITY];
    assert |CLOSES| == 3 && |"{city}"| == 6;
  }

  /** With these labels every template is filled in at once, though the country holds the city's placeholder: for one
      date label the condition of `TitleWithDateExactly` is more than it takes. */
  lemma DateRepairsCity(count: nat)
    ensures !(CLOSES == "{city}" || Clear("city", [HOLDS_CITY]))
    ensures forall t | WellFormed(t) :: FilledAtOnce(t, count, HOLDS_CITY, CLOSES, HOLDS_CITY)
  {
    HoldsTheCity();
    forall t | WellFormed(t) ensures FilledAtOnce(t, count, HOLDS_CITY, CLOSES, HOLDS_CITY) {
      FilledThere(t, count);
    }
  }

  lemma FilledThere(t: seq<Piece>, count: nat)
    requires WellFormed(t)
    ensures FilledAtOnce(t, count, HOLDS_CITY, CLOSES, HOLDS_CITY)
  {
    ThreeSteps(t, count);
    hide ReplaceAll;
    hide Decimal;
    hide Fill;
    hide Print;
    hide RenderTitle;
    LastStep(Substituted(t, "count", Decimal(count)));
    LastIsFill(t, count);
  }
}
