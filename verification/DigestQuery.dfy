/** digest_cache.rs: the events of a snapshot that match a filter, and the days a date word stands for.
    Days are numbered, and day 0 is a Monday. */
module DigestQuery {
  import opened Wrappers

  /** Dates are as parsed; a date that does not parse is absent. */
  datatype Event = Event(id: string, country: Option<string>, city: Option<string>, category: Option<string>,
                         dateStart: Option<int>, dateEnd: Option<int>, timeOfDay: Option<string>)

  datatype DateTag = Today | Tomorrow | Weekend | Week | All

  datatype EventFilter = EventFilter(date: Option<DateTag>, country: Option<string>, city: Option<string>,
                                     category: Option<string>, timeOfDay: Option<string>, limit: Option<nat>)

  /** Both ends are in the range. */
  datatype Range = Range(from: int, to: int)

  // ----- days

  /** Monday is 0. */
  function Weekday(day: int): nat {
    day % 7
  }

  const SATURDAY := 5
  const SUNDAY := 6

  function DateTagRange(tag: DateTag, today: int): Option<Range> {
    match tag
    case All => None
    case Today => Some(Range(today, today))
    case Tomorrow => Some(Range(today + 1, today + 1))
    case Weekend =>
      var dow := Weekday(today);
      var sat := today + (if dow == SUNDAY then -1 else SATURDAY - dow);
      var sun := sat + 1;
      Some(Range(if sat < today then sat else today, sun))
    case Week =>
      var mon := today - Weekday(today);
      Some(Range(mon, mon + 6))
  }

  predicate Within(a: Range, b: Range) {
    b.from <= a.from && a.to <= b.to
  }

  lemma WeekdayOf(monday: int, k: nat)
    requires Weekday(monday) == 0 && k < 7
    ensures Weekday(monday + k) == k
  {
  }

  /** The week starts on a Monday, ends on a Sunday, and has today in it. */
  lemma WeekIsAnchored(today: int)
    ensures var w := DateTagRange(Week, today).value;
            Weekday(w.from) == 0 && Weekday(w.to) == SUNDAY && w.from <= today <= w.to && w.to == w.from + 6
  {
    var mon := today - Weekday(today);
    assert mon == today / 7 * 7;
    WeekdayOf(mon, 6);
  }

  /** The weekend ends on the Sunday of this week; it starts on its Saturday exactly when that day has come, and
      today otherwise. */
  lemma WeekendStartsToday(today: int)
    ensures var (r, w) := (DateTagRange(Weekend, today).value, DateTagRange(Week, today).value);
            r.to == w.to && (r == Range(w.to - 1, w.to) <==> Weekday(today) >= SATURDAY)
            && (Weekday(today) <= SATURDAY ==> r.from == today)
  {
  }

  lemma RangesNest(today: int)
    ensures var (day, r, w) := (DateTagRange(Today, today).value, DateTagRange(Weekend, today).value,
                                DateTagRange(Week, today).value);
            Within(day, r) && Within(r, w)
            && (Within(DateTagRange(Tomorrow, today).value, w) <==> Weekday(today) != SUNDAY)
  {
  }

  // ----- one event

  /** The days of an event: one missing end is the other end. */
  function Span(e: Event): Option<Range> {
    if e.dateStart.Some? && e.dateEnd.Some? then Some(Range(e.dateStart.value, e.dateEnd.value))
    else if e.dateStart.Some? then Some(Range(e.dateStart.value, e.dateStart.value))
    else if e.dateEnd.Some? then Some(Range(e.dateEnd.value, e.dateEnd.value))
    else None
  }

  predicate MatchesFilter(e: Event, f: EventFilter, range: Option<Range>) {
    if f.country.Some? && e.country != f.country then false
    else if f.city.Some? && e.city != f.city then false
    else if f.category.Some? && e.category != f.category then false
    else if f.timeOfDay.Some? && e.timeOfDay.Some? && e.timeOfDay != f.timeOfDay then false
    else if range.Some? then
      var span := Span(e);
      if span == None then false
      else if span.value.to < range.value.from || span.value.from > range.value.to then false
      else true
    else true
  }

  predicate On(r: Range, day: int) {
    r.from <= day <= r.to
  }

  predicate ShareADay(a: Range, b: Range) {
    exists day | a.from <= day <= a.to :: On(b, day)
  }

  predicate PassesDates(e: Event, range: Range) {
    MatchesFilter(e, EventFilter(None, None, None, None, None, None), Some(range))
  }

  /** The date test is a day in common, except exactly for an event that ends before it starts and whose two ends
      reach into the range from both sides. */
  lemma DateTestExactly(e: Event, range: Range)
    requires range.from <= range.to && Span(e).Some?
    ensures var s := Span(e).value;
            (PassesDates(e, range) <==> ShareADay(s, range))
            <==> s.from <= s.to || s.to < range.from || s.from > range.to
  {
    var s := Span(e).value;
    if s.from <= s.to && PassesDates(e, range) {
      assert On(range, if s.from < range.from then range.from else s.from);
    }
  }

  /** The date test on the two dates of an event: it starts before the range is over and ends after it began; a single
      date is a day in the range, and an event without dates is out. */
  lemma DatesPassExactly(e: Event, range: Range)
    ensures e.dateStart.Some? && e.dateEnd.Some? ==>
              (PassesDates(e, range) <==> e.dateStart.value <= range.to && range.from <= e.dateEnd.value)
    ensures e.dateStart.Some? && e.dateEnd == None ==> (PassesDates(e, range) <==> On(range, e.dateStart.value))
    ensures e.dateStart == None && e.dateEnd.Some? ==> (PassesDates(e, range) <==> On(range, e.dateEnd.value))
    ensures e.dateStart == None && e.dateEnd == None ==> !PassesDates(e, range)
  {
  }

  /** An event that ends before it starts, with its two ends reaching into the range from both sides. */
  predicate InsideOut(s: Range, range: Range) {
    s.to < s.from && range.from <= s.to && s.from <= range.to
  }

  /** Country, city and category are strict, the time of day forgives an event without one, and a dated query leaves
      out undated events and asks for a day in common, or for an event turned inside out. */
  lemma FilterTable(e: Event, f: EventFilter, range: Option<Range>)
    requires range.Some? ==> range.value.from <= range.value.to
    ensures MatchesFilter(e, f, range)
            <==> (f.country.Some? ==> e.country == f.country) && (f.city.Some? ==> e.city == f.city)
                 && (f.category.Some? ==> e.category == f.category)
                 && (f.timeOfDay.Some? ==> e.timeOfDay == None || e.timeOfDay == f.timeOfDay)
                 && (range.Some? ==> Span(e).Some? && (ShareADay(Span(e).value, range.value)
                                                       || InsideOut(Span(e).value, range.value)))
  {
    if range.Some? && Span(e).Some? {
      DateTestExactly(e, range.value);
    }
  }

  // ----- the query

  /** The iterator stops when it has enough. */
  function Selected(events: seq<Event>, f: EventFilter, range: Option<Range>, limit: Option<nat>): seq<Event> {
    if events == [] || limit == Some(0) then []
    else if MatchesFilter(events[0], f, range) then
      [events[0]] + Selected(events[1..], f, range, if limit.Some? then Some(limit.value - 1) else None)
    else Selected(events[1..], f, range, limit)
  }

  function Asked(f: EventFilter, today: int): Option<Range> {
    if f.date.Some? then DateTagRange(f.date.value, today) else None
  }

  /** The days a query asks for: a date word has the days of its name, no word and the word for all have no limit. */
  lemma DaysAsked(f: EventFilter, today: int, day: int)
    ensures Asked(f, today) == None <==> f.date == None || f.date == Some(All)
    ensures Asked(f, today).Some? ==>
              (On(Asked(f, today).value, day)
               <==> match f.date.value
                    case Today => day == today
                    case Tomorrow => day == today + 1
                    case Week => day / 7 == today / 7
                    case Weekend => day / 7 == today / 7 && (day >= today || Weekday(day) >= SATURDAY)
                    case All => true)
  {
    var d, t := day / 7, today / 7;
    assert day == 7 * d + Weekday(day) && today == 7 * t + Weekday(today);
  }

  function Query(events: seq<Event>, f: EventFilter, today: int): seq<Event> {
    Selected(events, f, Asked(f, today), f.limit)
  }

  /** The places of the matching events, in order. */
  function Places(events: seq<Event>, f: EventFilter, range: Option<Range>): seq<nat> {
    if events == [] then []
    else
      var last := |events| - 1;
      Places(events[..last], f, range) + (if MatchesFilter(events[last], f, range) then [last] else [])
  }

  predicate Increasing(p: seq<nat>) {
    forall i, j :: 0 <= i < j < |p| ==> p[i] < p[j]
  }

  lemma {:induction false} PlacesAreMatches(events: seq<Event>, f: EventFilter, range: Option<Range>)
    ensures Increasing(Places(events, f, range))
    ensures forall k :: k in Places(events, f, range) <==> 0 <= k < |events| && MatchesFilter(events[k], f, range)
  {
    hide MatchesFilter;
    if events != [] {
      var last := |events| - 1;
      PlacesAreMatches(events[..last], f, range);
      var p := Places(events[..last], f, range);
      assert forall i :: 0 <= i < |p| ==> p[i] in p;
    }
  }

  lemma {:induction false} SelectedConcat(events: seq<Event>, e: Event, f: EventFilter, range: Option<Range>)
    ensures Selected(events + [e], f, range, None)
            == Selected(events, f, range, None) + (if MatchesFilter(e, f, range) then [e] else [])
  {
    hide MatchesFilter;
    if events == [] {
      assert [] + [e] == [e] && [e][1..] == [];
    } else {
      assert (events + [e])[1..] == events[1..] + [e];
      SelectedConcat(events[1..], e, f, range);
    }
  }

  lemma {:induction false} SelectedAreAtPlaces(events: seq<Event>, f: EventFilter, range: Option<Range>)
    ensures var (p, r) := (Places(events, f, range), Selected(events, f, range, None));
            |r| == |p| && forall i :: 0 <= i < |p| ==> p[i] < |events| && r[i] == events[p[i]]
  {
    hide MatchesFilter;
    if events != [] {
      var last := |events| - 1;
      SelectedAreAtPlaces(events[..last], f, range);
      SelectedConcat(events[..last], events[last], f, range);
      hide Selected;
      assert events == events[..last] + [events[last]];
    }
  }

  function Fitting(n: nat, limit: Option<nat>): nat {
    if limit.Some? && limit.value < n then limit.value else n
  }

  lemma {:induction false} LimitCuts(events: seq<Event>, f: EventFilter, range: Option<Range>, limit: Option<nat>)
    ensures var all := Selected(events, f, range, None);
            Selected(events, f, range, limit) == all[..Fitting(|all|, limit)]
  {
    hide MatchesFilter;
    if events != [] && limit != Some(0) {
      if MatchesFilter(events[0], f, range) {
        LimitCuts(events[1..], f, range, if limit.Some? then Some(limit.value - 1) else None);
      } else {
        LimitCuts(events[1..], f, range, limit);
      }
    }
  }

  /** A query gives the first matching events in the order of the digest, up to the limit. */
  lemma QueryIsFirstMatches(events: seq<Event>, f: EventFilter, today: int) returns (p: seq<nat>)
    ensures Increasing(p)
    ensures forall k :: k in p <==> 0 <= k < |events| && MatchesFilter(events[k], f, Asked(f, today))
    ensures var r := Query(events, f, today);
            |r| == Fitting(|p|, f.limit) && forall i :: 0 <= i < |r| ==> p[i] < |events| && r[i] == events[p[i]]
  {
    p := Places(events, f, Asked(f, today));
    PlacesAreMatches(events, f, Asked(f, today));
    SelectedAreAtPlaces(events, f, Asked(f, today));
    LimitCuts(events, f, Asked(f, today), f.limit);
    hide MatchesFilter;
    hide DateTagRange;
    hide Places;
    hide Selected;
  }

  predicate Subsequence(a: seq<Event>, b: seq<Event>) {
    a == [] || (b != [] && ((a[0] == b[0] && Subsequence(a[1..], b[1..])) || Subsequence(a, b[1..])))
  }

  lemma WiderMatchesMore(e: Event, f: EventFilter, a: Range, b: Range)
    requires Within(a, b) && MatchesFilter(e, f, Some(a))
    ensures MatchesFilter(e, f, Some(b))
  {
  }

  lemma {:induction false} WiderSelectsMore(events: seq<Event>, f: EventFilter, a: Range, b: Range)
    requires Within(a, b)
    ensures Subsequence(Selected(events, f, Some(a), None), Selected(events, f, Some(b), None))
  {
    hide MatchesFilter;
    if events != [] {
      WiderSelectsMore(events[1..], f, a, b);
      if MatchesFilter(events[0], f, Some(a)) {
        WiderMatchesMore(events[0], f, a, b);
      }
    }
  }

  function Unlimited(f: EventFilter, tag: DateTag): EventFilter {
    f.(date := Some(tag), limit := None)
  }

  lemma {:induction false} DateIsInTheRange(events: seq<Event>, f: EventFilter, tag: DateTag, range: Option<Range>)
    ensures Selected(events, Unlimited(f, tag), range, None) == Selected(events, f, range, None)
  {
    if events != [] {
      DateIsInTheRange(events[1..], f, tag, range);
    }
  }

  /** On every weekday, without a limit: today's events are among the weekend's, and those among the week's. */
  lemma AnswersNest(events: seq<Event>, f: EventFilter, today: int)
    ensures Subsequence(Query(events, Unlimited(f, Today), today), Query(events, Unlimited(f, Weekend), today))
    ensures Subsequence(Query(events, Unlimited(f, Weekend), today), Query(events, Unlimited(f, Week), today))
  {
    RangesNest(today);
    var (day, r, w) := (DateTagRange(Today, today), DateTagRange(Weekend, today), DateTagRange(Week, today));
    assert day.Some? && r.Some? && w.Some?;
    hide Selected;
    hide Subsequence;
    hide DateTagRange;
    DateIsInTheRange(events, f, Today, day);
    DateIsInTheRange(events, f, Weekend, r);
    DateIsInTheRange(events, f, Week, w);
    WiderSelectsMore(events, f, day.value, r.value);
    WiderSelectsMore(events, f, r.value, w.value);
  }
}
