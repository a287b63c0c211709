/** dict.rs: the scan for a word over the bytes of a message, against what a word of a message is. Messages and
    words are taken as already lower-cased. */
module WordMatch {
  import opened Wrappers
  import opened Bytes
  import opened TextUtil
  import opened DigestQuery
  import Utf8

  predicate IsAscii(s: string) {
    forall i :: 0 <= i < |s| ==> s[i] as int < 0x80
  }

  // ----- the meaning, on characters

  /** The word stands at `i` with no ASCII letter or digit on either side. */
  predicate WordAt(text: string, word: string, i: nat) {
    OccursAt(text, i, word)
    && (i == 0 || !AlphanumericCode(text[i - 1] as int))
    && (i + |word| == |text| || !AlphanumericCode(text[i + |word|] as int))
  }

  predicate HasWord(text: string, word: string) {
    exists i | 0 <= i <= |text| :: WordAt(text, word, i)
  }

  predicate Contains(text: string, word: string) {
    exists i | 0 <= i <= |text| :: OccursAt(text, i, word)
  }

  predicate Matches(text: string, word: string) {
    word != "" && if IsAscii(word) then HasWord(text, word) else Contains(text, word)
  }

  // ----- the same window, on bytes

  predicate BytesAt(b: seq<byte>, i: nat, w: seq<byte>) {
    i + |w| <= |b| && b[i..i + |w|] == w
  }

  predicate ByteWordAt(b: seq<byte>, w: seq<byte>, i: nat) {
    BytesAt(b, i, w)
    && (i == 0 || !AlphanumericCode(b[i - 1]))
    && (i + |w| == |b| || !AlphanumericCode(b[i + |w|]))
  }

  // ----- characters and their bytes

  lemma CharBytes(c: char)
    ensures var r := Utf8.EncodeChar(c);
            if c as int < 0x80 then r == [c as int] else forall k :: 0 <= k < |r| ==> r[k] >= 0x80
  {
  }

  lemma EncodeCons(s: string)
    requires s != ""
    ensures Utf8.Encode(s) == Utf8.EncodeChar(s[0]) + Utf8.Encode(s[1..])
  {
  }

  lemma EncodeOne(c: char)
    ensures Utf8.Encode([c]) == Utf8.EncodeChar(c)
  {
    EncodeCons([c]);
    assert [c][1..] == "";
  }

  /** Only an empty text has no bytes; the first byte tells whether the first character is a letter or digit. */
  lemma FirstByte(s: string)
    requires s != ""
    ensures var b := Utf8.Encode(s);
            b != [] && (AlphanumericCode(b[0]) <==> AlphanumericCode(s[0] as int))
            && (b[0] < 0x80 ==> b[0] == s[0] as int && s[0] as int < 0x80 && b[1..] == Utf8.Encode(s[1..]))
  {
    EncodeCons(s);
    CharBytes(s[0]);
    hide Utf8.Encode;
    hide Utf8.EncodeChar;
    var r := Utf8.EncodeChar(s[0]);
    assert (r + Utf8.Encode(s[1..]))[|r|..] == Utf8.Encode(s[1..]);
  }

  lemma LastByte(s: string)
    requires s != ""
    ensures var b := Utf8.Encode(s);
            b != [] && (AlphanumericCode(b[|b| - 1]) <==> AlphanumericCode(s[|s| - 1] as int))
  {
    var c := s[|s| - 1];
    Utf8.EncodeConcat(s[..|s| - 1], [c]);
    EncodeOne(c);
    CharBytes(c);
    hide Utf8.Encode;
    hide Utf8.EncodeChar;
    assert s == s[..|s| - 1] + [c];
  }

  lemma ByteOfFirst(s: string, p: nat)
    requires s != "" && p < |Utf8.Encode(s)| && Utf8.Encode(s)[p] < 0x80 && p > 0
    ensures var n := |Utf8.EncodeChar(s[0])|;
            p >= n && p - n < |Utf8.Encode(s[1..])| && Utf8.Encode(s[1..])[p - n] < 0x80
  {
    EncodeCons(s);
    CharBytes(s[0]);
    hide *;
    var r := Utf8.EncodeChar(s[0]);
    assert p >= |r| ==> Utf8.Encode(s)[p] == Utf8.Encode(s[1..])[p - |r|];
  }

  /** A byte of an ASCII character starts that character. */
  lemma {:induction false} AsciiByteIsBoundary(s: string, p: nat) returns (x: string, y: string)
    requires p < |Utf8.Encode(s)| && Utf8.Encode(s)[p] < 0x80
    ensures s == x + y && |Utf8.Encode(x)| == p
    decreases |s|
  {
    if p == 0 {
      x, y := "", s;
    } else {
      ByteOfFirst(s, p);
      hide *;
      var x', y' := AsciiByteIsBoundary(s[1..], p - |Utf8.EncodeChar(s[0])|);
      x, y := [s[0]] + x', y';
      assert x[1..] == x';
      EncodeCons(x);
    }
  }

  /** Bytes of an ASCII word at the front are the word at the front. */
  lemma {:induction false} AsciiPrefix(s: string, w: string)
    requires IsAscii(w)
    ensures Utf8.Encode(w) <= Utf8.Encode(s) <==> w <= s
    ensures |Utf8.Encode(w)| == |w|
    decreases |w|
  {
    if w != "" {
      FirstByte(w);
      CharBytes(w[0]);
      EncodeCons(w);
      if s != "" {
        FirstByte(s);
        CharBytes(s[0]);
        AsciiPrefix(s[1..], w[1..]);
        hide Utf8.Encode;
        hide Utf8.EncodeChar;
        var b, v := Utf8.Encode(s), Utf8.Encode(w);
        if v <= b {
          assert b[0] == v[0];
          assert v[1..] <= b[1..];
          assert w == [w[0]] + w[1..] && s == [s[0]] + s[1..];
        }
        if w <= s {
          assert w[0] == s[0] && w[1..] <= s[1..];
          assert v == [v[0]] + v[1..] && b == [b[0]] + b[1..];
        }
      } else {
        AsciiPrefix("", w[1..]);
      }
    }
  }

  predicate Ends(n: int) {
    !AlphanumericCode(n)
  }

  lemma WordSplits(word: string, x: string, y: string)
    ensures WordAt(x + y, word, |x|)
            <==> word <= y && (x == "" || Ends(x[|x| - 1] as int)) && (word == y || Ends(y[|word|] as int))
  {
    var text := x + y;
    if word <= y {
      assert text[|x|..|x| + |word|] == word;
      assert |word| == |y| <==> word == y;
    }
    if OccursAt(text, |x|, word) {
      assert y[..|word|] == text[|x|..|x| + |word|];
    }
  }

  lemma BytesSplit(w: seq<byte>, x: seq<byte>, y: seq<byte>)
    ensures ByteWordAt(x + y, w, |x|)
            <==> w <= y && (x == [] || Ends(x[|x| - 1])) && (w == y || Ends(y[|w|]))
  {
    var b := x + y;
    if w <= y {
      assert b[|x|..|x| + |w|] == w;
      assert |w| == |y| <==> w == y;
    }
    if BytesAt(b, |x|, w) {
      assert y[..|w|] == b[|x|..|x| + |w|];
    }
  }

  lemma Before(x: string)
    ensures var b := Utf8.Encode(x);
            (x == "" || Ends(x[|x| - 1] as int)) <==> (b == [] || Ends(b[|b| - 1]))
  {
    if x != "" {
      LastByte(x);
    }
  }

  lemma After(word: string, y: string)
    requires IsAscii(word) && word <= y
    ensures var b, w := Utf8.Encode(y), Utf8.Encode(word);
            w <= b && ((word == y || Ends(y[|word|] as int)) <==> (w == b || Ends(b[|w|])))
  {
    var z := y[|word|..];
    assert y == word + z;
    Utf8.EncodeConcat(word, z);
    if z != "" {
      FirstByte(z);
    }
  }

  /** At a character boundary, byte windows and character windows agree. */
  lemma WindowsAgree(word: string, x: string, y: string)
    requires IsAscii(word)
    ensures ByteWordAt(Utf8.Encode(x + y), Utf8.Encode(word), |Utf8.Encode(x)|) <==> WordAt(x + y, word, |x|)
  {
    Utf8.EncodeConcat(x, y);
    WordSplits(word, x, y);
    BytesSplit(Utf8.Encode(word), Utf8.Encode(x), Utf8.Encode(y));
    AsciiPrefix(y, word);
    Before(x);
    hide *;
    if word <= y {
      After(word, y);
    }
  }

  ghost predicate HasByteWord(b: seq<byte>, w: seq<byte>) {
    exists i: nat :: ByteWordAt(b, w, i)
  }

  /** An ASCII word is among the characters exactly when it is among the bytes. */
  lemma BytesHaveWord(text: string, word: string)
    requires word != "" && IsAscii(word)
    ensures HasWord(text, word) <==> HasByteWord(Utf8.Encode(text), Utf8.Encode(word))
  {
    if HasWord(text, word) {
      var i :| 0 <= i <= |text| && WordAt(text, word, i);
      assert text == text[..i] + text[i..];
      WindowsAgree(word, text[..i], text[i..]);
    }
    if HasByteWord(Utf8.Encode(text), Utf8.Encode(word)) {
      var i: nat :| ByteWordAt(Utf8.Encode(text), Utf8.Encode(word), i);
      CharBytes(word[0]);
      FirstByte(word);
      assert Utf8.Encode(text)[i] == Utf8.Encode(text)[i..i + |Utf8.Encode(word)|][0];
      var x, y := AsciiByteIsBoundary(text, i);
      WindowsAgree(word, x, y);
      assert WordAt(text, word, |x|);
    }
  }

  ghost predicate NoWordBefore(b: seq<byte>, w: seq<byte>, i: nat) {
    forall j: nat :: j < i ==> !ByteWordAt(b, w, j)
  }

  lemma NoneYet(b: seq<byte>, w: seq<byte>)
    ensures NoWordBefore(b, w, 0)
  {
  }

  lemma NothingFits(b: seq<byte>, w: seq<byte>, i: nat)
    requires i + |w| > |b| && NoWordBefore(b, w, i)
    ensures !HasByteWord(b, w)
  {
  }

  lemma WindowIs(b: seq<byte>, w: seq<byte>, i: nat)
    requires i + |w| <= |b|
    ensures ByteWordAt(b, w, i)
            <==> b[i..i + |w|] == w && (i == 0 || !AlphanumericCode(b[i - 1]))
                 && (i + |w| == |b| || !AlphanumericCode(b[i + |w|]))
    ensures ByteWordAt(b, w, i) ==> HasByteWord(b, w)
    ensures NoWordBefore(b, w, i) && !ByteWordAt(b, w, i) ==> NoWordBefore(b, w, i + 1)
  {
  }

  lemma MatchesCases(text: string, word: string)
    ensures word == "" ==> !Matches(text, word)
    ensures word != "" && !IsAscii(word) ==> (Matches(text, word) <==> Find(text, word).Some?)
    ensures word != "" && IsAscii(word) ==>
              (Matches(text, word) <==> HasByteWord(Utf8.Encode(text), Utf8.Encode(word)))
  {
    FindSpec(text, word);
    hide HasWord;
    hide HasByteWord;
    if word != "" && IsAscii(word) {
      BytesHaveWord(text, word);
    }
  }

  /** The scan of the source: windows of bytes from left to right, the first that stands alone ends it. */
  method WordMatches(text: string, word: string) returns (r: bool)
    ensures r <==> Matches(text, word)
  {
    hide *;
    MatchesCases(text, word);
    if word == "" {
      return false;
    }
    if !IsAscii(word) {
      return Find(text, word).Some?;
    }
    var bytes, needle := Utf8.Encode(text), Utf8.Encode(word);
    var n := |needle|;
    NoneYet(bytes, needle);
    if n > |bytes| {
      NothingFits(bytes, needle, 0);
      return false;
    }
    for i := 0 to |bytes| - n + 1
      invariant NoWordBefore(bytes, needle, i)
    {
      WindowIs(bytes, needle, i);
      if bytes[i..i + n] == needle {
        var before := i == 0 || !AlphanumericCode(bytes[i - 1]);
        var after := i + n == |bytes| || !AlphanumericCode(bytes[i + n]);
        if before && after {
          return true;
        }
      }
    }
    NothingFits(bytes, needle, |bytes| - n + 1);
    return false;
  }

  // ----- classification

  datatype Tag = Tag(words: seq<string>, name: string)

  datatype Dict = Dict(help: seq<string>, action: seq<string>, dates: seq<Tag>, countries: seq<Tag>,
                       cities: seq<Tag>, categories: seq<Tag>, times: seq<Tag>)

  datatype Filter = Filter(date: Option<DateTag>, country: Option<string>, city: Option<string>,
                           category: Option<string>, time: Option<string>)

  datatype Intent = Help | Events(filter: Filter)

  predicate ContainsAny(text: string, words: seq<string>) {
    exists k | 0 <= k < |words| :: Matches(text, words[k])
  }

  function PickTag(text: string, tags: seq<Tag>): Option<string> {
    if tags == [] then None
    else if ContainsAny(text, tags[0].words) then Some(tags[0].name)
    else PickTag(text, tags[1..])
  }

  /** Names of date tags are not checked when the configuration is read; an unknown one is no date. */
  function ParseDateTag(name: string): Option<DateTag> {
    var n := AsciiLower(name);
    if n == "today" then Some(Today)
    else if n == "tomorrow" then Some(Tomorrow)
    else if n == "weekend" then Some(Weekend)
    else if n == "week" || n == "thisweek" || n == "this_week" then Some(Week)
    else if n == "all" then Some(All)
    else None
  }

  function PickDate(text: string, tags: seq<Tag>): Option<DateTag> {
    var name := PickTag(text, tags);
    if name == None then None else ParseDateTag(name.value)
  }

  function Classify(text: string, dict: Dict): Option<Intent> {
    if ContainsAny(text, dict.help) then Some(Help)
    else if !ContainsAny(text, dict.action) then None
    else Some(Events(Filter(PickDate(text, dict.dates), PickTag(text, dict.countries), PickTag(text, dict.cities),
                            PickTag(text, dict.categories), PickTag(text, dict.times))))
  }

  /** The first tag in the order of the configuration that has a word in the text. */
  predicate FirstWithWord(text: string, tags: seq<Tag>, k: nat) {
    k < |tags| && ContainsAny(text, tags[k].words) && forall j :: 0 <= j < k ==> !ContainsAny(text, tags[j].words)
  }

  lemma FirstIsUnique(text: string, tags: seq<Tag>, j: nat, k: nat)
    requires FirstWithWord(text, tags, j) && k < |tags| && ContainsAny(text, tags[k].words)
    ensures j <= k && (FirstWithWord(text, tags, k) ==> j == k)
  {
  }

  lemma FirstOfRest(text: string, tags: seq<Tag>, k: nat)
    requires tags != [] && !ContainsAny(text, tags[0].words) && FirstWithWord(text, tags[1..], k)
    ensures FirstWithWord(text, tags, k + 1)
  {
    forall j | 0 <= j < k + 1 ensures !ContainsAny(text, tags[j].words) {
      assert j > 0 ==> tags[j] == tags[1..][j - 1];
    }
  }

  /** The tag picked is the first one with a word in the text. */
  lemma {:induction false} PickTagIsFirst(text: string, tags: seq<Tag>) returns (k: nat)
    requires PickTag(text, tags).Some?
    ensures FirstWithWord(text, tags, k) && PickTag(text, tags) == Some(tags[k].name)
  {
    hide ContainsAny;
    if ContainsAny(text, tags[0].words) {
      k := 0;
    } else {
      k := PickTagIsFirst(text, tags[1..]);
      FirstOfRest(text, tags, k);
      k := k + 1;
    }
  }

  /** None is picked exactly when no tag has a word in the text. */
  lemma {:induction false} PickTagFindsOne(text: string, tags: seq<Tag>)
    ensures PickTag(text, tags) == None <==> forall k :: 0 <= k < |tags| ==> !ContainsAny(text, tags[k].words)
  {
    hide ContainsAny;
    if tags != [] {
      PickTagFindsOne(text, tags[1..]);
      assert forall k :: 0 < k < |tags| ==> tags[k] == tags[1..][k - 1];
    }
  }

  // ----- what a classification says

  /** The letters of the word, each in either case. */
  predicate Spells(name: string, word: string) {
    |name| == |word|
    && forall i :: 0 <= i < |word| ==>
         name[i] == word[i] || ('a' <= word[i] <= 'z' && name[i] as int + 32 == word[i] as int)
  }

  /** The names of the dates. */
  predicate NamesDate(name: string, d: DateTag) {
    match d
    case Today => Spells(name, "today")
    case Tomorrow => Spells(name, "tomorrow")
    case Weekend => Spells(name, "weekend")
    case Week => Spells(name, "week") || Spells(name, "thisweek") || Spells(name, "this_week")
    case All => Spells(name, "all")
  }

  lemma LowerSpells(name: string, word: string)
    requires forall i :: 0 <= i < |word| ==> !('A' <= word[i] <= 'Z')
    ensures AsciiLower(name) == word <==> Spells(name, word)
  {
    if AsciiLower(name) == word {
      forall i | 0 <= i < |word|
        ensures name[i] == word[i] || ('a' <= word[i] <= 'z' && name[i] as int + 32 == word[i] as int)
      {
        assert AsciiLower(name)[i] == word[i];
      }
    }
  }

  lemma SevenWords()
    ensures |"today"| == 5 && |"tomorrow"| == 8 && |"weekend"| == 7 && |"week"| == 4 && |"thisweek"| == 8
    ensures |"this_week"| == 9 && |"all"| == 3 && "tomorrow"[1] != "thisweek"[1]
  {
  }

  /** A name parses as a date exactly when it is one of its names, in any case. */
  lemma DateNamesExactly(name: string, d: DateTag)
    ensures ParseDateTag(name) == Some(d) <==> NamesDate(name, d)
  {
    LowerSpells(name, "today");
    LowerSpells(name, "tomorrow");
    LowerSpells(name, "weekend");
    LowerSpells(name, "week");
    LowerSpells(name, "thisweek");
    LowerSpells(name, "this_week");
    LowerSpells(name, "all");
    hide Spells;
    hide AsciiLower;
    SevenWords();
  }

  /** A field is filled with the name of the first of its own tags that has a word in the text. */
  ghost predicate Picks(text: string, tags: seq<Tag>, field: Option<string>) {
    forall name :: field == Some(name) <==> exists k: nat :: FirstWithWord(text, tags, k) && tags[k].name == name
  }

  ghost predicate PicksDate(text: string, tags: seq<Tag>, field: Option<DateTag>) {
    forall d :: field == Some(d) <==> exists k: nat :: FirstWithWord(text, tags, k) && NamesDate(tags[k].name, d)
  }

  lemma PickedField(text: string, tags: seq<Tag>)
    ensures Picks(text, tags, PickTag(text, tags))
  {
    forall name
      ensures PickTag(text, tags) == Some(name)
              <==> exists k: nat :: FirstWithWord(text, tags, k) && tags[k].name == name
    {
      PickTagFindsOne(text, tags);
      hide ContainsAny;
      hide PickTag;
      if PickTag(text, tags).Some? {
        var k := PickTagIsFirst(text, tags);
        if j: nat :| FirstWithWord(text, tags, j) && tags[j].name == name {
          FirstIsUnique(text, tags, k, j);
          FirstIsUnique(text, tags, j, k);
        }
      }
    }
  }

  lemma PickedDate(text: string, tags: seq<Tag>)
    ensures PicksDate(text, tags, PickDate(text, tags))
  {
    PickedField(text, tags);
    forall d
      ensures PickDate(text, tags) == Some(d)
              <==> exists k: nat :: FirstWithWord(text, tags, k) && NamesDate(tags[k].name, d)
    {
      hide PickTag;
      hide ParseDateTag;
      hide NamesDate;
      hide FirstWithWord;
      if PickDate(text, tags) == Some(d) {
        var name := PickTag(text, tags).value;
        DateNamesExactly(name, d);
        var k: nat :| FirstWithWord(text, tags, k) && tags[k].name == name;
      }
      if k: nat :| FirstWithWord(text, tags, k) && NamesDate(tags[k].name, d) {
        DateNamesExactly(tags[k].name, d);
        assert PickTag(text, tags) == Some(tags[k].name);
      }
    }
  }

  /** A message asks for help when a help word is in it, for events when an action word is and no help word, and is
      left to others when neither is; each field of the filter is filled from its own tags. */
  lemma ClassifiedExactly(text: string, dict: Dict)
    ensures Classify(text, dict) == Some(Help) <==> exists k | 0 <= k < |dict.help| :: Matches(text, dict.help[k])
    ensures Classify(text, dict) == None
            <==> (forall k :: 0 <= k < |dict.help| ==> !Matches(text, dict.help[k]))
                 && (forall k :: 0 <= k < |dict.action| ==> !Matches(text, dict.action[k]))
    ensures var c := Classify(text, dict);
            c.Some? && c.value.Events? ==>
              var f := c.value.filter;
              PicksDate(text, dict.dates, f.date) && Picks(text, dict.countries, f.country)
              && Picks(text, dict.cities, f.city) && Picks(text, dict.categories, f.category)
              && Picks(text, dict.times, f.time)
  {
    hide Matches;
    hide PickTag;
    hide PickDate;
    hide Picks;
    hide PicksDate;
    PickedDate(text, dict.dates);
    PickedField(text, dict.countries);
    PickedField(text, dict.cities);
    PickedField(text, dict.categories);
    PickedField(text, dict.times);
  }

  // ----- a longer message

  function Surrounded(left: string, text: string, right: string): string {
    left + " " + text + " " + right
  }

  lemma WordSurvives(left: string, text: string, right: string, word: string)
    requires Matches(text, word)
    ensures Matches(Surrounded(left, text, right), word)
  {
    if IsAscii(word) {
      var i :| 0 <= i <= |text| && WordAt(text, word, i);
      WindowMoves(left, text, right, word, i);
      hide WordAt;
      hide OccursAt;
      assert HasWord(Surrounded(left, text, right), word);
    } else {
      var i :| 0 <= i <= |text| && OccursAt(text, i, word);
      WindowMoves(left, text, right, word, i);
      hide WordAt;
      hide OccursAt;
      assert Contains(Surrounded(left, text, right), word);
    }
  }

  lemma WindowMoves(left: string, text: string, right: string, word: string, i: nat)
    requires OccursAt(text, i, word)
    ensures var s, j := Surrounded(left, text, right), |left| + 1 + i;
            j <= |s| && OccursAt(s, j, word) && (WordAt(text, word, i) ==> WordAt(s, word, j))
  {
    var s, n := Surrounded(left, text, right), |left| + 1;
    assert s[n + i..n + i + |word|] == text[i..i + |word|];
    assert i > 0 ==> s[n + i - 1] == text[i - 1];
    assert i == 0 ==> s[n + i - 1] == ' ';
    assert s[n + i + |word|] == if i + |word| < |text| then text[i + |word|] else ' ';
  }

  lemma AnySurvives(left: string, text: string, right: string, words: seq<string>)
    requires ContainsAny(text, words)
    ensures ContainsAny(Surrounded(left, text, right), words)
  {
    hide Matches;
    hide Surrounded;
    var k :| 0 <= k < |words| && Matches(text, words[k]);
    WordSurvives(left, text, right, words[k]);
  }

  lemma {:induction false} TagSurvives(left: string, text: string, right: string, tags: seq<Tag>)
    requires PickTag(text, tags).Some?
    ensures PickTag(Surrounded(left, text, right), tags).Some?
  {
    hide ContainsAny;
    hide Surrounded;
    if ContainsAny(text, tags[0].words) {
      AnySurvives(left, text, right, tags[0].words);
    } else {
      TagSurvives(left, text, right, tags[1..]);
    }
  }

  /** In the longer text a tag that stands before the one of the text comes first, and its name is no date. */
  predicate DateIsShadowed(text: string, longer: string, dates: seq<Tag>) {
    exists j, k | 0 <= j < k < |dates| ::
      FirstWithWord(longer, dates, j) && FirstWithWord(text, dates, k) && ParseDateTag(dates[j].name) == None
  }

  /** Words around a message take its date away exactly when they bring in an earlier tag that is no date. */
  lemma DateSurvivesExactly(left: string, text: string, right: string, dates: seq<Tag>)
    requires PickDate(text, dates).Some?
    ensures PickDate(Surrounded(left, text, right), dates) == None
            <==> DateIsShadowed(text, Surrounded(left, text, right), dates)
  {
    hide *;
    var longer := Surrounded(left, text, right);
    PickDateIs(text, dates);
    PickDateIs(longer, dates);
    TagSurvives(left, text, right, dates);
    var k := PickTagIsFirst(text, dates);
    var j := PickTagIsFirst(longer, dates);
    FirstMeans(text, dates, k);
    FirstMeans(longer, dates, j);
    AnySurvives(left, text, right, dates[k].words);
    FirstIsUnique(longer, dates, j, k);
    ShadowedIs(text, longer, dates, j, k);
  }

  lemma PickDateIs(text: string, dates: seq<Tag>)
    ensures PickTag(text, dates) == None ==> PickDate(text, dates) == None
    ensures PickTag(text, dates).Some? ==> PickDate(text, dates) == ParseDateTag(PickTag(text, dates).value)
  {
  }

  lemma FirstMeans(text: string, tags: seq<Tag>, k: nat)
    requires FirstWithWord(text, tags, k)
    ensures k < |tags| && ContainsAny(text, tags[k].words)
  {
  }

  lemma ShadowedIs(text: string, longer: string, dates: seq<Tag>, j: nat, k: nat)
    requires FirstWithWord(longer, dates, j) && FirstWithWord(text, dates, k) && j <= k
    ensures DateIsShadowed(text, longer, dates) <==> j < k && ParseDateTag(dates[j].name) == None
  {
    hide ContainsAny;
    hide ParseDateTag;
    if DateIsShadowed(text, longer, dates) {
      var j', k' :| 0 <= j' < k' < |dates| && FirstWithWord(longer, dates, j') && FirstWithWord(text, dates, k')
                    && ParseDateTag(dates[j'].name) == None;
      FirstIsUnique(longer, dates, j, j');
      FirstIsUnique(longer, dates, j', j);
      FirstIsUnique(text, dates, k, k');
      FirstIsUnique(text, dates, k', k);
    }
  }

  predicate NoLess(a: Filter, b: Filter) {
    (a.country.Some? ==> b.country.Some?) && (a.city.Some? ==> b.city.Some?)
    && (a.category.Some? ==> b.category.Some?) && (a.time.Some? ==> b.time.Some?)
  }

  /** More words around a message never take a classification away: help stays help, and a question about events
      stays one unless a help word was added. Its country, city, category and time stay filled, and its date does
      unless an earlier tag that is no date comes in. */
  lemma ClassificationSurvives(left: string, text: string, right: string, dict: Dict)
    ensures var longer := Surrounded(left, text, right);
            var before, after := Classify(text, dict), Classify(longer, dict);
            (before == Some(Help) ==> after == Some(Help))
            && (before.Some? && before.value.Events? ==>
                  after == Some(Help)
                  || (after.Some? && after.value.Events? && NoLess(before.value.filter, after.value.filter)
                      && (before.value.filter.date.Some? ==>
                            (after.value.filter.date == None <==> DateIsShadowed(text, longer, dict.dates)))))
  {
    hide ContainsAny;
    hide PickTag;
    hide PickDate;
    hide Surrounded;
    hide DateIsShadowed;
    if ContainsAny(text, dict.help) {
      AnySurvives(left, text, right, dict.help);
    } else if ContainsAny(text, dict.action) {
      AnySurvives(left, text, right, dict.action);
      if PickDate(text, dict.dates).Some? {
        DateSurvivesExactly(left, text, right, dict.dates);
      }
      if PickTag(text, dict.countries).Some? {
        TagSurvives(left, text, right, dict.countries);
      }
      if PickTag(text, dict.cities).Some? {
        TagSurvives(left, text, right, dict.cities);
      }
      if PickTag(text, dict.categories).Some? {
        TagSurvives(left, text, right, dict.categories);
      }
      if PickTag(text, dict.times).Some? {
        TagSurvives(left, text, right, dict.times);
      }
    }
  }

  /** When every name of a date tag parses, the date survives too. */
  lemma ParsedDatesSurvive(left: string, text: string, right: string, dates: seq<Tag>)
    requires forall k :: 0 <= k < |dates| ==> ParseDateTag(dates[k].name).Some?
    requires PickDate(text, dates).Some?
    ensures PickDate(Surrounded(left, text, right), dates).Some?
  {
    DateSurvivesExactly(left, text, right, dates);
  }

  lemma WholeWord(left: string, text: string, right: string, word: string)
    requires word != "" && IsAscii(word) && left == word
    ensures Matches(Surrounded(left, text, right), word)
  {
    var s := Surrounded(left, text, right);
    assert s[0..|word|] == word;
    assert WordAt(s, word, 0);
  }

  lemma OwnWord(word: string)
    requires word != ""
    ensures Matches(word, word)
  {
    assert OccursAt(word, 0, word);
    assert WordAt(word, word, 0);
  }

  lemma NotAWord(text: string, word: string)
    requires word != "" && word[0] !in text
    ensures !Matches(text, word)
  {
    forall i | 0 <= i <= |text| ensures !OccursAt(text, i, word) {
      if OccursAt(text, i, word) {
        OccursHasFirst(text, i, word);
      }
    }
  }

  lemma NamesOfDates()
    ensures ParseDateTag("today") == Some(Today) && ParseDateTag("someday") == None
  {
    assert AsciiLower("today") == "today" && AsciiLower("someday") == "someday";
    assert |"someday"| == 7 && "someday"[0] == 's' && "weekend"[0] == 'w';
  }

  /** A tag named "someday" in front of "today": a word of the first takes the date of the second away. */
  lemma DateIsLost()
    ensures var dates := [Tag(["later"], "someday"), Tag(["now"], "today")];
            PickDate("now", dates) == Some(Today) && PickDate(Surrounded("later", "now", ""), dates) == None
  {
    var dates := [Tag(["later"], "someday"), Tag(["now"], "today")];
    OwnWord("now");
    NotAWord("now", "later");
    WholeWord("later", "now", "", "later");
    NamesOfDates();
    hide Matches;
    hide ParseDateTag;
    hide Surrounded;
    assert Matches("now", dates[1].words[0]) && Matches(Surrounded("later", "now", ""), dates[0].words[0]);
    assert dates[1..][0] == dates[1];
  }
}
