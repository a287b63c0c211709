/** xml.rs: what `parse_inbound` makes of a message, for every document of named elements. */
module XmlInbound {
  import opened Wrappers
  import opened TextUtil
  import opened XmlMessage

  /** The content of an element: one section, or plain text. */
  datatype Content = InCData(text: string) | Plain(text: string)

  /** An element, after white space. */
  datatype Field = Field(gap: string, name: string, content: Content)

  predicate AllXmlWhite(s: string) {
    forall i :: 0 <= i < |s| ==> IsXmlWhite(s[i])
  }

  predicate Writable(f: Field) {
    AllXmlWhite(f.gap) && IsName(f.name)
    && match f.content
       case InCData(text) => Find(text, "]]>") == None
       case Plain(text) => '<' !in text && '&' !in text
  }

  /** Elements of different names, none of them with markup in its text. */
  predicate Message(fields: seq<Field>) {
    (forall i :: 0 <= i < |fields| ==> Writable(fields[i]))
    && forall i, j :: 0 <= i < j < |fields| ==> fields[i].name != fields[j].name
  }

  function ContentText(c: Content): string {
    match c
    case InCData(text) => "<![CDATA[" + (text + "]]>")
    case Plain(text) => text
  }

  /** The element, in front of `rest`. */
  function WriteField(f: Field, rest: string): string {
    f.gap + (OpenTag(f.name) + (ContentText(f.content) + (CloseTag(f.name) + rest)))
  }

  function WriteFields(fields: seq<Field>, rest: string): string {
    if fields == [] then rest else WriteField(fields[0], WriteFields(fields[1..], rest))
  }

  /** The message; `gap` is the white space before its end tag. */
  function Document(fields: seq<Field>, gap: string): string {
    "<xml>" + WriteFields(fields, gap + "</xml>")
  }

  // ----- what an element says

  /** `inner` is what is left of `text` without the white space at both ends. */
  predicate Inner(text: string, inner: string) {
    exists i, j | 0 <= i <= j <= |text| :: InnerAt(text, inner, i, j)
  }

  predicate InnerAt(text: string, inner: string, i: int, j: int)
    requires 0 <= i <= j <= |text|
  {
    text[i..j] == inner && AllXmlWhite(text[..i]) && AllXmlWhite(text[j..])
    && (inner != "" ==> !IsXmlWhite(inner[0]) && !IsXmlWhite(inner[|inner| - 1]))
  }

  /** The text of the element: the section as it is; plain text without outer white space, if anything is left. */
  predicate Says(c: Content, text: string) {
    match c
    case InCData(t) => t == text
    case Plain(t) => text != "" && Inner(t, text)
  }

  /** An element of that name says that text. */
  predicate Holds(fields: seq<Field>, name: string, text: string) {
    exists i | 0 <= i < |fields| :: fields[i].name == name && Says(fields[i].content, text)
  }

  ghost predicate Present(fields: seq<Field>, name: string) {
    exists text :: Holds(fields, name, text)
  }

  // ----- trimming

  lemma {:induction false} TrimStartCuts(s: string) returns (i: nat)
    ensures i <= |s| && TrimXmlStart(s) == s[i..] && AllXmlWhite(s[..i])
    ensures TrimXmlStart(s) != "" ==> !IsXmlWhite(TrimXmlStart(s)[0])
  {
    i := 0;
    if s != "" && IsXmlWhite(s[0]) {
      var k := TrimStartCuts(s[1..]);
      i := k + 1;
      assert s[i..] == s[1..][k..];
      assert forall j :: 0 < j < i ==> s[j] == s[1..][..k][j - 1];
    }
  }

  lemma {:induction false} TrimEndCuts(s: string) returns (j: nat)
    ensures j <= |s| && TrimXmlEnd(s) == s[..j] && AllXmlWhite(s[j..])
    ensures TrimXmlEnd(s) != "" ==> !IsXmlWhite(TrimXmlEnd(s)[|TrimXmlEnd(s)| - 1])
  {
    j := |s|;
    if s != "" && IsXmlWhite(s[|s| - 1]) {
      var t := s[..|s| - 1];
      j := TrimEndCuts(t);
      assert s[..j] == t[..j];
      assert forall k :: j <= k < |t| ==> s[k] == t[j..][k - j];
    }
  }

  lemma TrimIsInner(s: string)
    ensures Inner(s, TrimXml(s))
  {
    var i := TrimStartCuts(s);
    var t := s[i..];
    var j := TrimEndCuts(t);
    hide TrimXmlStart;
    hide TrimXmlEnd;
    assert s[i..i + j] == t[..j];
    assert s[i + j..] == t[j..];
    assert t[..j] != "" ==> t[..j][0] == t[0];
    assert InnerAt(s, TrimXml(s), i, i + j);
  }

  /** Trimming has one result. */
  lemma InnerIsUnique(s: string, a: string, b: string)
    requires Inner(s, a) && Inner(s, b)
    ensures a == b
  {
    var i, j :| 0 <= i <= j <= |s| && InnerAt(s, a, i, j);
    var k, l :| 0 <= k <= l <= |s| && InnerAt(s, b, k, l);
    if a != "" {
      SomethingInside(s, a, i, j, b, k, l);
    }
    if b != "" {
      SomethingInside(s, b, k, l, a, i, j);
    }
  }

  lemma SomethingInside(s: string, a: string, i: nat, j: nat, b: string, k: nat, l: nat)
    requires i <= j <= |s| && k <= l <= |s| && InnerAt(s, a, i, j) && InnerAt(s, b, k, l) && a != ""
    ensures k <= i && j <= l
  {
    assert a[0] == s[i] && a[|a| - 1] == s[j - 1];
    WhiteParts(s, k, l);
  }

  lemma WhiteParts(s: string, k: nat, l: nat)
    requires k <= |s| && l <= |s| && AllXmlWhite(s[..k]) && AllXmlWhite(s[l..])
    ensures forall i :: 0 <= i < k ==> IsXmlWhite(s[i])
    ensures forall i :: l <= i < |s| ==> IsXmlWhite(s[i])
  {
    forall i | 0 <= i < k ensures IsXmlWhite(s[i]) {
      assert s[i] == s[..k][i];
    }
    forall i | l <= i < |s| ensures IsXmlWhite(s[i]) {
      assert s[i] == s[l..][i - l];
    }
  }

  lemma InnerIsTrim(s: string, inner: string)
    ensures Inner(s, inner) <==> inner == TrimXml(s)
  {
    TrimIsInner(s);
    if Inner(s, inner) {
      InnerIsUnique(s, inner, TrimXml(s));
    }
  }

  /** The text of an element, if it has one. */
  function TextOf(c: Content): Option<string> {
    match c
    case InCData(text) => Some(text)
    case Plain(text) => if TrimXml(text) == "" then None else Some(TrimXml(text))
  }

  lemma SaysExactly(c: Content, text: string)
    ensures Says(c, text) <==> TextOf(c) == Some(text)
  {
    if c.Plain? {
      InnerIsTrim(c.text, text);
    }
  }

  // ----- reading

  function TextEvents(text: string): seq<XmlEvent> {
    if TrimXml(text) == "" then [] else [Text(TrimXml(text))]
  }

  function ContentEvents(c: Content): seq<XmlEvent> {
    match c
    case InCData(text) => [CData(text)]
    case Plain(text) => TextEvents(text)
  }

  function FieldEvents(f: Field): seq<XmlEvent> {
    [Start(f.name)] + (ContentEvents(f.content) + [End(f.name)])
  }

  function AllFieldEvents(fields: seq<Field>): seq<XmlEvent> {
    if fields == [] then [] else FieldEvents(fields[0]) + AllFieldEvents(fields[1..])
  }

  predicate StartsTag(s: string) {
    s != "" && s[0] == '<'
  }

  lemma TokenizeStep(s: string, k: nat)
    requires 0 < k <= |s| && s[0] != '<' && Find(s, "<") == Some(k) && '&' !in s[..k]
    ensures TrimXml(s[..k]) == "" ==> Tokenize(s) == Tokenize(s[k..])
    ensures TrimXml(s[..k]) != "" ==> Tokenize(s) == Prepend(Text(TrimXml(s[..k])), Tokenize(s[k..]))
  {
    NotATag(s);
    hide OccursAt;
    hide Find;
    hide TrimXml;
    hide IsName;
  }

  /** Text in front of a tag. */
  lemma TokenizePlain(d: string, tail: string, events: seq<XmlEvent>)
    requires '<' !in d && '&' !in d && StartsTag(tail) && Tokenize(tail) == Some(events)
    ensures Tokenize(d + tail) == Some(TextEvents(d) + events)
  {
    hide Tokenize;
    hide Find;
    var s := d + tail;
    if d == "" {
      assert s == tail && TextEvents(d) + events == events;
    } else {
      FirstTagAfter(d, tail);
      assert s[..|d|] == d && s[|d|..] == tail && s[0] == d[0] && d[0] in d;
      TokenizeStep(s, |d|);
      PrependSome(Text(TrimXml(d)), events);
      hide TrimXml;
      assert [] + events == events;
    }
  }

  lemma GapHasNoMarkup(gap: string)
    requires AllXmlWhite(gap)
    ensures '<' !in gap && '&' !in gap && TextEvents(gap) == []
  {
    assert forall c :: c in gap ==> IsXmlWhite(c);
    TrimIsInner(gap);
    hide TrimXml;
    NothingInside(gap, TrimXml(gap));
  }

  lemma NothingInside(gap: string, inner: string)
    requires AllXmlWhite(gap) && Inner(gap, inner)
    ensures inner == ""
  {
    var i, j :| 0 <= i <= j <= |gap| && InnerAt(gap, inner, i, j);
    SliceIsWhite(gap, i, j);
  }

  lemma SliceIsWhite(gap: string, i: nat, j: nat)
    requires AllXmlWhite(gap) && i <= j <= |gap|
    ensures AllXmlWhite(gap[i..j])
  {
  }

  lemma TokenizeContent(c: Content, tail: string, events: seq<XmlEvent>)
    requires StartsTag(tail) && Tokenize(tail) == Some(events)
    requires match c
             case InCData(text) => Find(text, "]]>") == None
             case Plain(text) => '<' !in text && '&' !in text
    ensures Tokenize(ContentText(c) + tail) == Some(ContentEvents(c) + events)
  {
    hide Tokenize;
    hide Find;
    hide TextEvents;
    match c
    case InCData(text) =>
      ChunksAreClean(text);
      assert ContentText(c) + tail == CDATA_OPEN + (text + (CDATA_CLOSE + tail));
      TokenizeSection(text, tail);
      PrependSome(CData(text), events);
    case Plain(text) => TokenizePlain(text, tail, events);
  }

  lemma TagsStart(name: string, rest: string)
    ensures StartsTag(OpenTag(name) + rest) && StartsTag(CloseTag(name) + rest)
  {
  }

  lemma TokenizeField(f: Field, rest: string, events: seq<XmlEvent>)
    requires Writable(f) && Tokenize(rest) == Some(events)
    ensures Tokenize(WriteField(f, rest)) == Some(FieldEvents(f) + events)
  {
    hide Tokenize;
    hide Find;
    hide IsName;
    hide OpenTag;
    hide CloseTag;
    hide StartsTag;
    hide ContentText;
    hide ContentEvents;
    var tail := CloseTag(f.name) + rest;
    var body := ContentText(f.content) + tail;
    TagsStart(f.name, rest);
    TagsStart(f.name, body);
    TokenizeClose(f.name, rest);
    PrependSome(End(f.name), events);
    TokenizeContent(f.content, tail, [End(f.name)] + events);
    TokenizeOpen(f.name, body);
    PrependSome(Start(f.name), ContentEvents(f.content) + ([End(f.name)] + events));
    var all := [Start(f.name)] + (ContentEvents(f.content) + ([End(f.name)] + events));
    GapHasNoMarkup(f.gap);
    TokenizePlain(f.gap, OpenTag(f.name) + body, all);
    hide TextEvents;
    assert [] + all == all == FieldEvents(f) + events;
  }

  lemma {:induction false} TokenizeFields(fields: seq<Field>, rest: string, events: seq<XmlEvent>)
    requires (forall i :: 0 <= i < |fields| ==> Writable(fields[i])) && Tokenize(rest) == Some(events)
    ensures Tokenize(WriteFields(fields, rest)) == Some(AllFieldEvents(fields) + events)
  {
    hide Tokenize;
    hide WriteField;
    hide FieldEvents;
    hide Writable;
    if fields == [] {
      assert AllFieldEvents(fields) + events == events;
    } else {
      TokenizeFields(fields[1..], rest, events);
      TokenizeField(fields[0], WriteFields(fields[1..], rest), AllFieldEvents(fields[1..]) + events);
      assert AllFieldEvents(fields) + events == FieldEvents(fields[0]) + (AllFieldEvents(fields[1..]) + events);
    }
  }

  /** The message reads as its elements. */
  lemma DocumentReads(fields: seq<Field>, gap: string)
    requires (forall i :: 0 <= i < |fields| ==> Writable(fields[i])) && AllXmlWhite(gap)
    ensures Tokenize(Document(fields, gap)) == Some([Start("xml")] + (AllFieldEvents(fields) + [End("xml")]))
  {
    XmlIsAName();
    hide *;
    var end := CloseTag("xml");
    TokenizeLast("xml");
    TagsStart("xml", "");
    assert end + "" == end;
    GapHasNoMarkup(gap);
    TokenizePlain(gap, end, [End("xml")]);
    assert [] + [End("xml")] == [End("xml")];
    TokenizeFields(fields, gap + end, [End("xml")]);
    TokenizeOpen("xml", WriteFields(fields, gap + end));
    PrependSome(Start("xml"), AllFieldEvents(fields) + [End("xml")]);
    DocumentIs(fields, gap);
  }

  lemma XmlIsAName()
    ensures IsName("xml")
  {
  }

  lemma DocumentIs(fields: seq<Field>, gap: string)
    ensures Document(fields, gap) == OpenTag("xml") + WriteFields(fields, gap + CloseTag("xml"))
  {
    assert OpenTag("xml") == "<xml>" && CloseTag("xml") == "</xml>";
  }

  // ----- gathering

  /** The bag after one more element; an element named like the root is skipped. */
  function Put(bag: Bag, f: Field): Bag {
    if f.name == "xml" || TextOf(f.content) == None then bag else bag[f.name := TextOf(f.content).value]
  }

  function PutAll(bag: Bag, fields: seq<Field>): Bag
    decreases fields
  {
    if fields == [] then bag else PutAll(Put(bag, fields[0]), fields[1..])
  }

  lemma FoldField(bag: Bag, f: Field)
    requires f.name !in bag
    ensures Fold(Scan(bag, None), FieldEvents(f)) == Scan(Put(bag, f), None)
  {
    var es := FieldEvents(f);
    var c := if f.name == "xml" then None else Some(f.name);
    assert OnEvent(Scan(bag, None), es[0]) == Scan(bag, c);
    assert es[1..] == ContentEvents(f.content) + [End(f.name)];
    FoldConcat(Scan(bag, c), ContentEvents(f.content), [End(f.name)]);
    FoldContent(bag, c, f.content);
    FoldEnd(Scan(Put(bag, f), c), f.name);
    hide Fold;
    hide ContentEvents;
    hide TrimXml;
    FoldFirst(Scan(bag, None), es);
  }

  lemma FoldFirst(p: Scan, es: seq<XmlEvent>)
    requires es != []
    ensures Fold(p, es) == Fold(OnEvent(p, es[0]), es[1..])
  {
  }

  lemma FoldEnd(p: Scan, name: string)
    ensures Fold(p, [End(name)]) == p.(current := None)
  {
    assert [End(name)][1..] == [];
  }

  lemma FoldContent(bag: Bag, current: Option<string>, c: Content)
    requires current.Some? ==> current.value !in bag
    ensures Fold(Scan(bag, current), ContentEvents(c))
            == Scan(if current == None || TextOf(c) == None then bag else bag[current.value := TextOf(c).value],
                    current)
  {
    hide TrimXml;
    var es := ContentEvents(c);
    assert es != [] ==> es[1..] == [];
  }

  lemma {:induction false} FoldFields(bag: Bag, fields: seq<Field>)
    requires forall i :: 0 <= i < |fields| ==> fields[i].name !in bag
    requires forall i, j :: 0 <= i < j < |fields| ==> fields[i].name != fields[j].name
    ensures Fold(Scan(bag, None), AllFieldEvents(fields)) == Scan(PutAll(bag, fields), None)
    decreases fields
  {
    if fields != [] {
      FoldField(bag, fields[0]);
      FoldConcat(Scan(bag, None), FieldEvents(fields[0]), AllFieldEvents(fields[1..]));
      hide FieldEvents;
      hide TextOf;
      FoldFields(Put(bag, fields[0]), fields[1..]);
    }
  }

  predicate Maps(bag: Bag, name: string, text: string) {
    name in bag && bag[name] == text
  }

  /** The bag holds what the elements say. */
  lemma {:induction false} PutAllHolds(bag: Bag, fields: seq<Field>, name: string, text: string)
    requires forall i :: 0 <= i < |fields| ==> fields[i].name !in bag
    requires forall i, j :: 0 <= i < j < |fields| ==> fields[i].name != fields[j].name
    ensures Maps(PutAll(bag, fields), name, text)
            <==> Maps(bag, name, text) || (name != "xml" && Holds(fields, name, text))
    decreases fields
  {
    if fields != [] {
      var rest := fields[1..];
      PutAllHolds(Put(bag, fields[0]), rest, name, text);
      SaysExactly(fields[0].content, text);
      hide Says;
      hide TextOf;
      HoldsCons(fields, name, text);
    }
  }

  lemma HoldsCons(fields: seq<Field>, name: string, text: string)
    requires fields != []
    ensures Holds(fields, name, text)
            <==> (fields[0].name == name && Says(fields[0].content, text)) || Holds(fields[1..], name, text)
  {
    hide Says;
    var rest := fields[1..];
    if i :| 0 <= i < |rest| && rest[i].name == name && Says(rest[i].content, text) {
      assert fields[i + 1] == rest[i];
    }
    if i :| 0 <= i < |fields| && fields[i].name == name && Says(fields[i].content, text) {
      assert i > 0 ==> rest[i - 1] == fields[i];
    }
  }

  lemma PutAllIsBagOf(fields: seq<Field>)
    requires Message(fields)
    ensures BagOf(fields, PutAll(map[], fields))
  {
    hide PutAll;
    hide Holds;
    forall name, text ensures Maps(PutAll(map[], fields), name, text) <==> name != "xml" && Holds(fields, name, text) {
      PutAllHolds(map[], fields, name, text);
    }
  }

  lemma MessageIs(fields: seq<Field>)
    requires Message(fields)
    ensures forall i :: 0 <= i < |fields| ==> Writable(fields[i])
    ensures forall i, j :: 0 <= i < j < |fields| ==> fields[i].name != fields[j].name
  {
  }

  /** The bag of a message. */
  lemma ParsedBag(fields: seq<Field>, gap: string) returns (bag: Bag)
    requires Message(fields) && AllXmlWhite(gap)
    ensures Parse(Document(fields, gap)) == Classify(bag)
    ensures BagOf(fields, bag)
  {
    hide *;
    bag := PutAll(map[], fields);
    PutAllIsBagOf(fields);
    MessageIs(fields);
    DocumentReads(fields, gap);
    FoldFields(map[], fields);
    var events := AllFieldEvents(fields) + [End("xml")];
    assert ([Start("xml")] + events)[1..] == events;
    FoldFirst(Scan(map[], None), [Start("xml")] + events);
    RootIsSkipped(map[]);
    FoldConcat(Scan(map[], None), AllFieldEvents(fields), [End("xml")]);
    FoldEnd(Scan(bag, None), "xml");
    ParseIs(Document(fields, gap), [Start("xml")] + events);
  }

  lemma RootIsSkipped(bag: Bag)
    ensures OnEvent(Scan(bag, None), Start("xml")) == Scan(bag, None)
  {
  }

  // ----- the message

  /** The eight names of the known fields. */
  predicate Known(name: string) {
    name == "ToUserName" || name == "FromUserName" || name == "CreateTime" || name == "MsgType" || name == "Content"
    || name == "Event" || name == "EventKey" || name == "MsgId"
  }

  lemma NoneIsXml()
    ensures !Known("xml")
  {
    assert |"xml"| == 3;
    assert |"ToUserName"| == 10 && |"FromUserName"| == 12 && |"CreateTime"| == 10 && |"MsgType"| == 7;
    assert |"Content"| == 7 && |"Event"| == 5 && |"EventKey"| == 8 && |"MsgId"| == 5;
  }

  lemma ClassifyReads(bag: Bag)
    ensures var r := Classify(bag);
            r.Ok? <==> "ToUserName" in bag && "FromUserName" in bag && "CreateTime" in bag && "MsgType" in bag
    ensures var r := Classify(bag);
            r.Err? ==> r.error == Missing(if "ToUserName" !in bag then "ToUserName"
                                          else if "FromUserName" !in bag then "FromUserName"
                                          else if "CreateTime" !in bag then "CreateTime"
                                          else "MsgType")
    ensures var r := Classify(bag);
            r.Ok? ==>
              r.value.toUserName == bag["ToUserName"] && r.value.fromUserName == bag["FromUserName"]
              && r.value.createTime == bag["CreateTime"] && r.value.msgType == bag["MsgType"]
    ensures var r := Classify(bag);
            r.Ok? ==>
              r.value.content == Entry(bag, "Content") && r.value.event == Entry(bag, "Event")
              && r.value.eventKey == Entry(bag, "EventKey") && r.value.msgId == Entry(bag, "MsgId")
    ensures Classify(bag).Ok? ==> ExtraOf(bag, Classify(bag).value.extra)
  {
  }

  function Entry(bag: Bag, name: string): Option<string> {
    if name in bag then Some(bag[name]) else None
  }

  ghost predicate ExtraOf(bag: Bag, extra: Bag) {
    (forall name :: name in extra <==> name in bag && !Known(name))
    && forall name :: name in extra ==> extra[name] == bag[name]
  }

  ghost predicate BagOf(fields: seq<Field>, bag: Bag) {
    forall name, text :: Maps(bag, name, text) <==> name != "xml" && Holds(fields, name, text)
  }

  /** The field is the text of the element of that name, and absent when there is none. */
  ghost predicate FieldIs(fields: seq<Field>, name: string, value: Option<string>) {
    forall text :: value == Some(text) <==> Holds(fields, name, text)
  }

  lemma EntryIsField(fields: seq<Field>, bag: Bag, name: string)
    requires BagOf(fields, bag) && name != "xml"
    ensures FieldIs(fields, name, Entry(bag, name))
    ensures name in bag <==> Present(fields, name)
    ensures name in bag ==> Holds(fields, name, bag[name])
  {
    hide Holds;
    if name in bag {
      assert Maps(bag, name, bag[name]);
    }
    forall text ensures Entry(bag, name) == Some(text) <==> Holds(fields, name, text) {
      assert Maps(bag, name, text) <==> Holds(fields, name, text);
    }
    if Present(fields, name) {
      var text :| Holds(fields, name, text);
      assert Maps(bag, name, text);
    }
  }

  lemma AllEntries(fields: seq<Field>, bag: Bag)
    requires BagOf(fields, bag)
    ensures forall name :: Known(name) ==>
              FieldIs(fields, name, Entry(bag, name)) && (name in bag <==> Present(fields, name))
              && (name in bag ==> Holds(fields, name, bag[name]))
  {
    NoneIsXml();
    forall name | Known(name)
      ensures FieldIs(fields, name, Entry(bag, name)) && (name in bag <==> Present(fields, name))
              && (name in bag ==> Holds(fields, name, bag[name]))
    {
      hide Known;
      EntryIsField(fields, bag, name);
    }
  }

  lemma EightAreKnown()
    ensures Known("ToUserName") && Known("FromUserName") && Known("CreateTime") && Known("MsgType")
    ensures Known("Content") && Known("Event") && Known("EventKey") && Known("MsgId")
  {
  }

  /** The rest is what the elements of other names say. */
  ghost predicate RestIs(fields: seq<Field>, extra: Bag) {
    forall name, text :: Maps(extra, name, text) <==> name != "xml" && !Known(name) && Holds(fields, name, text)
  }

  lemma ExtraIsRest(fields: seq<Field>, bag: Bag, extra: Bag)
    requires BagOf(fields, bag) && ExtraOf(bag, extra)
    ensures RestIs(fields, extra)
  {
    hide Holds;
    hide Known;
    forall name, text
      ensures Maps(extra, name, text) <==> name != "xml" && !Known(name) && Holds(fields, name, text)
    {
      assert Maps(bag, name, text) <==> name != "xml" && Holds(fields, name, text);
    }
  }

  /** What a message is read as: it needs its four required elements, each field is the text of the element of that
      name, and the rest is whatever the other elements say. */
  lemma MessageIsParsed(fields: seq<Field>, gap: string)
    requires Message(fields) && AllXmlWhite(gap)
    ensures var r := Parse(Document(fields, gap));
            r.Ok? <==> Present(fields, "ToUserName") && Present(fields, "FromUserName")
                       && Present(fields, "CreateTime") && Present(fields, "MsgType")
    ensures var r := Parse(Document(fields, gap));
            r.Err? ==>
              r.error == Missing(if !Present(fields, "ToUserName") then "ToUserName"
                                 else if !Present(fields, "FromUserName") then "FromUserName"
                                 else if !Present(fields, "CreateTime") then "CreateTime"
                                 else "MsgType")
    ensures var r := Parse(Document(fields, gap));
            r.Ok? ==>
              Holds(fields, "ToUserName", r.value.toUserName) && Holds(fields, "FromUserName", r.value.fromUserName)
              && Holds(fields, "CreateTime", r.value.createTime) && Holds(fields, "MsgType", r.value.msgType)
              && FieldIs(fields, "Content", r.value.content) && FieldIs(fields, "Event", r.value.event)
              && FieldIs(fields, "EventKey", r.value.eventKey) && FieldIs(fields, "MsgId", r.value.msgId)
    ensures var r := Parse(Document(fields, gap));
            r.Ok? ==> RestIs(fields, r.value.extra)
  {
    hide *;
    var bag := ParsedBag(fields, gap);
    ClassifyReads(bag);
    EightAreKnown();
    AllEntries(fields, bag);
    var r := Parse(Document(fields, gap));
    if r.Ok? {
      ExtraIsRest(fields, bag, r.value.extra);
    }
  }
}
