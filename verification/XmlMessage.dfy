/** xml.rs: building passive replies, escaping CDATA, and reading messages back event by event. */
module XmlMessage {
  import opened Wrappers
  import opened TextUtil

  // ----- building

  const CDATA_OPEN := "<![CDATA["
  const CDATA_CLOSE := "]]>"

  function EscapeCData(s: string): string {
    ReplaceAll(s, "]]>", "]]]]><![CDATA[>")
  }

  function CDataOf(s: string): string {
    CDATA_OPEN + (EscapeCData(s) + CDATA_CLOSE)
  }

  function OpenTag(name: string): string {
    "<" + (name + ">")
  }

  function CloseTag(name: string): string {
    "</" + (name + ">")
  }

  /** An element with an escaped text, or with a number. */
  datatype Child = Textual(name: string, text: string) | Numeric(name: string, n: nat)

  function Body(c: Child): string {
    match c
    case Textual(_, text) => CDataOf(text)
    case Numeric(_, n) => Decimal(n)
  }

  /** The element, in front of `rest`. */
  function Write(c: Child, rest: string): string {
    OpenTag(c.name) + (Body(c) + (CloseTag(c.name) + rest))
  }

  function WriteAll(cs: seq<Child>, rest: string): string {
    if cs == [] then rest else Write(cs[0], WriteAll(cs[1..], rest))
  }

  function TextChildren(to: string, from: string, now: nat, content: string): seq<Child> {
    [Textual("ToUserName", to), Textual("FromUserName", from), Numeric("CreateTime", now), Textual("MsgType", "text"),
     Textual("Content", content)]
  }

  /** `build_text_reply`. */
  function TextReply(to: string, from: string, now: nat, content: string): string {
    OpenTag("xml") + WriteAll(TextChildren(to, from, now, content), CloseTag("xml"))
  }

  datatype NewsArticle = NewsArticle(title: string, description: string, picUrl: string, url: string)

  function ItemChildren(a: NewsArticle): seq<Child> {
    [Textual("Title", a.title), Textual("Description", a.description), Textual("PicUrl", a.picUrl),
     Textual("Url", a.url)]
  }

  function Item(a: NewsArticle, rest: string): string {
    OpenTag("item") + WriteAll(ItemChildren(a), CloseTag("item") + rest)
  }

  function Items(articles: seq<NewsArticle>, rest: string): string {
    if articles == [] then rest else Item(articles[0], Items(articles[1..], rest))
  }

  function NewsChildren(to: string, from: string, now: nat, count: nat): seq<Child> {
    [Textual("ToUserName", to), Textual("FromUserName", from), Numeric("CreateTime", now), Textual("MsgType", "news"),
     Numeric("ArticleCount", count)]
  }

  const NEWS_END := CloseTag("Articles") + CloseTag("xml")

  function NewsReply(to: string, from: string, now: nat, articles: seq<NewsArticle>): string {
    OpenTag("xml") + WriteAll(NewsChildren(to, from, now, |articles|), OpenTag("Articles") + Items(articles, NEWS_END))
  }

  lemma WriteAppends(c: Child, mid: string, rest: string)
    ensures Write(c, mid + rest) == Write(c, mid) + rest
  {
    hide OpenTag;
    hide CloseTag;
    hide Body;
    assert CloseTag(c.name) + (mid + rest) == (CloseTag(c.name) + mid) + rest;
    assert Body(c) + ((CloseTag(c.name) + mid) + rest) == (Body(c) + (CloseTag(c.name) + mid)) + rest;
  }

  lemma {:induction false} WriteAllAppends(cs: seq<Child>, mid: string, rest: string)
    ensures WriteAll(cs, mid + rest) == WriteAll(cs, mid) + rest
  {
    hide Write;
    if cs != [] {
      WriteAppends(cs[0], WriteAll(cs[1..], mid), rest);
      WriteAllAppends(cs[1..], mid, rest);
    }
  }

  lemma ItemAppends(a: NewsArticle, mid: string, rest: string)
    ensures Item(a, mid + rest) == Item(a, mid) + rest
  {
    WriteAllAppends(ItemChildren(a), CloseTag("item") + mid, rest);
    assert CloseTag("item") + (mid + rest) == CloseTag("item") + mid + rest;
  }

  lemma {:induction false} ItemsSnoc(articles: seq<NewsArticle>, a: NewsArticle, rest: string)
    ensures Items(articles + [a], rest) == Items(articles, Item(a, rest))
  {
    if articles == [] {
      assert articles + [a] == [a] && [a][1..] == [];
    } else {
      assert (articles + [a])[1..] == articles[1..] + [a];
      ItemsSnoc(articles[1..], a, rest);
    }
  }

  lemma {:induction false} ItemsAppend(articles: seq<NewsArticle>, rest: string)
    ensures Items(articles, rest) == Items(articles, "") + rest
  {
    if articles != [] {
      ItemsAppend(articles[1..], rest);
      ItemAppends(articles[0], Items(articles[1..], ""), rest);
    }
  }

  /** The reply around items already written. */
  lemma NewsReplyAround(to: string, from: string, now: nat, articles: seq<NewsArticle>)
    ensures NewsReply(to, from, now, articles)
            == OpenTag("xml") + WriteAll(NewsChildren(to, from, now, |articles|),
                                         OpenTag("Articles") + (Items(articles, "") + NEWS_END))
  {
    ItemsAppend(articles, NEWS_END);
  }

  lemma OneMoreItem(articles: seq<NewsArticle>, i: nat)
    requires i < |articles|
    ensures Items(articles[..i + 1], "") == Items(articles[..i], "") + Item(articles[i], "")
  {
    assert articles[..i + 1] == articles[..i] + [articles[i]];
    ItemsSnoc(articles[..i], articles[i], "");
    ItemsAppend(articles[..i], Item(articles[i], ""));
  }

  /** `build_news_reply`: the items grow one article at a time. */
  method BuildNewsReply(to: string, from: string, now: nat, articles: seq<NewsArticle>) returns (xml: string)
    ensures xml == NewsReply(to, from, now, articles)
  {
    var items := "";
    for i := 0 to |articles|
      invariant items == Items(articles[..i], "")
    {
      OneMoreItem(articles, i);
      items := items + Item(articles[i], "");
    }
    assert articles[..|articles|] == articles;
    NewsReplyAround(to, from, now, articles);
    xml := OpenTag("xml") + WriteAll(NewsChildren(to, from, now, |articles|), OpenTag("Articles") + (items + NEWS_END));
  }

  /** One element as the source's format string has it. */
  function Spelled(name: string, body: string): string {
    "<" + name + ">" + body + "</" + name + ">"
  }

  lemma WriteSpells(c: Child, rest: string)
    ensures Write(c, rest) == Spelled(c.name, Body(c)) + rest
  {
  }

  /** The reply spelled out: five elements in this order, the three texts escaped. */
  lemma TextReplySpelledOut(to: string, from: string, now: nat, content: string)
    ensures TextReply(to, from, now, content) ==
            "<xml>"
            + (Spelled("ToUserName", "<![CDATA[" + (EscapeCData(to) + "]]>"))
            + (Spelled("FromUserName", "<![CDATA[" + (EscapeCData(from) + "]]>"))
            + (Spelled("CreateTime", Decimal(now))
            + (Spelled("MsgType", CDataOf("text"))
            + (Spelled("Content", "<![CDATA[" + (EscapeCData(content) + "]]>"))
            + "</xml>")))))
    ensures CDataOf("text") == "<![CDATA[text]]>"
  {
    var cs := TextChildren(to, from, now, content);
    assert OpenTag("xml") == "<xml>" && CloseTag("xml") == "</xml>";
    assert CDataOf("text") == "<![CDATA[text]]>" by {
      NoCloseInWord();
      EscapeSplits("text");
    }
    WriteFive(cs, "</xml>");
  }

  /** And so is the news reply: the head, one item after the other, and the end. */
  lemma NewsReplySpelledOut(to: string, from: string, now: nat, articles: seq<NewsArticle>)
    ensures NewsReply(to, from, now, articles) ==
            "<xml>"
            + (Spelled("ToUserName", "<![CDATA[" + (EscapeCData(to) + "]]>"))
            + (Spelled("FromUserName", "<![CDATA[" + (EscapeCData(from) + "]]>"))
            + (Spelled("CreateTime", Decimal(now))
            + (Spelled("MsgType", "<![CDATA[news]]>")
            + (Spelled("ArticleCount", Decimal(|articles|))
            + ("<Articles>" + Items(articles, "</Articles></xml>")))))))
  {
    var rest := OpenTag("Articles") + Items(articles, NEWS_END);
    NewsSection();
    WriteFive(NewsChildren(to, from, now, |articles|), rest);
    hide Spelled;
    hide Items;
    hide EscapeCData;
    hide Decimal;
    hide WriteAll;
  }

  lemma NewsSection()
    ensures CDataOf("news") == "<![CDATA[news]]>"
    ensures OpenTag("xml") == "<xml>" && OpenTag("Articles") == "<Articles>" && NEWS_END == "</Articles></xml>"
  {
    FindNothing("news", "]]>");
    EscapeSplits("news");
  }

  /** Each article is an item of its title, its description, its picture and its link. */
  lemma ItemSpelledOut(a: NewsArticle, rest: string)
    ensures Item(a, rest) ==
            "<item>"
            + (Spelled("Title", "<![CDATA[" + (EscapeCData(a.title) + "]]>"))
            + (Spelled("Description", "<![CDATA[" + (EscapeCData(a.description) + "]]>"))
            + (Spelled("PicUrl", "<![CDATA[" + (EscapeCData(a.picUrl) + "]]>"))
            + (Spelled("Url", "<![CDATA[" + (EscapeCData(a.url) + "]]>"))
            + ("</item>" + rest)))))
  {
    var cs := ItemChildren(a);
    assert OpenTag("item") == "<item>" && CloseTag("item") == "</item>";
    WriteFour(cs, CloseTag("item") + rest);
    hide Spelled;
    hide EscapeCData;
    hide WriteAll;
  }

  lemma WriteFour(cs: seq<Child>, rest: string)
    requires |cs| == 4
    ensures WriteAll(cs, rest)
            == Spelled(cs[0].name, Body(cs[0])) + (Spelled(cs[1].name, Body(cs[1])) + (Spelled(cs[2].name, Body(cs[2]))
               + (Spelled(cs[3].name, Body(cs[3])) + rest)))
  {
    hide Spelled;
    hide Body;
    hide Write;
    WriteSpells(cs[0], WriteAll(cs[1..], rest));
    WriteSpells(cs[1], WriteAll(cs[2..], rest));
    WriteSpells(cs[2], WriteAll(cs[3..], rest));
    WriteSpells(cs[3], WriteAll([], rest));
    assert cs[1..][1..] == cs[2..] && cs[2..][1..] == cs[3..] && cs[3..][1..] == [];
    assert WriteAll(cs[3..], rest) == Write(cs[3], WriteAll(cs[3..][1..], rest));
    assert WriteAll(cs[2..], rest) == Write(cs[2], WriteAll(cs[2..][1..], rest));
    assert WriteAll(cs[1..], rest) == Write(cs[1], WriteAll(cs[1..][1..], rest));
  }

  lemma WriteFive(cs: seq<Child>, rest: string)
    requires |cs| == 5
    ensures WriteAll(cs, rest)
            == Spelled(cs[0].name, Body(cs[0])) + (Spelled(cs[1].name, Body(cs[1])) + (Spelled(cs[2].name, Body(cs[2]))
               + (Spelled(cs[3].name, Body(cs[3])) + (Spelled(cs[4].name, Body(cs[4])) + rest))))
  {
    hide Spelled;
    hide Body;
    hide Write;
    WriteSpells(cs[0], WriteAll(cs[1..], rest));
    WriteSpells(cs[1], WriteAll(cs[2..], rest));
    WriteSpells(cs[2], WriteAll(cs[3..], rest));
    WriteSpells(cs[3], WriteAll(cs[4..], rest));
    WriteSpells(cs[4], WriteAll([], rest));
    assert cs[1..][1..] == cs[2..] && cs[2..][1..] == cs[3..] && cs[3..][1..] == cs[4..] && cs[4..][1..] == [];
    assert WriteAll(cs[4..], rest) == Write(cs[4], WriteAll(cs[4..][1..], rest));
    assert WriteAll(cs[3..], rest) == Write(cs[3], WriteAll(cs[3..][1..], rest));
    assert WriteAll(cs[2..], rest) == Write(cs[2], WriteAll(cs[2..][1..], rest));
    assert WriteAll(cs[1..], rest) == Write(cs[1], WriteAll(cs[1..][1..], rest));
  }

  // ----- reading

  /** What the pull parser reports; comments, instructions, attributes, empty tags and entities are not
      part of this model and make `Tokenize` give up. */
  datatype XmlEvent = Start(name: string) | End(name: string) | Text(text: string) | CData(text: string)

  predicate IsNameChar(c: char) {
    'a' <= c <= 'z' || 'A' <= c <= 'Z' || '0' <= c <= '9' || c == '_'
  }

  lemma NameCharsListed(c: char)
    ensures IsNameChar(c) <==> c in DIGITS || c in UPPERS || c in LOWERS || c == '_'
  {
    AlphanumericsListed(c);
    hide DIGITS;
    hide UPPERS;
    hide LOWERS;
  }

  predicate IsName(s: string) {
    s != "" && forall i :: 0 <= i < |s| ==> IsNameChar(s[i])
  }

  function Prepend(e: XmlEvent, rest: Option<seq<XmlEvent>>): Option<seq<XmlEvent>> {
    if rest == None then None else Some([e] + rest.value)
  }

  predicate IsXmlWhite(c: char) {
    c == ' ' || c == '\t' || c == '\r' || c == '\n'
  }

  function TrimXmlStart(s: string): string {
    if s != "" && IsXmlWhite(s[0]) then TrimXmlStart(s[1..]) else s
  }

  function TrimXmlEnd(s: string): string {
    if s != "" && IsXmlWhite(s[|s| - 1]) then TrimXmlEnd(s[..|s| - 1]) else s
  }

  function TrimXml(s: string): string {
    TrimXmlEnd(TrimXmlStart(s))
  }

  /** Text runs to the next `<`; XML's white space around it is dropped, and so is text that is nothing else. */
  function Tokenize(s: string): Option<seq<XmlEvent>>
    decreases |s|
  {
    if s == "" then Some([])
    else if OccursAt(s, 0, CDATA_OPEN) then
      var body := s[|CDATA_OPEN|..];
      var i := Find(body, CDATA_CLOSE);
      if i == None then None else Prepend(CData(body[..i.value]), Tokenize(body[i.value + 3..]))
    else if OccursAt(s, 0, "</") then
      var body := s[2..];
      var i := Find(body, ">");
      if i == None || !IsName(body[..i.value]) then None
      else Prepend(End(body[..i.value]), Tokenize(body[i.value + 1..]))
    else if OccursAt(s, 0, "<") then
      var body := s[1..];
      var i := Find(body, ">");
      if i == None || !IsName(body[..i.value]) then None
      else Prepend(Start(body[..i.value]), Tokenize(body[i.value + 1..]))
    else
      var i := Find(s, "<");
      var end := if i == None then |s| else i.value;
      if '&' in s[..end] || end == 0 then None
      else if TrimXml(s[..end]) == "" then Tokenize(s[end..])
      else Prepend(Text(TrimXml(s[..end])), Tokenize(s[end..]))
  }

  type Bag = map<string, string>

  datatype Scan = Scan(bag: Bag, current: Option<string>)

  function OnEvent(p: Scan, e: XmlEvent): Scan {
    match e
    case Start(name) => if name == "xml" then p else p.(current := Some(name))
    case Text(t) =>
      if p.current == None || p.current.value in p.bag then p else p.(bag := p.bag[p.current.value := t])
    case CData(t) => if p.current == None then p else p.(bag := p.bag[p.current.value := t])
    case End(_) => p.(current := None)
  }

  function Fold(p: Scan, events: seq<XmlEvent>): Scan
    decreases events
  {
    if events == [] then p else Fold(OnEvent(p, events[0]), events[1..])
  }

  datatype InboundXml = InboundXml(toUserName: string, fromUserName: string, createTime: string, msgType: string,
                                   content: Option<string>, event: Option<string>, eventKey: Option<string>,
                                   msgId: Option<string>, extra: Bag)

  /** The element that is missing. */
  datatype BadXml = Malformed | Missing(name: string)

  function Lookup(bag: Bag, k: string): Option<string> {
    if k in bag then Some(bag[k]) else None
  }

  const KNOWN := {"ToUserName", "FromUserName", "CreateTime", "MsgType", "Content", "Event", "EventKey", "MsgId"}

  function Classify(bag: Bag): Result<InboundXml, BadXml> {
    if "ToUserName" !in bag then Err(Missing("ToUserName"))
    else if "FromUserName" !in bag then Err(Missing("FromUserName"))
    else if "CreateTime" !in bag then Err(Missing("CreateTime"))
    else if "MsgType" !in bag then Err(Missing("MsgType"))
    else Ok(InboundXml(bag["ToUserName"], bag["FromUserName"], bag["CreateTime"], bag["MsgType"],
                       Lookup(bag, "Content"), Lookup(bag, "Event"), Lookup(bag, "EventKey"), Lookup(bag, "MsgId"),
                       bag - KNOWN))
  }

  function Parse(xml: string): Result<InboundXml, BadXml> {
    match Tokenize(xml)
    case None => Err(Malformed)
    case Some(events) => Classify(Fold(Scan(map[], None), events).bag)
  }

  /** The loop and the field extraction of `parse_inbound`, on the events of a document. */
  method ParseEvents(events: seq<XmlEvent>) returns (r: Result<InboundXml, BadXml>)
    ensures r == Classify(Fold(Scan(map[], None), events).bag)
  {
    var bag: Bag := map[];
    var current: Option<string> := None;
    for i := 0 to |events|
      invariant Fold(Scan(map[], None), events) == Fold(Scan(bag, current), events[i..])
    {
      assert events[i..][0] == events[i] && events[i..][1..] == events[i + 1..];
      match events[i]
      case Start(name) =>
        if name == "xml" {
          continue;
        }
        current := Some(name);
      case Text(t) =>
        if current.Some? && current.value !in bag {
          bag := bag[current.value := t];
        }
      case CData(t) =>
        if current.Some? {
          bag := bag[current.value := t];
        }
      case End(_) =>
        current := None;
    }
    r := Classify(bag);
  }

  // ----- CDATA sections

  /** Cutting after the `]]` of every `]]>`: the contents of the sections an escaped text is written as. */
  function Chunks(s: string): (r: seq<string>)
    ensures r != []
    decreases |s|
  {
    var i := Find(s, "]]>");
    if i == None then [s] else [s[..i.value + 2]] + Chunks(s[i.value + 2..])
  }

  function Concatenated(parts: seq<string>): string {
    if parts == [] then "" else parts[0] + Concatenated(parts[1..])
  }

  lemma {:induction false} ChunksConcatenate(s: string)
    ensures Concatenated(Chunks(s)) == s
    decreases |s|
  {
    var i := Find(s, "]]>");
    if i.Some? {
      ChunksConcatenate(s[i.value + 2..]);
      assert s == s[..i.value + 2] + s[i.value + 2..];
    } else {
      assert [s][1..] == [];
    }
  }

  lemma OccursShift(s: string, i: int, pat: string)
    requires s != ""
    ensures i >= 1 ==> OccursAt(s, i, pat) == OccursAt(s[1..], i - 1, pat)
  {
    if i >= 1 && i + |pat| <= |s| {
      assert s[1..][i - 1..i - 1 + |pat|] == s[i..i + |pat|];
    }
  }

  lemma FindShift(s: string, pat: string)
    requires s != "" && pat != "" && !OccursAt(s, 0, pat)
    ensures Find(s, pat) == match Find(s[1..], pat) case None => None case Some(i) => Some(i + 1)
  {
    forall i ensures i >= 1 ==> OccursAt(s, i, pat) == OccursAt(s[1..], i - 1, pat) {
      OccursShift(s, i, pat);
    }
    FindSpec(s, pat);
    FindSpec(s[1..], pat);
    var f, g := Find(s[1..], pat), Find(s, pat);
    if f.Some? {
      assert OccursAt(s, f.value + 1, pat);
      FindIs(s, pat, f.value + 1);
    } else {
      assert g == None;
    }
  }

  /** What `EscapeSplits` says of one place. */
  predicate SplitsAt(s: string, k: nat)
    requires k <= |s|
  {
    EscapeCData(s) == s[..k] + (CDATA_CLOSE + (CDATA_OPEN + EscapeCData(s[k..])))
  }

  lemma EscapeAtMatch(s: string)
    requires OccursAt(s, 0, "]]>")
    ensures SplitsAt(s, 2)
  {
    var t := s[2..];
    assert s[..3] == "]]>" && s[..2] == "]]";
    assert t[0] == '>' && t[1..] == s[3..];
    assert !OccursAt(t, 0, "]]>") by {
      assert |t| >= 3 ==> t[..3][0] == '>';
    }
    assert EscapeCData(t) == ">" + EscapeCData(s[3..]);
    assert EscapeCData(s) == "]]]]><![CDATA[>" + EscapeCData(s[3..]);
    assert "]]]]><![CDATA[>" == "]]" + ("]]>" + ("<![CDATA[" + ">"));
  }

  lemma EscapeAfterNoMatch(s: string, k: nat)
    requires s != "" && !OccursAt(s, 0, "]]>") && k < |s| && SplitsAt(s[1..], k)
    ensures SplitsAt(s, k + 1)
  {
    assert EscapeCData(s) == [s[0]] + EscapeCData(s[1..]);
    assert s[1..][k..] == s[k + 1..];
    assert s[..k + 1] == [s[0]] + s[1..][..k];
  }

  /** Escaping leaves everything up to the first `]]>` alone and reopens a section between `]]` and `>`. */
  lemma {:induction false} EscapeSplits(s: string)
    ensures Find(s, "]]>") == None ==> EscapeCData(s) == s
    ensures Find(s, "]]>").Some? ==> SplitsAt(s, Find(s, "]]>").value + 2)
    decreases |s|
  {
    if s == "" {
    } else if OccursAt(s, 0, "]]>") {
      FindIs(s, "]]>", 0);
      EscapeAtMatch(s);
    } else {
      hide Find;
      hide SplitsAt;
      FindShift(s, "]]>");
      EscapeSplits(s[1..]);
      var f := Find(s[1..], "]]>");
      if f.Some? {
        EscapeAfterNoMatch(s, f.value + 2);
      } else {
        assert EscapeCData(s) == [s[0]] + EscapeCData(s[1..]);
        assert s == [s[0]] + s[1..];
      }
    }
  }

  /** No section ends inside the text. */
  ghost predicate EndsNoSection(chunk: string) {
    forall j :: 0 <= j ==> !OccursAt(chunk, j, "]]>")
  }

  /** The first `]]>` after a chunk is the one that closes its section. */
  lemma CloseIsFirst(chunk: string, rest: string)
    requires EndsNoSection(chunk)
    ensures Find(chunk + (CDATA_CLOSE + rest), "]]>") == Some(|chunk|)
  {
    var s := chunk + (CDATA_CLOSE + rest);
    assert s[|chunk|..|chunk| + 3] == CDATA_CLOSE;
    forall j | 0 <= j < |chunk| ensures !OccursAt(s, j, "]]>") {
      if j + 3 <= |chunk| {
        assert s[j..j + 3] == chunk[j..j + 3];
        assert !OccursAt(chunk, j, "]]>");
      } else {
        assert s[j..j + 3][2] == s[j + 2] == ']';
      }
    }
    FindIs(s, "]]>", |chunk|);
  }

  lemma ChunkHasNoClose(s: string, k: nat)
    requires k <= |s| && (Find(s, "]]>") == None || k == Find(s, "]]>").value + 2)
    ensures EndsNoSection(s[..k])
  {
    FindSpec(s, "]]>");
    forall j | 0 <= j ensures !OccursAt(s[..k], j, "]]>") {
      if OccursAt(s[..k], j, "]]>") {
        assert s[..k][j..j + 3] == s[j..j + 3];
        assert OccursAt(s, j, "]]>");
      }
    }
  }

  function CDatas(parts: seq<string>): seq<XmlEvent> {
    seq(|parts|, i requires 0 <= i < |parts| => CData(parts[i]))
  }

  /** An escaped text is a section with its first chunk, then the escaped remainder. */
  lemma CDataSplits(s: string, rest: string)
    ensures Find(s, "]]>") == None ==> CDataOf(s) + rest == CDATA_OPEN + (s + (CDATA_CLOSE + rest))
    ensures Find(s, "]]>").Some? ==>
              var k := Find(s, "]]>").value + 2;
              CDataOf(s) + rest == CDATA_OPEN + (s[..k] + (CDATA_CLOSE + (CDataOf(s[k..]) + rest)))
  {
    EscapeSplits(s);
    hide EscapeCData;
    hide Find;
  }

  lemma TokenizeSection(chunk: string, rest: string)
    requires EndsNoSection(chunk)
    ensures Tokenize(CDATA_OPEN + (chunk + (CDATA_CLOSE + rest))) == Prepend(CData(chunk), Tokenize(rest))
  {
    var s := CDATA_OPEN + (chunk + (CDATA_CLOSE + rest));
    var body := chunk + (CDATA_CLOSE + rest);
    CloseIsFirst(chunk, rest);
    assert s[|CDATA_OPEN|..] == body;
    assert body[..|chunk|] == chunk && body[|chunk| + 3..] == rest;
  }

  /** An escaped text reads as one section per chunk. */
  lemma {:induction false} TokenizeCData(s: string, rest: string, events: seq<XmlEvent>)
    requires Tokenize(rest) == Some(events)
    ensures Tokenize(CDataOf(s) + rest) == Some(CDatas(Chunks(s)) + events)
    decreases |s|
  {
    hide Tokenize;
    hide CDataOf;
    hide Find;
    CDataSplits(s, rest);
    var i := Find(s, "]]>");
    if i == None {
      ChunkHasNoClose(s, |s|);
      assert s[..|s|] == s;
      TokenizeSection(s, rest);
      assert CDatas([s]) == [CData(s)];
    } else {
      var k := i.value + 2;
      ChunkHasNoClose(s, k);
      TokenizeCData(s[k..], rest, events);
      TokenizeSection(s[..k], CDataOf(s[k..]) + rest);
      assert CDatas(Chunks(s)) == [CData(s[..k])] + CDatas(Chunks(s[k..]));
      assert CDatas(Chunks(s)) + events == [CData(s[..k])] + (CDatas(Chunks(s[k..])) + events);
    }
  }

  /** A reader that follows section 2.7 of XML 1.0 and joins adjacent sections: the text, and what follows. */
  function ReadSections(s: string): Option<(string, string)>
    decreases |s|
  {
    if !OccursAt(s, 0, CDATA_OPEN) then Some(("", s))
    else
      var body := s[|CDATA_OPEN|..];
      var i := Find(body, CDATA_CLOSE);
      if i == None then None
      else
        var more := ReadSections(body[i.value + 3..]);
        if more == None then None else Some((body[..i.value] + more.value.0, more.value.1))
  }

  lemma ReadOneSection(chunk: string, rest: string)
    requires EndsNoSection(chunk)
    requires ReadSections(rest).Some?
    ensures ReadSections(CDATA_OPEN + (chunk + (CDATA_CLOSE + rest)))
            == Some((chunk + ReadSections(rest).value.0, ReadSections(rest).value.1))
  {
    var s := CDATA_OPEN + (chunk + (CDATA_CLOSE + rest));
    var body := chunk + (CDATA_CLOSE + rest);
    CloseIsFirst(chunk, rest);
    assert s[|CDATA_OPEN|..] == body;
    assert body[..|chunk|] == chunk && body[|chunk| + 3..] == rest;
  }

  /** Reading what was escaped gives the text back, whatever it is. */
  lemma {:induction false} EscapeRoundTrip(s: string, rest: string)
    requires !OccursAt(rest, 0, CDATA_OPEN)
    ensures ReadSections(CDataOf(s) + rest) == Some((s, rest))
    decreases |s|
  {
    hide *;
    NoSectionLeft(rest);
    ChunksAreClean(s);
    CDataSplits(s, rest);
    var i := Find(s, "]]>");
    if i == None {
      ReadOneSection(s, rest);
      assert s + "" == s;
    } else {
      var k := i.value + 2;
      EscapeRoundTrip(s[k..], rest);
      ReadOneSection(s[..k], CDataOf(s[k..]) + rest);
      assert s[..k] + s[k..] == s;
    }
  }

  lemma NoSectionLeft(rest: string)
    requires !OccursAt(rest, 0, CDATA_OPEN)
    ensures ReadSections(rest) == Some(("", rest))
  {
  }

  /** A text without the marker, or its part up to the first one, ends no section. */
  lemma ChunksAreClean(s: string)
    ensures Find(s, "]]>") == None ==> EndsNoSection(s)
    ensures Find(s, "]]>").Some? ==> EndsNoSection(s[..Find(s, "]]>").value + 2])
  {
    hide Find;
    if Find(s, "]]>") == None {
      ChunkHasNoClose(s, |s|);
      assert s[..|s|] == s;
    } else {
      ChunkHasNoClose(s, Find(s, "]]>").value + 2);
    }
  }

  // ----- tags

  lemma NameEnds(name: string, rest: string)
    requires IsName(name)
    ensures Find(name + (">" + rest), ">") == Some(|name|)
  {
    var s := name + (">" + rest);
    forall j | 0 <= j < |name| ensures !OccursAt(s, j, ">") {
      assert s[j] == name[j] && IsNameChar(name[j]);
      assert s[j..j + 1] == [s[j]];
    }
    assert s[|name|..|name| + 1] == ">";
    FindIs(s, ">", |name|);
  }

  /** The second character tells the kinds of markup apart. */
  lemma SecondDecides(s: string)
    requires |s| >= 2
    ensures s[1] != '!' ==> !OccursAt(s, 0, CDATA_OPEN)
    ensures s[1] != '/' ==> !OccursAt(s, 0, "</")
  {
  }

  lemma TokenizeOpen(name: string, rest: string)
    requires IsName(name)
    ensures Tokenize(OpenTag(name) + rest) == Prepend(Start(name), Tokenize(rest))
  {
    var s, body := OpenTag(name) + rest, name + (">" + rest);
    NameEnds(name, rest);
    assert s[1..] == body;
    assert s[1] == name[0] && IsNameChar(name[0]);
    SecondDecides(s);
    assert body[..|name|] == name && body[|name| + 1..] == rest;
  }

  lemma TokenizeClose(name: string, rest: string)
    requires IsName(name)
    ensures Tokenize(CloseTag(name) + rest) == Prepend(End(name), Tokenize(rest))
  {
    var s, body := CloseTag(name) + rest, name + (">" + rest);
    NameEnds(name, rest);
    assert s[2..] == body;
    SecondDecides(s);
    assert body[..|name|] == name && body[|name| + 1..] == rest;
  }

  lemma TrimDigits(s: string)
    requires s != "" && forall i :: 0 <= i < |s| ==> '0' <= s[i] <= '9'
    ensures TrimXml(s) == s
  {
    assert !IsXmlWhite(s[0]) && !IsXmlWhite(s[|s| - 1]);
  }

  /** Text that needs no trimming, in front of a tag. */
  lemma TokenizeText(s: string, k: nat)
    requires 0 < k <= |s| && s[0] != '<' && Find(s, "<") == Some(k) && '&' !in s[..k] && TrimXml(s[..k]) == s[..k]
    ensures Tokenize(s) == Prepend(Text(s[..k]), Tokenize(s[k..]))
  {
    NotATag(s);
    hide OccursAt;
    hide Find;
    hide TrimXml;
    hide IsName;
  }

  lemma FirstTagAfter(d: string, tail: string)
    requires '<' !in d && tail != "" && tail[0] == '<'
    ensures Find(d + tail, "<") == Some(|d|)
  {
    var s := d + tail;
    forall j | 0 <= j < |d| ensures !OccursAt(s, j, "<") {
      assert s[j] == d[j] && d[j] in d;
      Differs(s, j, "<", 0);
    }
    assert s[|d|..|d| + 1] == "<";
    FindIs(s, "<", |d|);
  }

  lemma TokenizeDigits(n: nat, tail: string, events: seq<XmlEvent>)
    requires tail != "" && tail[0] == '<' && Tokenize(tail) == Some(events)
    ensures Tokenize(Decimal(n) + tail) == Some([Text(Decimal(n))] + events)
  {
    hide *;
    DecimalRoundTrip(n);
    var d := Decimal(n);
    TrimDigits(d);
    FirstTagAfter(d, tail);
    var s := d + tail;
    assert s[..|d|] == d && s[|d|..] == tail && s[0] == d[0];
    TokenizeText(s, |d|);
    PrependSome(Text(d), events);
  }

  lemma PrependSome(e: XmlEvent, events: seq<XmlEvent>)
    ensures Prepend(e, Some(events)) == Some([e] + events)
  {
  }

  lemma NotATag(s: string)
    requires s != "" && s[0] != '<'
    ensures !OccursAt(s, 0, CDATA_OPEN) && !OccursAt(s, 0, "</") && !OccursAt(s, 0, "<")
  {
  }

  function BodyEvents(c: Child): seq<XmlEvent> {
    match c
    case Textual(_, text) => CDatas(Chunks(text))
    case Numeric(_, n) => [Text(Decimal(n))]
  }

  function ChildEvents(c: Child): seq<XmlEvent> {
    [Start(c.name)] + (BodyEvents(c) + [End(c.name)])
  }

  function AllEvents(cs: seq<Child>): seq<XmlEvent> {
    if cs == [] then [] else ChildEvents(cs[0]) + AllEvents(cs[1..])
  }

  lemma TokenizeBody(c: Child, tail: string, events: seq<XmlEvent>)
    requires tail != "" && tail[0] == '<' && Tokenize(tail) == Some(events)
    ensures Tokenize(Body(c) + tail) == Some(BodyEvents(c) + events)
  {
    hide Tokenize;
    match c
    case Textual(_, text) => TokenizeCData(text, tail, events);
    case Numeric(_, n) => TokenizeDigits(n, tail, events);
  }

  lemma TokenizeChild(c: Child, rest: string, events: seq<XmlEvent>)
    requires IsName(c.name) && Tokenize(rest) == Some(events)
    ensures Tokenize(Write(c, rest)) == Some(ChildEvents(c) + events)
  {
    hide Tokenize;
    var tail := CloseTag(c.name) + rest;
    TokenizeClose(c.name, rest);
    TokenizeBody(c, tail, [End(c.name)] + events);
    TokenizeOpen(c.name, Body(c) + tail);
    assert ChildEvents(c) + events == [Start(c.name)] + (BodyEvents(c) + ([End(c.name)] + events));
  }

  ghost predicate Named(cs: seq<Child>) {
    forall i :: 0 <= i < |cs| ==> IsName(cs[i].name)
  }

  /** Elements written one after the other read as their events, one after the other. */
  lemma {:induction false} TokenizeAll(cs: seq<Child>, rest: string, events: seq<XmlEvent>)
    requires Named(cs) && Tokenize(rest) == Some(events)
    ensures Tokenize(WriteAll(cs, rest)) == Some(AllEvents(cs) + events)
  {
    hide Tokenize;
    hide Write;
    hide ChildEvents;
    if cs == [] {
      assert AllEvents(cs) + events == events;
    } else {
      TokenizeAll(cs[1..], rest, events);
      TokenizeChild(cs[0], WriteAll(cs[1..], rest), AllEvents(cs[1..]) + events);
      assert AllEvents(cs) + events == ChildEvents(cs[0]) + (AllEvents(cs[1..]) + events);
    }
  }

  lemma TokenizeLast(name: string)
    requires IsName(name)
    ensures Tokenize(CloseTag(name)) == Some([End(name)])
  {
    assert Tokenize("") == Some([]);
    hide Tokenize;
    TokenizeClose(name, "");
    assert CloseTag(name) + "" == CloseTag(name);
    assert [End(name)] + [] == [End(name)];
  }

  // ----- the text reply

  /** Whatever the three texts are, the reply reads as exactly its five children, in order. */
  lemma TextReplyReads(to: string, from: string, now: nat, content: string)
    ensures Tokenize(TextReply(to, from, now, content))
            == Some([Start("xml")] + (AllEvents(TextChildren(to, from, now, content)) + [End("xml")]))
  {
    hide *;
    var cs := TextChildren(to, from, now, content);
    TextReplyIs(to, from, now, content);
    TokenizeLast("xml");
    TokenizeAll(cs, CloseTag("xml"), [End("xml")]);
    TokenizeOpen("xml", WriteAll(cs, CloseTag("xml")));
    PrependSome(Start("xml"), AllEvents(cs) + [End("xml")]);
  }

  lemma TextReplyIs(to: string, from: string, now: nat, content: string)
    ensures TextReply(to, from, now, content)
            == OpenTag("xml") + WriteAll(TextChildren(to, from, now, content), CloseTag("xml"))
    ensures Named(TextChildren(to, from, now, content)) && IsName("xml")
  {
    hide WriteAll;
  }

  // ----- reading the text reply back

  lemma {:induction false} FoldConcat(p: Scan, a: seq<XmlEvent>, b: seq<XmlEvent>)
    ensures Fold(p, a + b) == Fold(Fold(p, a), b)
    decreases a
  {
    if a == [] {
      assert a + b == b;
    } else {
      assert (a + b)[1..] == a[1..] + b;
      FoldConcat(OnEvent(p, a[0]), a[1..], b);
    }
  }

  function Last(parts: seq<string>): string
    requires parts != []
  {
    parts[|parts| - 1]
  }

  /** Every section of an element overwrites the one before. */
  lemma {:induction false} FoldCDatas(p: Scan, parts: seq<string>)
    requires p.current.Some? && parts != []
    ensures Fold(p, CDatas(parts)) == p.(bag := p.bag[p.current.value := Last(parts)])
    decreases parts
  {
    var q := p.(bag := p.bag[p.current.value := parts[0]]);
    assert CDatas(parts)[1..] == CDatas(parts[1..]);
    if |parts| > 1 {
      FoldCDatas(q, parts[1..]);
      assert q.bag[p.current.value := Last(parts)] == p.bag[p.current.value := Last(parts)];
    }
  }

  function Value(c: Child): string {
    match c
    case Textual(_, text) => Last(Chunks(text))
    case Numeric(_, n) => Decimal(n)
  }

  /** One child adds its entry and leaves no element open. */
  lemma FoldChild(bag: Bag, c: Child)
    requires c.name != "xml" && c.name !in bag
    ensures Fold(Scan(bag, None), ChildEvents(c)) == Scan(bag[c.name := Value(c)], None)
  {
    var p, q := Scan(bag, Some(c.name)), Scan(bag[c.name := Value(c)], Some(c.name));
    var es := ChildEvents(c);
    assert es[1..] == BodyEvents(c) + [End(c.name)];
    assert Fold(p, BodyEvents(c)) == q by {
      match c
      case Textual(_, text) => FoldCDatas(p, Chunks(text));
      case Numeric(_, n) => assert [Text(Decimal(n))][1..] == [];
    }
    FoldConcat(p, BodyEvents(c), [End(c.name)]);
    assert [End(c.name)][1..] == [];
  }

  function Gathered(bag: Bag, cs: seq<Child>): Bag
    decreases cs
  {
    if cs == [] then bag else Gathered(bag[cs[0].name := Value(cs[0])], cs[1..])
  }

  ghost predicate Fresh(bag: Bag, cs: seq<Child>) {
    (forall i :: 0 <= i < |cs| ==> cs[i].name != "xml" && cs[i].name !in bag)
    && forall i, j :: 0 <= i < j < |cs| ==> cs[i].name != cs[j].name
  }

  lemma {:induction false} FoldAll(bag: Bag, cs: seq<Child>)
    requires Fresh(bag, cs)
    ensures Fold(Scan(bag, None), AllEvents(cs)) == Scan(Gathered(bag, cs), None)
    decreases cs
  {
    if cs != [] {
      var bag' := bag[cs[0].name := Value(cs[0])];
      FoldChild(bag, cs[0]);
      FoldConcat(Scan(bag, None), ChildEvents(cs[0]), AllEvents(cs[1..]));
      forall i | 0 <= i < |cs[1..]| ensures cs[1..][i].name != "xml" && cs[1..][i].name !in bag' {
      }
      FoldAll(bag', cs[1..]);
    }
  }

  function NamesOf(cs: seq<Child>): set<string> {
    if cs == [] then {} else {cs[0].name} + NamesOf(cs[1..])
  }

  lemma {:induction false} GatheredIs(bag: Bag, cs: seq<Child>)
    requires Fresh(bag, cs)
    ensures Gathered(bag, cs).Keys == bag.Keys + NamesOf(cs)
    ensures forall k :: k in bag ==> k in Gathered(bag, cs) && Gathered(bag, cs)[k] == bag[k]
    ensures forall i :: 0 <= i < |cs| ==>
              cs[i].name in Gathered(bag, cs) && Gathered(bag, cs)[cs[i].name] == Value(cs[i])
    decreases cs
  {
    if cs != [] {
      var rest := cs[1..];
      var bag' := bag[cs[0].name := Value(cs[0])];
      assert cs[0].name in bag' && bag'[cs[0].name] == Value(cs[0]);
      GatheredIs(bag', rest);
      forall i | 0 <= i < |cs|
        ensures cs[i].name in Gathered(bag, cs) && Gathered(bag, cs)[cs[i].name] == Value(cs[i])
      {
        assert i > 0 ==> rest[i - 1] == cs[i];
      }
    }
  }

  lemma FoldDocument(cs: seq<Child>)
    requires Fresh(map[], cs)
    ensures Fold(Scan(map[], None), [Start("xml")] + (AllEvents(cs) + [End("xml")])).bag == Gathered(map[], cs)
  {
    hide AllEvents;
    var events := [Start("xml")] + (AllEvents(cs) + [End("xml")]);
    assert events[1..] == AllEvents(cs) + [End("xml")];
    FoldAll(map[], cs);
    FoldConcat(Scan(map[], None), AllEvents(cs), [End("xml")]);
    assert [End("xml")][1..] == [];
  }

  /** What comes back: of each text only the part after its last `]]`-before-`>`. */
  lemma TextReplyParses(to: string, from: string, now: nat, content: string)
    ensures Parse(TextReply(to, from, now, content))
            == Ok(InboundXml(Last(Chunks(to)), Last(Chunks(from)), Decimal(now), "text", Some(Last(Chunks(content))),
                             None, None, None, map[]))
  {
    hide *;
    var cs := TextChildren(to, from, now, content);
    TextReplyReads(to, from, now, content);
    ParseIs(TextReply(to, from, now, content), [Start("xml")] + (AllEvents(cs) + [End("xml")]));
    TextNames(to, from, now, content);
    FoldDocument(cs);
    TextBag(to, from, now, content);
  }

  lemma ParseIs(xml: string, events: seq<XmlEvent>)
    requires Tokenize(xml) == Some(events)
    ensures Parse(xml) == Classify(Fold(Scan(map[], None), events).bag)
  {
  }

  lemma TextNames(to: string, from: string, now: nat, content: string)
    ensures Fresh(map[], TextChildren(to, from, now, content))
  {
    assert |"xml"| == 3 && |"ToUserName"| == 10 && |"FromUserName"| == 12 && |"CreateTime"| == 10;
    assert |"MsgType"| == |"Content"| == 7 && "ToUserName"[0] != "CreateTime"[0] && "MsgType"[0] != "Content"[0];
  }

  lemma NoCloseInWord()
    ensures Find("text", "]]>") == None && Chunks("text") == ["text"]
  {
    FindNothing("text", "]]>");
  }

  lemma TextBag(to: string, from: string, now: nat, content: string)
    ensures Classify(Gathered(map[], TextChildren(to, from, now, content)))
            == Ok(InboundXml(Last(Chunks(to)), Last(Chunks(from)), Decimal(now), "text", Some(Last(Chunks(content))),
                             None, None, None, map[]))
  {
    var cs := TextChildren(to, from, now, content);
    var bag := Gathered(map[], cs);
    GatheredIs(map[], cs);
    NoCloseInWord();
    assert bag[cs[0].name] == Value(cs[0]) && bag[cs[1].name] == Value(cs[1]) && bag[cs[2].name] == Value(cs[2])
           && bag[cs[3].name] == Value(cs[3]) && bag[cs[4].name] == Value(cs[4]);
    FiveNames(cs);
    ClassifyFive(bag);
  }

  lemma FiveNames(cs: seq<Child>)
    requires |cs| == 5
    ensures NamesOf(cs) == {cs[0].name, cs[1].name, cs[2].name, cs[3].name, cs[4].name}
  {
    assert NamesOf(cs) == {cs[0].name} + NamesOf(cs[1..]);
    assert NamesOf(cs[1..]) == {cs[1].name} + NamesOf(cs[1..][1..]) && cs[1..][1..] == cs[2..];
    assert NamesOf(cs[2..]) == {cs[2].name} + NamesOf(cs[2..][1..]) && cs[2..][1..] == cs[3..];
    assert NamesOf(cs[3..]) == {cs[3].name} + NamesOf(cs[3..][1..]) && cs[3..][1..] == cs[4..];
    assert NamesOf(cs[4..]) == {cs[4].name} + NamesOf(cs[4..][1..]) && cs[4..][1..] == [];
  }

  lemma ClassifyFive(bag: Bag)
    requires bag.Keys == {"ToUserName", "FromUserName", "CreateTime", "MsgType", "Content"}
    ensures Classify(bag) == Ok(InboundXml(bag["ToUserName"], bag["FromUserName"], bag["CreateTime"], bag["MsgType"],
                                           Some(bag["Content"]), None, None, None, map[]))
  {
    assert bag - KNOWN == map[];
  }

  lemma {:induction false} LastChunkIsWhole(s: string)
    ensures Last(Chunks(s)) == s <==> Find(s, "]]>") == None
    ensures |Last(Chunks(s))| <= |s|
    decreases |s|
  {
    var i := Find(s, "]]>");
    if i.Some? {
      LastChunkIsWhole(s[i.value + 2..]);
      assert Last(Chunks(s)) == Last(Chunks(s[i.value + 2..]));
    }
  }

  /** Reading the reply back gives the three texts exactly when none of them contains `]]>`. */
  lemma TextReplyRoundTrip(to: string, from: string, now: nat, content: string)
    ensures Parse(TextReply(to, from, now, content))
            == Ok(InboundXml(to, from, Decimal(now), "text", Some(content), None, None, None, map[]))
            <==> Find(to, "]]>") == None && Find(from, "]]>") == None && Find(content, "]]>") == None
  {
    TextReplyParses(to, from, now, content);
    LastChunkIsWhole(to);
    LastChunkIsWhole(from);
    LastChunkIsWhole(content);
  }

  // ----- the news reply

  function ItemEvents(a: NewsArticle): seq<XmlEvent> {
    [Start("item")] + (AllEvents(ItemChildren(a)) + [End("item")])
  }

  function ItemsEvents(articles: seq<NewsArticle>): seq<XmlEvent> {
    if articles == [] then [] else ItemEvents(articles[0]) + ItemsEvents(articles[1..])
  }

  lemma ItemIs(a: NewsArticle, rest: string)
    ensures Item(a, rest) == OpenTag("item") + WriteAll(ItemChildren(a), CloseTag("item") + rest)
    ensures ItemEvents(a) == [Start("item")] + (AllEvents(ItemChildren(a)) + [End("item")])
  {
    hide WriteAll;
    hide AllEvents;
  }

  lemma ItemNames(a: NewsArticle)
    ensures IsName("item") && Named(ItemChildren(a))
  {
    ShortNames();
    hide IsName;
  }

  lemma ShortNames()
    ensures IsName("item") && IsName("Title") && IsName("Description") && IsName("PicUrl") && IsName("Url")
  {
  }

  lemma TokenizeItem(a: NewsArticle, rest: string, events: seq<XmlEvent>)
    requires Tokenize(rest) == Some(events)
    ensures Tokenize(Item(a, rest)) == Some(ItemEvents(a) + events)
  {
    hide *;
    var cs := ItemChildren(a);
    ItemIs(a, rest);
    ItemNames(a);
    TokenizeClose("item", rest);
    PrependSome(End("item"), events);
    TokenizeAll(cs, CloseTag("item") + rest, [End("item")] + events);
    TokenizeOpen("item", WriteAll(cs, CloseTag("item") + rest));
    PrependSome(Start("item"), AllEvents(cs) + ([End("item")] + events));
    assert ItemEvents(a) + events == [Start("item")] + (AllEvents(cs) + ([End("item")] + events));
  }

  lemma {:induction false} TokenizeItems(articles: seq<NewsArticle>, rest: string, events: seq<XmlEvent>)
    requires Tokenize(rest) == Some(events)
    ensures Tokenize(Items(articles, rest)) == Some(ItemsEvents(articles) + events)
  {
    hide Tokenize;
    hide Item;
    hide ItemEvents;
    if articles == [] {
      assert ItemsEvents(articles) + events == events;
    } else {
      TokenizeItems(articles[1..], rest, events);
      TokenizeItem(articles[0], Items(articles[1..], rest), ItemsEvents(articles[1..]) + events);
      assert ItemsEvents(articles) + events == ItemEvents(articles[0]) + (ItemsEvents(articles[1..]) + events);
    }
  }

  /** How often an element of the name starts. */
  function Starts(name: string, events: seq<XmlEvent>): nat {
    if events == [] then 0 else (if events[0] == Start(name) then 1 else 0) + Starts(name, events[1..])
  }

  lemma {:induction false} StartsConcat(name: string, a: seq<XmlEvent>, b: seq<XmlEvent>)
    ensures Starts(name, a + b) == Starts(name, a) + Starts(name, b)
  {
    if a == [] {
      assert a + b == b;
    } else {
      assert (a + b)[1..] == a[1..] + b;
      StartsConcat(name, a[1..], b);
    }
  }

  lemma {:induction false} StartsNone(name: string, events: seq<XmlEvent>)
    requires forall i :: 0 <= i < |events| ==> events[i] != Start(name)
    ensures Starts(name, events) == 0
  {
    if events != [] {
      StartsNone(name, events[1..]);
    }
  }

  lemma StartsChild(name: string, c: Child)
    ensures Starts(name, ChildEvents(c)) == if c.name == name then 1 else 0
  {
    var es := ChildEvents(c);
    assert es[1..] == BodyEvents(c) + [End(c.name)];
    StartsNone(name, es[1..]);
  }

  function ChildrenNamed(name: string, cs: seq<Child>): nat {
    if cs == [] then 0 else (if cs[0].name == name then 1 else 0) + ChildrenNamed(name, cs[1..])
  }

  lemma {:induction false} StartsChildren(name: string, cs: seq<Child>)
    ensures Starts(name, AllEvents(cs)) == ChildrenNamed(name, cs)
  {
    if cs != [] {
      StartsChild(name, cs[0]);
      StartsChildren(name, cs[1..]);
      StartsConcat(name, ChildEvents(cs[0]), AllEvents(cs[1..]));
    }
  }

  lemma {:induction false} NoneNamed(name: string, cs: seq<Child>)
    requires forall i :: 0 <= i < |cs| ==> cs[i].name != name
    ensures ChildrenNamed(name, cs) == 0
  {
    if cs != [] {
      NoneNamed(name, cs[1..]);
    }
  }

  lemma OneItem(a: NewsArticle)
    ensures Starts("item", ItemEvents(a)) == 1 && Starts("ArticleCount", ItemEvents(a)) == 0
  {
    var cs := ItemChildren(a);
    ItemLengths();
    forall name | name == "item" || name == "ArticleCount"
      ensures Starts(name, ItemEvents(a)) == if name == "item" then 1 else 0
    {
      NoneNamed(name, cs);
      StartsChildren(name, cs);
      StartsConcat(name, AllEvents(cs), [End("item")]);
      StartsNone(name, [End("item")]);
      assert ItemEvents(a)[1..] == AllEvents(cs) + [End("item")];
    }
  }

  lemma ItemLengths()
    ensures |"item"| == 4 && |"ArticleCount"| == 12
    ensures |"Title"| == 5 && |"Description"| == 11 && |"PicUrl"| == 6 && |"Url"| == 3
  {
  }

  lemma {:induction false} CountInItems(articles: seq<NewsArticle>)
    ensures Starts("item", ItemsEvents(articles)) == |articles| && Starts("ArticleCount", ItemsEvents(articles)) == 0
  {
    if articles != [] {
      hide ItemEvents;
      OneItem(articles[0]);
      CountInItems(articles[1..]);
      StartsConcat("item", ItemEvents(articles[0]), ItemsEvents(articles[1..]));
      StartsConcat("ArticleCount", ItemEvents(articles[0]), ItemsEvents(articles[1..]));
    }
  }

  /** Everything but the opening tag, split before the items. */
  function NewsEvents(to: string, from: string, now: nat, articles: seq<NewsArticle>): seq<XmlEvent> {
    [Start("xml")]
    + (AllEvents(NewsChildren(to, from, now, |articles|))
    + ([Start("Articles")] + (ItemsEvents(articles) + [End("Articles"), End("xml")])))
  }

  lemma TokenizeArticles(articles: seq<NewsArticle>)
    ensures Tokenize(OpenTag("Articles") + Items(articles, NEWS_END))
            == Some([Start("Articles")] + (ItemsEvents(articles) + [End("Articles"), End("xml")]))
  {
    var end := [End("Articles"), End("xml")];
    hide Tokenize;
    hide Items;
    hide ItemsEvents;
    TokenizeLast("xml");
    TokenizeClose("Articles", CloseTag("xml"));
    assert end == [End("Articles")] + [End("xml")];
    TokenizeItems(articles, NEWS_END, end);
    TokenizeOpen("Articles", Items(articles, NEWS_END));
  }

  lemma NewsNames(to: string, from: string, now: nat, articles: seq<NewsArticle>)
    ensures Named(NewsChildren(to, from, now, |articles|)) && IsName("xml")
  {
  }

  lemma NewsReplyIs(to: string, from: string, now: nat, articles: seq<NewsArticle>)
    ensures var cs, rest := NewsChildren(to, from, now, |articles|), OpenTag("Articles") + Items(articles, NEWS_END);
            NewsReply(to, from, now, articles) == OpenTag("xml") + WriteAll(cs, rest)
    ensures var cs, items := NewsChildren(to, from, now, |articles|), ItemsEvents(articles);
            NewsEvents(to, from, now, articles)
            == [Start("xml")] + (AllEvents(cs) + ([Start("Articles")] + (items + [End("Articles"), End("xml")])))
  {
    hide AllEvents;
    hide WriteAll;
  }

  /** A news reply reads as its head, whose ArticleCount is the number of items that follow, and those items. */
  lemma NewsReplyReads(to: string, from: string, now: nat, articles: seq<NewsArticle>)
    ensures Tokenize(NewsReply(to, from, now, articles)) == Some(NewsEvents(to, from, now, articles))
  {
    hide *;
    var cs := NewsChildren(to, from, now, |articles|);
    var rest := OpenTag("Articles") + Items(articles, NEWS_END);
    var events := [Start("Articles")] + (ItemsEvents(articles) + [End("Articles"), End("xml")]);
    NewsNames(to, from, now, articles);
    NewsReplyIs(to, from, now, articles);
    TokenizeArticles(articles);
    TokenizeAll(cs, rest, events);
    TokenizeOpen("xml", WriteAll(cs, rest));
    PrependSome(Start("xml"), AllEvents(cs) + events);
  }

  predicate HasAt(events: seq<XmlEvent>, i: nat, part: seq<XmlEvent>) {
    i + |part| <= |events| && events[i..i + |part|] == part
  }

  /** There is one element of the name, and this is its text. */
  predicate Says(events: seq<XmlEvent>, name: string, text: string) {
    Starts(name, events) == 1 && exists i: nat | i <= |events| :: HasAt(events, i, [Start(name), Text(text), End(name)])
  }

  lemma HeadLengths()
    ensures |"ToUserName"| == 10 && |"FromUserName"| == 12 && |"CreateTime"| == 10 && |"MsgType"| == 7
    ensures |"item"| == 4 && |"ArticleCount"| == 12 && "FromUserName"[0] != "ArticleCount"[0]
  {
  }

  lemma {:induction false} NamedByLast(name: string, cs: seq<Child>)
    requires cs != [] && forall i :: 0 <= i < |cs| - 1 ==> cs[i].name != name
    ensures ChildrenNamed(name, cs) == if cs[|cs| - 1].name == name then 1 else 0
  {
    if |cs| > 1 {
      NamedByLast(name, cs[1..]);
    } else {
      assert cs[1..] == [];
    }
  }

  lemma HeadOfNews(to: string, from: string, now: nat, count: nat)
    ensures var cs := NewsChildren(to, from, now, count);
            |cs| == 5 && ChildEvents(cs[4]) == [Start("ArticleCount"), Text(Decimal(count)), End("ArticleCount")]
    ensures ChildrenNamed("item", NewsChildren(to, from, now, count)) == 0
    ensures ChildrenNamed("ArticleCount", NewsChildren(to, from, now, count)) == 1
  {
    var cs := NewsChildren(to, from, now, count);
    HeadLengths();
    NamedByLast("item", cs);
    NamedByLast("ArticleCount", cs);
  }

  lemma AllEventsCons(cs: seq<Child>)
    requires cs != []
    ensures AllEvents(cs) == ChildEvents(cs[0]) + AllEvents(cs[1..])
  {
  }

  /** The last child comes last. */
  lemma {:induction false} LastChild(cs: seq<Child>)
    requires cs != []
    ensures AllEvents(cs) == AllEvents(cs[..|cs| - 1]) + ChildEvents(cs[|cs| - 1])
  {
    hide ChildEvents;
    AllEventsCons(cs);
    if |cs| == 1 {
      assert cs[1..] == [] && cs[..0] == [];
    } else {
      var init := cs[..|cs| - 1];
      LastChild(cs[1..]);
      AllEventsCons(init);
      assert cs[1..][..|cs| - 2] == init[1..];
    }
  }

  lemma StartsFive(name: string, a: seq<XmlEvent>, b: seq<XmlEvent>, c: seq<XmlEvent>, d: seq<XmlEvent>,
                   e: seq<XmlEvent>)
    ensures Starts(name, a + (b + (c + (d + e))))
            == Starts(name, a) + Starts(name, b) + Starts(name, c) + Starts(name, d) + Starts(name, e)
  {
    hide Starts;
    StartsConcat(name, d, e);
    StartsConcat(name, c, d + e);
    StartsConcat(name, b, c + (d + e));
    StartsConcat(name, a, b + (c + (d + e)));
  }

  lemma FrameStarts(name: string)
    requires name == "item" || name == "ArticleCount"
    ensures Starts(name, [Start("xml")]) == 0 && Starts(name, [Start("Articles")]) == 0
    ensures Starts(name, [End("Articles"), End("xml")]) == 0
  {
    assert |"xml"| == 3 && |"Articles"| == 8 && |"item"| == 4 && |"ArticleCount"| == 12;
    StartsNone(name, [Start("xml")]);
    StartsNone(name, [Start("Articles")]);
    StartsNone(name, [End("Articles"), End("xml")]);
  }

  lemma CountSaid(to: string, from: string, now: nat, articles: seq<NewsArticle>)
    ensures var cs := NewsChildren(to, from, now, |articles|);
            Starts("item", NewsEvents(to, from, now, articles)) == |articles|
            && Starts("ArticleCount", NewsEvents(to, from, now, articles)) == 1
  {
    var cs := NewsChildren(to, from, now, |articles|);
    HeadOfNews(to, from, now, |articles|);
    hide NewsChildren;
    hide Starts;
    hide AllEvents;
    hide ItemsEvents;
    CountInItems(articles);
    forall name | name == "item" || name == "ArticleCount"
      ensures Starts(name, NewsEvents(to, from, now, articles))
              == Starts(name, ItemsEvents(articles)) + ChildrenNamed(name, cs)
    {
      StartsChildren(name, cs);
      FrameStarts(name);
      StartsFive(name, [Start("xml")], AllEvents(cs), [Start("Articles")], ItemsEvents(articles),
                 [End("Articles"), End("xml")]);
    }
  }

  lemma StandsThere(a: seq<XmlEvent>, part: seq<XmlEvent>, rest: seq<XmlEvent>)
    ensures HasAt(a + part + rest, |a|, part)
  {
    assert (a + part + rest)[|a|..|a| + |part|] == part;
  }

  lemma LastStands(first: XmlEvent, cs: seq<Child>, rest: seq<XmlEvent>) returns (i: nat)
    requires cs != []
    ensures i <= |[first] + (AllEvents(cs) + rest)|
    ensures HasAt([first] + (AllEvents(cs) + rest), i, ChildEvents(cs[|cs| - 1]))
  {
    hide *;
    var a, last := [first] + AllEvents(cs[..|cs| - 1]), ChildEvents(cs[|cs| - 1]);
    i := |a|;
    LastChild(cs);
    StandsThere(a, last, rest);
    assert [first] + (AllEvents(cs) + rest) == a + last + rest;
  }

  lemma CountStands(to: string, from: string, now: nat, articles: seq<NewsArticle>)
    ensures Says(NewsEvents(to, from, now, articles), "ArticleCount", Decimal(|articles|))
  {
    var cs := NewsChildren(to, from, now, |articles|);
    CountSaid(to, from, now, articles);
    HeadOfNews(to, from, now, |articles|);
    hide NewsChildren;
    hide ChildEvents;
    hide AllEvents;
    hide ItemsEvents;
    hide Starts;
    hide HasAt;
    hide Decimal;
    var i := LastStands(Start("xml"), cs,
                        [Start("Articles")] + (ItemsEvents(articles) + [End("Articles"), End("xml")]));
  }

  /** Whatever its texts are, the reply reads as one ArticleCount, whose text is the number of its items. */
  lemma NewsReplyCounts(to: string, from: string, now: nat, articles: seq<NewsArticle>)
    ensures var read := Tokenize(NewsReply(to, from, now, articles));
            read.Some? && Starts("item", read.value) == |articles|
            && Says(read.value, "ArticleCount", Decimal(|articles|))
  {
    hide *;
    NewsReplyReads(to, from, now, articles);
    CountSaid(to, from, now, articles);
    CountStands(to, from, now, articles);
  }
}
