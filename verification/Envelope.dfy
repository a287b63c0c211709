/** handler.rs: the text around an encrypted reply, and the reader that takes the encrypted part out of a request. */
module Envelope {
  import opened Wrappers
  import opened Bytes
  import opened TextUtil
  import Base64
  import Crypto
  import Utf8
  import XmlMessage

  datatype Fault = NoTags | Malformed | Inverted | NotDecrypted(failure: Crypto.Failure)

  const OPEN := "<Encrypt>"
  const OPEN_WITH_ATTRIBUTES := "<Encrypt "
  const CDATA_OPEN := XmlMessage.CDATA_OPEN
  const CDATA_CLOSE := XmlMessage.CDATA_CLOSE
  const CLOSE := "</Encrypt>"

  /** The text between the two markers when both are there, the text itself otherwise. */
  function Stripped(s: string): string {
    if |s| >= 12 && OccursAt(s, 0, CDATA_OPEN) && OccursAt(s, |s| - 3, CDATA_CLOSE) then s[9..|s| - 3] else s
  }

  function Extract(xml: string): Result<string, Fault> {
    var open := if Find(xml, OPEN).Some? then Find(xml, OPEN) else Find(xml, OPEN_WITH_ATTRIBUTES);
    var close := Find(xml, CLOSE);
    if open == None || close == None then Err(NoTags)
    else
      match FindFrom(xml, ">", open.value)
      case None => Err(Malformed)
      case Some(end) =>
        if end + 1 > close.value then Err(Inverted)
        else Ok(Trim(Stripped(Trim(xml[end + 1..close.value]))))
  }

  function Head(): string {
    "<xml>" + OPEN + CDATA_OPEN
  }

  function Tail(signature: string, timestamp: string, nonce: string): string {
    "<MsgSignature><![CDATA[" + signature + "]]></MsgSignature><TimeStamp>" + timestamp
    + "</TimeStamp><Nonce><![CDATA[" + nonce + "]]></Nonce></xml>"
  }

  function Wrap(encrypt: string, signature: string, timestamp: string, nonce: string): string {
    Head() + (encrypt + (CDATA_CLOSE + (CLOSE + Tail(signature, timestamp, nonce))))
  }

  /** The envelope as the source's format string has it: four elements in this order. */
  lemma EnvelopeSpelledOut(encrypt: string, signature: string, timestamp: string, nonce: string)
    ensures Wrap(encrypt, signature, timestamp, nonce)
            == "<xml>"
               + (XmlMessage.Spelled("Encrypt", "<![CDATA[" + (encrypt + "]]>"))
               + (XmlMessage.Spelled("MsgSignature", "<![CDATA[" + (signature + "]]>"))
               + (XmlMessage.Spelled("TimeStamp", timestamp)
               + (XmlMessage.Spelled("Nonce", "<![CDATA[" + (nonce + "]]>"))
               + "</xml>"))))
  {
    EncryptSpelledOut(encrypt, Tail(signature, timestamp, nonce));
    TailSpelledOut(signature, timestamp, nonce);
    hide XmlMessage.Spelled;
    hide Tail;
    hide Head;
  }

  lemma EncryptSpelledOut(encrypt: string, tail: string)
    ensures Head() + (encrypt + (CDATA_CLOSE + (CLOSE + tail)))
            == "<xml>" + (XmlMessage.Spelled("Encrypt", "<![CDATA[" + (encrypt + "]]>")) + tail)
  {
    assert Head() == "<xml><Encrypt><![CDATA[" && "<" + "Encrypt" + ">" == OPEN && "</" + "Encrypt" + ">" == CLOSE;
  }

  lemma TailSpelledOut(signature: string, timestamp: string, nonce: string)
    ensures Tail(signature, timestamp, nonce)
            == XmlMessage.Spelled("MsgSignature", "<![CDATA[" + (signature + "]]>"))
               + (XmlMessage.Spelled("TimeStamp", timestamp)
               + (XmlMessage.Spelled("Nonce", "<![CDATA[" + (nonce + "]]>"))
               + "</xml>"))
  {
    Literals();
    LastLiterals();
    SectionSpelled("MsgSignature", signature);
    SectionSpelled("Nonce", nonce);
    var o, e := "<" + "MsgSignature" + "><![CDATA[", "]]></" + "MsgSignature" + ">";
    var p, q := "<TimeStamp>", "</TimeStamp>";
    var r, d := "<" + "Nonce" + "><![CDATA[", "]]></" + "Nonce" + ">";
    Interleaved(o, signature, e, p, timestamp, q, r, nonce, d, "</xml>");
  }

  lemma Literals()
    ensures "<" + "MsgSignature" + "><![CDATA[" == "<MsgSignature><![CDATA["
    ensures "]]></" + "MsgSignature" + ">" + "<TimeStamp>" == "]]></MsgSignature><TimeStamp>"
  {
  }

  lemma LastLiterals()
    ensures "</TimeStamp>" + ("<" + "Nonce" + "><![CDATA[") == "</TimeStamp><Nonce><![CDATA["
    ensures "]]></" + "Nonce" + ">" + "</xml>" == "]]></Nonce></xml>"
    ensures "<" + "TimeStamp" + ">" == "<TimeStamp>" && "</" + "TimeStamp" + ">" == "</TimeStamp>"
  {
  }

  lemma SectionSpelled(name: string, text: string)
    ensures XmlMessage.Spelled(name, "<![CDATA[" + (text + "]]>"))
            == ("<" + name + "><![CDATA[") + text + ("]]></" + name + ">")
  {
  }

  lemma Interleaved(o: string, s: string, e: string, p: string, t: string, q: string, r: string, n: string, d: string,
                    x: string)
    ensures o + s + (e + p) + t + (q + r) + n + (d + x) == (o + s + e) + ((p + t + q) + ((r + n + d) + x))
  {
    var a, b, c := o + s + e, p + t + q, r + n + d;
    assert o + s + (e + p) + t + (q + r) == a + b + r;
    assert a + b + r + n + (d + x) == (a + b) + (c + x);
  }

  // ----- reading what was written

  lemma OccursWithin(s: string, t: string, before: string, after: string, i: int, pat: string)
    requires s == before + (t + after)
    ensures |before| <= i <= |before| + |t| - |pat| ==> (OccursAt(s, i, pat) <==> OccursAt(t, i - |before|, pat))
  {
    if |before| <= i <= |before| + |t| - |pat| {
      var j := i - |before|;
      assert s[i..i + |pat|] == t[j..j + |pat|];
    }
  }

  lemma HeadHasNoClose(rest: string, j: int)
    requires 0 <= j < |Head()|
    ensures !OccursAt(Head() + rest, j, CLOSE)
  {
    var s := Head() + rest;
    assert Head() == "<xml><Encrypt><![CDATA[";
    Differs(s, j, CLOSE, if s[j] == '<' then 1 else 0);
  }

  /** The end tag comes where it was written unless the text holds one of its own. */
  lemma CloseIsFound(e: string, tail: string)
    requires Find(e, CLOSE) == None
    ensures Find(Head() + (e + (CDATA_CLOSE + (CLOSE + tail))), CLOSE) == Some(|Head()| + |e| + 3)
  {
    var s := Head() + (e + (CDATA_CLOSE + (CLOSE + tail)));
    var n := |Head()| + |e|;
    FindSpec(e, CLOSE);
    assert s[n + 3..n + 3 + |CLOSE|] == CLOSE;
    forall j | 0 <= j < n + 3 ensures !OccursAt(s, j, CLOSE) {
      if j < |Head()| {
        HeadHasNoClose(e + (CDATA_CLOSE + (CLOSE + tail)), j);
      } else if j <= n - |CLOSE| {
        OccursWithin(s, e, Head(), CDATA_CLOSE + (CLOSE + tail), j, CLOSE);
      } else if j < n {
        assert s[n] == ']';
        Differs(s, j, CLOSE, n - j);
      } else {
        assert s[j] == CDATA_CLOSE[j - n];
        Differs(s, j, CLOSE, 0);
      }
    }
    FindIs(s, CLOSE, n + 3);
  }

  lemma OpenIsFound(rest: string)
    ensures var s := Head() + rest;
            Find(s, OPEN) == Some(5) && FindFrom(s, ">", 5) == Some(13)
  {
    var s := Head() + rest;
    assert Head() == "<xml><Encrypt><![CDATA[";
    assert s[5..14] == OPEN;
    forall j | 0 <= j < 5 ensures !OccursAt(s, j, OPEN) {
      Differs(s, j, OPEN, if s[j] == '<' then 1 else 0);
    }
    FindIs(s, OPEN, 5);
    OpenIsClosed(rest);
  }

  lemma OpenIsClosed(rest: string)
    ensures FindFrom(Head() + rest, ">", 5) == Some(13)
  {
    var s := Head() + rest;
    assert Head() == "<xml><Encrypt><![CDATA[";
    FindFromSpec(s, ">", 5);
    hide FindFrom;
    assert s[13..14] == ">";
    assert OccursAt(s, 13, ">");
    forall j | 5 <= j < 13 ensures !OccursAt(s, j, ">") {
      Differs(s, j, ">", 0);
    }
  }

  lemma TrimIsIdle(s: string)
    requires s == "" || (!IsWhite(s[0]) && !IsWhite(s[|s| - 1]))
    ensures Trim(s) == s
  {
  }

  lemma {:induction false} TrimShortens(s: string)
    ensures |TrimStart(s)| <= |s| && |TrimEnd(s)| <= |s|
    decreases |s|
  {
    if s != "" {
      TrimShortens(s[1..]);
      TrimShortens(s[..|s| - 1]);
    }
  }

  lemma ExtractedIs(s: string, close: nat)
    requires Find(s, OPEN) == Some(5) && FindFrom(s, ">", 5) == Some(13) && Find(s, CLOSE) == Some(close)
    ensures close + 10 <= |s|
    ensures Extract(s) == if 14 > close then Err(Inverted) else Ok(Trim(Stripped(Trim(s[14..close]))))
  {
  }

  lemma SectionIsStripped(e: string)
    ensures var inner := CDATA_OPEN + (e + CDATA_CLOSE); Trim(inner) == inner && Stripped(inner) == e
  {
    var inner := CDATA_OPEN + (e + CDATA_CLOSE);
    TrimIsIdle(inner);
    assert inner[0..9] == CDATA_OPEN && inner[|inner| - 3..|inner| - 3 + 3] == CDATA_CLOSE;
    assert inner[9..|inner| - 3] == e;
  }

  lemma SectionIs(e: string, signature: string, timestamp: string, nonce: string)
    ensures var (s, n) := (Wrap(e, signature, timestamp, nonce), |Head()| + |e| + 3);
            n <= |s| && s[14..n] == CDATA_OPEN + (e + CDATA_CLOSE)
  {
    var tail := Tail(signature, timestamp, nonce);
    hide Tail;
    var inner := CDATA_OPEN + (e + CDATA_CLOSE);
    assert Wrap(e, signature, timestamp, nonce) == ("<xml><Encrypt>" + inner) + (CLOSE + tail);
    assert ("<xml><Encrypt>" + inner)[14..] == inner;
  }

  lemma CleanExtracted(e: string, signature: string, timestamp: string, nonce: string)
    requires Find(e, CLOSE) == None
    ensures Extract(Wrap(e, signature, timestamp, nonce)) == Ok(Trim(e))
  {
    CloseIsFound(e, Tail(signature, timestamp, nonce));
    OpenIsFound(e + (CDATA_CLOSE + (CLOSE + Tail(signature, timestamp, nonce))));
    SectionIs(e, signature, timestamp, nonce);
    SectionIsStripped(e);
    var s, n := Wrap(e, signature, timestamp, nonce), |Head()| + |e| + 3;
    assert s == Head() + (e + (CDATA_CLOSE + (CLOSE + Tail(signature, timestamp, nonce))));
    hide *;
    assert Find(s, OPEN) == Some(5) && FindFrom(s, ">", 5) == Some(13) && Find(s, CLOSE) == Some(n);
    ExtractedIs(s, n);
    assert n >= 14;
  }

  /** With an end tag inside, what is extracted is shorter than what was wrapped. */
  lemma CutExtracted(e: string, signature: string, timestamp: string, nonce: string)
    requires Find(e, CLOSE).Some?
    ensures Extract(Wrap(e, signature, timestamp, nonce)) != Ok(e)
  {
    var tail := Tail(signature, timestamp, nonce);
    var s := Wrap(e, signature, timestamp, nonce);
    hide Tail;
    OpenIsFound(e + (CDATA_CLOSE + (CLOSE + tail)));
    var i := Find(e, CLOSE).value;
    FindSpec(e, CLOSE);
    assert s == Head() + (e + (CDATA_CLOSE + (CLOSE + tail)));
    OccursWithin(s, e, Head(), CDATA_CLOSE + (CLOSE + tail), |Head()| + i, CLOSE);
    FindSpec(s, CLOSE);
    hide FindFrom;
    var close := Find(s, CLOSE).value;
    assert close <= |Head()| + i;
    hide Find;
    ExtractedIs(s, close);
    if close >= 14 {
      var inner := s[14..close];
      hide Extract;
      TrimShortens(inner);
      TrimShortens(TrimStart(inner));
      hide TrimStart;
      hide TrimEnd;
      var stripped := Stripped(Trim(inner));
      TrimShortens(stripped);
      TrimShortens(TrimStart(stripped));
      assert |Trim(stripped)| <= 9 + i < |e|;
    }
  }

  /** A text comes back out of its envelope exactly when it holds no end tag and has no white space at its ends. */
  lemma ExtractWrap(e: string, signature: string, timestamp: string, nonce: string)
    ensures Extract(Wrap(e, signature, timestamp, nonce)) == Ok(e) <==> Find(e, CLOSE) == None && Trim(e) == e
  {
    hide Extract;
    hide Wrap;
    hide Find;
    if Find(e, CLOSE) == None {
      CleanExtracted(e, signature, timestamp, nonce);
    } else {
      CutExtracted(e, signature, timestamp, nonce);
    }
  }

  lemma SymbolsAreClean(e: string)
    requires forall i :: 0 <= i < |e| ==> Base64.IsSymbol(e[i])
    ensures Find(e, CLOSE) == None && Trim(e) == e
  {
    assert !Base64.IsSymbol('<');
    FindNothing(e, CLOSE);
    if e != "" {
      SymbolIsNotWhite(e[0]);
      SymbolIsNotWhite(e[|e| - 1]);
    }
    TrimIsIdle(e);
  }

  lemma SymbolIsNotWhite(c: char)
    requires Base64.IsSymbol(c)
    ensures !IsWhite(c)
  {
  }

  // ----- other requests

  predicate Has(s: string, pat: string) {
    exists i | 0 <= i <= |s| :: OccursAt(s, i, pat)
  }

  lemma HasMeansFound(s: string, pat: string)
    ensures Has(s, pat) <==> Find(s, pat).Some?
  {
    FindSpec(s, pat);
  }

  /** There is no element to read exactly when both forms of the start tag are missing, or the end tag is. */
  lemma NoTagsExactly(xml: string)
    ensures Extract(xml) == Err(NoTags)
            <==> (!Has(xml, "<Encrypt>") && !Has(xml, "<Encrypt ")) || !Has(xml, "</Encrypt>")
  {
    HasMeansFound(xml, OPEN);
    HasMeansFound(xml, OPEN_WITH_ATTRIBUTES);
    HasMeansFound(xml, CLOSE);
    hide Find;
    hide FindFrom;
    hide Has;
    hide Trim;
    hide Stripped;
  }

  /** A start tag, with or without attributes. */
  predicate StartTag(tag: string) {
    tag == "<Encrypt>"
    || (|tag| > 10 && tag[..9] == "<Encrypt " && tag[|tag| - 1] == '>' && '>' !in tag[..|tag| - 1])
  }

  /** The tag is the first of the text: of the plain form, or of the other when there is no plain one. */
  predicate FirstTag(xml: string, tag: string, i: nat) {
    if tag == "<Encrypt>" then Find(xml, "<Encrypt>") == Some(i)
    else Find(xml, "<Encrypt>") == None && Find(xml, "<Encrypt ") == Some(i)
  }

  lemma TagEnds(before: string, tag: string, rest: string)
    requires StartTag(tag)
    ensures FindFrom(before + (tag + rest), ">", |before|) == Some(|before| + |tag| - 1)
  {
    var s, n := before + (tag + rest), |before| + |tag| - 1;
    assert "<Encrypt>" == ['<', 'E', 'n', 'c', 'r', 'y', 'p', 't', '>'];
    assert s[n..n + 1] == ">";
    assert OccursAt(s, n, ">");
    forall j | |before| <= j < n ensures !OccursAt(s, j, ">") {
      assert s[j] == tag[j - |before|] == tag[..|tag| - 1][j - |before|];
      Differs(s, j, ">", 0);
    }
    FindFromSpec(s, ">", |before|);
  }

  lemma ExtractOf(xml: string, i: nat, end: nat, close: nat)
    requires Find(xml, CLOSE) == Some(close)
    requires Find(xml, OPEN) == Some(i) || (Find(xml, OPEN) == None && Find(xml, OPEN_WITH_ATTRIBUTES) == Some(i))
    requires i <= |xml| && FindFrom(xml, ">", i) == Some(end) && end < close <= |xml|
    ensures Extract(xml) == Ok(Trim(Stripped(Trim(xml[end + 1..close]))))
  {
  }

  /** What is read is what stands between the first start tag and the first end tag, without outer white space, and
      without a section around it. */
  lemma ElementIsExtracted(before: string, tag: string, inner: string, after: string)
    requires StartTag(tag)
    requires FirstTag(before + (tag + (inner + (CLOSE + after))), tag, |before|)
    requires Find(before + (tag + (inner + (CLOSE + after))), CLOSE) == Some(|before| + |tag| + |inner|)
    ensures var xml := before + (tag + (inner + (CLOSE + after)));
            (forall e :: Trim(inner) == "<![CDATA[" + (e + "]]>") ==> Extract(xml) == Ok(Trim(e)))
            && ((forall e :: Trim(inner) != "<![CDATA[" + (e + "]]>")) ==> Extract(xml) == Ok(Trim(inner)))
  {
    var xml := before + (tag + (inner + (CLOSE + after)));
    var i, close := |before|, |before| + |tag| + |inner|;
    hide StartTag;
    hide FindFrom;
    hide Trim;
    hide Extract;
    hide Stripped;
    TagEnds(before, tag, inner + (CLOSE + after));
    TagIsLong(tag);
    Middle(before, tag, inner, CLOSE + after);
    ExtractOf(xml, i, i + |tag| - 1, close);
    StrippedExactly(Trim(inner));
    TrimTwice(inner);
  }

  lemma TagIsLong(tag: string)
    requires StartTag(tag)
    ensures |tag| > 0
  {
  }

  lemma Middle(before: string, tag: string, inner: string, rest: string)
    ensures (before + (tag + (inner + rest)))[|before| + |tag|..|before| + |tag| + |inner|] == inner
  {
  }

  lemma {:induction false} TrimStartClean(s: string)
    ensures TrimStart(s) != "" ==> !IsWhite(TrimStart(s)[0])
  {
    if s != "" && IsWhite(s[0]) {
      TrimStartClean(s[1..]);
    }
  }

  lemma {:induction false} TrimEndClean(s: string)
    ensures TrimEnd(s) != "" ==> !IsWhite(TrimEnd(s)[|TrimEnd(s)| - 1]) && TrimEnd(s)[0] == s[0]
  {
    if s != "" && IsWhite(s[|s| - 1]) {
      TrimEndClean(s[..|s| - 1]);
    }
  }

  lemma TrimTwice(s: string)
    ensures Trim(Trim(s)) == Trim(s)
  {
    TrimStartClean(s);
    TrimEndClean(TrimStart(s));
    TrimIsIdle(Trim(s));
  }

  lemma StrippedExactly(s: string)
    ensures forall e :: s == "<![CDATA[" + (e + "]]>") ==> Stripped(s) == e
    ensures (forall e :: s != "<![CDATA[" + (e + "]]>")) ==> Stripped(s) == s
  {
    forall e | s == "<![CDATA[" + (e + "]]>") ensures Stripped(s) == e {
      SectionIsStripped(e);
    }
    if Stripped(s) != s {
      assert s == "<![CDATA[" + (s[9..|s| - 3] + "]]>");
    }
  }

  // ----- the whole chain

  /** What a request says: the encrypted part is taken out of the text, and decrypted. */
  function Read(dec: Crypto.BlockMap, iv: Crypto.Block, text: string, appId: string): Result<string, Fault> {
    match Extract(text)
    case Err(fault) => Err(fault)
    case Ok(b64) =>
      match Crypto.Decrypt(dec, iv, b64, appId)
      case Err(failure) => Err(NotDecrypted(failure))
      case Ok(xml) => Ok(xml)
  }

  /** A reply that is framed, padded, chained, written in base64 and wrapped reads back as itself, exactly when its
      length in UTF-8 fits the 32-bit length field. */
  lemma ReadWrapped(enc: Crypto.BlockMap, dec: Crypto.BlockMap, iv: Crypto.Block, prefix: seq<byte>, xml: string,
                    appId: string, signature: string, timestamp: string, nonce: string)
    requires Crypto.IsCipher(enc, dec) && |prefix| == 16
    ensures var e := Crypto.Encrypt(enc, iv, prefix, xml, appId);
            Read(dec, iv, Wrap(e, signature, timestamp, nonce), appId) == Ok(xml)
            <==> |Utf8.Encode(xml)| < Crypto.U32_MODULUS
  {
    var e := Crypto.Encrypt(enc, iv, prefix, xml, appId);
    Base64.EncodeUsesSymbols(Crypto.CbcEncrypt(enc, iv, Crypto.Pad(Crypto.Frame(prefix, xml, appId))));
    SymbolsAreClean(e);
    hide Crypto.Encrypt;
    hide Crypto.Decrypt;
    hide Extract;
    hide Find;
    ExtractWrap(e, signature, timestamp, nonce);
    Crypto.RoundTrip(enc, dec, iv, prefix, xml, appId);
  }

  /** A request reads as a message exactly when its encrypted part is an encryption of that message. */
  lemma ReadsExactly(enc: Crypto.BlockMap, dec: Crypto.BlockMap, iv: Crypto.Block, text: string, xml: string,
                     appId: string)
    requires Crypto.IsCipher(enc, dec)
    ensures Read(dec, iv, text, appId) == Ok(xml)
            <==> |Utf8.Encode(xml)| < Crypto.U32_MODULUS
                 && exists prefix: seq<byte> ::
                      |prefix| == 16 && Extract(text) == Ok(Crypto.Encrypt(enc, iv, prefix, xml, appId))
  {
    hide Extract;
    hide Crypto.Encrypt;
    hide Crypto.Decrypt;
    if Extract(text).Ok? {
      Crypto.DecryptsExactly(enc, dec, iv, Extract(text).value, xml, appId);
    }
  }
}
