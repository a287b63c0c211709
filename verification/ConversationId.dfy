/** The stable per-fan conversation id (handler.rs) and the classifier's one-shot id (ai.rs). */
module ConversationId {
  import opened TextUtil

  const MAX_CID_LEN := 256

  predicate Whitelisted(c: char) {
    AlphanumericCode(c as int) || c == '_' || c == '-'
  }

  predicate AllWhitelisted(s: string) {
    forall i :: 0 <= i < |s| ==> Whitelisted(s[i])
  }

  function Sanitize(s: string): (r: string)
    ensures |r| == |s| && AllWhitelisted(r)
    ensures forall i :: 0 <= i < |s| ==> r[i] == if Whitelisted(s[i]) then s[i] else '_'
  {
    seq(|s|, i requires 0 <= i < |s| => if Whitelisted(s[i]) then s[i] else '_')
  }

  function FullCid(appId: string, fromUser: string): string {
    "wx-" + Sanitize(appId) + "-" + Sanitize(fromUser)
  }

  function FanCid(appId: string, fromUser: string): string {
    var cid := FullCid(appId, fromUser);
    if |cid| > MAX_CID_LEN then cid[..MAX_CID_LEN] else cid
  }

  function EphemeralCid(nanos: nat): string {
    "_ephemeral_ic-" + Decimal(nanos)
  }

  /** `sanitize`: pushes one character per input character. */
  method PushSanitized(s: string, out: string) returns (grown: string)
    ensures grown == out + Sanitize(s)
  {
    grown := out;
    for i := 0 to |s|
      invariant grown == out + Sanitize(s)[..i]
    {
      if Whitelisted(s[i]) {
        grown := grown + [s[i]];
      } else {
        grown := grown + ['_'];
      }
    }
  }

  /** `build_conversation_id`. */
  method BuildConversationId(appId: string, fromUser: string) returns (cid: string)
    ensures cid == FanCid(appId, fromUser)
    ensures |cid| <= MAX_CID_LEN && AllWhitelisted(cid)
  {
    cid := "wx-";
    cid := PushSanitized(appId, cid);
    cid := cid + ['-'];
    cid := PushSanitized(fromUser, cid);
    assert cid == FullCid(appId, fromUser);
    if |cid| > MAX_CID_LEN {
      cid := cid[..MAX_CID_LEN];
    }
    FanCidShape(appId, fromUser);
  }

  lemma FanCidShape(appId: string, fromUser: string)
    ensures 4 <= |FanCid(appId, fromUser)| <= MAX_CID_LEN
    ensures AllWhitelisted(FanCid(appId, fromUser))
    ensures FanCid(appId, fromUser)[..3] == "wx-"
  {
    var cid := FullCid(appId, fromUser);
    assert cid[..3] == "wx-";
    forall i | 0 <= i < |cid| ensures Whitelisted(cid[i]) {
      if i >= 3 && i < 3 + |appId| {
        assert cid[i] == Sanitize(appId)[i - 3];
      } else if i > 3 + |appId| {
        assert cid[i] == Sanitize(fromUser)[i - 4 - |appId|];
      }
    }
  }

  lemma SanitizeIdentity(s: string)
    requires AllWhitelisted(s)
    ensures Sanitize(s) == s
  {
  }

  /** The openids a deployment can tell apart: over the whitelist, and short enough for the cap. */
  predicate Distinguishable(appId: string, fromUser: string) {
    AllWhitelisted(fromUser) && 4 + |appId| + |fromUser| <= MAX_CID_LEN
  }

  lemma FanCidInjective(appId: string, a: string, b: string)
    requires Distinguishable(appId, a) && Distinguishable(appId, b)
    requires FanCid(appId, a) == FanCid(appId, b)
    ensures a == b
  {
    SanitizeIdentity(a);
    SanitizeIdentity(b);
    assert FanCid(appId, a)[4 + |appId|..] == a;
    assert FanCid(appId, b)[4 + |appId|..] == b;
  }

  /** Under the cap the id reads as its two parts: the application id, a hyphen, the fan. */
  lemma FanCidReads(appId: string, fromUser: string)
    requires AllWhitelisted(appId) && Distinguishable(appId, fromUser)
    ensures var cid, n := FanCid(appId, fromUser), 3 + |appId|;
            |cid| == n + 1 + |fromUser| && cid[..3] == "wx-" && cid[3..n] == appId && cid[n] == '-'
            && cid[n + 1..] == fromUser
  {
    SanitizeIdentity(appId);
    SanitizeIdentity(fromUser);
    assert FanCid(appId, fromUser) == "wx-" + appId + "-" + fromUser;
  }

  // ----- which fans share a conversation

  /** How many characters of a sender the cap leaves. */
  function Room(appId: string): nat {
    if 4 + |appId| < MAX_CID_LEN then MAX_CID_LEN - 4 - |appId| else 0
  }

  predicate Underscored(c: char) {
    !Whitelisted(c) || c == '_'
  }

  /** Equal characters, or two that both become an underscore. */
  predicate SameCharacter(c: char, d: char) {
    c == d || (Underscored(c) && Underscored(d))
  }

  /** Both senders reach position `i`, with characters that look the same there, or neither does. */
  predicate SameAt(a: string, b: string, i: nat) {
    (i < |a| <==> i < |b|) && (i < |a| && i < |b| ==> SameCharacter(a[i], b[i]))
  }

  /** What is left of a sender after the cap. */
  function CidTail(appId: string, fromUser: string): (r: string)
    ensures |r| == if |fromUser| < Room(appId) then |fromUser| else Room(appId)
    ensures forall i :: 0 <= i < |r| ==> r[i] == if Whitelisted(fromUser[i]) then fromUser[i] else '_'
  {
    if |fromUser| < Room(appId) then Sanitize(fromUser) else Sanitize(fromUser)[..Room(appId)]
  }

  lemma FanCidEndsInTail(appId: string, fromUser: string)
    ensures FanCid(appId, fromUser) == FanCid(appId, "") + CidTail(appId, fromUser)
  {
    var head := FullCid(appId, "");
    assert FullCid(appId, fromUser) == head + Sanitize(fromUser);
    assert |head| == 4 + |appId|;
  }

  lemma SameTails(appId: string, a: string, b: string)
    ensures CidTail(appId, a) == CidTail(appId, b) <==> forall i: nat | i < Room(appId) :: SameAt(a, b, i)
  {
    var x, y, room := CidTail(appId, a), CidTail(appId, b), Room(appId);
    if x == y {
      forall i: nat | i < room ensures SameAt(a, b, i) {
        if i < |x| {
          assert x[i] == y[i];
        }
      }
    }
    if forall i: nat | i < room :: SameAt(a, b, i) {
      var m := if |a| < |b| then |a| else |b|;
      assert m < room ==> SameAt(a, b, m);
      forall i | 0 <= i < |x| ensures x[i] == y[i] {
        assert SameAt(a, b, i);
      }
    }
  }

  /** Two senders share a conversation exactly when, as far as the cap lets them show, they are as long as each other
      and their characters are equal or both become underscores. */
  lemma FanCidCollisions(appId: string, a: string, b: string)
    ensures FanCid(appId, a) == FanCid(appId, b) <==> forall i: nat | i < Room(appId) :: SameAt(a, b, i)
  {
    FanCidEndsInTail(appId, a);
    FanCidEndsInTail(appId, b);
    SameTails(appId, a, b);
    var n := |FanCid(appId, "")|;
    assert FanCid(appId, a)[n..] == CidTail(appId, a) && FanCid(appId, b)[n..] == CidTail(appId, b);
  }

  /** Two openids that differ in a character outside the whitelist share a conversation. */
  lemma DotIsUnderscore(appId: string)
    ensures FanCid(appId, "a.b") == FanCid(appId, "a_b")
  {
    forall i: nat | i < Room(appId) ensures SameAt("a.b", "a_b", i) {
    }
    FanCidCollisions(appId, "a.b", "a_b");
  }

  /** An application id that leaves no room puts every fan into one conversation. */
  lemma NoRoomForFans(appId: string, a: string, b: string)
    requires 4 + |appId| >= MAX_CID_LEN
    ensures FanCid(appId, a) == FanCid(appId, b)
  {
    FanCidCollisions(appId, a, b);
  }

  lemma EphemeralInjective(m: nat, n: nat)
    requires EphemeralCid(m) == EphemeralCid(n)
    ensures m == n
  {
    DecimalRoundTrip(m);
    DecimalRoundTrip(n);
    assert EphemeralCid(m)[14..] == Decimal(m);
    assert EphemeralCid(n)[14..] == Decimal(n);
  }

  lemma FanNeverEphemeral(appId: string, fromUser: string, n: nat)
    ensures FanCid(appId, fromUser) != EphemeralCid(n)
  {
    FanCidShape(appId, fromUser);
    assert FanCid(appId, fromUser)[0] == FanCid(appId, fromUser)[..3][0] == 'w';
    assert EphemeralCid(n)[0] == '_';
  }
}
