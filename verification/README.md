# Verified model of the WeChat channel plugin

The plugin answers messages of WeChat fans by asking long-running EvoClaw subprocesses. This project models the parts
of it whose correctness is spread over several files, and proves what they promise.

**The request protocol.** `Protocol` is a transition system: any number of request tasks, the table of per-conversation
locks with its sweep, the reply cache with its sweep, bridges with their pending maps and reader tasks, a clock, and a
subprocess that may write any line at any time or die. Its steps are built from the functions that `Serialization`,
`ReplyCache` and `BridgeLink` prove their in-place classes against. `ProtocolLocks`, `ProtocolAsks` and `ProtocolCache`
hold the inductive invariants, `ProtocolRuns` what they mean over every run, `ProtocolStranded` what the exit of a
subprocess does to waiting asks, `ProtocolReplies` which text a fan gets and where it comes from, `ProtocolProgress`
that no request is ever stuck and how all of them end, and `ProtocolWitness` runs in which a fan gets the late answer
to the message before, and in which an ask is stranded.
`BridgeLink.Bridge` and `Serialization.ConvSerializer` are the objects of `src/bridge.rs` and `src/conv_serializer.rs`;
their `WriteFailed` and `DropHandle` are the in-place forms of what `Protocol.WriteFailsMid` does to a bridge and of the
`Serialization.Dropped` in `Protocol.LetGoStep`.

**The bridge pool.** `PoolWalk` is one checkout on its own, with the wrapping 64-bit counter; `PoolRuns` is a second
transition system, in which checkouts, deaths and respawns overlap freely; `PoolErrors` says what an error of a checkout
means there.

**Texts.** `JsonScan` and `JsonGrammar`: the brace scanner against the JSON grammar. `XmlMessage`: replies and their
readers, `XmlInbound` what a message is parsed to. `Utf8`, `Base64`, `Crypto` and `Envelope`: the chain from a reply
to its encrypted envelope and back, around an abstract block cipher. `TitleTemplate`, `CardTitle` and `DateRepair`: a chain of replacements against filling in a
template at once. `WordMatch`: the byte scan for dictionary words against words of a text.

**Caches.** `ReplayGuard` (nonces), `Digest` (the snapshot cache) and `DigestQuery` (queries and date ranges).

Times are integers, nanoseconds unless said otherwise. Characters are Unicode scalar values, as in Rust. Arithmetic is
that of the release build, which has no overflow checks: 32-bit and 64-bit counters wrap. The random prefix of a frame,
clock readings, the outcome of a spawn, and what the file system and the subprocess do are inputs.

Where the code and its own words disagree, the model follows the code:

- `src/bridge.rs:11-14` describes a fresh conversation id per request; ids are stable per fan
  (`src/wechat/handler.rs:113-142`). So a late answer to a question that timed out can be handed to the next question
  of the same fan on the same bridge. The comment at `src/bridge.rs:215-219` covers only the case in which nobody waits.
  `ProtocolRuns.StaleAnswersExactly` says exactly when this can happen, `ProtocolWitness.StaleAnswerHappens` shows it
  happening, `ProtocolRuns.AnswersAreFresh` says when it cannot.
- `src/digest_cache.rs:171-175` promises no snapshot once the file is older than the limit. The age is looked at only
  when files are loaded, so a held snapshot is served however old it gets (`Digest.CacheIsTransparentExactly`,
  `Digest.StaleIsServed`). Files are also reloaded when their mtime went back, not only when it advanced.
- `src/digest_cache.rs:405-406` speaks of walking to Saturday; from Monday to Friday the range starts today
  (`DigestQuery.WeekendStartsToday`).
- `src/bridge.rs:21-24` promises that all waiting asks fail fast when the subprocess exits. An ask that registers after
  the reader has cleared the map does not (`ProtocolStranded.StrandedExactly`).
- `src/bridge.rs:451-453` promises an error only when every slot is dead and every respawn failed. A checkout that
  reports an error has visited every slot except exactly those whose turns during its walk were all taken by others
  (`PoolErrors.SlotIsMissedExactly`); such a slot can be live (`PoolErrors.ErrorWhileASlotIsLive`), and without others
  there is none (`PoolErrors.LoneErrorMeansEverySlotFailed`). The cooldown between spawns is kept except exactly as
  `PoolRuns.EarlySpawnsExactly` says.
- `src/wechat/router.rs:85-87` calls the order of the replacements irrelevant because no value holds another
  placeholder. That reason is not enough: two values can make a placeholder out of the text between them
  (`CardTitle.TitleDependsOnOrder`). `CardTitle.OrderIsIrrelevantExactly` gives the exact condition.
- `src/intent/dict.rs:44-46` drops date tags whose names are no dates, and such a tag hides those after it
  (`WordMatch.DateSurvivesExactly`).
- `src/wechat/xml.rs:60-64` keeps only the last CDATA section of an element, so `parse_inbound` gives a reply back
  exactly when none of its texts contains `]]>` (`XmlMessage.TextReplyRoundTrip`). A reader that joins adjacent
  sections, as section 2.7 of XML 1.0 says, always gives the text back (`XmlMessage.EscapeRoundTrip`).
- `src/wechat/handler.rs:132-136` expects the cap of 256 never to join two fans; `ConversationId.FanCidCollisions`
  says exactly which fans share an id.

## Model

| member | source | states |
|---|---|---|
| ConversationId.BuildConversationId | src/wechat/handler.rs:113-142 | pushing characters one by one yields the specified id, at most 256 characters, all of them letters, digits, `_` or `-` |
| ConversationId.FanCidInjective | src/wechat/handler.rs:105-142 | for one app id, whitelisted openids that fit under the cap have different conversation ids |
| ConversationId.FanCidReads | src/wechat/handler.rs:113-142 | under the cap, whitelisted parts stand in the id as they are: `wx-`, the application id, a hyphen, the fan |
| ConversationId.FanCidCollisions | src/wechat/handler.rs:113-142 | any two openids share an id if and only if, at every position the cap leaves, both or neither of them have a character and the characters are equal or both become underscores |
| ConversationId.DotIsUnderscore | src/wechat/handler.rs:114-122 | openids that differ only in a character outside the whitelist share an id |
| ConversationId.NoRoomForFans | src/wechat/handler.rs:128-140 | an app id that leaves no room under the cap gives every fan the same id |
| ConversationId.EphemeralInjective | src/intent/ai.rs:121-129 | classifier ids with different time stamps are different |
| ConversationId.FanNeverEphemeral | src/intent/ai.rs:121-129 | no fan's conversation id is a classifier id |
| Serialization.ConvSerializer.Acquire | src/conv_serializer.rs:51-59 | hands out the lock of the conversation, creating it on first use, counts one more handle and stamps the entry with the second clock reading |
| Serialization.ConvSerializer.Gc | src/conv_serializer.rs:61-76 | every conversation somebody else has a handle on still leads to the same lock, with the same count; exactly the entries stay that somebody else holds or that were used during the idle time; the number that went is returned |
| Serialization.SweepKeepsHeldLocks | src/conv_serializer.rs:23-25 | a sweep with any cutoff leaves a held conversation its lock and the lock its count |
| ProtocolLocks.MutualExclusion | src/conv_serializer.rs:5-12 | under the lock invariant two tasks inside the critical section of one conversation are one task |
| ProtocolLocks.StepKeepsLocks | src/conv_serializer.rs:61-76 | every step of the protocol, the sweep and cancellation included, keeps: all handles of a conversation are on the lock in the table, and its count is one plus their number |
| ProtocolRuns.OneTaskPerConversation | src/wechat/handler.rs:299-309 | in every state of every run one task at most works on a conversation, and every handle is on the very lock the table holds, whose count is right |
| ProtocolRuns.SweepsForgetIdleOnes | src/conv_serializer.rs:61-76 | a sweep in any run forgets a conversation if and only if no request has a handle on its lock and nobody asked for it during the idle time |
| ProtocolRuns.OneConversationPerFan | src/wechat/handler.rs:105-142 | in every run requests share a conversation if and only if they come from the same fan, for openids the id tells apart |
| BridgeLink.Bridge.Dispatch | src/bridge.rs:194-221 | a line goes to the ask registered under its id, if there is one, a second line under that id to nobody, and lines under other ids to whom they would have gone before |
| BridgeLink.Bridge.DropGuard | src/bridge.rs:102-116 | afterwards a line under the guard's id reaches nobody, and a line under any other id reaches the ask it would have reached before |
| ProtocolAsks.RegisterFindsNoEntry | src/bridge.rs:288-301 | inserting into the pending map never displaces the sender of another ask |
| ProtocolAsks.FairMeansOwnOrOrphan | src/bridge.rs:201-220 | a first answer to a line of this conversation on this bridge answers the ask that waits there or an earlier one given up unanswered |
| ProtocolAsks.StepKeepsAsks | src/bridge.rs:284-351 | every step keeps: entries belong to the one waiting ask of their id, at most one ask per id is in flight, and mail comes from the right bridge under the right id |
| ProtocolRuns.PendingEntriesAreOwned | src/bridge.rs:288-310 | in every run each pending entry belongs to exactly one ask in flight, the one under its id; with no ask in flight on a bridge its map is empty |
| ProtocolRuns.EntriesLeaveForTheirOwnReasons | src/bridge.rs:102-116 | an entry leaves a map only because its own ask ends, because its ask is handed a line under its id, or because the reader's exit clears the map |
| ProtocolRuns.AnswersBelongToTheConversation | src/bridge.rs:194-214 | over all runs what an ask returns was written by its own bridge's subprocess under its own id, and becomes the text of that fan's reply |
| ProtocolRuns.AnswersAreFresh | src/bridge.rs:293-350 | if lines are answered at most once each and no earlier ask of the conversation on the bridge was given up unanswered, an ask returns the answer to its own line |
| ProtocolRuns.StaleAnswersExactly | src/bridge.rs:214-220 | a waiting ask can be handed an honest answer that is not its own if and only if an earlier ask of its conversation on its bridge was given up and is still unanswered |
| ProtocolWitness.StaleAnswerHappens | src/bridge.rs:214-220 | a run from start-up in which the second message of a fan is about to return the answer to the first |
| ProtocolStranded.SendersAreLostToTheDrainOnly | src/bridge.rs:228-235 | the error for a vanished sender only comes after the reader has cleared the map |
| ProtocolStranded.StrandedExactly | src/bridge.rs:21-24 | over all runs: once the reader is gone, a registered ask without an answer is left in the map if and only if it registered after the reader had cleared it; every other one fails as soon as its line is written |
| ProtocolStranded.RegisteredSomewhere | src/bridge.rs:284-310 | every registered ask of a run has one step at which it registered |
| ProtocolStranded.StrandedAsksWaitForTheTimeout | src/bridge.rs:285-349 | an ask in the map of a bridge whose reader is gone stays there through the rest of any run, until a write error, its caller's timeout or cancellation ends it |
| ProtocolWitness.StrandedAskHappens | src/bridge.rs:228-301 | a run in which an ask finds its bridge alive and registers after the reader has cleared the map |
| ProtocolProgress.MoverMoves | src/conv_serializer.rs:5-12 | under the invariants of all runs, every unfinished request, or the one that has the lock it waits for, has an action it can take uncancelled |
| ProtocolProgress.OnlyFinishedRequestsRest | src/wechat/handler.rs:299-309 | under the same invariants, no deadlock over lock, ask and drain: requests have something to do if and only if one of them is unfinished |
| ProtocolProgress.OwnActionsAreBounded | src/wechat/handler.rs:299-418 | over all runs a request takes at most 16 actions of its own, whatever the others, the subprocesses and the sweeps do, and what it has taken and still has before it never exceed that |
| ProtocolProgress.EveryRequestEnds | src/bridge.rs:285-351 | from every state of every run, with no help from subprocess, reader or clock: in whatever order the requests act they take at most 16 actions each, and they can always go on until every one is finished, uncancelled |
| ReplyCache.ReplyStore.LookupCachedReply | src/wechat/handler.rs:509-514 | hits exactly when the key was stored less than a lifetime ago; the prune changes no lookup from now on |
| ReplyCache.ReplyStore.StoreReply | src/wechat/handler.rs:516-528 | lookups of the key find the text until a lifetime after the second clock reading and nothing after that; lookups of other keys from now on find what they would have found |
| ReplyCache.ReplyStore.GcReplies | src/wechat/handler.rs:530-554 | the sweep changes no lookup from now on, and leaves nothing a lookup now would not find |
| ReplyCache.CacheKeyInjective | src/wechat/handler.rs:380-382 | for senders without a colon equal cache keys mean equal senders and equal messages |
| ReplyCache.CacheKeyCollides | src/wechat/handler.rs:380-382 | a request shares its key with one of another sender if and only if a colon stands in the sender, or in the message id before its last character |
| ProtocolRuns.RetriesGetTheFirstReply | src/wechat/handler.rs:373-418 | over all runs with colon-free senders: two computed replies to one message are separated by the lifetime, every lookup in between gets the first text, hits repeat a stored text, and no store overwrites an entry |
| ProtocolReplies.AskEndsWith | src/wechat/handler.rs:440-467 | an ask ends exactly with a line, a lost sender, a timeout, a write error or a bridge found dead; a fan's ask then leaves its line if some character of it is no white space, and the fallback in every other case, whole if it fits the limit and otherwise cut to one character less and an ellipsis |
| ProtocolReplies.DecidedStays | src/wechat/handler.rs:299-328 | in every run, a reply that is decided is the same in every later state, until its request is done and after |
| ProtocolReplies.DecidedSomewhere | src/wechat/handler.rs:384-417 | in every run, every decided reply was decided by a hit in the cache with that text, by the text that was stored, by a news reply or by cancellation |
| ProtocolReplies.StoresDecide | src/wechat/handler.rs:412-417 | in every run, the text a request stores is what it ends with in every later state |
| ProtocolReplies.HitsDecide | src/wechat/handler.rs:384-389 | in every run, what a lookup finds is what its request ends with in every later state, and after a lookup that finds nothing the request goes on to its first decision |
| ProtocolReplies.RetriesEndAlike | src/wechat/handler.rs:384-417 | over all runs with colon-free senders: when one request stores its reply and another one with the same sender and message id looks it up less than the lifetime later, both end with the same text in every later state |
| ProtocolReplies.NoIdNoCache | src/wechat/handler.rs:380-417 | in every run, a request without a message id or with an empty one looks nothing up in the cache and leaves nothing there |
| ProtocolReplies.EveryTextWasMade | src/wechat/handler.rs:373-467 | over all runs with colon-free senders: whatever text a request ends with was made at some step for a request with the same sender and message id, by the router or by the end of a fan's ask, from a line that says something or else the fallback, and cut to the limit |
| PoolWalk.BridgePool.Checkout | src/bridge.rs:454-505 | the walk over at most 2n rounds ends at the first round that does not fail, with that round's bridge and pool, or fails in all of them |
| PoolWalk.EverySlotComesUp | src/bridge.rs:457-461 | for every number of slots and every counter value, the 2n rounds visit every slot, even when the counter wraps |
| PoolWalk.EverySlotComesUpTwice | src/bridge.rs:457-461 | when the counter does not wrap every slot comes up in exactly two rounds, n apart |
| PoolWalk.ErrorMeansEverySlotFailed | src/bridge.rs:451-461 | in a walk no other checkout interleaves with, an error means that every slot was found dead and was skipped for the cooldown or not respawned |
| PoolErrors.ErrorMeansEveryPickFailed | src/bridge.rs:459-498 | however checkouts overlap, an error means that each of the 2n rounds came to a slot, found it dead, and skipped it for the cooldown or failed to respawn it |
| PoolErrors.VisitedExactly | src/bridge.rs:457-498 | under any overlap, a checkout that ends in an error failed at a slot in one of its rounds if and only if it took, during its walk, a turn of the shared counter that falls on that slot |
| PoolErrors.SlotIsMissedExactly | src/bridge.rs:451-461 | under any overlap, every slot has a turn of the counter during the walk, and the error leaves a slot out if and only if other checkouts took every turn of it |
| PoolErrors.LoneErrorMeansEverySlotFailed | src/bridge.rs:451-453 | hence, when no other checkout takes a turn during the walk, an error means that every slot was visited and failed like that |
| PoolErrors.BeganSomewhere | src/bridge.rs:454-457 | every checkout of a run has one begin before it, so that each has its walk |
| PoolErrors.ErrorWhileASlotIsLive | src/bridge.rs:451-461 | a run in which a checkout of two slots reports an error while one of them is live, because others took the turns of that slot |
| PoolWalk.SuccessMeansLiveOrNew | src/bridge.rs:463-490 | a bridge that is handed out was seen alive in its slot or was just spawned into it, and no other slot changed |
| PoolWalk.SpawnsWithinAWalkAreSpaced | src/bridge.rs:471-496 | within one walk a spawn comes at least the cooldown after every failed one before it |
| PoolRuns.DeathIsFinal | src/bridge.rs:21-24 | over all runs a bridge that is dead stays dead |
| PoolRuns.LiveBridgesAreNeverReplaced | src/bridge.rs:478-490 | a slot only changes from a dead bridge to a live one, by the task that has its write lock |
| PoolRuns.RespawnsFollowDeaths | src/bridge.rs:478-490 | per slot, respawns equal deaths while the slot is live and are one fewer while it is dead |
| PoolRuns.CheckoutsReturnLiveBridges | src/bridge.rs:463-490 | over all runs, whatever bridge a checkout has returned stood in a slot, alive, at the step that returned it |
| PoolRuns.CheckoutsEndExactly | src/bridge.rs:457-505 | in every run a checkout ends with the live bridge it comes to or with the new one it put into its slot, and without a bridge if and only if it walked its 2n rounds or was given up |
| PoolRuns.EarlySpawnsExactly | src/bridge.rs:471-486 | under any overlap, a spawn starts within the cooldown of the last failure if and only if some spawn failed after its own cooldown test and less than the cooldown before it starts |
| PoolRuns.OwnTestExists | src/bridge.rs:471-486 | every spawn of a run has a cooldown test of its own before it |
| PoolRuns.SpawnsAreSpaced | src/bridge.rs:435-449 | if no checkout overlaps with the stretch from its cooldown test to its start, a spawn starts at least the cooldown after the last failed one |
| PoolRuns.OverlappingSpawnsAreNotSpaced | src/bridge.rs:474-482 | a run in which a spawn starts at the very moment another one failed, because the cooldown is read before the write lock |
| ReplayGuard.NonceCache.CheckReplay | src/wechat/handler.rs:485-503 | accepts exactly a numeric timestamp in the window with a nonce not accepted less than 300 seconds ago; then no check with that nonce is accepted for 300 seconds; a rejection adds no nonce; checks with other nonces get the verdict they would have got |
| ReplayGuard.NonceCache.GcNonces | src/wechat/handler.rs:530-563 | the sweep changes no verdict from now on, and leaves only nonces younger than the window |
| ReplayGuard.WindowExactly | src/wechat/handler.rs:490-494 | the wrapping test is the intended 300 second window, except for the one timestamp whose distance has no 64-bit absolute value |
| ReplayGuard.AcceptancesAreSpaced | src/wechat/handler.rs:495-502 | over any run with sweeps two acceptances of one nonce are at least 300 seconds apart on the monotonic clock |
| ReplayGuard.AcceptedAtMostThrice | src/wechat/handler.rs:475-503 | when both clocks advance together and no check waits for the cache longer than 299 seconds after reading the wall clock, no timestamp and nonce are accepted four times |
| ReplayGuard.AcceptedThrice | src/wechat/handler.rs:475-503 | three acceptances are possible |
| ReplayGuard.AcceptedFourTimes | src/wechat/handler.rs:491-496 | for every longer wait, four are |
| ReplayGuard.FourAcceptancesExactly | src/wechat/handler.rs:475-503 | no run accepts a timestamp and nonce four times if and only if no check waits longer than 299 seconds between its clocks |
| JsonScan.ExtractJson | src/intent/ai.rs:176-201 | the byte loop with its three variables returns what the recursive scanner specifies |
| JsonScan.SliceIsBalanced | src/intent/ai.rs:173-175 | a slice of any length starts at the first brace and leaves the scanner at its start again; its depth is positive on every proper prefix if and only if the true depth never reaches 2^31 there |
| JsonScan.NothingExtracted | src/intent/ai.rs:173-200 | the scan finds nothing if and only if no position closes the depth to zero |
| JsonGrammar.ObjectIsExtracted | src/intent/ai.rs:173-201 | every object of sections 4 to 7 of RFC 8259, after any text without an opening brace and before any text, is cut out exactly, if and only if it nests at most 2^32 braces deep |
| XmlMessage.EscapeRoundTrip | src/wechat/xml.rs:174-179 | a reader that joins adjacent sections gives every escaped text back, overlapping `]]]>>` and trailing `]` included |
| XmlMessage.TextReplySpelledOut | src/wechat/xml.rs:101-116 | the reply is the document of the source, letter by letter, around the escaped texts |
| XmlMessage.TextReplyReads | src/wechat/xml.rs:101-116 | whatever its three texts are, the reply reads as exactly its five elements in order |
| XmlMessage.ParseEvents | src/wechat/xml.rs:43-97 | the event loop and the field extraction compute the specified fold and classification |
| XmlMessage.TextReplyRoundTrip | src/wechat/xml.rs:40-116 | parsing a reply gives its three texts and an empty rest if and only if none of them contains `]]>` |
| XmlInbound.MessageIsParsed | src/wechat/xml.rs:40-96 | for every message of differently named elements with section or plain text, white space between them: it is accepted if and only if the four required elements say something, and otherwise the first missing one is named; each of the eight fields is the text of the element of its own name or absent, and the rest is exactly what the other elements say |
| XmlMessage.BuildNewsReply | src/wechat/xml.rs:142-172 | appending one item per article writes the specified document |
| XmlMessage.NewsReplySpelledOut | src/wechat/xml.rs:142-172 | the news reply is the document of the source, letter by letter, around its items |
| XmlMessage.ItemSpelledOut | src/wechat/xml.rs:142-172 | each item has the title, the description, the picture and the link of its article, in this order |
| XmlMessage.NewsReplyReads | src/wechat/xml.rs:142-172 | a news reply reads as its head, its items and its end, whatever the texts are |
| XmlMessage.NewsReplyCounts | src/wechat/xml.rs:165-170 | whatever its texts are, the reply reads as one ArticleCount, whose text is the number of articles, and as that many items |
| Utf8.DecodeEncode | src/wechat/crypto.rs:90-95 | decoding the bytes of any text gives the text |
| Utf8.Examples | src/wechat/crypto.rs:106 | two examples of section 7 of RFC 3629 |
| Utf8.EncodeDecode | src/wechat/crypto.rs:90-95 | bytes that decode are the encoding of what they decode to; overlong forms and surrogates are refused |
| Base64.DecodeEncode | src/wechat/crypto.rs:118 | decoding the base64 of any bytes gives the bytes |
| Base64.SymbolsListed | src/wechat/crypto.rs:118 | the alphabet is that of table 1 of RFC 4648 |
| Base64.TestVectors | src/wechat/crypto.rs:118 | two test vectors of section 10 of RFC 4648 |
| Base64.EncodeDecode | src/wechat/crypto.rs:57-59 | a text that decodes is the base64 of what it decodes to |
| Crypto.DecryptUndoesEncrypt | src/wechat/crypto.rs:115-117 | block chaining over any block permutation is undone by the reverse chaining |
| Crypto.EncryptUndoesDecrypt | src/wechat/crypto.rs:66-71 | and the other way round |
| Crypto.XorIsBitwise | src/wechat/crypto.rs:66-71 | a bit of a chained byte is set if and only if the two bits differ |
| Crypto.BitsDetermine | src/wechat/crypto.rs:66-71 | a byte is its eight bits, so that the row before fixes it |
| Crypto.EveryBlockEncrypted | src/wechat/crypto.rs:115-117 | the equations of section 6.2 of NIST SP 800-38A: every ciphertext block is the cipher of the plaintext block exclusive or the ciphertext block before it, the first one exclusive or the initialization vector |
| Crypto.EveryBlockDecrypted | src/wechat/crypto.rs:66-71 | and every plaintext block is the inverse cipher of the ciphertext block exclusive or the one before it |
| Crypto.CiphertextUnderKey | src/wechat/crypto.rs:105-119 | what goes out is base64 of such a chain over the padded frame, which starts from the first 16 bytes of the key |
| Crypto.RoundTripUnderKey | src/wechat/crypto.rs:54-119 | under one key, decrypting an encrypted message gives the message if and only if its length fits the 32-bit field |
| Crypto.DecryptInPlace | src/wechat/crypto.rs:68-71 | decrypting the buffer where it is, block by block, gives the specified plaintext |
| Crypto.UnpadPad | src/wechat/crypto.rs:117 | removing the padding of any plaintext gives the plaintext |
| Crypto.PadUnpad | src/wechat/crypto.rs:69-71 | a padding that is accepted is the padding of what is left |
| Crypto.BuildFrame | src/wechat/crypto.rs:104-114 | the byte vector extended piece by piece opens to the message again if and only if its length fits the 32-bit field |
| Crypto.BigEndianIs | src/wechat/crypto.rs:109 | the most significant byte of the length comes first |
| Crypto.OpenedIsFrame | src/wechat/crypto.rs:72-101 | a plaintext that is accepted is 16 bytes, the big-endian length, the message and the application id, and nothing else |
| Crypto.RoundTrip | src/wechat/crypto.rs:54-119 | decrypting an encrypted message gives the message if and only if its UTF-8 length fits the 32-bit field |
| Crypto.DecryptsExactly | src/wechat/crypto.rs:54-119 | a text decrypts to a message if and only if it is an encryption of it under some random prefix |
| Crypto.AesKeysExactly | src/wechat/crypto.rs:32-52 | the accepted configured keys are exactly the unpadded base64 forms of 32 bytes |
| TextUtil.WhitesListed | src/wechat/handler.rs:600-607 | the characters that are trimmed are the 25 of Unicode's White_Space property |
| Envelope.ExtractWrap | src/wechat/handler.rs:590-629 | a text comes back out of its envelope if and only if it holds no end tag and has no white space at its ends |
| Envelope.EnvelopeSpelledOut | src/wechat/handler.rs:611-629 | the envelope is the document of the source, letter by letter, around its four texts |
| Envelope.NoTagsExactly | src/wechat/handler.rs:590-596 | there is nothing to read if and only if both forms of the start tag are missing or the end tag is |
| Envelope.ElementIsExtracted | src/wechat/handler.rs:590-608 | of any request, with or without attributes in the tag, what is read is the text between the first start tag and the first end tag, without outer white space and without a section around it |
| Envelope.ReadWrapped | src/wechat/handler.rs:590-629 | a framed, padded, chained, encoded and wrapped reply reads back as itself if and only if its length fits the 32-bit field |
| Envelope.ReadsExactly | src/wechat/handler.rs:590-608 | a request reads as a message if and only if its encrypted part is an encryption of that message |
| TitleTemplate.ReplaceIsSubstituted | src/wechat/router.rs:94-111 | among values of any text that neither hold nor make its placeholder, a replacement touches exactly the placeholders of its name |
| TitleTemplate.ChainFills | src/wechat/router.rs:94-111 | a chain fills in every template at once when no value holds or makes a placeholder that is replaced after it |
| CardTitle.SimultaneousExactly | src/wechat/router.rs:85-87 | for any keys and any values: every order fills in every template at once if and only if, for each key that does not stand for itself, no other value holds its placeholder and no two make it |
| CardTitle.OrderIsIrrelevantExactly | src/wechat/router.rs:85-87 | all orders of the replacements agree on every template if and only if the values are like that |
| CardTitle.TitleIsSimultaneous | src/wechat/router.rs:84-112 | with country and city that neither hold nor make a later placeholder, and any date label, the title is its template with every placeholder filled in at once |
| CardTitle.TitleIsSimultaneousExactly | src/wechat/router.rs:84-112 | whatever the country and the city are: the title is filled in at once for every template and date label if and only if they are like that |
| CardTitle.TitleWithDateExactly | src/wechat/router.rs:84-112 | for one date label, when the country is clear for the city: every template is filled in at once if and only if country and city are clear for the date or the date label stands for itself |
| DateRepair.DateRepairsCity | src/wechat/router.rs:94-111 | a country that holds the city's placeholder, a city and a date label with which every template is filled in at once all the same |
| CardTitle.OneKindOfBraceIsSafe | src/wechat/router.rs:84-112 | labels without opening braces are like that, and so are labels without closing braces |
| CardTitle.TitleInAnyOrder | src/wechat/router.rs:85-87 | with values that are safe in every order, the title is what any order of the four replacements gives |
| CardTitle.TitleDependsOnOrder | src/wechat/router.rs:85-87 | two labels without placeholders for which the date label is the whole title in one order and missing in another |
| WordMatch.WordMatches | src/intent/dict.rs:74-98 | the window scan over UTF-8 bytes is true if and only if the word occurs among the characters with no ASCII letter or digit beside it, or, for other scripts, occurs at all |
| TextUtil.AlphanumericsListed | src/intent/dict.rs:69-73 | what counts as a letter or digit beside a word is one of the 62 ASCII ones |
| WordMatch.BytesHaveWord | src/intent/dict.rs:69-73 | an ASCII word stands alone among the characters if and only if it stands alone among the bytes |
| WordMatch.PickTagIsFirst | src/intent/dict.rs:100-108 | the tag picked is the first one of the configuration with a word in the text |
| WordMatch.PickTagFindsOne | src/intent/dict.rs:100-108 | none is picked if and only if no tag has a word in the text |
| WordMatch.ClassifiedExactly | src/intent/dict.rs:25-56 | a message is Help if and only if a help word matches, unclassified if and only if neither a help word nor an action word does, and otherwise Events, in which country, city, category and time each have the name of the first tag of their own list with a word in the text, and the date is the one that the first date tag names |
| WordMatch.DateNamesExactly | src/intent/mod.rs:78-87 | a name is a date if and only if it is one of the seven names, with its letters in either case |
| WordMatch.ClassificationSurvives | src/intent/dict.rs:25-56 | text added with spaces on either side keeps Help; unless a help word came in it keeps Events with country, city, category and time still filled, and the date too, except exactly when an earlier date tag came in whose name is no date |
| WordMatch.DateSurvivesExactly | src/intent/dict.rs:44-46 | the date is lost if and only if an earlier date tag came in whose name does not parse |
| WordMatch.ParsedDatesSurvive | src/intent/mod.rs:75-87 | when every name of a date tag parses, the date survives |
| WordMatch.DateIsLost | src/intent/dict.rs:44-46 | a dictionary and a message that loses its date to an added word |
| Digest.DigestCache.TakeSnapshot | src/digest_cache.rs:176-240 | a call changes the remembered pair and returns a snapshot as specified: hit, load, version, age |
| Digest.UncachedExactly | src/digest_cache.rs:176-240 | a load gives the files if and only if the feature is on, both files say version 1, and the meta file is less than a second past the limit |
| Digest.ReturnedWasLoaded | src/digest_cache.rs:176-240 | over any run, what is returned was read from files of the mtime seen now, is of the schema version, and was within the age limit when read |
| Digest.ReturnedIsOnDisk | src/digest_cache.rs:167-169 | when the mtime determines the files, what is returned equals what the files hold now |
| Digest.CacheIsTransparentExactly | src/digest_cache.rs:171-197 | the cached answer equals that of a fresh load if and only if it is not a hit on files past the age limit |
| Digest.StaleIsServed | src/digest_cache.rs:171-197 | a run in which a snapshot is returned long after the limit |
| Digest.FailuresKeepTheCache | src/digest_cache.rs:198-240 | a call that returns nothing leaves the remembered pair unchanged, and a hit needs neither files nor clock |
| DigestQuery.QueryIsFirstMatches | src/digest_cache.rs:278-292 | a query returns the first matching events in digest order, as many as the limit allows |
| DigestQuery.FilterTable | src/digest_cache.rs:306-389 | country, city and category are strict, the time of day forgives events without one, and dates match when a day is shared, or when an event ends before it starts and reaches into the range from both sides |
| DigestQuery.DaysAsked | src/digest_cache.rs:391-427 | which days each date word stands for: today, tomorrow, the week of today, the days from today on and the weekend of that week, or no limit |
| DigestQuery.DatesPassExactly | src/digest_cache.rs:355-389 | an event with two dates passes if and only if it starts no later than the range ends and ends no earlier than it begins; one with a single date if that day is in the range; one without dates never |
| DigestQuery.DateTestExactly | src/digest_cache.rs:377-387 | the interval test is a shared day, except exactly for events that end before they start and reach into the range from both sides |
| DigestQuery.WeekIsAnchored | src/digest_cache.rs:420-426 | the week has today in it, starts on a Monday and ends on a Sunday |
| DigestQuery.WeekendStartsToday | src/digest_cache.rs:403-419 | the weekend ends on this week's Sunday, and is Saturday and Sunday if and only if today is one of them |
| DigestQuery.AnswersNest | src/digest_cache.rs:396-427 | on every weekday, without a limit, today's events are a subsequence of the weekend's, and those of the week's |

## Left out

- Process spawning, pipes, kill on drop, stderr capture, tracing, server start-up, routing and configuration files: a subprocess is a step relation on lines, a spawn a success or a failure, and configuration checks are preconditions.
- Bridges in the request protocol: there a checkout hands out any bridge that exists, dead or alive, which allows more than the pool does; the pool is a model of its own.
- Malformed and empty lines of a subprocess change nothing and are not steps; a write is one step that succeeds or fails, and a failed write may or may not have reached the subprocess.
- A timeout while a line is being written leaves part of it in the pipe, in front of the next ask's line; in the model a timeout comes before or after the line, not within it.
- PoolWalk.ErrorMeansEverySlotFailed: one checkout on its own; PoolErrors.SlotIsMissedExactly says what becomes of it under overlap.
- A timeout may come at any moment: its length is not part of the model. The lock is handed to any waiting task, not in order of arrival.
- Uniqueness of the classifier's time stamps is an assumption: two classifications in one nanosecond are not modelled.
- ProtocolRuns.RetriesGetTheFirstReply: for senders with a colon nothing is claimed; ReplyCache.CacheKeyCollides says when keys of different senders meet.
- ProtocolRuns.OneConversationPerFan: requires openids that the id tells apart, ConversationId.FanCidCollisions says which others share a conversation.
- ReplayGuard.AcceptedAtMostThrice: assumes a wall clock that shows whole seconds of the monotonic clock plus a constant.
- CardTitle.TitleWithDateExactly: for one fixed date label it requires a country that is clear for the city; without that the condition is not exact, since a date label can repair what the city broke in every template (DateRepair.DateRepairsCity). CardTitle.TitleIsSimultaneousExactly asks nothing and speaks of every date label.
- Poisoned mutexes: the branches add cases and no behaviour.
- The reader of XML knows element tags with names of letters, digits and underscores (XmlMessage.NameCharsListed), text and CDATA, no attributes, comments, declarations or entities, and does not match end tags; quick-xml and serde_json are not part of this model, nor is the signature of a request.
- AES is an arbitrary permutation of blocks with its inverse; peers that pad to 32 bytes are not modelled.
- Reading and parsing digest files and dates: a visit shows the parsed files or nothing, a date is a day number or absent. Calls of the digest cache do not overlap, since its two fields are written under separate locks.
- Lower-casing: messages and dictionary words are taken as already lower-cased. The route match, the description and the cap on reply length are one-branch facts.
