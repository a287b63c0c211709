/** bridge.rs: one subprocess with the map from conversation id to the reply slot of the waiting ask. */
module BridgeLink {
  import opened Wrappers

  /** The one-shot sender of an ask is named by the ask. */
  type AskId = nat

  /** The reader task: dispatching lines, past end of file but not drained yet, finished. */
  datatype Reader = Reading | AtEof | Drained

  /** One line the subprocess wrote. `tag` says which ask's line it answers, if any; `fair` records whether
      at that moment it was a first answer to a line that had been written here under the same id. */
  datatype Emission = Emission(cid: string, text: string, tag: Option<AskId>, fair: bool)

  datatype Link = Link(pending: map<string, AskId>, alive: bool, reader: Reader, emitted: seq<Emission>)

  const FRESH_LINK := Link(map[], true, Reading, [])

  /** `pending.insert`: an earlier sender under the same id would be dropped. */
  function Registered(b: Link, cid: string, a: AskId): Link {
    b.(pending := b.pending[cid := a])
  }

  /** `PendingGuard::drop`: removes whatever stands under the id. */
  function Unregistered(b: Link, cid: string): Link {
    b.(pending := b.pending - {cid})
  }

  /** The ask a line for `cid` is handed to. */
  function Recipient(b: Link, cid: string): Option<AskId> {
    if cid in b.pending then Some(b.pending[cid]) else None
  }

  /** The reader took one well-formed line. */
  function Dispatched(b: Link, e: Emission): Link {
    b.(pending := b.pending - {e.cid}, emitted := b.emitted + [e])
  }

  /** Some line written here answered ask `a`. */
  predicate Answered(b: Link, a: AskId) {
    exists k :: 0 <= k < |b.emitted| && b.emitted[k].tag == Some(a)
  }

  class Bridge {
    var pending: map<string, AskId>
    var alive: bool
    var reader: Reader
    var emitted: seq<Emission>

    function View(): Link
      reads this
    {
      Link(pending, alive, reader, emitted)
    }

    constructor ()
      ensures View() == FRESH_LINK
    {
      pending, alive, reader, emitted := map[], true, Reading, [];
    }

    method Register(cid: string, a: AskId)
      modifies this
      ensures View() == Registered(old(View()), cid, a)
      ensures forall c :: Recipient(View(), c) == if c == cid then Some(a) else Recipient(old(View()), c)
    {
      pending := pending[cid := a];
    }

    method DropGuard(cid: string)
      modifies this
      ensures View() == Unregistered(old(View()), cid)
      ensures Recipient(View(), cid) == None
      ensures forall c :: c != cid ==> Recipient(View(), c) == Recipient(old(View()), c)
    {
      pending := pending - {cid};
    }

    /** One line of stdout: the sender is taken out of the map and used once. */
    method Dispatch(e: Emission) returns (to: Option<AskId>)
      modifies this
      ensures to == Recipient(old(View()), e.cid) && View() == Dispatched(old(View()), e)
      ensures Recipient(View(), e.cid) == None
      ensures forall c :: c != e.cid ==> Recipient(View(), c) == Recipient(old(View()), c)
    {
      to := None;
      if e.cid in pending {
        to := Some(pending[e.cid]);
        pending := pending - {e.cid};
      }
      emitted := emitted + [e];
      assert e.cid !in old(pending) ==> old(pending) - {e.cid} == old(pending);
    }

    method WriteFailed()
      modifies this
      ensures View() == old(View()).(alive := false)
    {
      alive := false;
    }

    /** The two halves of the reader's exit: other tasks may run in between. */
    method CloseStdout()
      modifies this
      ensures View() == old(View()).(alive := false, reader := AtEof)
    {
      alive, reader := false, AtEof;
    }

    method DrainPending()
      modifies this
      ensures View() == old(View()).(pending := map[], reader := Drained)
    {
      pending, reader := map[], Drained;
    }
  }
}
