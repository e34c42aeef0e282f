/** Control requests (session.go): numbered requests, a shared map of one-slot channels, a read
    loop that answers them and, when it ends, fails those still pending. */
module Control {
  import opened Events

  /** What reaches a waiter: the CLI's answer to a request, or the end of the session. */
  datatype Reply = Answer(id: nat, isError: bool, body: string) | SessionEnded

  /** A channel of capacity one, and how many values were ever sent on it. */
  datatype Slot = Slot(value: Option<Reply>, sent: nat)

  const EMPTY_SLOT := Slot(None, 0)

  function Fill(s: Slot, r: Reply): Slot {
    Slot(Some(r), s.sent + 1)
  }

  /** A send that gives up when the slot is taken. */
  function TryFill(s: Slot, r: Reply): Slot {
    if s.value.None? then Fill(s, r) else s
  }

  function Take(s: Slot): Slot {
    s.(value := None)
  }

  // ---- the read loop's half, in place; ControlProtocol's steps use the same functions ----

  class ResultChannel {
    var value: Option<Reply>
    ghost var sent: nat

    ghost function View(): Slot
      reads this
    {
      Slot(value, sent)
    }

    constructor ()
      ensures View() == EMPTY_SLOT
    {
      value := None;
      sent := 0;
    }

    /** A blocking send; it does not block. */
    method Send(r: Reply)
      requires value.None?
      modifies this
      ensures View() == Fill(old(View()), r)
    {
      value := Some(r);
      sent := sent + 1;
    }
  }

  class PendingRequests {
    var pending: map<nat, ResultChannel>

    /** Distinct ids have distinct channels, and nothing was sent to a pending one. */
    ghost predicate Valid()
      reads this, pending.Values
    {
      && (forall i, j | i in pending && j in pending && pending[i] == pending[j] :: i == j)
      && forall i | i in pending :: pending[i].View() == EMPTY_SLOT
    }

    constructor ()
      ensures Valid() && pending == map[]
    {
      pending := map[];
    }

    method Store(id: nat) returns (ch: ResultChannel)
      requires Valid() && id !in pending
      modifies this
      ensures Valid() && fresh(ch) && pending == old(pending)[id := ch]
    {
      ch := new ResultChannel();
      pending := pending[id := ch];
    }

    /** The waiter's deferred Delete. */
    method Delete(id: nat)
      requires Valid()
      modifies this
      ensures Valid() && pending == old(pending) - {id}
    {
      pending := pending - {id};
    }

    method HandleControlResponse(id: nat, isError: bool, body: string)
      requires Valid()
      modifies this, pending.Values
      ensures Valid() && pending == old(pending) - {id}
      ensures id in old(pending) ==> old(pending)[id].View() == Fill(old(pending[id].View()), Answer(id, isError, body))
      ensures forall i | i in old(pending) && i != id :: unchanged(old(pending)[i])
    {
      if id in pending {
        var ch := pending[id];
        pending := pending - {id};
        ch.Send(Answer(id, isError, body));
      }
    }

    /** One call-back of the final Range. */
    method FailOne(id: nat)
      requires Valid() && id in pending
      modifies this, pending[id]
      ensures Valid() && pending == old(pending) - {id}
      ensures old(pending)[id].View() == TryFill(old(pending[id].View()), SessionEnded)
    {
      var ch := pending[id];
      if ch.value.None? {
        ch.Send(SessionEnded);
      }
      pending := pending - {id};
    }

    /** The whole Range, when nobody registers meanwhile. */
    method FailPendingRequests()
      requires Valid()
      modifies this, pending.Values
      ensures pending == map[]
      ensures forall i | i in old(pending) :: old(pending)[i].View() == Fill(EMPTY_SLOT, SessionEnded)
    {
      ghost var all := pending;
      var left := pending.Keys;
      while left != {}
        invariant left <= all.Keys && pending.Keys == left && Valid()
        invariant forall i | i in left :: pending[i] == all[i]
        invariant forall i | i in all.Keys - left :: all[i].View() == Fill(EMPTY_SLOT, SessionEnded)
        modifies this, all.Values
        decreases |left|
      {
        var id :| id in left;
        FailOne(id);
        left := left - {id};
      }
    }
  }
}
