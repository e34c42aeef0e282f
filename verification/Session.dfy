/** The session object: the fields that the state lock guards, and the methods on them. */
module SessionObject {
  import opened Events
  import opened ActivityTracking
  import M = SessionModel

  /** A channel that is only ever closed; closing it twice panics in Go. */
  class Signal {
    var closed: bool

    constructor ()
      ensures !closed
    {
      closed := false;
    }

    method Close()
      requires !closed
      modifies this
      ensures closed
    {
      closed := true;
    }
  }

  class Session {
    var state: Lifecycle
    var result: Option<Result>
    var err: Option<string>
    var waited: bool
    var resultReady: Signal
    var closedOnce: bool  // resultCloseOnce has run
    var promptEchoed: bool
    var unread: int
    var turnEchoed: bool
    var sentAny: bool
    var activeGen: nat
    const activity: ActivityTracker

    /** The once guard tells whether the current channel is closed. */
    ghost predicate Valid()
      reads this, resultReady
    {
      closedOnce == resultReady.closed
    }

    ghost function View(): M.Session
      reads this, resultReady, activity
    {
      M.Session(state, result, err, resultReady.closed, promptEchoed, unread, turnEchoed, sentAny, activeGen,
                activity.View())
    }

    constructor ()
      ensures Valid() && View() == M.NEW_SESSION && fresh(resultReady) && fresh(activity)
    {
      state, result, err, waited := Starting, None, None, false;
      resultReady := new Signal();
      closedOnce, promptEchoed, unread, turnEchoed, sentAny, activeGen := false, false, 0, false, false, 0;
      activity := new ActivityTracker();
    }

    method CloseResultReady()
      requires Valid()
      modifies this`closedOnce, resultReady
      ensures Valid() && resultReady.closed
    {
      if !closedOnce {
        closedOnce := true;
        resultReady.Close();
      }
    }

    method PrepareQuery() returns (refusal: Option<M.Refusal>)
      requires Valid()
      modifies this
      ensures Valid() && refusal == M.Refuses(old(View()))
      ensures View() == if refusal.Some? then old(View()) else M.Prepare(old(View()))
      ensures refusal.None? ==> !waited && fresh(resultReady)
    {
      match state {
        case Failed => return Some(M.SessionFailed);
        case Running => return Some(M.QueryInProgress);
        case Done => return Some(M.SessionEnded);
        case Starting => return Some(M.NotReady);
        case Ready =>
      }
      state := Running;
      waited := false;
      result := None;
      err := None;
      promptEchoed := false;
      resultReady := new Signal();
      closedOnce := false;
      refusal := None;
    }

    method FailQuery(e: string)
      requires Valid()
      modifies this, resultReady
      ensures Valid() && View() == M.Fail(old(View()).(activeGen := 0), e)
    {
      activeGen := 0;
      state := Failed;
      if err.None? {
        err := Some(e);
      }
      CloseResultReady();
    }

    method TrackState(ev: Event)
      requires Valid()
      modifies this, resultReady
      ensures Valid() && View() == M.Track(old(View()), ev)
    {
      match ev {
        case InitEvent(_) =>
          if state == Starting {
            state := Ready;
          }
        case ResultEvent(r) =>
          state := Ready;
          result := Some(r);
          if err.None? && r.maxTurns {
            err := Some(M.MAX_TURNS_ERROR);
          }
          CloseResultReady();
        case ErrorEvent(e, fatal) =>
          if fatal {
            state := Failed;
            if err.None? {
              err := Some(e);
            }
            CloseResultReady();
          }
        case _ =>
      }
    }

    method SetDoneState()
      requires Valid()
      modifies this`state
      ensures Valid() && View() == M.SetDone(old(View()))
    {
      if state != Failed {
        state := Done;
      }
    }

    method NotePromptEcho(parent: string, origin: Origin)
      requires Valid()
      modifies this`promptEchoed, this`unread, this`turnEchoed
      ensures Valid() && View() == M.Echo(old(View()), parent, origin)
    {
      if parent != "" || !origin.FromCaller() {
        return;
      }
      if state == Running {
        promptEchoed := true;
      }
      if unread > 0 {
        unread := unread - 1;
      }
      turnEchoed := true;
    }

    method NoteTurnStart() returns (unsolicited: bool)
      ensures unsolicited == M.OpensUnsolicited(View())
    {
      unsolicited := sentAny && unread == 0 && !turnEchoed;
    }

    method NoteTurnEnd(r: Result)
      requires Valid()
      modifies this`unread, this`turnEchoed
      ensures Valid() && View() == M.TurnEnd(old(View()), r.origin)
    {
      var callerTurn := r.origin.NoOrigin? || r.origin.Human?;
      if callerTurn && !turnEchoed && unread > 0 {
        unread := unread - 1;
      }
      turnEchoed := false;
    }

    /** Marks a result that answers no query, and leaves the query's state alone. */
    method ObserveUnsolicitedResult(r: Result) returns (marked: Result, change: Option<Activity>, held: bool)
      requires Valid()
      modifies activity
      ensures Valid() && held == M.Holds(old(View()), r.origin)
      ensures marked == if held then r.(unsolicited := true) else r
      ensures View() == if held then M.Hold(old(View())) else old(View())
      ensures change == Emits(old(activity.View()), activity.View())
    {
      if !r.origin.TaskNotification? {
        return r, None, false;
      }
      var pending := state == Running;
      if pending && promptEchoed {
        return r, None, false;
      }
      change := activity.ObserveUnsolicitedResult(pending);
      marked, held := r.(unsolicited := true), true;
    }

    method CountMessage()
      requires Valid()
      modifies this`unread, this`sentAny
      ensures Valid() && View() == M.Count(old(View()))
    {
      unread := unread + 1;
      sentAny := true;
    }

    method UncountMessage()
      requires Valid()
      modifies this`unread
      ensures Valid() && View() == M.Uncount(old(View()))
    {
      unread := unread - 1;
    }
  }
}
