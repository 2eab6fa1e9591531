/** The flash-message provider: one message slot, set by `flash`, emptied by the close button
    and by every scheduled three-second timeout. Timeouts are never cancelled. */
module FlashContext {
  import opened Options

  const HideAfterMs: int := 3000
  const DefaultType: string := "success"

  datatype Flash = Flash(message: string, ftype: string)

  /** The slot and the due times of the timeouts still to fire, oldest first. */
  datatype FlashState = FlashState(current: Option<Flash>, pending: seq<int>)

  /** `flash(message, type)` at time `now` (the type is absent when not passed), a timeout
      firing, or the close button. */
  datatype Event = Show(message: string, ftype: Option<string>, now: int) | Timeout | CloseClicked

  function Initial(): (s: FlashState)
    ensures s.current.None? && s.pending == []
  {
    FlashState(None, [])
  }

  /** One event. The timeouts all wait the same 3000 ms, so they fire in the order they were
      scheduled; a timeout with nothing pending cannot happen and changes nothing. */
  function Step(s: FlashState, e: Event): (r: FlashState)
    ensures e.Show? ==> r.current == Some(Flash(e.message, if e.ftype.Some? then e.ftype.value else DefaultType))
    ensures e.Show? ==> r.pending == s.pending + [e.now + HideAfterMs]
    ensures e.Timeout? && s.pending != [] ==> r.current.None? && r.pending == s.pending[1..]
    ensures e.CloseClicked? ==> r.current.None? && r.pending == s.pending
  {
    match e
    case Show(message, ftype, now) =>
      FlashState(Some(Flash(message, ftype.GetOr(DefaultType))), s.pending + [now + HideAfterMs])
    case Timeout =>
      if s.pending == [] then s else FlashState(None, s.pending[1..])
    case CloseClicked =>
      s.(current := None)
  }

  function Run(s: FlashState, events: seq<Event>): FlashState
    decreases |events|
  {
    if events == [] then s else Run(Step(s, events[0]), events[1..])
  }

  function ShowCount(events: seq<Event>): (n: nat)
  {
    if events == [] then 0 else (if events[0].Show? then 1 else 0) + ShowCount(events[1..])
  }

  function TimeoutCount(events: seq<Event>, pending: nat): (n: nat)
    decreases |events|
  {
    if events == [] then 0
    else match events[0]
      case Show(_, _, _) => TimeoutCount(events[1..], pending + 1)
      case Timeout => if pending == 0 then TimeoutCount(events[1..], 0) else 1 + TimeoutCount(events[1..], pending - 1)
      case CloseClicked => TimeoutCount(events[1..], pending)
  }

  /** Every `flash` leaves exactly one timeout behind until it fires: none is cancelled or dropped. */
  lemma {:induction false} EveryFlashSchedulesOneTimeout(s: FlashState, events: seq<Event>)
    ensures |Run(s, events).pending| == |s.pending| + ShowCount(events) - TimeoutCount(events, |s.pending|)
    decreases |events|
  {
    if events != [] {
      EveryFlashSchedulesOneTimeout(Step(s, events[0]), events[1..]);
    }
  }

  /** Due times in the order they fire. */
  predicate Ascending(due: seq<int>)
  {
    forall i, j :: 0 <= i < j < |due| ==> due[i] <= due[j]
  }

  predicate ShowsFrom(events: seq<Event>, t: int)
  {
    (forall i :: 0 <= i < |events| && events[i].Show? ==> t <= events[i].now)
    && (forall i, j :: 0 <= i < j < |events| && events[i].Show? && events[j].Show? ==> events[i].now <= events[j].now)
  }

  /** With `flash` calls at non-decreasing times, the pending timeouts are in due order, so the
      next to fire is always the earliest. */
  lemma {:induction false} PendingStaysAscending(s: FlashState, events: seq<Event>, t: int)
    requires Ascending(s.pending) && (forall i :: 0 <= i < |s.pending| ==> s.pending[i] <= t + HideAfterMs)
    requires ShowsFrom(events, t)
    ensures Ascending(Run(s, events).pending)
    decreases |events|
  {
    if events != [] {
      var s1 := Step(s, events[0]);
      var t1 := if events[0].Show? then events[0].now else t;
      assert Ascending(s1.pending) && forall i :: 0 <= i < |s1.pending| ==> s1.pending[i] <= t1 + HideAfterMs by {
        if events[0].Timeout? && s.pending != [] {
          assert forall i :: 0 <= i < |s1.pending| ==> s1.pending[i] == s.pending[i + 1];
        }
      }
      assert ShowsFrom(events[1..], t1) by {
        forall i | 0 <= i < |events[1..]| && events[1..][i].Show? ensures t1 <= events[1..][i].now {
          assert events[1..][i] == events[i + 1];
        }
        forall i, j | 0 <= i < j < |events[1..]| && events[1..][i].Show? && events[1..][j].Show?
          ensures events[1..][i].now <= events[1..][j].now
        {
          assert events[1..][i] == events[i + 1] && events[1..][j] == events[j + 1];
        }
      }
      PendingStaysAscending(s1, events[1..], t1);
    }
  }

  /** Because timeouts are not cancelled, the first message's timeout also removes a second
      message shown before it fired, after less than three seconds on screen. */
  lemma EarlierTimeoutClearsLaterMessage(m1: string, m2: string, t1: int, t2: int)
    requires t1 <= t2 < t1 + HideAfterMs
    ensures Run(Initial(), [Show(m1, None, t1), Show(m2, Some("error"), t2)]).current == Some(Flash(m2, "error"))
    ensures Run(Initial(), [Show(m1, None, t1), Show(m2, Some("error"), t2), Timeout]).current.None?
    ensures Run(Initial(), [Show(m1, None, t1), Show(m2, Some("error"), t2), Timeout]).pending == [t2 + HideAfterMs]
  {
    var s1 := Step(Initial(), Show(m1, None, t1));
    var s2 := Step(s1, Show(m2, Some("error"), t2));
    var s3 := Step(s2, Timeout);
    assert [Show(m1, None, t1), Show(m2, Some("error"), t2)][1..] == [Show(m2, Some("error"), t2)];
    assert [Show(m1, None, t1), Show(m2, Some("error"), t2), Timeout][1..] == [Show(m2, Some("error"), t2), Timeout];
    assert [Show(m2, Some("error"), t2), Timeout][1..] == [Timeout];
    assert Run(s3, []) == s3;
    assert Run(s2, [Timeout]) == s3;
    assert Run(s2, []) == s2;
  }

  /** The provider component. `timers` are the due times of the scheduled timeouts. */
  class FlashProvider {
    var notification: Option<Flash>
    var timers: seq<int>

    ghost function State(): FlashState
      reads this
    {
      FlashState(notification, timers)
    }

    constructor ()
      ensures State() == Initial()
    {
      notification := None;
      timers := [];
    }

    /** `flash(message, type = 'success')`: show, and schedule the hide. */
    method ShowFlash(message: string, ftype: Option<string>, now: int)
      modifies this
      ensures State() == Step(old(State()), Show(message, ftype, now))
    {
      notification := Some(Flash(message, if ftype.Some? then ftype.value else DefaultType));
      timers := timers + [now + HideAfterMs];
    }

    /** The oldest scheduled timeout fires. */
    method TimeoutFired()
      requires timers != []
      modifies this
      ensures State() == Step(old(State()), Timeout)
    {
      notification := None;
      timers := timers[1..];
    }

    /** The close button. */
    method Dismiss()
      modifies this
      ensures State() == Step(old(State()), CloseClicked)
    {
      notification := None;
    }
  }
}
