/** The confirmation dialog provider: one `confirmState` record that `ask` overwrites, that
    Cancel closes and that Confirm runs and closes. */
module ConfirmContext {
  import opened Options

  const InitialTitle: string := "Are you sure?"
  const DefaultTitle: string := "Confirm Action"

  /** A page's confirmation callback, identified by a number. */
  datatype Callback = Callback(id: nat)

  datatype ConfirmState = ConfirmState(isOpen: bool, message: string, title: string, onConfirm: Option<Callback>)

  /** What can happen to the dialog: a page asks (the title is absent when not passed), or the
      user presses Cancel or Confirm. */
  datatype Event = Ask(message: string, callback: Option<Callback>, title: Option<string>) | Cancel | Confirm

  function Initial(): (s: ConfirmState)
    ensures !s.isOpen && s.message == "" && s.title == InitialTitle && s.onConfirm.None?
  {
    ConfirmState(false, "", InitialTitle, None)
  }

  /** One event: the new state and the callbacks it runs. The buttons exist only while the
      dialog is open, so Cancel and Confirm on a closed dialog change nothing. */
  function Step(s: ConfirmState, e: Event): (r: (ConfirmState, seq<Callback>))
    ensures e.Ask? ==> (r.1 == [] && r.0.isOpen && r.0.message == e.message && r.0.onConfirm == e.callback
      && r.0.title == (if e.title.Some? then e.title.value else DefaultTitle))
    ensures e.Cancel? ==> (r.1 == [] && !r.0.isOpen
      && r.0.message == s.message && r.0.title == s.title && r.0.onConfirm == s.onConfirm)
    ensures e.Confirm? ==> (!r.0.isOpen && r.0.message == s.message && r.0.title == s.title
      && r.0.onConfirm == s.onConfirm
      && r.1 == (if s.isOpen && s.onConfirm.Some? then [s.onConfirm.value] else []))
  {
    match e
    case Ask(message, callback, title) =>
      (ConfirmState(true, message, title.GetOr(DefaultTitle), callback), [])
    case Cancel =>
      (s.(isOpen := false), [])
    case Confirm =>
      if !s.isOpen then (s, [])
      else (s.(isOpen := false), if s.onConfirm.Some? then [s.onConfirm.value] else [])
  }

  /** A sequence of events: the final state and every callback run, in order. */
  function Run(s: ConfirmState, events: seq<Event>): (ConfirmState, seq<Callback>)
    decreases |events|
  {
    if events == [] then (s, [])
    else
      var first := Step(s, events[0]);
      var rest := Run(first.0, events[1..]);
      (rest.0, first.1 + rest.1)
  }

  lemma RunSingle(s: ConfirmState, e: Event)
    ensures Run(s, [e]) == Step(s, e)
  {
    assert [e][1..] == [];
    assert Step(s, e).1 + [] == Step(s, e).1;
  }

  function AskCount(events: seq<Event>): (n: nat)
    ensures n <= |events|
  {
    if events == [] then 0 else (if events[0].Ask? then 1 else 0) + AskCount(events[1..])
  }

  /** Each `ask` runs its callback at most once: there are never more runs than asks (plus one
      for a dialog that was already open). */
  lemma {:induction false} AtMostOneRunPerAsk(s: ConfirmState, events: seq<Event>)
    ensures |Run(s, events).1| <= AskCount(events) + (if s.isOpen then 1 else 0)
    decreases |events|
  {
    if events != [] {
      var first := Step(s, events[0]);
      AtMostOneRunPerAsk(first.0, events[1..]);
    }
  }

  /** Every callback run is the one stored by an `ask` of the run or the one already stored. */
  lemma {:induction false} OnlyAskedCallbacksRun(s: ConfirmState, events: seq<Event>, c: Callback)
    requires c in Run(s, events).1
    ensures s.onConfirm == Some(c) || exists i :: 0 <= i < |events| && events[i].Ask? && events[i].callback == Some(c)
    decreases |events|
  {
    var first := Step(s, events[0]);
    var rest := Run(first.0, events[1..]);
    if c in first.1 {
    } else {
      assert c in rest.1;
      OnlyAskedCallbacksRun(first.0, events[1..], c);
      if first.0.onConfirm == Some(c) && s.onConfirm != Some(c) {
        assert events[0].Ask?;
      } else if first.0.onConfirm != Some(c) {
        var i :| 0 <= i < |events[1..]| && events[1..][i].Ask? && events[1..][i].callback == Some(c);
        assert events[i + 1] == events[1..][i];
      }
    }
  }

  /** A second `ask` before the first is answered replaces it: Confirm runs only the latest callback. */
  lemma LatestAskWins(s: ConfirmState, m1: string, c1: Callback, t1: Option<string>,
                      m2: string, c2: Callback, t2: Option<string>)
    ensures Run(s, [Ask(m1, Some(c1), t1), Ask(m2, Some(c2), t2), Confirm]).1 == [c2]
  {
    var s1 := Step(s, Ask(m1, Some(c1), t1)).0;
    var s2 := Step(s1, Ask(m2, Some(c2), t2)).0;
    RunSingle(s2, Confirm);
    assert [Ask(m2, Some(c2), t2), Confirm][1..] == [Confirm];
    assert [Ask(m1, Some(c1), t1), Ask(m2, Some(c2), t2), Confirm][1..] == [Ask(m2, Some(c2), t2), Confirm];
  }

  /** Cancelling never runs anything, and confirming twice runs the callback once. */
  lemma ConfirmTwiceRunsOnce(s: ConfirmState, m: string, c: Callback, t: Option<string>)
    ensures Run(s, [Ask(m, Some(c), t), Cancel, Confirm]).1 == []
    ensures Run(s, [Ask(m, Some(c), t), Confirm, Confirm]).1 == [c]
  {
    var s1 := Step(s, Ask(m, Some(c), t)).0;
    assert [Ask(m, Some(c), t), Cancel, Confirm][1..] == [Cancel, Confirm];
    assert [Cancel, Confirm][1..] == [Confirm];
    assert [Ask(m, Some(c), t), Confirm, Confirm][1..] == [Confirm, Confirm];
    assert [Confirm, Confirm][1..] == [Confirm];
    RunSingle(Step(s1, Cancel).0, Confirm);
    RunSingle(Step(s1, Confirm).0, Confirm);
  }

  /** The provider component. `ran` records the callbacks it has called. */
  class ConfirmProvider {
    var isOpen: bool
    var message: string
    var title: string
    var onConfirm: Option<Callback>
    var ran: seq<Callback>

    ghost function State(): ConfirmState
      reads this
    {
      ConfirmState(isOpen, message, title, onConfirm)
    }

    constructor ()
      ensures State() == Initial() && ran == []
    {
      isOpen, message, title, onConfirm := false, "", InitialTitle, None;
      ran := [];
    }

    /** `ask(message, onConfirmCallback, title = "Confirm Action")`. */
    method AskUser(msg: string, callback: Option<Callback>, t: Option<string>)
      modifies this
      ensures State() == Step(old(State()), Ask(msg, callback, t)).0 && ran == old(ran)
    {
      isOpen := true;
      message := msg;
      title := if t.Some? then t.value else DefaultTitle;
      onConfirm := callback;
    }

    /** `close`: the Cancel button. */
    method Close()
      modifies this
      ensures State() == Step(old(State()), Cancel).0 && ran == old(ran)
    {
      isOpen := false;
    }

    /** `handleConfirm`: the Confirm button, rendered only while open. */
    method HandleConfirm()
      requires isOpen
      modifies this
      ensures State() == Step(old(State()), Confirm).0
      ensures ran == old(ran) + Step(old(State()), Confirm).1
    {
      if onConfirm.Some? {
        ran := ran + [onConfirm.value];
      }
      Close();
    }
  }
}
