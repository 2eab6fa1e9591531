/** The notification bell: the fetched list, the unread counter shown as a badge, and the
    open flag, updated by fetches, mark-read, clear-all and clicks. */
module NotificationDropdown {
  import opened Options
  import opened Dto
  import Seqs

  datatype DropdownState = DropdownState(notes: seq<NoteDto>, unreadCount: int, isOpen: bool)

  /** A fetch answered (or failed), a mark-read or clear-all request answered (or failed), a
      click on the bell, a pointer-down inside or outside the widget. */
  datatype Event =
    | Fetched(data: seq<NoteDto>) | FetchFailed
    | MarkReadSucceeded(noteId: string) | MarkReadFailed
    | ClearSucceeded | ClearFailed
    | BellClicked | PointerDown(inside: bool)

  function Initial(): (s: DropdownState)
    ensures s.notes == [] && s.unreadCount == 0 && !s.isOpen
  {
    DropdownState([], 0, false)
  }

  function IsUnread(): NoteDto -> bool
  {
    (n: NoteDto) => !n.isRead
  }

  /** `data.filter(n => !n.is_read).length`. */
  function Unread(notes: seq<NoteDto>): nat
  {
    Seqs.Count(notes, IsUnread())
  }

  /** `prev.map(n => n.id === noteId ? { ...n, is_read: true } : n)`. */
  function MarkLocal(notes: seq<NoteDto>, noteId: string): (r: seq<NoteDto>)
    ensures |r| == |notes|
    ensures forall i :: 0 <= i < |notes| ==>
      r[i] == (if notes[i].id == noteId then notes[i].(isRead := true) else notes[i])
    decreases |notes|
  {
    if notes == [] then []
    else [if notes[0].id == noteId then notes[0].(isRead := true) else notes[0]] + MarkLocal(notes[1..], noteId)
  }

  predicate UniqueIds(notes: seq<NoteDto>)
  {
    forall i, j :: 0 <= i < j < |notes| ==> notes[i].id != notes[j].id
  }

  /** With unique ids, marking one note read lowers the number of unread notes by at most one,
      and never raises it. */
  lemma {:induction false} MarkLocalUnread(notes: seq<NoteDto>, noteId: string)
    requires UniqueIds(notes)
    ensures Unread(notes) - 1 <= Unread(MarkLocal(notes, noteId)) <= Unread(notes)
    decreases |notes|
  {
    if notes != [] {
      var r := MarkLocal(notes, noteId);
      assert r[1..] == MarkLocal(notes[1..], noteId);
      assert UniqueIds(notes[1..]) by {
        forall i, j | 0 <= i < j < |notes[1..]| ensures notes[1..][i].id != notes[1..][j].id {
          assert notes[1..][i] == notes[i + 1] && notes[1..][j] == notes[j + 1];
        }
      }
      if notes[0].id == noteId {
        assert forall i :: 0 <= i < |notes[1..]| ==> notes[1..][i].id != noteId by {
          forall i | 0 <= i < |notes[1..]| ensures notes[1..][i].id != noteId {
            assert notes[1..][i] == notes[i + 1];
          }
        }
        assert MarkLocal(notes[1..], noteId) == notes[1..];
      } else {
        MarkLocalUnread(notes[1..], noteId);
      }
    }
  }

  /** One event, as the handlers apply it. Local state changes only after the server succeeds. */
  function Step(s: DropdownState, e: Event): (r: DropdownState)
    ensures e.Fetched? ==> r.notes == e.data && r.unreadCount == Unread(e.data) && r.isOpen == s.isOpen
    ensures e.MarkReadSucceeded? ==> (r.notes == MarkLocal(s.notes, e.noteId) && !r.isOpen
      && r.unreadCount == (if s.unreadCount - 1 > 0 then s.unreadCount - 1 else 0))
    ensures e.ClearSucceeded? ==> r.notes == [] && r.unreadCount == 0 && r.isOpen == s.isOpen
    ensures e.FetchFailed? || e.MarkReadFailed? || e.ClearFailed? ==> r == s
    ensures e.BellClicked? ==> r == s.(isOpen := !s.isOpen)
    ensures e.PointerDown? ==> r == (if e.inside then s else s.(isOpen := false))
  {
    match e
    case Fetched(data) => s.(notes := data, unreadCount := Unread(data))
    case FetchFailed => s
    case MarkReadSucceeded(noteId) =>
      DropdownState(MarkLocal(s.notes, noteId), if 0 >= s.unreadCount - 1 then 0 else s.unreadCount - 1, false)
    case MarkReadFailed => s
    case ClearSucceeded => s.(notes := [], unreadCount := 0)
    case ClearFailed => s
    case BellClicked => s.(isOpen := !s.isOpen)
    case PointerDown(inside) => if inside then s else s.(isOpen := false)
  }

  /** The badge counter is never negative and never above the number of unread notes shown. */
  predicate Consistent(s: DropdownState)
  {
    UniqueIds(s.notes) && 0 <= s.unreadCount <= Unread(s.notes)
  }

  /** Every event keeps the counter consistent, provided fetched lists have unique ids (they
      are database ids). */
  lemma StepKeepsConsistent(s: DropdownState, e: Event)
    requires Consistent(s)
    requires e.Fetched? ==> UniqueIds(e.data)
    ensures Consistent(Step(s, e))
  {
    if e.MarkReadSucceeded? {
      MarkLocalUnread(s.notes, e.noteId);
      var r := MarkLocal(s.notes, e.noteId);
      assert forall i :: 0 <= i < |r| ==> r[i].id == s.notes[i].id;
    }
  }

  function Run(s: DropdownState, events: seq<Event>): DropdownState
    decreases |events|
  {
    if events == [] then s else Run(Step(s, events[0]), events[1..])
  }

  predicate FetchesUnique(events: seq<Event>)
  {
    forall i :: 0 <= i < |events| && events[i].Fetched? ==> UniqueIds(events[i].data)
  }

  /** From the initial state, the counter stays consistent through any run; in particular the
      badge is hidden whenever every shown note is read. */
  lemma {:induction false} RunKeepsConsistent(s: DropdownState, events: seq<Event>)
    requires Consistent(s) && FetchesUnique(events)
    ensures Consistent(Run(s, events))
    ensures Unread(Run(s, events).notes) == 0 ==> Run(s, events).unreadCount == 0
    decreases |events|
  {
    if events != [] {
      StepKeepsConsistent(s, events[0]);
      assert FetchesUnique(events[1..]) by {
        forall i | 0 <= i < |events[1..]| && events[1..][i].Fetched? ensures UniqueIds(events[1..][i].data) {
          assert events[1..][i] == events[i + 1];
        }
      }
      RunKeepsConsistent(Step(s, events[0]), events[1..]);
    }
  }

  /** A note that was already read still lowers the counter when it is marked read again. */
  lemma MarkingReadNoteStillDecrements(s: DropdownState, i: nat)
    requires i < |s.notes| && s.notes[i].isRead && s.unreadCount > 0
    ensures Step(s, MarkReadSucceeded(s.notes[i].id)).unreadCount == s.unreadCount - 1
    ensures Step(s, MarkReadSucceeded(s.notes[i].id)).notes[i] == s.notes[i]
  {
  }

  /** The dropdown component. */
  class Dropdown {
    var notifications: seq<NoteDto>
    var unreadCount: int
    var isOpen: bool

    ghost function State(): DropdownState
      reads this
    {
      DropdownState(notifications, unreadCount, isOpen)
    }

    constructor ()
      ensures State() == Initial()
    {
      notifications, unreadCount, isOpen := [], 0, false;
    }

    /** `fetchNotifications`; `response` is absent when the request failed. */
    method FetchNotifications(response: Option<seq<NoteDto>>)
      modifies this
      ensures State() == Step(old(State()), if response.Some? then Fetched(response.value) else FetchFailed)
    {
      if response.Some? {
        notifications := response.value;
        unreadCount := Unread(response.value);
      }
    }

    /** `handleMarkRead`; `succeeded` is the outcome of the request. */
    method HandleMarkRead(noteId: string, succeeded: bool)
      modifies this
      ensures State() == Step(old(State()), if succeeded then MarkReadSucceeded(noteId) else MarkReadFailed)
    {
      if succeeded {
        notifications := MarkLocal(notifications, noteId);
        unreadCount := if 0 >= unreadCount - 1 then 0 else unreadCount - 1;
        isOpen := false;
      }
    }

    /** `handleClearAll`. */
    method HandleClearAll(succeeded: bool)
      modifies this
      ensures State() == Step(old(State()), if succeeded then ClearSucceeded else ClearFailed)
    {
      if succeeded {
        notifications := [];
        unreadCount := 0;
      }
    }

    /** The bell button. */
    method ToggleBell()
      modifies this
      ensures State() == Step(old(State()), BellClicked)
    {
      isOpen := !isOpen;
    }

    /** The document's `mousedown` listener. */
    method HandlePointerDown(inside: bool)
      modifies this
      ensures State() == Step(old(State()), PointerDown(inside))
    {
      if !inside {
        isOpen := false;
      }
    }
  }
}
