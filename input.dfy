/**
 * The pointer tracker fed by the canvas's mouse listeners: a drag flag and the
 * latest target position, overwritten with last-write-wins semantics.
 */
module Input {
  import opened Vectors

  /** The tracker's state: `dragging` and `target`. */
  datatype Pointer = Pointer(dragging: bool, target: Vec)

  /** The four mouse events the canvas listens to, with the event's client position where it is read. */
  datatype Event = Down(at: Vec) | Move(at: Vec) | Up | Leave

  /** Whether the event writes its position into the target. */
  predicate Writes(p: Pointer, e: Event)
  {
    e.Down? || (e.Move? && p.dragging)
  }

  /**
   * One listener call. A press starts a drag at the event position; a move
   * retargets only during a drag; a release or the pointer leaving the canvas
   * ends the drag and keeps the target.
   */
  function Handle(p: Pointer, e: Event): (r: Pointer)
    ensures r.dragging <==> Writes(p, e)
    ensures Writes(p, e) ==> r.target == e.at
    ensures !Writes(p, e) ==> r.target == p.target
  {
    match e
    case Down(at) => Pointer(true, at)
    case Move(at) => if p.dragging then Pointer(p.dragging, at) else p
    case Up => Pointer(false, p.target)
    case Leave => Pointer(false, p.target)
  }

  /** The tracker after the events have been dispatched one by one, oldest first. */
  function Replay(p: Pointer, events: seq<Event>): Pointer
    decreases |events|
  {
    if events == [] then p else Replay(Handle(p, events[0]), events[1..])
  }

  /** Dispatching `a` and then `b` is dispatching `a + b`. */
  lemma {:induction false} ReplayAppend(p: Pointer, a: seq<Event>, b: seq<Event>)
    ensures Replay(p, a + b) == Replay(Replay(p, a), b)
    decreases |a|
  {
    if a != [] {
      assert (a + b)[1..] == a[1..] + b;
      ReplayAppend(Handle(p, a[0]), a[1..], b);
    } else {
      assert a + b == b;
    }
  }

  /** Without a press, a pointer that is not dragging ignores every move, release and leave. */
  lemma {:induction false} IdlePointerStaysPut(p: Pointer, events: seq<Event>)
    requires !p.dragging
    requires forall i :: 0 <= i < |events| ==> !events[i].Down?
    ensures Replay(p, events) == p
    decreases |events|
  {
    if events != [] {
      IdlePointerStaysPut(Handle(p, events[0]), events[1..]);
    }
  }

  /** During a drag, a run of moves leaves the target at the last move's position. */
  lemma {:induction false} DragFollowsLastMove(p: Pointer, moves: seq<Event>)
    requires p.dragging
    requires forall i :: 0 <= i < |moves| ==> moves[i].Move?
    ensures Replay(p, moves) == Pointer(true, if moves == [] then p.target else moves[|moves| - 1].at)
    decreases |moves|
  {
    if moves != [] {
      DragFollowsLastMove(Handle(p, moves[0]), moves[1..]);
    }
  }

  /** Whatever happened before, a release or a leave ends the drag and keeps the target. */
  lemma ReleaseEndsDrag(p: Pointer, events: seq<Event>, release: Event)
    requires release.Up? || release.Leave?
    ensures Replay(p, events + [release]) == Pointer(false, Replay(p, events).target)
  {
    ReplayAppend(p, events, [release]);
  }
}
