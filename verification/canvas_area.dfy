/**
  The canvas component's snapshot undo history and drawing-mode toggle.

  The canvas contents are never interpreted: a save is given the canvas's
  serialized form as an opaque string, and a restore records which string
  was loaded back into the canvas. Restoring is taken to complete at once.
 */
module CanvasArea {
  import opened Wrappers

  /** The drawing surface, once one has been created for an uploaded image. */
  datatype Surface = Surface(
    drawingMode: bool,        // whether free drawing is on
    restored: Option<string>  // the snapshot last loaded into the surface, if any
  )

  datatype Session = Session(
    undoStack: seq<string>,   // snapshots, top = last element
    redoStack: seq<string>,   // written by undo and save, never read back
    canvas: Option<Surface>,  // None until a surface has been created
    isBrushing: bool          // the flag the brush button label is drawn from
  )

  /** What the user is told after an undo. */
  datatype Notice = Quiet | Warning(text: string)

  const NothingToUndo: string := "Nada para desfazer."

  function Top(stack: seq<string>): string
    requires |stack| > 0
  {
    stack[|stack| - 1]
  }

  /** No two neighbouring snapshots are the same text. */
  predicate NoAdjacentDuplicates(stack: seq<string>) {
    forall i :: 0 < i < |stack| ==> stack[i - 1] != stack[i]
  }

  /** Both stacks empty, no surface, brush label in its initial "on" state. */
  function Initial(): (s: Session)
    ensures s.undoStack == [] && s.redoStack == []
    ensures s.canvas.None? && s.isBrushing
  {
    Session([], [], None, true)
  }

  /**
    Creating the surface after an image upload: drawing mode starts on, and
    when snapshots already exist the top one is loaded into the new surface.
    The stacks are left alone.
   */
  function Mount(s: Session): (r: Session)
    ensures r.undoStack == s.undoStack && r.redoStack == s.redoStack
    ensures r.isBrushing == s.isBrushing
    ensures r.canvas.Some? && r.canvas.value.drawingMode
    ensures |s.undoStack| > 0 ==> r.canvas.value.restored == Some(Top(s.undoStack))
    ensures |s.undoStack| == 0 ==> r.canvas.value.restored.None?
  {
    var restored := if |s.undoStack| > 0 then Some(Top(s.undoStack)) else None;
    s.(canvas := Some(Surface(true, restored)))
  }

  /**
    Saving the current serialization `current`: it is pushed, and the
    auxiliary stack emptied, exactly when the stack is empty or its top
    differs from `current`; otherwise nothing changes.
   */
  function SaveState(s: Session, current: string): (r: Session)
    ensures (|s.undoStack| == 0 || Top(s.undoStack) != current) ==>
      r.undoStack == s.undoStack + [current] && r.redoStack == []
    ensures (|s.undoStack| > 0 && Top(s.undoStack) == current) ==> r == s
    ensures |r.undoStack| > 0 && Top(r.undoStack) == current
    ensures |s.undoStack| <= |r.undoStack| <= |s.undoStack| + 1
    ensures r.canvas == s.canvas && r.isBrushing == s.isBrushing
  {
    if |s.undoStack| == 0 || Top(s.undoStack) != current then
      s.(undoStack := s.undoStack + [current], redoStack := [])
    else
      s
  }

  /**
    Undo: with a surface and more than one snapshot, the top snapshot is
    popped and moved to the auxiliary stack (unless it is the empty string,
    which the source's truthiness test skips), and the new top is loaded into
    the surface. Otherwise nothing changes and a warning is shown.
   */
  function Undo(s: Session): (r: (Session, Notice))
    ensures s.canvas.Some? && |s.undoStack| > 1 ==>
      var n := |s.undoStack|;
      && r.0.undoStack == s.undoStack[..n - 1]
      && r.0.redoStack == s.redoStack + (if s.undoStack[n - 1] != "" then [s.undoStack[n - 1]] else [])
      && r.0.canvas == Some(Surface(s.canvas.value.drawingMode, Some(s.undoStack[n - 2])))
      && r.0.isBrushing == s.isBrushing
      && r.1 == Quiet
    ensures !(s.canvas.Some? && |s.undoStack| > 1) ==>
      r.0 == s && r.1 == Warning(NothingToUndo)
  {
    if s.canvas.Some? && |s.undoStack| > 1 then
      var last := Top(s.undoStack);
      var remaining := s.undoStack[..|s.undoStack| - 1];
      var redo := if last != "" then s.redoStack + [last] else s.redoStack;
      var previous := Top(remaining);
      (Session(remaining, redo, Some(s.canvas.value.(restored := Some(previous))), s.isBrushing), Quiet)
    else
      (s, Warning(NothingToUndo))
  }

  /**
    Brush button: with a surface, drawing mode is negated and the label flag
    copies the new mode; without one nothing happens.
   */
  function ToggleBrushing(s: Session): (r: Session)
    ensures s.canvas.Some? ==>
      && r.canvas.Some?
      && r.canvas.value.drawingMode == !s.canvas.value.drawingMode
      && r.isBrushing == r.canvas.value.drawingMode
      && r.canvas.value.restored == s.canvas.value.restored
    ensures s.canvas.None? ==> r == s
    ensures r.undoStack == s.undoStack && r.redoStack == s.redoStack
  {
    if s.canvas.Some? then
      var mode := !s.canvas.value.drawingMode;
      s.(canvas := Some(s.canvas.value.(drawingMode := mode)), isBrushing := mode)
    else
      s
  }

  // ---------------------------------------------------------------------
  // Single-step properties
  // ---------------------------------------------------------------------

  lemma SaveKeepsNoAdjacentDuplicates(s: Session, current: string)
    requires NoAdjacentDuplicates(s.undoStack)
    ensures NoAdjacentDuplicates(SaveState(s, current).undoStack)
  {
  }

  lemma UndoKeepsNoAdjacentDuplicates(s: Session)
    requires NoAdjacentDuplicates(s.undoStack)
    ensures NoAdjacentDuplicates(Undo(s).0.undoStack)
  {
  }

  /** A second save of the same serialization is a no-op. */
  lemma SaveTwiceIsSaveOnce(s: Session, current: string)
    ensures SaveState(SaveState(s, current), current) == SaveState(s, current)
  {
  }

  /** Undo never empties a non-empty stack and never touches the bottom entry. */
  lemma UndoKeepsBaseline(s: Session)
    requires |s.undoStack| > 0
    ensures |Undo(s).0.undoStack| > 0
    ensures Undo(s).0.undoStack[0] == s.undoStack[0]
  {
  }

  /** Toggling the brush twice gives back the session it started from. */
  lemma ToggleTwiceRestores(s: Session)
    requires s.canvas.Some? ==> s.isBrushing == s.canvas.value.drawingMode
    ensures ToggleBrushing(ToggleBrushing(s)) == s
  {
  }

  /** An undo right after a save that pushed brings back the state before it. */
  lemma SaveThenUndoRestoresPrevious(s: Session, current: string)
    requires s.canvas.Some? && |s.undoStack| > 0 && Top(s.undoStack) != current
    ensures var r := Undo(SaveState(s, current)).0;
      && r.undoStack == s.undoStack
      && r.canvas.value.restored == Some(Top(s.undoStack))
  {
  }

  // ---------------------------------------------------------------------
  // Event sequences
  // ---------------------------------------------------------------------

  /** The user-visible events after the surface exists. */
  datatype Event =
    | Saved(serialized: string)  // a path was created or an object modified
    | UndoClicked
    | ToggleClicked

  function Step(s: Session, e: Event): Session {
    match e
    case Saved(current) => SaveState(s, current)
    case UndoClicked => Undo(s).0
    case ToggleClicked => ToggleBrushing(s)
  }

  function Replay(s: Session, events: seq<Event>): Session
    decreases |events|
  {
    if |events| == 0 then s else Replay(Step(s, events[0]), events[1..])
  }

  /** The invariant of every session reachable after the surface is created. */
  predicate Consistent(s: Session) {
    && NoAdjacentDuplicates(s.undoStack)
    && (s.canvas.Some? ==> s.isBrushing == s.canvas.value.drawingMode)
  }

  lemma MountedIsConsistent()
    ensures Consistent(Mount(Initial()))
  {
  }

  lemma StepKeepsConsistent(s: Session, e: Event)
    requires Consistent(s)
    ensures Consistent(Step(s, e))
  {
  }

  /** No sequence of saves, undos and toggles breaks the invariant. */
  lemma {:induction false} ReplayKeepsConsistent(s: Session, events: seq<Event>)
    requires Consistent(s)
    ensures Consistent(Replay(s, events))
    decreases |events|
  {
    if |events| > 0 {
      StepKeepsConsistent(s, events[0]);
      ReplayKeepsConsistent(Step(s, events[0]), events[1..]);
    }
  }

  /** Once a snapshot exists, no sequence of events removes the bottom one. */
  lemma {:induction false} ReplayKeepsBaseline(s: Session, events: seq<Event>)
    requires |s.undoStack| > 0
    ensures |Replay(s, events).undoStack| > 0
    ensures Replay(s, events).undoStack[0] == s.undoStack[0]
    decreases |events|
  {
    if |events| > 0 {
      if events[0].UndoClicked? {
        UndoKeepsBaseline(s);
      }
      ReplayKeepsBaseline(Step(s, events[0]), events[1..]);
    }
  }

  /**
    The auxiliary stack is written but never read: two sessions that differ
    only in it stay equal in everything else under any events.
   */
  lemma {:induction false} RedoStackIsWriteOnly(s: Session, t: Session, events: seq<Event>)
    requires s.(redoStack := t.redoStack) == t
    ensures Replay(s, events).(redoStack := Replay(t, events).redoStack) == Replay(t, events)
    decreases |events|
  {
    if |events| > 0 {
      var s', t' := Step(s, events[0]), Step(t, events[0]);
      assert s'.(redoStack := t'.redoStack) == t';
      RedoStackIsWriteOnly(s', t', events[1..]);
    }
  }

  /**
    Nothing pushes a snapshot of the blank surface, so the first save becomes
    the bottom entry and the first stroke cannot be undone: undo only warns.
   */
  lemma FirstSaveCannotBeUndone(current: string)
    ensures var s := SaveState(Mount(Initial()), current);
      && s.undoStack == [current]
      && Undo(s) == (s, Warning(NothingToUndo))
  {
  }
}
