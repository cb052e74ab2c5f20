/** The undo/redo history of the drawing overlay
    (src/components/video/DrawingCanvas.tsx): a list of canvas snapshots and
    a cursor into it, at most 20 entries, with everything after the cursor
    dropped when a new snapshot is saved. A snapshot (`ImageData`) is the
    opaque type `T`; taking one is a parameter of the operation that saves. */
module Drawing {
  import opened Common

  /** Snapshots kept at most. */
  const MaxHistory: nat := 20

  /** `history` and `historyIndex` together. */
  datatype History<T> = History(entries: seq<T>, index: int) {
    /** At most 20 snapshots; the cursor is -1 exactly when there are none
        and otherwise points at one of them. */
    predicate Valid() {
      && |entries| <= MaxHistory
      && (if entries == [] then index == -1 else 0 <= index < |entries|)
    }

    /** `historyIndex > 0`, the first flag passed to `onHistoryChange`. */
    predicate CanUndo() {
      index > 0
    }

    /** `historyIndex < history.length - 1`, the second flag. */
    predicate CanRedo() {
      index < |entries| - 1
    }

    /** `history[historyIndex]`, which is `undefined` off the list. */
    function Current(): Option<T> {
      if 0 <= index < |entries| then Some(entries[index]) else None
    }
  }

  /** The state before the canvas is set up: no snapshot, cursor -1. */
  function Unset<T>(): (h: History<T>)
    ensures h.Valid() && !h.CanUndo() && !h.CanRedo() && h.Current() == None
  {
    History([], -1)
  }

  /** The state after setup: the blank canvas as the only snapshot. */
  function Initial<T>(blank: T): (h: History<T>)
    ensures h.Valid() && !h.CanUndo() && !h.CanRedo() && h.Current() == Some(blank)
  {
    History([blank], 0)
  }

  /** `saveState`: keep the snapshots up to the cursor, add `s`, and when
      that makes 21 drop the oldest (leaving the cursor where it was, which
      is then the last entry). */
  function Saved<T>(h: History<T>, s: T): (r: History<T>)
    requires h.Valid()
    ensures r.Valid()
    ensures |r.entries| >= 1 && r.entries[|r.entries| - 1] == s && r.index == |r.entries| - 1
    ensures h.index + 1 < MaxHistory ==> r.entries == h.entries[..h.index + 1] + [s]
    ensures h.index + 1 == MaxHistory ==> |r.entries| == MaxHistory && r.entries == h.entries[1..] + [s]
  {
    var kept := h.entries[..h.index + 1] + [s];
    if |kept| > MaxHistory then History(kept[1..], h.index) else History(kept, |kept| - 1)
  }

  /** What saving keeps is the last 20 of the snapshots up to the cursor
      followed by the new one. */
  lemma SavedKeepsLast<T>(h: History<T>, s: T)
    requires h.Valid()
    ensures Saved(h, s).entries == KeepLast(h.entries[..h.index + 1] + [s], MaxHistory)
  {
  }

  /** After a save there is nothing to redo, and there is something to undo
      exactly when a snapshot was there before. */
  lemma SaveClearsRedo<T>(h: History<T>, s: T)
    requires h.Valid()
    ensures !Saved(h, s).CanRedo()
    ensures Saved(h, s).CanUndo() <==> h.index >= 0
  {
  }

  /** The history after an undo or redo, and the snapshot put back on the
      canvas (None when nothing happened). */
  datatype Step<T> = Step(history: History<T>, restored: Option<T>)

  /** `undo`: step the cursor back and restore that snapshot, unless at the
      first one. The snapshot list is never changed. */
  function Undone<T>(h: History<T>): (r: Step<T>)
    requires h.Valid()
    ensures r.history.Valid() && r.history.entries == h.entries
    ensures h.CanUndo() ==> r.history.index == h.index - 1 && r.restored == Some(h.entries[h.index - 1])
    ensures !h.CanUndo() ==> r == Step(h, None)
  {
    if h.index > 0 then Step(History(h.entries, h.index - 1), Some(h.entries[h.index - 1]))
    else Step(h, None)
  }

  /** `redo`: step the cursor forward and restore that snapshot, unless at
      the last one. The snapshot list is never changed. */
  function Redone<T>(h: History<T>): (r: Step<T>)
    requires h.Valid()
    ensures r.history.Valid() && r.history.entries == h.entries
    ensures h.CanRedo() ==> r.history.index == h.index + 1 && r.restored == Some(h.entries[h.index + 1])
    ensures !h.CanRedo() ==> r == Step(h, None)
  {
    if h.index < |h.entries| - 1 then Step(History(h.entries, h.index + 1), Some(h.entries[h.index + 1]))
    else Step(h, None)
  }

  /** Undo then redo comes back to the same cursor and restores the snapshot
      that was current. */
  lemma UndoRedoRoundTrip<T>(h: History<T>)
    requires h.Valid() && h.CanUndo()
    ensures Redone(Undone(h).history) == Step(h, h.Current())
  {
  }

  /** Redo then undo comes back to the same cursor and restores the snapshot
      that was current. */
  lemma RedoUndoRoundTrip<T>(h: History<T>)
    requires h.Valid() && h.CanRedo()
    ensures Undone(Redone(h).history) == Step(h, h.Current())
  {
  }

  /** Undoing a save brings back the snapshot that was current before it,
      also when the save dropped the oldest snapshot. */
  lemma SaveThenUndo<T>(h: History<T>, s: T)
    requires h.Valid() && h.index >= 0
    ensures Undone(Saved(h, s)).restored == h.Current()
    ensures Undone(Saved(h, s)).history.Current() == h.Current()
  {
    var r := Saved(h, s);
    assert r.entries[r.index - 1] == h.entries[h.index];
  }

  /** The drawing overlay's state as far as the history is concerned. */
  class DrawingCanvas<T> {
    var history: seq<T>
    var historyIndex: int
    var isDrawing: bool
    /** `contextRef.current` is set (the 2-d context was obtained). */
    var hasContext: bool
    var width: int
    var height: int

    ghost predicate Valid()
      reads this
    {
      History(history, historyIndex).Valid()
    }

    /** The first render: no snapshot, cursor -1, not drawing. */
    constructor (w: int, h: int)
      ensures Valid()
      ensures history == [] && historyIndex == -1
      ensures !isDrawing && !hasContext && width == w && height == h
    {
      history := [];
      historyIndex := -1;
      isDrawing := false;
      hasContext := false;
      width := w;
      height := h;
    }

    /** The size effect: for a positive size, when a 2-d context is
        available, the history restarts from the blank canvas. */
    method Resize(w: int, h: int, contextAvailable: bool, blank: T)
      requires Valid()
      modifies this`width, this`height, this`hasContext, this`history, this`historyIndex
      ensures Valid()
      ensures width == w && height == h
      ensures w > 0 && h > 0 && contextAvailable ==>
        hasContext && History(history, historyIndex) == Initial(blank)
      ensures !(w > 0 && h > 0 && contextAvailable) ==>
        hasContext == old(hasContext) && history == old(history) && historyIndex == old(historyIndex)
    {
      width := w;
      height := h;
      if w <= 0 || h <= 0 {
        return;
      }
      if contextAvailable {
        hasContext := true;
        history := [blank];
        historyIndex := 0;
      }
    }

    /** `saveState`: with a context and a positive size, `snapshot` (the
        canvas as it is now) is saved. */
    method SaveState(snapshot: T)
      requires Valid()
      modifies this`history, this`historyIndex
      ensures Valid()
      ensures hasContext && width > 0 && height > 0 ==>
        History(history, historyIndex) == Saved(History(old(history), old(historyIndex)), snapshot)
      ensures !(hasContext && width > 0 && height > 0) ==>
        history == old(history) && historyIndex == old(historyIndex)
    {
      if hasContext && width > 0 && height > 0 {
        var newHistory := history[..historyIndex + 1];
        newHistory := newHistory + [snapshot];
        if |newHistory| > MaxHistory {
          newHistory := newHistory[1..];
        } else {
          historyIndex := |newHistory| - 1;
        }
        history := newHistory;
      }
    }

    /** `clear`: with a context, the wiped canvas `blank` is saved. */
    method Clear(blank: T)
      requires Valid()
      modifies this`history, this`historyIndex
      ensures Valid()
      ensures hasContext && width > 0 && height > 0 ==>
        History(history, historyIndex) == Saved(History(old(history), old(historyIndex)), blank)
      ensures !(hasContext && width > 0 && height > 0) ==>
        history == old(history) && historyIndex == old(historyIndex)
    {
      if hasContext {
        SaveState(blank);
      }
    }

    /** `undo`, returning the snapshot put back on the canvas. */
    method Undo() returns (restored: Option<T>)
      requires Valid()
      modifies this`historyIndex
      ensures Valid()
      ensures Step(History(history, historyIndex), restored) == Undone(History(history, old(historyIndex)))
    {
      var r := Undone(History(history, historyIndex));
      historyIndex := r.history.index;
      restored := r.restored;
    }

    /** `redo`, returning the snapshot put back on the canvas. */
    method Redo() returns (restored: Option<T>)
      requires Valid()
      modifies this`historyIndex
      ensures Valid()
      ensures Step(History(history, historyIndex), restored) == Redone(History(history, old(historyIndex)))
    {
      var r := Redone(History(history, historyIndex));
      historyIndex := r.history.index;
      restored := r.restored;
    }

    /** `startDrawing`: a stroke begins; the history is not touched. */
    method StartDrawing()
      modifies this`isDrawing
      ensures isDrawing
    {
      isDrawing := true;
    }

    /** `draw` for a shape tool: while a stroke is in progress the preview
        starts from the current snapshot, which is only read. */
    method PreviewBase() returns (base: Option<T>)
      ensures base == (if isDrawing && hasContext then History(history, historyIndex).Current() else None)
    {
      if !isDrawing || !hasContext {
        return None;
      }
      if 0 <= historyIndex < |history| {
        base := Some(history[historyIndex]);
      } else {
        base := None;
      }
    }

    /** `stopDrawing`: ending a stroke in progress saves the canvas as it now
        is; otherwise nothing happens. */
    method StopDrawing(snapshot: T)
      requires Valid()
      modifies this`isDrawing, this`history, this`historyIndex
      ensures Valid()
      ensures !isDrawing
      ensures old(isDrawing) && hasContext && width > 0 && height > 0 ==>
        History(history, historyIndex) == Saved(History(old(history), old(historyIndex)), snapshot)
      ensures !(old(isDrawing) && hasContext && width > 0 && height > 0) ==>
        history == old(history) && historyIndex == old(historyIndex)
    {
      if isDrawing {
        isDrawing := false;
        SaveState(snapshot);
      }
    }

    /** The two flags reported through `onHistoryChange`. */
    function Flags(): (flags: (bool, bool))
      reads this
      ensures flags.0 <==> historyIndex > 0
      ensures flags.1 <==> historyIndex < |history| - 1
    {
      (History(history, historyIndex).CanUndo(), History(history, historyIndex).CanRedo())
    }
  }
}
