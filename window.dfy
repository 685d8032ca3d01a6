/**
  The document engine inside `MainWindow`: a live design, an undo stack and a
  redo stack of design snapshots, the selected element, and the editing
  commands that checkpoint the live design before changing it.

  Each command is first given as a step function on an `Editor` value (the
  specification); the `MainWindow` class holds the same state in fields and
  its methods update them in place, each proved to take the step its
  function describes.
*/
module Window {
  import opened Wrappers
  import opened Elements
  import opened Designs

  /** No element of the list is flagged as selected. */
  predicate NoneSelected(es: seq<Element>) {
    forall k :: 0 <= k < |es| ==> !es[k].isSelected
  }

  /**
    Ids for a snapshot of `es`: one per element, pairwise distinct, and each
    different from the id of the element it is cloned from (fresh GUIDs).
  */
  predicate FreshIds(ids: seq<Id>, es: seq<Element>) {
    && |ids| == |es|
    && (forall i, j :: 0 <= i < j < |ids| ==> ids[i] != ids[j])
    && (forall k :: 0 <= k < |ids| ==> ids[k] != es[k].id)
  }

  /** `element.Clone()` for each element in turn, the k-th using `ids[k]`. */
  function CloneAll(es: seq<Element>, ids: seq<Id>): (r: seq<Element>)
    requires |ids| == |es| && forall k :: 0 <= k < |es| ==> ids[k] != es[k].id
    ensures |r| == |es|
    ensures forall k :: 0 <= k < |es| ==> r[k] == Clone(es[k], ids[k])
  {
    if es == [] then []
    else [Clone(es[0], ids[0])] + CloneAll(es[1..], ids[1..])
  }

  /**
    The design `CloneDesign` returns: same name and canvas, and every element
    replaced by its clone, so shifted by (+10, +10), with a new id and not selected.
  */
  function Snapshot(d: Design, ids: seq<Id>): (c: Design)
    requires FreshIds(ids, d.elements)
    ensures c.name == d.name && c.canvasWidth == d.canvasWidth && c.canvasHeight == d.canvasHeight
    ensures |c.elements| == |d.elements|
    ensures forall k :: 0 <= k < |d.elements| ==> c.elements[k] == Clone(d.elements[k], ids[k])
    ensures forall k :: 0 <= k < |d.elements| ==>
      c.elements[k].id == ids[k] &&
      c.elements[k].x == d.elements[k].x + CloneOffset && c.elements[k].y == d.elements[k].y + CloneOffset
    ensures NoneSelected(c.elements) && UniqueIds(c.elements)
    ensures d.elements != [] ==> c != d
  {
    var c := Design(d.name, d.canvasWidth, d.canvasHeight, CloneAll(d.elements, ids));
    assert d.elements != [] ==> c.elements[0].x != d.elements[0].x;
    c
  }

  /** A design that may sit on a stack: unique ids and nothing selected. */
  predicate Restorable(d: Design) {
    UniqueIds(d.elements) && NoneSelected(d.elements)
  }

  /** The index `selected` is in range and is exactly the element whose flag is set. */
  predicate SelectionAgrees(es: seq<Element>, selected: Option<nat>) {
    && (selected.Some? ==> selected.value < |es|)
    && (forall k :: 0 <= k < |es| ==> (es[k].isSelected <==> selected == Some(k)))
  }

  /** The state of the editor: `_currentDesign`, `_undoStack`, `_redoStack`, `_selectedElement`. */
  datatype Editor = Editor(design: Design, undoStack: seq<Design>, redoStack: seq<Design>, selected: Option<nat>)

  /** The invariant the editing commands keep. */
  predicate Consistent(s: Editor) {
    && UniqueIds(s.design.elements)
    && SelectionAgrees(s.design.elements, s.selected)
    && (forall k :: 0 <= k < |s.undoStack| ==> Restorable(s.undoStack[k]))
    && (forall k :: 0 <= k < |s.redoStack| ==> Restorable(s.redoStack[k]))
  }

  /** The state a freshly opened window, or "New", starts from. */
  function Initial(): (s: Editor)
    ensures s.design == NewDesign() && s.undoStack == [] && s.redoStack == [] && s.selected.None?
    ensures Consistent(s)
  {
    Editor(NewDesign(), [], [], None)
  }

  /** The Undo menu item is enabled. */
  predicate CanUndo(s: Editor) {
    |s.undoStack| > 0
  }

  /** The Redo menu item is enabled. */
  predicate CanRedo(s: Editor) {
    |s.redoStack| > 0
  }

  /** `SaveToUndoStack`: push a snapshot of the live design and forget every redo. */
  function Checkpoint(s: Editor, ids: seq<Id>): (r: Editor)
    requires FreshIds(ids, s.design.elements)
    ensures |r.undoStack| == |s.undoStack| + 1
    ensures r.undoStack[..|s.undoStack|] == s.undoStack
    ensures r.undoStack[|s.undoStack|] == Snapshot(s.design, ids)
    ensures r.redoStack == [] && !CanRedo(r) && CanUndo(r)
    ensures r.design == s.design && r.selected == s.selected
  {
    s.(undoStack := s.undoStack + [Snapshot(s.design, ids)], redoStack := [])
  }

  /** `Undo_Click`: with an empty undo stack nothing happens. */
  function UndoStep(s: Editor, ids: seq<Id>): (r: Editor)
    requires CanUndo(s) ==> FreshIds(ids, s.design.elements)
    ensures !CanUndo(s) ==> r == s
    ensures CanUndo(s) ==>
      && r.design == s.undoStack[|s.undoStack| - 1]
      && r.undoStack == s.undoStack[..|s.undoStack| - 1]
      && r.redoStack == s.redoStack + [Snapshot(s.design, ids)]
      && r.selected.None?
  {
    if |s.undoStack| == 0 then s
    else
      var n := |s.undoStack|;
      Editor(s.undoStack[n - 1], s.undoStack[..n - 1], s.redoStack + [Snapshot(s.design, ids)], None)
  }

  /** `Redo_Click`: the same as Undo with the two stacks' roles swapped. */
  function RedoStep(s: Editor, ids: seq<Id>): (r: Editor)
    requires CanRedo(s) ==> FreshIds(ids, s.design.elements)
    ensures !CanRedo(s) ==> r == s
    ensures CanRedo(s) ==>
      && r.design == s.redoStack[|s.redoStack| - 1]
      && r.redoStack == s.redoStack[..|s.redoStack| - 1]
      && r.undoStack == s.undoStack + [Snapshot(s.design, ids)]
      && r.selected.None?
  {
    if |s.redoStack| == 0 then s
    else
      var n := |s.redoStack|;
      Editor(s.redoStack[n - 1], s.undoStack + [Snapshot(s.design, ids)], s.redoStack[..n - 1], None)
  }

  /** The state with the undo and redo stacks exchanged. */
  function Mirror(s: Editor): (r: Editor)
    ensures r.undoStack == s.redoStack && r.redoStack == s.undoStack
    ensures r.design == s.design && r.selected == s.selected
  {
    s.(undoStack := s.redoStack, redoStack := s.undoStack)
  }

  /** `NewDesign_Click` once confirmed: the default design, no history, no selection. */
  function NewStep(s: Editor): (r: Editor)
    ensures r.design == NewDesign() && r.undoStack == [] && r.redoStack == [] && r.selected.None?
    ensures !CanUndo(r) && !CanRedo(r)
  {
    Initial()
  }

  /** `Delete_Click`: without a selection nothing happens. */
  function DeleteStep(s: Editor, ids: seq<Id>): (r: Editor)
    requires s.selected.Some? ==> s.selected.value < |s.design.elements| && FreshIds(ids, s.design.elements)
    ensures s.selected.None? ==> r == s
    ensures s.selected.Some? ==>
      var es := s.design.elements;
      && r.undoStack == Checkpoint(s, ids).undoStack && r.redoStack == []
      && r.design.name == s.design.name
      && r.design.canvasWidth == s.design.canvasWidth && r.design.canvasHeight == s.design.canvasHeight
      && |r.design.elements| == |es| - 1
      && multiset(r.design.elements) == multiset(es) - multiset{es[s.selected.value]}
      && r.selected.None?
  {
    match s.selected
    case None => s
    case Some(i) =>
      var c := Checkpoint(s, ids);
      var es := c.design.elements;
      c.(design := c.design.(elements := RemoveFirst(es, es[i])), selected := None)
  }

  /** `Duplicate_Click`: without a selection nothing happens. */
  function DuplicateStep(s: Editor, ids: seq<Id>, cloneId: Id): (r: Editor)
    requires s.selected.Some? ==>
      && s.selected.value < |s.design.elements| && FreshIds(ids, s.design.elements)
      && cloneId != s.design.elements[s.selected.value].id
    ensures s.selected.None? ==> r == s
    ensures r.design.name == s.design.name
    ensures r.design.canvasWidth == s.design.canvasWidth && r.design.canvasHeight == s.design.canvasHeight
    ensures s.selected.Some? ==>
      var es, i := s.design.elements, s.selected.value;
      && r.undoStack == Checkpoint(s, ids).undoStack && r.redoStack == []
      && |r.design.elements| == |es| + 1
      && r.design.elements[..|es|] == es[i := es[i].(isSelected := false)]
      && r.design.elements[|es|] == Clone(es[i], cloneId).(isSelected := true)
      && r.selected == Some(|es|)
  {
    match s.selected
    case None => s
    case Some(i) =>
      var c := Checkpoint(s, ids);
      var es := c.design.elements;
      var clone := Clone(es[i], cloneId);
      var es' := es[i := es[i].(isSelected := false)] + [clone.(isSelected := true)];
      c.(design := c.design.(elements := es'), selected := Some(|es|))
  }

  /** The text element `AddText_Click` creates when the list holds `count` elements. */
  function AddedText(id: Id, count: nat): (e: Element)
    ensures e.TextElement? && e.id == id && !e.isSelected
    ensures e.x == 50.0 && e.y == 50.0 && e.zIndex == count
    ensures var d := NewText(id);
      && e.width == d.width && e.height == d.height && e.rotation == d.rotation
      && e.text == d.text && e.fontFamily == d.fontFamily && e.fontSize == d.fontSize
      && e.fontWeight == d.fontWeight && e.fontStyle == d.fontStyle && e.textAlignment == d.textAlignment
  {
    var d := NewText(id);
    TextElement(id, 50.0, 50.0, d.width, d.height, d.rotation, d.isSelected, count,
      d.text, d.fontFamily, d.fontSize, d.fontWeight, d.fontStyle, d.textAlignment)
  }

  /**
    The shape element `AddRectangle_Click`, `AddCircle_Click` or `AddLine_Click`
    creates when the list holds `count` elements; a line is 100 wide and 0 high.
  */
  function AddedShape(id: Id, count: nat, shape: ShapeType): (e: Element)
    ensures e.ShapeElement? && e.id == id && !e.isSelected && e.shapeType == shape
    ensures e.x == 50.0 && e.y == 50.0 && e.zIndex == count
    ensures shape == Line ==> e.width == 100.0 && e.height == 0.0
    ensures shape != Line ==> e.width == NewShape(id).width && e.height == NewShape(id).height
    ensures e.rotation == NewShape(id).rotation && e.strokeThickness == NewShape(id).strokeThickness
  {
    var d := NewShape(id);
    var height := if shape == Line then 0.0 else d.height;
    ShapeElement(id, 50.0, 50.0, if shape == Line then 100.0 else d.width, height, d.rotation, d.isSelected, count,
      shape, d.strokeThickness)
  }

  /** The Add toolbar commands: checkpoint, then append `e`. */
  function AddStep(s: Editor, ids: seq<Id>, e: Element): (r: Editor)
    requires FreshIds(ids, s.design.elements)
    ensures r.undoStack == Checkpoint(s, ids).undoStack && r.redoStack == []
    ensures r.design.name == s.design.name
    ensures r.design.canvasWidth == s.design.canvasWidth && r.design.canvasHeight == s.design.canvasHeight
    ensures |r.design.elements| == |s.design.elements| + 1
    ensures r.design.elements[..|s.design.elements|] == s.design.elements
    ensures r.design.elements[|s.design.elements|] == e
    ensures r.selected == s.selected
  {
    var c := Checkpoint(s, ids);
    c.(design := c.design.(elements := c.design.elements + [e]))
  }

  /** Clicking element `i` deselects the previous selection and selects `i`. */
  function SelectStep(s: Editor, i: nat): (r: Editor)
    requires i < |s.design.elements|
    requires s.selected.Some? ==> s.selected.value < |s.design.elements|
    ensures r.undoStack == s.undoStack && r.redoStack == s.redoStack
    ensures r.selected == Some(i)
    ensures r.design.name == s.design.name
    ensures r.design.canvasWidth == s.design.canvasWidth && r.design.canvasHeight == s.design.canvasHeight
    ensures |r.design.elements| == |s.design.elements|
    ensures r.design.elements[i].isSelected
    ensures forall k :: 0 <= k < |s.design.elements| ==>
      r.design.elements[k] == s.design.elements[k].(isSelected := r.design.elements[k].isSelected)
  {
    var es := s.design.elements;
    var cleared := if s.selected.Some? then es[s.selected.value := es[s.selected.value].(isSelected := false)] else es;
    s.(design := s.design.(elements := cleared[i := cleared[i].(isSelected := true)]), selected := Some(i))
  }

  /** Clicking the empty canvas clears the selection. */
  function DeselectStep(s: Editor): (r: Editor)
    requires s.selected.Some? ==> s.selected.value < |s.design.elements|
    ensures r.undoStack == s.undoStack && r.redoStack == s.redoStack
    ensures r.selected.None?
    ensures r.design.name == s.design.name
    ensures r.design.canvasWidth == s.design.canvasWidth && r.design.canvasHeight == s.design.canvasHeight
    ensures |r.design.elements| == |s.design.elements|
    ensures forall k :: 0 <= k < |s.design.elements| ==>
      r.design.elements[k] == s.design.elements[k].(isSelected := r.design.elements[k].isSelected)
    ensures s.selected.None? ==> r == s
  {
    match s.selected
    case None => s
    case Some(i) =>
      var es := s.design.elements;
      s.(design := s.design.(elements := es[i := es[i].(isSelected := false)]), selected := None)
  }

  // Properties of the history.

  /** The Undo menu item is enabled exactly when Undo would change the state. */
  lemma UndoEnabled(s: Editor, ids: seq<Id>)
    requires CanUndo(s) ==> FreshIds(ids, s.design.elements)
    ensures CanUndo(s) <==> UndoStep(s, ids) != s
  {
    if CanUndo(s) {
      assert |UndoStep(s, ids).undoStack| < |s.undoStack|;
    }
  }

  /** The Redo menu item is enabled exactly when Redo would change the state. */
  lemma RedoEnabled(s: Editor, ids: seq<Id>)
    requires CanRedo(s) ==> FreshIds(ids, s.design.elements)
    ensures CanRedo(s) <==> RedoStep(s, ids) != s
  {
    if CanRedo(s) {
      assert |RedoStep(s, ids).redoStack| < |s.redoStack|;
    }
  }

  /** Redo is Undo on the state with the stacks exchanged. */
  lemma RedoMirrorsUndo(s: Editor, ids: seq<Id>)
    requires CanRedo(s) ==> FreshIds(ids, s.design.elements)
    ensures RedoStep(s, ids) == Mirror(UndoStep(Mirror(s), ids))
  {
  }

  /**
    Undo then Redo restores both stack lengths and the redo stack, but the live
    design comes back as a snapshot of the one before Undo, not that design itself.
  */
  lemma UndoThenRedo(s: Editor, ids1: seq<Id>, ids2: seq<Id>)
    requires CanUndo(s) && FreshIds(ids1, s.design.elements)
    requires FreshIds(ids2, s.undoStack[|s.undoStack| - 1].elements)
    ensures var t := UndoStep(s, ids1);
      CanRedo(t) &&
      var r := RedoStep(t, ids2);
      && |r.undoStack| == |s.undoStack| && |r.redoStack| == |s.redoStack|
      && r.redoStack == s.redoStack
      && r.undoStack[..|s.undoStack| - 1] == s.undoStack[..|s.undoStack| - 1]
      && r.design == Snapshot(s.design, ids1)
      && (s.design.elements != [] ==> r.design != s.design)
  {
    var t := UndoStep(s, ids1);
    assert t.redoStack == s.redoStack + [Snapshot(s.design, ids1)];
    var r := RedoStep(t, ids2);
    assert r.redoStack == t.redoStack[..|s.redoStack|];
  }

  // The invariant is kept by every command.

  lemma CheckpointKeeps(s: Editor, ids: seq<Id>)
    requires Consistent(s) && FreshIds(ids, s.design.elements)
    ensures Consistent(Checkpoint(s, ids))
  {
    var r := Checkpoint(s, ids);
    forall k | 0 <= k < |r.undoStack|
      ensures Restorable(r.undoStack[k])
    {
      if k < |s.undoStack| {
        assert r.undoStack[k] == s.undoStack[k];
      }
    }
  }

  lemma UndoKeeps(s: Editor, ids: seq<Id>)
    requires Consistent(s) && (CanUndo(s) ==> FreshIds(ids, s.design.elements))
    ensures Consistent(UndoStep(s, ids))
  {
    if CanUndo(s) {
      var r := UndoStep(s, ids);
      assert Restorable(s.undoStack[|s.undoStack| - 1]);
      forall k | 0 <= k < |r.redoStack|
        ensures Restorable(r.redoStack[k])
      {
        if k < |s.redoStack| {
          assert r.redoStack[k] == s.redoStack[k];
        }
      }
    }
  }

  lemma RedoKeeps(s: Editor, ids: seq<Id>)
    requires Consistent(s) && (CanRedo(s) ==> FreshIds(ids, s.design.elements))
    ensures Consistent(RedoStep(s, ids))
  {
    if CanRedo(s) {
      var r := RedoStep(s, ids);
      assert Restorable(s.redoStack[|s.redoStack| - 1]);
      forall k | 0 <= k < |r.undoStack|
        ensures Restorable(r.undoStack[k])
      {
        if k < |s.undoStack| {
          assert r.undoStack[k] == s.undoStack[k];
        }
      }
    }
  }

  /** Delete removes exactly the selected element and keeps the others in order. */
  lemma DeleteRemovesSelected(s: Editor, ids: seq<Id>)
    requires Consistent(s) && s.selected.Some? && FreshIds(ids, s.design.elements)
    ensures var es, i := s.design.elements, s.selected.value;
      DeleteStep(s, ids).design.elements == es[..i] + es[i + 1..]
  {
    RemoveFirstUnique(s.design.elements, s.selected.value);
  }

  /** Removing the one selected element of a list with unique ids leaves no selection and unique ids. */
  lemma RemoveSelectedKeeps(es: seq<Element>, i: nat)
    requires UniqueIds(es) && SelectionAgrees(es, Some(i))
    ensures var rest := es[..i] + es[i + 1..];
      UniqueIds(rest) && SelectionAgrees(rest, None)
  {
    var rest := es[..i] + es[i + 1..];
    assert forall k :: 0 <= k < |rest| ==> rest[k] == es[if k < i then k else k + 1];
  }

  lemma DeleteKeeps(s: Editor, ids: seq<Id>)
    requires Consistent(s) && (s.selected.Some? ==> FreshIds(ids, s.design.elements))
    ensures Consistent(DeleteStep(s, ids))
  {
    if s.selected.Some? {
      var es, i := s.design.elements, s.selected.value;
      var c, r := Checkpoint(s, ids), DeleteStep(s, ids);
      CheckpointKeeps(s, ids);
      DeleteRemovesSelected(s, ids);
      RemoveSelectedKeeps(es, i);
      assert r == c.(design := c.design.(elements := es[..i] + es[i + 1..]), selected := None);
    }
  }

  lemma DuplicateKeeps(s: Editor, ids: seq<Id>, cloneId: Id)
    requires Consistent(s)
    requires s.selected.Some? ==> FreshIds(ids, s.design.elements) && cloneId !in Ids(s.design.elements)
    ensures Consistent(DuplicateStep(s, ids, cloneId))
  {
    if s.selected.Some? {
      var es, i := s.design.elements, s.selected.value;
      assert es[i].id in Ids(es);
      CheckpointKeeps(s, ids);
      var r := DuplicateStep(s, ids, cloneId);
      var rs := r.design.elements;
      forall k | 0 <= k < |es|
        ensures rs[k].id == es[k].id && (rs[k].isSelected <==> r.selected == Some(k))
      {
        assert rs[k] == rs[..|es|][k];
      }
      assert rs[|es|].id == cloneId;
      forall a, b | 0 <= a < b < |rs|
        ensures rs[a].id != rs[b].id
      {
        if b == |es| {
          assert es[a].id in Ids(es);
        }
      }
    }
  }

  lemma AddKeeps(s: Editor, ids: seq<Id>, e: Element)
    requires Consistent(s) && FreshIds(ids, s.design.elements)
    requires e.id !in Ids(s.design.elements) && !e.isSelected
    ensures Consistent(AddStep(s, ids, e))
  {
    CheckpointKeeps(s, ids);
    var es := s.design.elements;
    var rs := AddStep(s, ids, e).design.elements;
    forall k | 0 <= k < |es|
      ensures rs[k] == es[k]
    {
      assert rs[k] == rs[..|es|][k];
    }
    forall a, b | 0 <= a < b < |rs|
      ensures rs[a].id != rs[b].id
    {
      if b == |es| {
        assert es[a].id in Ids(es);
      }
    }
  }

  lemma SelectKeeps(s: Editor, i: nat)
    requires Consistent(s) && i < |s.design.elements|
    ensures Consistent(SelectStep(s, i))
  {
    var r := SelectStep(s, i);
    var es, rs := s.design.elements, r.design.elements;
    forall a, b | 0 <= a < b < |rs|
      ensures rs[a].id != rs[b].id
    {
      assert rs[a].id == es[a].id && rs[b].id == es[b].id;
    }
  }

  lemma DeselectKeeps(s: Editor)
    requires Consistent(s)
    ensures Consistent(DeselectStep(s))
  {
    var r := DeselectStep(s);
    var es, rs := s.design.elements, r.design.elements;
    forall a, b | 0 <= a < b < |rs|
      ensures rs[a].id != rs[b].id
    {
      assert rs[a].id == es[a].id && rs[b].id == es[b].id;
    }
  }

  /** `CloneDesign`: builds the snapshot element by element. */
  method CloneDesign(d: Design, ids: seq<Id>) returns (c: Design)
    requires FreshIds(ids, d.elements)
    ensures c == Snapshot(d, ids)
  {
    var es: seq<Element> := [];
    for k := 0 to |d.elements|
      invariant |es| == k
      invariant forall m :: 0 <= m < k ==> es[m] == Clone(d.elements[m], ids[m])
    {
      es := es + [Clone(d.elements[k], ids[k])];
    }
    c := Design(d.name, d.canvasWidth, d.canvasHeight, es);
    assert c.elements == Snapshot(d, ids).elements;
  }

  /** The window's document state, updated in place by the command handlers. */
  class MainWindow {
    var design: Design
    var undoStack: seq<Design>
    var redoStack: seq<Design>
    var selected: Option<nat>

    /** The fields as an `Editor` value. */
    function State(): Editor
      reads this
    {
      Editor(design, undoStack, redoStack, selected)
    }

    ghost predicate Valid()
      reads this
    {
      Consistent(State())
    }

    constructor ()
      ensures State() == Initial() && Valid()
    {
      design := NewDesign();
      undoStack := [];
      redoStack := [];
      selected := None;
    }

    /** `UpdateUndoRedoButtons`: whether the Undo item is enabled. */
    function UndoEnabled(): (b: bool)
      reads this
      ensures b <==> CanUndo(State())
    {
      |undoStack| > 0
    }

    /** `UpdateUndoRedoButtons`: whether the Redo item is enabled. */
    function RedoEnabled(): (b: bool)
      reads this
      ensures b <==> CanRedo(State())
    {
      |redoStack| > 0
    }

    method SaveToUndoStack(ids: seq<Id>)
      requires Valid() && FreshIds(ids, design.elements)
      modifies this
      ensures State() == Checkpoint(old(State()), ids) && Valid()
    {
      CheckpointKeeps(State(), ids);
      var copy := CloneDesign(design, ids);
      undoStack := undoStack + [copy];
      redoStack := [];
    }

    method Undo(ids: seq<Id>)
      requires Valid() && (|undoStack| > 0 ==> FreshIds(ids, design.elements))
      modifies this
      ensures State() == UndoStep(old(State()), ids) && Valid()
    {
      UndoKeeps(State(), ids);
      if |undoStack| > 0 {
        var copy := CloneDesign(design, ids);
        redoStack := redoStack + [copy];
        design := undoStack[|undoStack| - 1];
        undoStack := undoStack[..|undoStack| - 1];
        selected := None;
      }
    }

    method Redo(ids: seq<Id>)
      requires Valid() && (|redoStack| > 0 ==> FreshIds(ids, design.elements))
      modifies this
      ensures State() == RedoStep(old(State()), ids) && Valid()
    {
      RedoKeeps(State(), ids);
      if |redoStack| > 0 {
        var copy := CloneDesign(design, ids);
        undoStack := undoStack + [copy];
        design := redoStack[|redoStack| - 1];
        redoStack := redoStack[..|redoStack| - 1];
        selected := None;
      }
    }

    /** `NewDesign_Click` after the user confirms. */
    method New()
      modifies this
      ensures State() == NewStep(old(State())) && Valid()
    {
      design := NewDesign();
      undoStack := [];
      redoStack := [];
      selected := None;
    }

    method Delete(ids: seq<Id>)
      requires Valid() && (selected.Some? ==> FreshIds(ids, design.elements))
      modifies this
      ensures State() == DeleteStep(old(State()), ids) && Valid()
    {
      DeleteKeeps(State(), ids);
      if selected.Some? {
        var i := selected.value;
        SaveToUndoStack(ids);
        design := design.(elements := RemoveFirst(design.elements, design.elements[i]));
        selected := None;
      }
    }

    method Duplicate(ids: seq<Id>, cloneId: Id)
      requires Valid()
      requires selected.Some? ==> FreshIds(ids, design.elements) && cloneId !in Ids(design.elements)
      modifies this
      ensures State() == DuplicateStep(old(State()), ids, cloneId) && Valid()
    {
      DuplicateKeeps(State(), ids, cloneId);
      if selected.Some? {
        var i := selected.value;
        assert design.elements[i].id in Ids(design.elements);
        SaveToUndoStack(ids);
        var clone := Clone(design.elements[i], cloneId);
        var es := design.elements;
        design := design.(elements := es + [clone]);
        design := design.(elements := design.elements[i := es[i].(isSelected := false)]);
        selected := Some(|es|);
        design := design.(elements := design.elements[|es| := clone.(isSelected := true)]);
      }
    }

    /** The four Add toolbar handlers share this: checkpoint, then append. */
    method Append(ids: seq<Id>, e: Element)
      requires Valid() && FreshIds(ids, design.elements)
      requires e.id !in Ids(design.elements) && !e.isSelected
      modifies this
      ensures State() == AddStep(old(State()), ids, e) && Valid()
    {
      AddKeeps(State(), ids, e);
      SaveToUndoStack(ids);
      design := design.(elements := design.elements + [e]);
    }

    method AddText(ids: seq<Id>, id: Id)
      requires Valid() && FreshIds(ids, design.elements) && id !in Ids(design.elements)
      modifies this
      ensures State() == AddStep(old(State()), ids, AddedText(id, |old(design.elements)|)) && Valid()
    {
      Append(ids, AddedText(id, |design.elements|));
    }

    method AddRectangle(ids: seq<Id>, id: Id)
      requires Valid() && FreshIds(ids, design.elements) && id !in Ids(design.elements)
      modifies this
      ensures State() == AddStep(old(State()), ids, AddedShape(id, |old(design.elements)|, Rectangle)) && Valid()
    {
      Append(ids, AddedShape(id, |design.elements|, Rectangle));
    }

    method AddCircle(ids: seq<Id>, id: Id)
      requires Valid() && FreshIds(ids, design.elements) && id !in Ids(design.elements)
      modifies this
      ensures State() == AddStep(old(State()), ids, AddedShape(id, |old(design.elements)|, Circle)) && Valid()
    {
      Append(ids, AddedShape(id, |design.elements|, Circle));
    }

    method AddLine(ids: seq<Id>, id: Id)
      requires Valid() && FreshIds(ids, design.elements) && id !in Ids(design.elements)
      modifies this
      ensures State() == AddStep(old(State()), ids, AddedShape(id, |old(design.elements)|, Line)) && Valid()
    {
      Append(ids, AddedShape(id, |design.elements|, Line));
    }

    /** The selection part of `Element_MouseLeftButtonDown` for element `i`. */
    method Select(i: nat)
      requires Valid() && i < |design.elements|
      modifies this
      ensures State() == SelectStep(old(State()), i) && Valid()
    {
      SelectKeeps(State(), i);
      if selected.Some? {
        var k := selected.value;
        design := design.(elements := design.elements[k := design.elements[k].(isSelected := false)]);
      }
      selected := Some(i);
      design := design.(elements := design.elements[i := design.elements[i].(isSelected := true)]);
    }

    /** `DesignCanvas_MouseLeftButtonDown`. */
    method Deselect()
      requires Valid()
      modifies this
      ensures State() == DeselectStep(old(State())) && Valid()
    {
      DeselectKeeps(State());
      if selected.Some? {
        var k := selected.value;
        design := design.(elements := design.elements[k := design.elements[k].(isSelected := false)]);
        selected := None;
      }
    }
  }
}
