/**
  The element model: the abstract `StampElement` base class and its two
  concrete subclasses `TextElement` and `ShapeElement`, as one datatype whose
  two constructors share the base fields.

  WPF's `FontWeight`, `FontStyle` and `TextAlignment` values become small
  enumerations here; a GUID string becomes an `Id` supplied by the caller.
*/
module Elements {

  /** An element identifier (a GUID string in the application). */
  type Id = string

  /** The kinds of shape, in declaration order (so `Rectangle` is the default). */
  datatype ShapeType = Rectangle | Circle | Line

  datatype FontWeight = NormalWeight | Bold

  datatype FontStyle = NormalStyle | Italic

  /** WPF's `TextAlignment`, in its declaration order. */
  datatype TextAlignment = Left | Right | Center | Justify

  /** The offset, in design units, by which a clone is moved on both axes. */
  const CloneOffset: real := 10.0

  datatype Element =
    | TextElement(id: Id, x: real, y: real, width: real, height: real, rotation: real,
                  isSelected: bool, zIndex: int,
                  text: string, fontFamily: string, fontSize: real,
                  fontWeight: FontWeight, fontStyle: FontStyle, textAlignment: TextAlignment)
    | ShapeElement(id: Id, x: real, y: real, width: real, height: real, rotation: real,
                   isSelected: bool, zIndex: int,
                   shapeType: ShapeType, strokeThickness: real)

  /** The state the abstract base constructor leaves behind: everything zero and unselected. */
  predicate HasBaseDefaults(e: Element, id: Id) {
    && e.id == id
    && e.x == 0.0 && e.y == 0.0 && e.rotation == 0.0
    && !e.isSelected && e.zIndex == 0
  }

  /** `new TextElement()` with `id` standing for the GUID it draws. */
  function NewText(id: Id): (e: Element)
    ensures e.TextElement? && HasBaseDefaults(e, id)
    ensures e.width == 200.0 && e.height == 50.0
    ensures e.text == "Text" && e.fontFamily == "Arial" && e.fontSize == 24.0
    ensures e.fontWeight == NormalWeight && e.fontStyle == NormalStyle && e.textAlignment == Left
  {
    TextElement(id, 0.0, 0.0, 200.0, 50.0, 0.0, false, 0,
                "Text", "Arial", 24.0, NormalWeight, NormalStyle, Left)
  }

  /** `new ShapeElement()` with `id` standing for the GUID it draws. */
  function NewShape(id: Id): (e: Element)
    ensures e.ShapeElement? && HasBaseDefaults(e, id)
    ensures e.width == 100.0 && e.height == 100.0
    ensures e.shapeType == Rectangle && e.strokeThickness == 2.0
  {
    ShapeElement(id, 0.0, 0.0, 100.0, 100.0, 0.0, false, 0, Rectangle, 2.0)
  }

  /**
    `Clone` of either subclass. The object initializer lists every field but
    `IsSelected`, so the copy is unselected; it draws a new GUID (`freshId`)
    and is moved by `CloneOffset` on both axes.
  */
  function Clone(e: Element, freshId: Id): (c: Element)
    requires freshId != e.id
    ensures c.id == freshId && c.id != e.id
    ensures c.x == e.x + CloneOffset && c.y == e.y + CloneOffset
    ensures !c.isSelected
    ensures c.TextElement? == e.TextElement?
    // undoing the four changed fields gives back the original: nothing else differs
    ensures c.(id := e.id, x := e.x, y := e.y, isSelected := e.isSelected) == e
  {
    e.(id := freshId, x := e.x + CloneOffset, y := e.y + CloneOffset, isSelected := false)
  }

  /** Cloning a clone moves the element twice, and the result keeps the original's other fields. */
  lemma CloneTwice(e: Element, id1: Id, id2: Id)
    requires id1 != e.id && id2 != id1
    ensures var c := Clone(Clone(e, id1), id2);
      && c.x == e.x + 2.0 * CloneOffset && c.y == e.y + 2.0 * CloneOffset
      && c.(id := e.id, x := e.x, y := e.y, isSelected := e.isSelected) == e
  {
  }

  /** A clone never equals its source: the ids differ. */
  lemma CloneDiffers(e: Element, freshId: Id)
    requires freshId != e.id
    ensures Clone(e, freshId) != e
  {
  }
}
