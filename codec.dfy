/**
  Persistence of designs (`FileService` and `StampElementConverter`).

  The JSON text and the System.Text.Json parser are not modelled: a parsed
  JSON value is a `Json` tree and an encoded element is a `Record`, a map
  from property names to values. The converter writes an element with the
  properties of its runtime class and reads one back by sniffing which
  property names are present.
*/
module Codec {
  import opened Wrappers
  import opened Elements
  import opened Designs

  datatype Json =
    | JNull
    | JBool(b: bool)
    | JNum(n: real)
    | JStr(s: string)
    | JArr(items: seq<Json>)
    | JObj(props: Record)

  /**
    A property name: one per property the element classes declare, and
    `OtherKey` for any other name (which the reader ignores).
  */
  datatype Key =
    | IdKey | XKey | YKey | WidthKey | HeightKey | RotationKey | IsSelectedKey | ZIndexKey
    | TextKey | FontFamilyKey | FontSizeKey | FontWeightKey | FontStyleKey | TextAlignmentKey
    | ShapeTypeKey | StrokeThicknessKey
    | OtherKey(name: string)

  /** The property name as it appears in the file. */
  function Name(k: Key): string {
    match k
    case IdKey => "Id"
    case XKey => "X"
    case YKey => "Y"
    case WidthKey => "Width"
    case HeightKey => "Height"
    case RotationKey => "Rotation"
    case IsSelectedKey => "IsSelected"
    case ZIndexKey => "ZIndex"
    case TextKey => "Text"
    case FontFamilyKey => "FontFamily"
    case FontSizeKey => "FontSize"
    case FontWeightKey => "FontWeight"
    case FontStyleKey => "FontStyle"
    case TextAlignmentKey => "TextAlignment"
    case ShapeTypeKey => "ShapeType"
    case StrokeThicknessKey => "StrokeThickness"
    case OtherKey(n) => n
  }

  /** The names the element classes declare. */
  const DeclaredNames: set<string> :=
    {"Id", "X", "Y", "Width", "Height", "Rotation", "IsSelected", "ZIndex",
     "Text", "FontFamily", "FontSize", "FontWeight", "FontStyle", "TextAlignment",
     "ShapeType", "StrokeThickness"}

  /** A key spells each name one way: `OtherKey` never holds a declared name. */
  predicate Canonical(k: Key) {
    k.OtherKey? ==> k.name !in DeclaredNames
  }

  /** The properties of one JSON object. */
  type Record = map<Key, Json>

  /**
    Every property under its canonical key. Names are matched exactly (the
    serializer is case-sensitive), so a well-keyed record stands for exactly
    one JSON object and back.
  */
  predicate WellKeyed(r: Record) {
    forall k | k in r :: Canonical(k)
  }

  /** Canonical keys with the same name are the same key. */
  lemma NameInjective(a: Key, b: Key)
    requires Canonical(a) && Canonical(b) && Name(a) == Name(b)
    ensures a == b
  {
    if a.OtherKey? || b.OtherKey? {
      assert Name(a) in DeclaredNames || Name(b) in DeclaredNames || (a.OtherKey? && b.OtherKey?);
    }
  }

  /** The variant the reader decides to build. */
  datatype Kind = TextKind | ShapeKind | UnknownKind

  /** What reading one element yields: an element, `null`, or an exception of the serializer. */
  datatype ReadResult = Decoded(element: Element) | NullElement | Malformed

  function KindOf(e: Element): Kind {
    if e.TextElement? then TextKind else ShapeKind
  }

  // ---- numeric codes of the enumerations (System.Text.Json writes enums as numbers) ----

  function ShapeTypeCode(t: ShapeType): int {
    match t
    case Rectangle => 0
    case Circle => 1
    case Line => 2
  }

  function ShapeTypeOf(code: int): Option<ShapeType> {
    if code == 0 then Some(Rectangle)
    else if code == 1 then Some(Circle)
    else if code == 2 then Some(Line)
    else None
  }

  function AlignmentCode(a: TextAlignment): int {
    match a
    case Left => 0
    case Right => 1
    case Center => 2
    case Justify => 3
  }

  function AlignmentOf(code: int): Option<TextAlignment> {
    if code == 0 then Some(Left)
    else if code == 1 then Some(Right)
    else if code == 2 then Some(Center)
    else if code == 3 then Some(Justify)
    else None
  }

  // ---- writing ----

  /** The properties of the base class, written for every element. */
  const BaseKeys: set<Key> :=
    {IdKey, XKey, YKey, WidthKey, HeightKey, RotationKey, IsSelectedKey, ZIndexKey}

  /** The properties `TextElement` declares. */
  const TextKeys: set<Key> :=
    {TextKey, FontFamilyKey, FontSizeKey, FontWeightKey, FontStyleKey, TextAlignmentKey}

  /** The properties `ShapeElement` declares. */
  const ShapeKeys: set<Key> := {ShapeTypeKey, StrokeThicknessKey}

  /**
    `FontWeight` and `FontStyle` are WPF structs with no public properties:
    the serializer writes each as an empty object.
  */
  const EmptyObject: Json := JObj(map[])

  /** The base-class properties: exactly those, each with the element's value. */
  function WriteBase(e: Element): (r: Record)
    ensures r.Keys == BaseKeys
    ensures CarriesBase(r, e)
  {
    map[IdKey := JStr(e.id), XKey := JNum(e.x), YKey := JNum(e.y),
        WidthKey := JNum(e.width), HeightKey := JNum(e.height), RotationKey := JNum(e.rotation),
        IsSelectedKey := JBool(e.isSelected), ZIndexKey := JNum(e.zIndex as real)]
  }

  /** The properties the runtime class declares: exactly those, and no base-class property. */
  function ClassProps(e: Element): (r: Record)
    ensures e.TextElement? ==> r.Keys == TextKeys && CarriesText(r, e)
    ensures e.ShapeElement? ==> r.Keys == ShapeKeys
    ensures e.ShapeElement? ==> r[ShapeTypeKey] == JNum(ShapeTypeCode(e.shapeType) as real)
    ensures e.ShapeElement? ==> r[StrokeThicknessKey] == JNum(e.strokeThickness)
    ensures NoBaseKey(r)
  {
    match e
    case TextElement(_, _, _, _, _, _, _, _, text, family, size, weight, style, alignment) =>
      map[TextKey := JStr(text), FontFamilyKey := JStr(family), FontSizeKey := JNum(size),
          FontWeightKey := EmptyObject, FontStyleKey := EmptyObject,
          TextAlignmentKey := JNum(AlignmentCode(alignment) as real)]
    case ShapeElement(_, _, _, _, _, _, _, _, shapeType, stroke) =>
      map[ShapeTypeKey := JNum(ShapeTypeCode(shapeType) as real), StrokeThicknessKey := JNum(stroke)]
  }

  /** `StampElementConverter.Write`: serialise with the properties of the runtime class. */
  function Write(e: Element): (r: Record)
    ensures r.Keys == BaseKeys + (if e.TextElement? then TextKeys else ShapeKeys)
    ensures e.TextElement? ==> TextKey in r && FontFamilyKey in r
    ensures e.ShapeElement? ==> ShapeTypeKey in r && TextKey !in r && FontFamilyKey !in r
  {
    var base := WriteBase(e);
    var own := ClassProps(e);
    assert (base + own).Keys == base.Keys + own.Keys;
    base + own
  }

  // ---- reading ----

  /** `JsonElement.TryGetProperty`: the object has a property of this exact name. */
  ghost predicate Has(r: Record, name: string) {
    exists p: Key :: p in r && Name(p) == name
  }

  /** In a well-keyed record a declared property is present under its name exactly when its key is. */
  lemma HasDeclared(r: Record, k: Key)
    requires !k.OtherKey?
    ensures WellKeyed(r) ==> (Has(r, Name(k)) <==> k in r)
  {
    if WellKeyed(r) && Has(r, Name(k)) {
      var p: Key :| p in r && Name(p) == Name(k);
      NameInjective(p, k);
    }
  }

  /** The decision of `StampElementConverter.Read`: text properties win over "ShapeType". */
  function Sniff(r: Record): (kind: Kind)
    ensures WellKeyed(r) ==> (kind == TextKind <==> Has(r, "Text") || Has(r, "FontFamily"))
    ensures WellKeyed(r) ==>
      (kind == ShapeKind <==> !Has(r, "Text") && !Has(r, "FontFamily") && Has(r, "ShapeType"))
  {
    HasDeclared(r, TextKey);
    HasDeclared(r, FontFamilyKey);
    HasDeclared(r, ShapeTypeKey);
    if TextKey in r || FontFamilyKey in r then TextKind
    else if ShapeTypeKey in r then ShapeKind
    else UnknownKind
  }

  /*
    Key readers. An absent property keeps the value the constructor set;
    a property of the wrong JSON type makes the serializer throw (None).
  */

  function ReadString(r: Record, key: Key, default: string): (o: Option<string>)
    ensures key !in r ==> o == Some(default)
    ensures key in r && r[key].JStr? ==> o == Some(r[key].s)
    ensures key in r && !r[key].JStr? ==> o == None
  {
    if key !in r then Some(default)
    else match r[key]
      case JStr(s) => Some(s)
      case _ => None
  }

  function ReadReal(r: Record, key: Key, default: real): (o: Option<real>)
    ensures key !in r ==> o == Some(default)
    ensures key in r && r[key].JNum? ==> o == Some(r[key].n)
    ensures key in r && !r[key].JNum? ==> o == None
  {
    if key !in r then Some(default)
    else match r[key]
      case JNum(v) => Some(v)
      case _ => None
  }

  function ReadBool(r: Record, key: Key, default: bool): (o: Option<bool>)
    ensures key !in r ==> o == Some(default)
    ensures key in r && r[key].JBool? ==> o == Some(r[key].b)
    ensures key in r && !r[key].JBool? ==> o == None
  {
    if key !in r then Some(default)
    else match r[key]
      case JBool(b) => Some(b)
      case _ => None
  }

  /** An integer property: the number must have no fractional part. */
  function ReadInt(r: Record, key: Key, default: int): (o: Option<int>)
    ensures key !in r ==> o == Some(default)
    ensures key in r ==> (o.Some? <==> r[key].JNum? && r[key].n == r[key].n.Floor as real)
    ensures key in r && o.Some? ==> r[key] == JNum(o.value as real)
  {
    if key !in r then Some(default)
    else match r[key]
      case JNum(v) => if v == v.Floor as real then Some(v.Floor) else None
      case _ => None
  }

  /** An enumeration property, read as an integer code and then looked up. */
  function ReadCode<T>(r: Record, key: Key, default: T, decode: int -> Option<T>): (o: Option<T>)
    ensures key !in r ==> o == Some(default)
    ensures key in r && o.Some? ==> exists code: int :: r[key] == JNum(code as real) && decode(code) == o
    ensures key in r && r[key].JNum? && r[key].n == r[key].n.Floor as real ==> o == decode(r[key].n.Floor)
    ensures key in r && !(r[key].JNum? && r[key].n == r[key].n.Floor as real) ==> o == None
  {
    if key !in r then Some(default)
    else
      var code :- ReadInt(r, key, 0);
      decode(code)
  }

  /**
    A struct property (`FontWeight`, `FontStyle`): any object reads back as
    the struct's default value `normal`; any other JSON value is malformed.
  */
  function ReadStruct<T>(r: Record, key: Key, default: T, normal: T): (o: Option<T>)
    ensures key !in r ==> o == Some(default)
    ensures key in r && r[key].JObj? ==> o == Some(normal)
    ensures key in r && !r[key].JObj? ==> o == None
  {
    if key !in r then Some(default)
    else if r[key].JObj? then Some(normal)
    else None
  }

  /** The properties declared on the base class. */
  datatype BaseProps = BaseProps(id: Id, x: real, y: real, width: real, height: real, rotation: real,
                                 isSelected: bool, zIndex: int)

  function BaseOf(e: Element): BaseProps {
    BaseProps(e.id, e.x, e.y, e.width, e.height, e.rotation, e.isSelected, e.zIndex)
  }

  /** The base properties as the serializer fills them in: absent ones keep the constructor's values `d`. */
  function DecodeBase(r: Record, d: BaseProps): (o: Option<BaseProps>)
    ensures o.None? <==>
      || ReadString(r, IdKey, d.id).None? || ReadReal(r, XKey, d.x).None?
      || ReadReal(r, YKey, d.y).None? || ReadReal(r, WidthKey, d.width).None?
      || ReadReal(r, HeightKey, d.height).None? || ReadReal(r, RotationKey, d.rotation).None?
      || ReadBool(r, IsSelectedKey, d.isSelected).None? || ReadInt(r, ZIndexKey, d.zIndex).None?
    ensures o.Some? ==> var b := o.value;
      && (if IdKey in r then r[IdKey] == JStr(b.id) else b.id == d.id)
      && (if XKey in r then r[XKey] == JNum(b.x) else b.x == d.x)
      && (if YKey in r then r[YKey] == JNum(b.y) else b.y == d.y)
      && (if WidthKey in r then r[WidthKey] == JNum(b.width) else b.width == d.width)
      && (if HeightKey in r then r[HeightKey] == JNum(b.height) else b.height == d.height)
      && (if RotationKey in r then r[RotationKey] == JNum(b.rotation) else b.rotation == d.rotation)
      && (if IsSelectedKey in r then r[IsSelectedKey] == JBool(b.isSelected) else b.isSelected == d.isSelected)
      && (if ZIndexKey in r then r[ZIndexKey] == JNum(b.zIndex as real) else b.zIndex == d.zIndex)
  {
    var id :- ReadString(r, IdKey, d.id);
    var x :- ReadReal(r, XKey, d.x);
    var y :- ReadReal(r, YKey, d.y);
    var width :- ReadReal(r, WidthKey, d.width);
    var height :- ReadReal(r, HeightKey, d.height);
    var rotation :- ReadReal(r, RotationKey, d.rotation);
    var selected :- ReadBool(r, IsSelectedKey, d.isSelected);
    var z :- ReadInt(r, ZIndexKey, d.zIndex);
    Some(BaseProps(id, x, y, width, height, rotation, selected, z))
  }

  /** `JsonSerializer.Deserialize<TextElement>`: start from `new TextElement()` and overwrite. */
  function DecodeText(r: Record, freshId: Id): (o: Option<Element>)
    ensures o.Some? ==> o.value.TextElement?
    ensures var d := NewText(freshId);
      o.None? <==>
        || DecodeBase(r, BaseOf(d)).None?
        || ReadString(r, TextKey, d.text).None? || ReadString(r, FontFamilyKey, d.fontFamily).None?
        || ReadReal(r, FontSizeKey, d.fontSize).None?
        || ReadStruct(r, FontWeightKey, d.fontWeight, NormalWeight).None?
        || ReadStruct(r, FontStyleKey, d.fontStyle, NormalStyle).None?
        || ReadCode(r, TextAlignmentKey, d.textAlignment, AlignmentOf).None?
    ensures o.Some? ==> var d, e := NewText(freshId), o.value;
      && DecodeBase(r, BaseOf(d)) == Some(BaseOf(e))
      && (if TextKey in r then r[TextKey] == JStr(e.text) else e.text == d.text)
      && (if FontFamilyKey in r then r[FontFamilyKey] == JStr(e.fontFamily) else e.fontFamily == d.fontFamily)
      && (if FontSizeKey in r then r[FontSizeKey] == JNum(e.fontSize) else e.fontSize == d.fontSize)
      && e.fontWeight == NormalWeight && e.fontStyle == NormalStyle
      && (if TextAlignmentKey in r then r[TextAlignmentKey] == JNum(AlignmentCode(e.textAlignment) as real)
          else e.textAlignment == d.textAlignment)
  {
    var d := NewText(freshId);
    var b :- DecodeBase(r, BaseOf(d));
    var text :- ReadString(r, TextKey, d.text);
    var family :- ReadString(r, FontFamilyKey, d.fontFamily);
    var size :- ReadReal(r, FontSizeKey, d.fontSize);
    var weight :- ReadStruct(r, FontWeightKey, d.fontWeight, NormalWeight);
    var style :- ReadStruct(r, FontStyleKey, d.fontStyle, NormalStyle);
    var alignment :- ReadCode(r, TextAlignmentKey, d.textAlignment, AlignmentOf);
    Some(TextElement(b.id, b.x, b.y, b.width, b.height, b.rotation, b.isSelected, b.zIndex,
                     text, family, size, weight, style, alignment))
  }

  /** `JsonSerializer.Deserialize<ShapeElement>`: start from `new ShapeElement()` and overwrite. */
  function DecodeShape(r: Record, freshId: Id): (o: Option<Element>)
    ensures o.Some? ==> o.value.ShapeElement?
    ensures var d := NewShape(freshId);
      o.None? <==>
        || DecodeBase(r, BaseOf(d)).None?
        || ReadCode(r, ShapeTypeKey, d.shapeType, ShapeTypeOf).None?
        || ReadReal(r, StrokeThicknessKey, d.strokeThickness).None?
    ensures o.Some? ==> var d, e := NewShape(freshId), o.value;
      && DecodeBase(r, BaseOf(d)) == Some(BaseOf(e))
      && (if ShapeTypeKey in r then r[ShapeTypeKey] == JNum(ShapeTypeCode(e.shapeType) as real)
          else e.shapeType == d.shapeType)
      && (if StrokeThicknessKey in r then r[StrokeThicknessKey] == JNum(e.strokeThickness)
          else e.strokeThickness == d.strokeThickness)
  {
    var d := NewShape(freshId);
    var b :- DecodeBase(r, BaseOf(d));
    var shapeType :- ReadCode(r, ShapeTypeKey, d.shapeType, ShapeTypeOf);
    var stroke :- ReadReal(r, StrokeThicknessKey, d.strokeThickness);
    Some(ShapeElement(b.id, b.x, b.y, b.width, b.height, b.rotation, b.isSelected, b.zIndex,
                      shapeType, stroke))
  }

  function Thrown(o: Option<Element>): ReadResult {
    match o
    case Some(e) => Decoded(e)
    case None => Malformed
  }

  /**
    `StampElementConverter.Read` on one object. `freshId` stands for the GUID
    the constructor draws, which is kept when the record has no "Id" property.
  */
  function ReadRecord(r: Record, freshId: Id): (res: ReadResult)
    ensures Sniff(r) == UnknownKind <==> res == NullElement
    ensures res.Decoded? ==> KindOf(res.element) == Sniff(r)
  {
    match Sniff(r)
    case TextKind => Thrown(DecodeText(r, freshId))
    case ShapeKind => Thrown(DecodeShape(r, freshId))
    case UnknownKind => NullElement
  }

  /**
    One entry of the `Elements` array. A JSON `null` never reaches the
    converter and becomes a `null` entry; any other non-object makes the
    property lookup throw.
  */
  function ReadElement(j: Json, freshId: Id): (res: ReadResult)
    ensures j.JNull? ==> res == NullElement
    ensures !j.JNull? && !j.JObj? ==> res == Malformed
    ensures j.JObj? ==> res == ReadRecord(j.props, freshId)
  {
    match j
    case JNull => NullElement
    case JObj(r) => ReadRecord(r, freshId)
    case _ => Malformed
  }

  // ---- properties of the reader ----

  /** A record with "Text" or "FontFamily" is a text element, whatever else it holds. */
  lemma TextTakesPrecedence(r: Record, freshId: Id)
    requires TextKey in r || FontFamilyKey in r
    ensures Sniff(r) == TextKind
    ensures ReadRecord(r, freshId).Decoded? ==> ReadRecord(r, freshId).element.TextElement?
  {
  }

  /** A record with neither text property but with "ShapeType" is a shape element. */
  lemma ShapeWhenNoTextProperty(r: Record, freshId: Id)
    requires WellKeyed(r) && !Has(r, "Text") && !Has(r, "FontFamily") && Has(r, "ShapeType")
    ensures ReadRecord(r, freshId) != NullElement
    ensures ReadRecord(r, freshId).Decoded? ==> ReadRecord(r, freshId).element.ShapeElement?
  {
  }

  /** A record the reader does not recognise yields a `null` element, not an error. */
  lemma UnknownRecordIsNull(r: Record, freshId: Id)
    requires WellKeyed(r) && !Has(r, "Text") && !Has(r, "FontFamily") && !Has(r, "ShapeType")
    ensures ReadRecord(r, freshId) == NullElement
  {
  }

  /** The shortest text record: absent properties keep the constructor defaults. */
  lemma TextOnlyRecord(t: string, freshId: Id)
    ensures var d := NewText(freshId); ReadRecord(map[TextKey := JStr(t)], freshId) == Decoded(d.(text := t))
  {
  }

  /** The shortest shape record: absent properties keep the constructor defaults. */
  lemma ShapeTypeOnlyRecord(t: ShapeType, freshId: Id)
    ensures var d := NewShape(freshId);
      ReadRecord(map[ShapeTypeKey := JNum(ShapeTypeCode(t) as real)], freshId) == Decoded(d.(shapeType := t))
  {
    var r := map[ShapeTypeKey := JNum(ShapeTypeCode(t) as real)];
    assert ReadInt(r, ShapeTypeKey, 0) == Some(ShapeTypeCode(t));
  }

  /** The writer only uses declared names, each once. */
  lemma WriteWellKeyed(e: Element)
    ensures WellKeyed(Write(e))
  {
    var r := Write(e);
    forall k | k in r
      ensures Canonical(k)
    {
      assert k in BaseKeys || k in TextKeys || k in ShapeKeys;
    }
  }

  /** Sniffing what the writer produced recovers the element's variant. */
  lemma SniffWritten(e: Element)
    ensures Sniff(Write(e)) == KindOf(e)
  {
  }

  /** `r` holds the base properties of `e` as the writer encodes them. */
  predicate CarriesBase(r: Record, e: Element) {
    && IdKey in r && r[IdKey] == JStr(e.id)
    && XKey in r && r[XKey] == JNum(e.x)
    && YKey in r && r[YKey] == JNum(e.y)
    && WidthKey in r && r[WidthKey] == JNum(e.width)
    && HeightKey in r && r[HeightKey] == JNum(e.height)
    && RotationKey in r && r[RotationKey] == JNum(e.rotation)
    && IsSelectedKey in r && r[IsSelectedKey] == JBool(e.isSelected)
    && ZIndexKey in r && r[ZIndexKey] == JNum(e.zIndex as real)
  }

  /** No property of the base class is among the keys of `m`. */
  predicate NoBaseKey(m: Record) {
    && IdKey !in m && XKey !in m && YKey !in m && WidthKey !in m && HeightKey !in m
    && RotationKey !in m && IsSelectedKey !in m && ZIndexKey !in m
  }

  /** Adding properties that are not base properties keeps the base properties. */
  lemma CarriesBaseUnion(r: Record, extra: Record, e: Element)
    requires CarriesBase(r, e) && NoBaseKey(extra)
    ensures CarriesBase(r + extra, e)
  {
  }

  lemma WriteCarriesBase(e: Element)
    ensures CarriesBase(Write(e), e)
  {
    assert CarriesBase(WriteBase(e), e);
    assert NoBaseKey(ClassProps(e));
    CarriesBaseUnion(WriteBase(e), ClassProps(e), e);
  }

  /** The base properties of a written element read back as they were, whatever the defaults. */
  lemma ReadBaseWritten(r: Record, e: Element, d: BaseProps)
    requires CarriesBase(r, e)
    ensures DecodeBase(r, d) == Some(BaseOf(e))
  {
    assert (e.zIndex as real).Floor == e.zIndex;
  }

  /** `r` holds the text properties of `e` as the writer encodes them. */
  predicate CarriesText(r: Record, e: Element)
    requires e.TextElement?
  {
    && TextKey in r && r[TextKey] == JStr(e.text)
    && FontFamilyKey in r && r[FontFamilyKey] == JStr(e.fontFamily)
    && FontSizeKey in r && r[FontSizeKey] == JNum(e.fontSize)
    && FontWeightKey in r && r[FontWeightKey] == EmptyObject
    && FontStyleKey in r && r[FontStyleKey] == EmptyObject
    && TextAlignmentKey in r && r[TextAlignmentKey] == JNum(AlignmentCode(e.textAlignment) as real)
  }

  lemma WriteCarriesText(e: Element)
    requires e.TextElement?
    ensures CarriesText(Write(e), e)
  {
  }

  /**
    The text properties of a written element read back as they were, whatever
    the defaults, except weight and style, which read back as normal.
  */
  lemma ReadTextWritten(r: Record, e: Element, d: Element)
    requires e.TextElement? && d.TextElement? && CarriesText(r, e)
    ensures ReadString(r, TextKey, d.text) == Some(e.text)
    ensures ReadString(r, FontFamilyKey, d.fontFamily) == Some(e.fontFamily)
    ensures ReadReal(r, FontSizeKey, d.fontSize) == Some(e.fontSize)
    ensures ReadStruct(r, FontWeightKey, d.fontWeight, NormalWeight) == Some(NormalWeight)
    ensures ReadStruct(r, FontStyleKey, d.fontStyle, NormalStyle) == Some(NormalStyle)
    ensures ReadCode(r, TextAlignmentKey, d.textAlignment, AlignmentOf) == Some(e.textAlignment)
  {
    assert ReadInt(r, TextAlignmentKey, 0) == Some(AlignmentCode(e.textAlignment));
  }

  /** What a save and a load preserve: everything except a text element's weight and style, which come back normal. */
  function Reloaded(e: Element): (s: Element)
    ensures e.ShapeElement? ==> s == e
    ensures e.TextElement? ==> s == e.(fontWeight := NormalWeight, fontStyle := NormalStyle)
  {
    match e
    case TextElement(id, x, y, width, height, rotation, selected, z, text, family, size, _, _, alignment) =>
      TextElement(id, x, y, width, height, rotation, selected, z, text, family, size,
                  NormalWeight, NormalStyle, alignment)
    case ShapeElement(_, _, _, _, _, _, _, _, _, _) => e
  }

  lemma ReadWriteText(e: Element, freshId: Id)
    requires e.TextElement?
    ensures DecodeText(Write(e), freshId) == Some(Reloaded(e))
  {
    var r := Write(e);
    var d := NewText(freshId);
    WriteCarriesBase(e);
    ReadBaseWritten(r, e, BaseOf(d));
    WriteCarriesText(e);
    ReadTextWritten(r, e, d);
  }

  lemma ReadWriteShape(e: Element, freshId: Id)
    requires e.ShapeElement?
    ensures DecodeShape(Write(e), freshId) == Some(e)
  {
    var r := Write(e);
    WriteCarriesBase(e);
    ReadBaseWritten(r, e, BaseOf(NewShape(freshId)));
    assert ReadInt(r, ShapeTypeKey, 0) == Some(ShapeTypeCode(e.shapeType));
  }

  /**
    Reading what the writer produced gives back the element, whatever id the
    constructor drew, except that a text element's weight and style are reset.
  */
  lemma ReadWrite(e: Element, freshId: Id)
    ensures ReadElement(JObj(Write(e)), freshId) == Decoded(Reloaded(e))
  {
    if e.TextElement? {
      ReadWriteText(e, freshId);
    } else {
      ReadWriteShape(e, freshId);
    }
  }

  /** An element survives a save and a load unchanged exactly when it is a shape or plain normal text. */
  lemma ReadWriteExact(e: Element, freshId: Id)
    ensures ReadElement(JObj(Write(e)), freshId) == Decoded(e) <==>
      e.ShapeElement? || (e.fontWeight == NormalWeight && e.fontStyle == NormalStyle)
  {
    ReadWrite(e, freshId);
  }

  /** Bold text comes back with the normal weight. */
  lemma BoldIsLost(e: Element, freshId: Id)
    requires e.TextElement? && e.fontWeight == Bold
    ensures ReadElement(JObj(Write(e)), freshId).element.fontWeight == NormalWeight
    ensures ReadElement(JObj(Write(e)), freshId) != Decoded(e)
  {
    ReadWrite(e, freshId);
  }

  /** Saving and loading a second time loses nothing more. */
  lemma ReloadedStable(e: Element)
    ensures Reloaded(Reloaded(e)) == Reloaded(e)
  {
  }

  // ---- whole designs ----

  /** A parsed design file: the top-level properties and the raw `Elements` array. */
  datatype StoredDesign = StoredDesign(name: string, canvasWidth: real, canvasHeight: real, elements: seq<Json>)

  /**
    The JSON document in an existing file: the text `null`, a design object,
    or any other value (which makes the serializer throw).
  */
  datatype Document = NullDocument | DesignDocument(design: StoredDesign) | OtherValue

  /** What `LoadDesign` produces: `null`, an exception, or a design whose entries may be `null`. */
  datatype LoadResult =
    | NoDesign
    | LoadFailed
    | Loaded(name: string, canvasWidth: real, canvasHeight: real, elements: seq<Option<Element>>)

  function WriteAll(es: seq<Element>): (js: seq<Json>)
    ensures |js| == |es|
    ensures forall i :: 0 <= i < |es| ==> js[i] == JObj(Write(es[i]))
  {
    if es == [] then [] else [JObj(Write(es[0]))] + WriteAll(es[1..])
  }

  /** `SaveDesign` up to the JSON text: the design with every element written by the converter. */
  function SaveDesign(d: Design): (s: StoredDesign)
    ensures s.name == d.name && s.canvasWidth == d.canvasWidth && s.canvasHeight == d.canvasHeight
    ensures |s.elements| == |d.elements|
    ensures s.elements == WriteAll(d.elements)
  {
    StoredDesign(d.name, d.canvasWidth, d.canvasHeight, WriteAll(d.elements))
  }

  /**
    The element list as the serializer builds it: every entry read by the
    converter, `null` entries kept in place, and any exception aborting the
    whole list.
  */
  function ReadAll(js: seq<Json>, freshIds: seq<Id>): (r: Option<seq<Option<Element>>>)
    requires |freshIds| == |js|
    ensures r.None? <==> exists i :: 0 <= i < |js| && ReadElement(js[i], freshIds[i]) == Malformed
    ensures r.Some? ==> |r.value| == |js|
    ensures r.Some? ==> forall i :: 0 <= i < |js| ==>
      r.value[i] == (if ReadElement(js[i], freshIds[i]).Decoded? then Some(ReadElement(js[i], freshIds[i]).element) else None)
  {
    if js == [] then Some([])
    else
      var first := ReadElement(js[0], freshIds[0]);
      if first == Malformed then None
      else
        var rest :- ReadAll(js[1..], freshIds[1..]);
        Some([if first.Decoded? then Some(first.element) else None] + rest)
  }

  /**
    `LoadDesign`: `file` is `None` when the path does not exist. `freshIds`
    stand for the GUIDs the element constructors draw.
  */
  function LoadDesign(file: Option<Document>, freshIds: seq<Id>): (r: LoadResult)
    requires file.Some? && file.value.DesignDocument? ==> |freshIds| == |file.value.design.elements|
    ensures r == NoDesign <==> file.None? || file == Some(NullDocument)
    ensures file == Some(OtherValue) ==> r == LoadFailed
    ensures r.Loaded? ==> file.Some? && file.value.DesignDocument?
    ensures r.Loaded? ==> var s := file.value.design;
      && r.name == s.name && r.canvasWidth == s.canvasWidth && r.canvasHeight == s.canvasHeight
      && |r.elements| == |s.elements|
      && ReadAll(s.elements, freshIds) == Some(r.elements)
    ensures file.Some? && file.value.DesignDocument? ==>
      (r == LoadFailed <==> ReadAll(file.value.design.elements, freshIds).None?)
  {
    match file
    case None => NoDesign
    case Some(NullDocument) => NoDesign
    case Some(OtherValue) => LoadFailed
    case Some(DesignDocument(s)) =>
      match ReadAll(s.elements, freshIds)
      case None => LoadFailed
      case Some(es) => Loaded(s.name, s.canvasWidth, s.canvasHeight, es)
  }

  /**
    An entry the reader does not recognise loads as a `null` element in its
    place, and does not abort the load of the rest of the design.
  */
  lemma UnknownEntryIsNull(s: StoredDesign, freshIds: seq<Id>, i: nat)
    requires |freshIds| == |s.elements| && i < |s.elements|
    requires s.elements[i].JObj? && WellKeyed(s.elements[i].props)
    requires var r := s.elements[i].props; !Has(r, "Text") && !Has(r, "FontFamily") && !Has(r, "ShapeType")
    requires forall k :: 0 <= k < |s.elements| ==> ReadElement(s.elements[k], freshIds[k]) != Malformed
    ensures var r := LoadDesign(Some(DesignDocument(s)), freshIds);
      && r.Loaded? && |r.elements| == |s.elements| && r.elements[i] == None
  {
    UnknownRecordIsNull(s.elements[i].props, freshIds[i]);
  }

  /** Loading a saved design gives back its name, canvas and every element in order, as `Reloaded` describes. */
  lemma SaveLoad(d: Design, freshIds: seq<Id>)
    requires |freshIds| == |d.elements|
    ensures var r := LoadDesign(Some(DesignDocument(SaveDesign(d))), freshIds);
      && r.Loaded?
      && r.name == d.name && r.canvasWidth == d.canvasWidth && r.canvasHeight == d.canvasHeight
      && |r.elements| == |d.elements|
      && forall i :: 0 <= i < |d.elements| ==> r.elements[i] == Some(Reloaded(d.elements[i]))
  {
    var s := SaveDesign(d);
    var js := s.elements;
    assert js == WriteAll(d.elements);
    forall i | 0 <= i < |js|
      ensures ReadElement(js[i], freshIds[i]) == Decoded(Reloaded(d.elements[i]))
    {
      ReadWrite(d.elements[i], freshIds[i]);
    }
    var es := ReadAll(js, freshIds);
    assert es.Some?;
    assert LoadDesign(Some(DesignDocument(s)), freshIds) == Loaded(s.name, s.canvasWidth, s.canvasHeight, es.value);
    forall i | 0 <= i < |d.elements|
      ensures es.value[i] == Some(Reloaded(d.elements[i]))
    {
      assert ReadElement(js[i], freshIds[i]).Decoded?;
    }
  }
}
