# NexoStamp document engine in Dafny

NexoStamp is a WPF stamp designer. A stamp design has a name, a canvas size and
an ordered list of elements. Each element is a text element or a shape element
(a rectangle, a circle or a line). The program edits a design with undo and redo,
saves it as JSON with a converter that picks each element's class from the
properties it carries, and prints it as `n` copies laid out in a grid on one page.

This project models that engine and proves properties of it:

- `Elements` (`elements.dfy`): the `StampElement` hierarchy as one datatype with a
  text constructor and a shape constructor, their constructor defaults, and `Clone`.
- `Designs` (`designs.dfy`): `StampDesign`, its defaults, and `List.Remove` on the
  element list.
- `Window` (`window.dfy`): the undo/redo engine and editing commands of `MainWindow`.
  An `Editor` value holds the live design, both stacks and the selection. Each
  command is a step function on that value, and the lemmas about history and the
  invariant are stated on the step functions. The `MainWindow` class keeps the same
  state in fields. Its methods update those fields in place, the way the handlers
  do, and each method is proved to take the step its function describes.
  `CloneDesign` is a loop building the snapshot.
- `Codec` (`codec.dfy`): `StampElementConverter`. An encoded element is a map from
  property names to JSON values, not JSON text. The reader sniffs the kind, then
  overwrites a freshly constructed element with the properties present. The writer
  emits the properties of the runtime class. Reading a written element gives it
  back with every field intact except a text element's font weight and style, which
  come back normal (`Codec.ReadWrite`, `Codec.BoldIsLost`).
- `Print` (`print.dfy`): the page arithmetic of `PrintService`:
  - the grid shape, with `ceil(sqrt n)` stated as "the least `c` with `c*c >= n`";
  - the cell origins and sizes;
  - the fit-to-cell scale;
  - the scaled geometry of every element;
  - the two loops that build the page and each stamp canvas.
- `Wrappers` (`wrappers.dfy`): an `Option` type.

Conventions of the model:

- `double` is `real`.
- A GUID drawn by `Guid.NewGuid()` is an `Id` the caller supplies. Preconditions
  say it is fresh: it differs from the ids it must differ from.
- The selected element is an index into the live design's element list.
- The invariant `Window.Consistent` keeps the selection, the `IsSelected` flags and
  the element ids in agreement, and keeps every snapshot on a stack restorable.

The model follows the code, in particular where it surprises:

- An element record the reader does not recognise becomes a `null` entry. The load
  is not aborted.
- WPF's `FontWeight` and `FontStyle` are structs without public properties. The
  serializer writes each as an empty object and reads any object back as the
  struct's default, so bold and italic text loads as normal text.
- Printing draws the elements in list order. `ZIndex` is never consulted.
- The layout code does not check that a print cell has a positive size.
  `Print.CellSizeUnchecked` exhibits a grid whose cells have negative width and
  height; WPF would reject such a width when it is assigned (see "Left out").
- An undo snapshot is built with `Clone`. Restoring it therefore brings back every
  element moved by (+10, +10), with new ids and deselected, not the design as it
  was (`Window.UndoThenRedo`).

## Model

| member | source | states |
|---|---|---|
| Elements.NewText | src/NexoStamp/Models/TextElement.cs:11-22 | a new text element is a text element with the base defaults: the given id, position 0, rotation 0, unselected, ZIndex 0. It is 200×50, with text "Text", font "Arial", size 24, normal weight and style, and left alignment |
| Elements.NewShape | src/NexoStamp/Models/ShapeElement.cs:8-15 | a new shape element has the base defaults, is 100×100 and is a Rectangle with stroke thickness 2 |
| Elements.Clone | src/NexoStamp/Models/TextElement.cs:24-41 | the clone has the fresh id, which differs from the original's, and is moved by (+10, +10). It is unselected and of the same variant. Every other field is copied unchanged |
| Elements.CloneTwice | src/NexoStamp/Models/ShapeElement.cs:17-31 | a clone of a clone is moved by (+20, +20), and all fields other than id, position and selection are the original's |
| Elements.CloneDiffers | src/NexoStamp/Models/StampElement.cs:24 | a clone is never equal to the element it was cloned from |
| Designs.NewDesign | src/NexoStamp/Models/StampDesign.cs:10-13 | a new design is named "Untitled Stamp", is 400×300 and has no elements |
| Designs.RemoveFirst | src/NexoStamp/MainWindow.xaml.cs:369 | `List.Remove` leaves a list without the element unchanged. Otherwise it removes exactly one occurrence: the length drops by one and the multiset loses one copy |
| Designs.RemoveFirstAt | src/NexoStamp/MainWindow.xaml.cs:369 | when no earlier element equals element `i`, removing it takes out index `i` and keeps the rest in order |
| Designs.RemoveFirstUnique | src/NexoStamp/MainWindow.xaml.cs:368-369 | in a list with unique ids, removing element `i` yields the list without index `i` |
| Window.CloneAll | src/NexoStamp/MainWindow.xaml.cs:73-76 | element `k` of the result is the clone of element `k`, and the lengths agree |
| Window.Snapshot | src/NexoStamp/MainWindow.xaml.cs:64-79 | the snapshot keeps name and canvas size, and element `k` is `Clone` of element `k`: moved by (+10, +10), with the `k`-th new id. Nothing in it is selected, its ids are unique, and it differs from a non-empty original |
| Window.CloneDesign | src/NexoStamp/MainWindow.xaml.cs:64-79 | the loop builds exactly the snapshot |
| Window.Initial | src/NexoStamp/MainWindow.xaml.cs:31-42 | the window starts with the default design, empty stacks and no selection, and that state is consistent |
| Window.Checkpoint | src/NexoStamp/MainWindow.xaml.cs:56-62 | the undo stack grows by one with the snapshot of the live design on top and the older entries unchanged. The redo stack is emptied. The design and selection stay the same |
| Window.UndoStep | src/NexoStamp/MainWindow.xaml.cs:338-349 | with an empty undo stack the state is unchanged. Otherwise the live design becomes the former top, the undo stack loses its top, the redo stack gains a snapshot of the old live design, and nothing is selected |
| Window.RedoStep | src/NexoStamp/MainWindow.xaml.cs:351-362 | the same as Undo with the roles of the two stacks swapped |
| Window.RedoMirrorsUndo | src/NexoStamp/MainWindow.xaml.cs:338-362 | Redo is exactly Undo applied to the state with its stacks exchanged |
| Window.CanUndo | src/NexoStamp/MainWindow.xaml.cs:246 | the Undo menu item is enabled when the undo stack is not empty |
| Window.CanRedo | src/NexoStamp/MainWindow.xaml.cs:247 | the Redo menu item is enabled when the redo stack is not empty |
| Window.UndoEnabled | src/NexoStamp/MainWindow.xaml.cs:246 | the Undo menu item is enabled exactly when Undo changes the state |
| Window.RedoEnabled | src/NexoStamp/MainWindow.xaml.cs:247 | the Redo menu item is enabled exactly when Redo changes the state |
| Window.UndoThenRedo | src/NexoStamp/MainWindow.xaml.cs:340-357 | Undo then Redo restores both stack lengths, the redo stack itself and the lower part of the undo stack. The live design comes back as the snapshot of the pre-undo design, which differs from that design when it has elements |
| Window.NewStep | src/NexoStamp/MainWindow.xaml.cs:256-260 | New gives the default design, two empty stacks (so both menu items disabled) and no selection |
| Window.DeleteStep | src/NexoStamp/MainWindow.xaml.cs:364-373 | without a selection nothing changes. Otherwise the state is checkpointed, one copy of the selected element leaves the list, name and canvas are kept, and the selection is cleared |
| Window.DeleteRemovesSelected | src/NexoStamp/MainWindow.xaml.cs:368-369 | in a consistent state, Delete removes exactly the selected index and keeps the other elements in order |
| Window.DuplicateStep | src/NexoStamp/MainWindow.xaml.cs:375-390 | without a selection nothing changes. Otherwise the state is checkpointed and the old elements stay in place with the original deselected. The clone of the original, selected, is appended, and the selection moves to it. Name and canvas size are kept |
| Window.AddedText | src/NexoStamp/MainWindow.xaml.cs:400-413 | the added text element has the given id, is at (50, 50) with ZIndex equal to the previous element count, is unselected, and has the other text defaults |
| Window.AddedShape | src/NexoStamp/MainWindow.xaml.cs:415-463 | the added shape has the requested shape type, is at (50, 50) with ZIndex equal to the previous count, and is unselected. A line is 100×0; a rectangle or circle keeps the default 100×100. Its stroke is the default |
| Window.AddStep | src/NexoStamp/MainWindow.xaml.cs:402-411 | Add checkpoints, keeps the existing elements in order, appends the new element at the end, and leaves the selection alone |
| Window.SelectStep | src/NexoStamp/MainWindow.xaml.cs:484-490 | clicking element `i` selects it and changes no element except in its selection flag. The stacks, name and canvas size are untouched |
| Window.DeselectStep | src/NexoStamp/MainWindow.xaml.cs:502-511 | clicking the canvas clears the selection, changes no element except in its selection flag, keeps the stacks, name and canvas size, and does nothing when nothing is selected |
| Window.CheckpointKeeps | src/NexoStamp/MainWindow.xaml.cs:56-62 | checkpointing preserves the invariant |
| Window.UndoKeeps | src/NexoStamp/MainWindow.xaml.cs:338-349 | Undo preserves the invariant |
| Window.RedoKeeps | src/NexoStamp/MainWindow.xaml.cs:351-362 | Redo preserves the invariant |
| Window.RemoveSelectedKeeps | src/NexoStamp/MainWindow.xaml.cs:369-370 | removing the one selected element leaves unique ids and no selected element |
| Window.DeleteKeeps | src/NexoStamp/MainWindow.xaml.cs:364-373 | Delete preserves the invariant |
| Window.DuplicateKeeps | src/NexoStamp/MainWindow.xaml.cs:375-390 | with a fresh clone id, Duplicate preserves the invariant: ids stay unique and only the clone is flagged |
| Window.AddKeeps | src/NexoStamp/MainWindow.xaml.cs:400-463 | adding an unselected element with a fresh id preserves the invariant |
| Window.SelectKeeps | src/NexoStamp/MainWindow.xaml.cs:484-490 | selecting an element preserves the invariant |
| Window.DeselectKeeps | src/NexoStamp/MainWindow.xaml.cs:502-511 | deselecting preserves the invariant |
| Window.MainWindow.constructor | src/NexoStamp/MainWindow.xaml.cs:31-42 | the window starts in the initial state, which is consistent |
| Window.MainWindow.UndoEnabled | src/NexoStamp/MainWindow.xaml.cs:244-248 | the Undo item is enabled exactly when the undo stack is not empty |
| Window.MainWindow.RedoEnabled | src/NexoStamp/MainWindow.xaml.cs:244-248 | the Redo item is enabled exactly when the redo stack is not empty |
| Window.MainWindow.SaveToUndoStack | src/NexoStamp/MainWindow.xaml.cs:56-62 | the fields take the checkpoint step, and the invariant is kept |
| Window.MainWindow.Undo | src/NexoStamp/MainWindow.xaml.cs:338-349 | the fields take the undo step, and the invariant is kept |
| Window.MainWindow.Redo | src/NexoStamp/MainWindow.xaml.cs:351-362 | the fields take the redo step, and the invariant is kept |
| Window.MainWindow.New | src/NexoStamp/MainWindow.xaml.cs:256-260 | the fields take the reset step, and the result is consistent |
| Window.MainWindow.Delete | src/NexoStamp/MainWindow.xaml.cs:364-373 | the fields take the delete step, and the invariant is kept |
| Window.MainWindow.Duplicate | src/NexoStamp/MainWindow.xaml.cs:375-390 | the fields take the duplicate step, and the invariant is kept |
| Window.MainWindow.Append | src/NexoStamp/MainWindow.xaml.cs:402-411 | checkpoint and append, and the invariant is kept |
| Window.MainWindow.AddText | src/NexoStamp/MainWindow.xaml.cs:400-413 | appends the new text element after a checkpoint |
| Window.MainWindow.AddRectangle | src/NexoStamp/MainWindow.xaml.cs:415-429 | appends a new rectangle after a checkpoint |
| Window.MainWindow.AddCircle | src/NexoStamp/MainWindow.xaml.cs:431-445 | appends a new circle after a checkpoint |
| Window.MainWindow.AddLine | src/NexoStamp/MainWindow.xaml.cs:447-463 | appends a new 100×0 line after a checkpoint |
| Window.MainWindow.Select | src/NexoStamp/MainWindow.xaml.cs:484-490 | the fields take the select step, and the invariant is kept |
| Window.MainWindow.Deselect | src/NexoStamp/MainWindow.xaml.cs:502-511 | the fields take the deselect step, and the invariant is kept |
| Codec.NameInjective | src/NexoStamp/Services/FileService.cs:52-56 | two canonical keys with the same property name are the same key, so a well-keyed record names each JSON property once |
| Codec.WriteBase | src/NexoStamp/Models/StampElement.cs:11-18 | the base part of a written record holds exactly the eight base-class properties, each with the element's value |
| Codec.ClassProps | src/NexoStamp/Services/FileService.cs:67 | the class part holds exactly the properties the runtime class declares and no base property: the six text properties, with weight and style as empty objects, or shape type and stroke thickness |
| Codec.Write | src/NexoStamp/Services/FileService.cs:65-68 | the record's names are the base properties plus those of the runtime class. A text element's record carries "Text" and "FontFamily"; a shape's carries "ShapeType" and neither text property |
| Codec.WriteWellKeyed | src/NexoStamp/Services/FileService.cs:67 | the writer uses only declared names, each under its own key |
| Codec.HasDeclared | src/NexoStamp/Services/FileService.cs:52-56 | in a well-keyed record, `TryGetProperty` finds a declared name exactly when its key is present |
| Codec.Sniff | src/NexoStamp/Services/FileService.cs:52-61 | for a well-keyed record: text exactly when "Text" or "FontFamily" is present; shape exactly when neither is and "ShapeType" is |
| Codec.ReadString | src/NexoStamp/Models/StampElement.cs:11 | an absent string property keeps the constructor's value, a JSON string is taken, any other value is malformed |
| Codec.ReadReal | src/NexoStamp/Models/StampElement.cs:12-16 | an absent number property keeps the constructor's value, a JSON number is taken, any other value is malformed |
| Codec.ReadBool | src/NexoStamp/Models/StampElement.cs:17 | an absent flag keeps the constructor's value, a JSON boolean is taken, any other value is malformed |
| Codec.ReadInt | src/NexoStamp/Models/StampElement.cs:18 | an absent integer keeps the constructor's value. A present one reads only when it is a number with no fractional part, and then gives that number |
| Codec.ReadCode | src/NexoStamp/Models/ShapeElement.cs:8 | an absent enumeration keeps the constructor's value. A present integral number is read as the member with that code, and fails when no member has it; any other present value is malformed |
| Codec.ReadStruct | src/NexoStamp/Models/TextElement.cs:14-15 | an absent `FontWeight` or `FontStyle` keeps the constructor's value, any JSON object reads as the normal weight or style, and any other value is malformed |
| Codec.DecodeBase | src/NexoStamp/Services/FileService.cs:54-58 | the base properties fail to read exactly when one of them is malformed. Otherwise each present property gives its field and each absent one keeps the constructor's value |
| Codec.ReadRecord | src/NexoStamp/Services/FileService.cs:45-63 | for a well-keyed record, the reader yields null exactly when none of "Text", "FontFamily" and "ShapeType" is present. A decoded element has the sniffed kind |
| Codec.ReadElement | src/NexoStamp/Services/FileService.cs:45-47 | a JSON null is a null entry, an object is read by the converter, and any other value is malformed |
| Codec.DecodeText | src/NexoStamp/Services/FileService.cs:54 | starting from a new text element: the decode fails exactly when one property is malformed. Otherwise it gives a text element whose base fields are `DecodeBase`'s, whose text, font family, size and alignment come from the record when present and keep the defaults when absent, and whose weight and style are normal |
| Codec.DecodeShape | src/NexoStamp/Services/FileService.cs:58 | starting from a new shape element: the decode fails exactly when one property is malformed. Otherwise it gives a shape element whose base fields are `DecodeBase`'s, and whose shape type and stroke thickness come from the record when present and keep the defaults when absent |
| Codec.TextTakesPrecedence | src/NexoStamp/Services/FileService.cs:52-54 | a well-keyed record with "Text" or "FontFamily" is a text element whatever else it holds, including "ShapeType" |
| Codec.ShapeWhenNoTextProperty | src/NexoStamp/Services/FileService.cs:56-58 | a well-keyed record without either text property but with "ShapeType" is not null, and decodes as a shape element |
| Codec.UnknownRecordIsNull | src/NexoStamp/Services/FileService.cs:61 | a well-keyed record with none of the three properties yields null, not an error |
| Codec.TextOnlyRecord | src/NexoStamp/Services/FileService.cs:52-54 | a record holding only "Text" decodes to the default text element with that text |
| Codec.ShapeTypeOnlyRecord | src/NexoStamp/Services/FileService.cs:56-58 | a record holding only "ShapeType" decodes to the default shape element with that shape type |
| Codec.SniffWritten | src/NexoStamp/Services/FileService.cs:67 | sniffing the record written for an element recovers the element's variant |
| Codec.WriteCarriesBase | src/NexoStamp/Models/StampElement.cs:11-18 | the written record carries every base property with the element's value |
| Codec.ReadBaseWritten | src/NexoStamp/Models/StampElement.cs:11-18 | a record that carries an element's base properties decodes to exactly those properties, whatever the defaults |
| Codec.WriteCarriesText | src/NexoStamp/Models/TextElement.cs:11-16 | the record written for a text element carries text, font family, size and alignment with their values, and weight and style as empty objects |
| Codec.ReadTextWritten | src/NexoStamp/Models/TextElement.cs:11-16 | from such a record text, font family, size and alignment read back as the element's own values, and weight and style read back as normal |
| Codec.Reloaded | src/NexoStamp/Models/TextElement.cs:14-15 | what a save and a load keep: a shape unchanged, and a text element with every field but weight and style, which become normal |
| Codec.ReadWriteText | src/NexoStamp/Services/FileService.cs:54 | decoding the record written for a text element gives the element back with normal weight and style |
| Codec.ReadWriteShape | src/NexoStamp/Services/FileService.cs:58 | decoding the record written for a shape element gives the element back |
| Codec.ReadWrite | src/NexoStamp/Services/FileService.cs:45-68 | reading what `Write` produced gives back the element, id included, with a text element's weight and style reset to normal |
| Codec.ReadWriteExact | src/NexoStamp/Services/FileService.cs:45-68 | an element comes back unchanged exactly when it is a shape or a text element of normal weight and style |
| Codec.BoldIsLost | src/NexoStamp/Models/TextElement.cs:14 | a bold text element comes back with normal weight, so it does not survive a save and a load |
| Codec.ReloadedStable | src/NexoStamp/Services/FileService.cs:24-37 | saving and loading again loses nothing more |
| Codec.WriteAll | src/NexoStamp/Services/FileService.cs:26 | the `Elements` array holds the written record of each element, in order |
| Codec.SaveDesign | src/NexoStamp/Services/FileService.cs:24-28 | the stored design keeps name and canvas size, and its `Elements` array is the written record of each element, in order |
| Codec.ReadAll | src/NexoStamp/Services/FileService.cs:36 | reading the array fails exactly when some entry is malformed. Otherwise entry `i` is the element read from entry `i`, with null for null entries |
| Codec.LoadDesign | src/NexoStamp/Services/FileService.cs:30-37 | the result is null exactly when the file is missing or holds the JSON text `null`. Any other non-design value throws. A loaded design keeps the stored name and canvas size and its entries are exactly those `ReadAll` reads from the stored array, and loading fails exactly when reading that array does |
| Codec.UnknownEntryIsNull | src/NexoStamp/Services/FileService.cs:36-61 | in a design with no malformed entry, an entry with none of "Text", "FontFamily" and "ShapeType" loads as a null element in its place, and the rest of the design still loads |
| Codec.SaveLoad | src/NexoStamp/Services/FileService.cs:24-37 | loading a saved design gives back its name, canvas size and every element in order, with text weight and style reset to normal |
| Print.CeilSqrtFrom | src/NexoStamp/Services/PrintService.cs:69 | counting up from a `c` with `(c-1)² < n` finds the least `r` with `r² >= n` |
| Print.Columns | src/NexoStamp/Services/PrintService.cs:69 | `columns` is the least `c >= 1` with `c*c >= n` |
| Print.Rows | src/NexoStamp/Services/PrintService.cs:70 | `rows` is the least `r >= 1` with `r*columns >= n` |
| Print.ColumnsLeast | src/NexoStamp/Services/PrintService.cs:69 | no `d` with `d*d >= n` is smaller than `columns` |
| Print.RowsLeast | src/NexoStamp/Services/PrintService.cs:70 | no `d` with `d*columns >= n` is smaller than `rows` |
| Print.RowsAtMostColumns | src/NexoStamp/Services/PrintService.cs:69-70 | the grid never has more rows than columns |
| Print.GridFor | src/NexoStamp/Services/PrintService.cs:69-73 | for `n >= 1` the grid has at least one row and one column |
| Print.FourCopies | src/NexoStamp/Services/PrintService.cs:69-70 | four copies give a 2×2 grid |
| Print.FiveCopies | src/NexoStamp/Services/PrintService.cs:69-70 | five copies give 3 columns and 2 rows, so six cells for five copies |
| Print.CellSizeUnchecked | src/NexoStamp/Services/PrintService.cs:72-73 | 100 copies on a 50×50 page give cells of negative width and height, which the code does not reject |
| Print.Row | src/NexoStamp/Services/PrintService.cs:77 | copy `i` is in row `r` exactly when `r*columns <= i < (r+1)*columns` |
| Print.Col | src/NexoStamp/Services/PrintService.cs:78 | the column is below `columns`, and row and column together give back `i` in row-major order |
| Print.SlotStart | src/NexoStamp/Services/PrintService.cs:80-81 | where a cell begins along one axis: the inset 10 plus the index times one cell and one gutter 20 |
| Print.SlotPitch | src/NexoStamp/Services/PrintService.cs:80-81 | slot 0 begins at the inset 10, and each next slot one cell plus the 20 gutter further on |
| Print.CellLeft | src/NexoStamp/Services/PrintService.cs:80 | the left edge of copy `i`'s cell: the slot start of its column |
| Print.CellTop | src/NexoStamp/Services/PrintService.cs:81 | the top edge of copy `i`'s cell: the slot start of its row |
| Print.CellInGrid | src/NexoStamp/Services/PrintService.cs:75-78 | copy `i < n` lands in row `< rows` and column `< columns` |
| Print.CellsDistinct | src/NexoStamp/Services/PrintService.cs:77-78 | different copies get different (row, column) cells |
| Print.CellInsidePage | src/NexoStamp/Services/PrintService.cs:72-81 | every cell begins at least 10 from the page's top-left edges and ends at least 10 before its right and bottom edges |
| Print.SlotInside | src/NexoStamp/Services/PrintService.cs:72-81 | along one axis, a slot of the page's share begins and ends at least 10 inside the page |
| Print.SlotsApart | src/NexoStamp/Services/PrintService.cs:80-81 | along one axis, two different slots are at least a 20-unit gutter apart |
| Print.CellsApart | src/NexoStamp/Services/PrintService.cs:77-81 | in a grid whose pitch is not negative, the cells of two copies are a gutter apart on some axis |
| Print.CellsDisjoint | src/NexoStamp/Services/PrintService.cs:72-81 | on a page of non-negative size the cells of two different copies do not overlap: they are at least 20 apart horizontally or vertically |
| Print.FitScale | src/NexoStamp/Services/PrintService.cs:102-104 | the scale is the smaller of the two axis ratios |
| Print.FitScaleFits | src/NexoStamp/Services/PrintService.cs:102-104 | with a positive canvas, the scaled canvas fits the target on both axes, and one scale serves both |
| Print.DefaultCanvasInSquareCell | src/NexoStamp/Services/PrintService.cs:102-104 | the default 400×300 canvas in a 150×150 cell is drawn at scale 0.375 |
| Print.CreateShape | src/NexoStamp/Services/PrintService.cs:149-189 | the shape is drawn with scaled width, height and stroke. A line starts at the origin and ends at the scaled size. The shape type picks a rectangle, ellipse or line |
| Print.RenderElement | src/NexoStamp/Services/PrintService.cs:108-143 | each element is placed at its scaled position and drawn at its scaled size, font size or stroke. A rotation transform exists exactly when the rotation is not zero, and it turns about the scaled centre |
| Print.RenderAll | src/NexoStamp/Services/PrintService.cs:106-144 | one drawing per element, drawing `k` is element `k`'s, so list order is drawing order |
| Print.RenderAllAppend | src/NexoStamp/Services/PrintService.cs:106 | drawing a concatenation draws the two parts one after the other |
| Print.RenderIgnoresZIndex | src/NexoStamp/Services/PrintService.cs:106-144 | elements that differ only in ZIndex, id or selection are drawn identically |
| Print.RenderUnkeyed | src/NexoStamp/Services/PrintService.cs:108-143 | an element is drawn exactly as it would be with its ZIndex, id and selection flag reset, because drawing reads none of them |
| Print.RenderKeepsAspect | src/NexoStamp/Services/PrintService.cs:116-122 | every element keeps its proportions, because both axes use one factor |
| Print.RenderStampToCanvas | src/NexoStamp/Services/PrintService.cs:92-147 | the canvas has the target size and holds every element, scaled to fit, in list order |
| Print.CreatePrintDocument | src/NexoStamp/Services/PrintService.cs:59-90 | the page has the given size. With `n < 1` it is empty. Otherwise it holds exactly `n` stamps, and stamp `i` sits at cell `i`'s origin with the design fitted to the cell |
| Print.StampAt | src/NexoStamp/Services/PrintService.cs:83-86 | the copy in cell `i` sits at the cell's left and top edges and is a canvas of the cell's size holding each element, in order, drawn at the scale that fits the design to the cell |
| Print.PlacementOnPage | src/NexoStamp/Services/PrintService.cs:80-81 | element `k` of copy `i` lands at the cell origin plus the element's scaled position |

## Left out

- WPF visual construction is not modelled: `TextBlock`, `Canvas`, brushes, borders, `UpdateUI` and `UpdatePropertiesPanel`. The print model keeps only the numbers handed to those objects.
- Dialogs and window chrome are not modelled: the print dialog, the preview window, the Open and Save file dialogs, message boxes, zoom and the font list. New is modelled only for the answer Yes.
- `OpenDesign_Click` and the save handlers are not modelled. They are file dialogs around the codec. Opening would also bring in a loaded design whose flags and ids the invariant does not constrain.
- `_currentFilePath` is not modelled. It only selects the dialog path.
- Mouse dragging (the rest of `Element_MouseLeftButtonDown`, `DesignCanvas_MouseMove`, `DesignCanvas_MouseLeftButtonUp`) is not modelled. Neither are the property-change handlers that parse text boxes with `double.TryParse`. These edit the selected element in place without a checkpoint.
- The file system and the System.Text.Json library are not modelled. An encoded element is an abstract property map, and a stored design an abstract record with an element array; a missing file is `None`.
- Records whose keys are not canonical (an `OtherKey` spelling a declared name) stand for no JSON object; the name-level statements about the reader assume a well-keyed record, which the writer always produces (`Codec.WriteWellKeyed`).
- The JSON text, its parser and the parsing of the outer design record are not modelled.
- Codec.ReadString: a JSON `null` for a string property is treated as malformed, where the serializer would store `null`; the model has no null strings.
- Codec.ReadInt: `ZIndex` accepts any integral number; the Int32 range and the textual form of numbers are not modelled.
- Codec.ReadCode: enum codes outside the declared members of `ShapeType` and `TextAlignment` decode as malformed; the source would accept them, and `CreateShape` would then draw an empty rectangle.
- WPF's property validation is not modelled. A negative `Width` or `Height` (`PrintService.cs` lines 96-97, 121-122, 158-159 and 168-169) or a non-positive `FontSize` (line 116) makes WPF throw `ArgumentException` when it is assigned. The print model computes these values and does not raise the exception, so a grid of negative cells (`Print.CellSizeUnchecked`) or a zero font size is laid out as numbers.
- IEEE-754 rounding, infinities and NaN are not modelled, nor `Math.Sqrt` and `Math.Ceiling` as floating-point functions. The grid is characterised on integers. `RenderStampToCanvas` requires a non-zero canvas width and height, because real division by zero has no IEEE infinity to produce.
- Print.CreatePrintDocument: with `n < 1` the source derives infinite or unspecified grid values (0 columns, `(int)NaN` rows, an infinite cell width) that the loop never reads; the model builds the empty page without computing them.
- GUID generation is not modelled: every new id is a parameter, with freshness stated as a precondition.
- Window.FreshIds asks only what the invariant needs of snapshot ids: pairwise distinct, and each different from the id it replaces. Real GUIDs are also distinct from every other id.
