# Image annotation tool — verified model of its annotation state

The tool shows the images of a directory one at a time. The user drags axis-aligned
rectangles over an image, deletes the most recent one with D, moves between images
with Left and Right (wrapping around), saves with S, and saves and quits with Q.
The rectangles of every image live in a dictionary keyed by the image's stem (the
base name up to its first `.`), and that dictionary is saved to, and loaded from, a
results file with each rectangle written as four integers.

This project models that state and proves what the handlers do to it:

- `Geometry`: points, rectangles and the normalisation of a drag.
- `Stems`: base name, stem and the set of keys of a sequence of image paths.
- `Annotations`: the store as a value (`map<string, seq<Rect>>`), seeding, append,
  remove-last and the wrapping cursor (Python's non-negative `%`).
- `Codec`: the save and load transformations between the store and the dictionary of
  integer lists, and the laws relating them.
- `Gui`: the two widgets as classes.
  - `ImageLabel` holds the drag points and the list it draws and appends to.
  - `AnnotationGui` holds the image paths, the dictionary of lists and the cursor.
  - Every Python list of rectangles is a `RectList` object, so the alias created in
    `show_img` (the label's list *is* the store's list for the current image) is
    modelled as real sharing. `AnnotationGui.Valid` states that sharing and the
    one-list-per-key property it relies on.

Saving writes each rectangle as `[x, y, height, width]`. Loading reads an entry `e` back as the rectangle with
width `e[2]` and height `e[3]`. A save followed by a load therefore exchanges width
and height in every rectangle: save_data and load_data use different field orders,
so the round trip is not the identity. The model follows the code and proves three
facts about it:
- one round trip transposes every rectangle;
- two round trips restore the store;
- one round trip is the identity exactly when every rectangle is a square.

Directory scanning and the results file are not modelled as I/O. The constructor
takes the scanned paths as a sequence, and the unpickled dictionary as an optional
value (`None` when there is no results file). `KeyPress` returns the dictionary that
S or Q would write, and reports whether Q asked to quit.

## Model

| member | source | states |
|---|---|---|
| Geometry.Normalized | main.py:52 | the committed rectangle has non-negative width and height, and its horizontal and vertical edges are exactly the two drag points' coordinates, whatever the drag direction |
| Geometry.NormalizedSymmetric | main.py:52 | dragging from a to b or from b to a commits the same rectangle |
| Geometry.NormalizedClick | main.py:52-53 | a press and release at one point gives a zero-size rectangle at that point (which is still appended) |
| Geometry.NormalizedExample | main.py:52 | a drag from (50,50) to (10,80) gives x=10, y=50, width=40, height=30 |
| Stems.Basename | main.py:128 | the last '/'-separated component of a path; BasenameShape and BasenameUnique state what it is |
| Stems.Stem | main.py:128 | the first field of `split('.')`; StemShape and StemUnique state what it is |
| Stems.Key | main.py:158 | the key of an image path: the stem of its base name; KeyShape states that it is a dot-free, slash-free prefix of the base name |
| Stems.BasenameShape | main.py:111 | the base name is the suffix after the last '/', holds no '/', and is the whole path or preceded by '/' |
| Stems.StemShape | main.py:111 | `split('.')[0]` is the longest dot-free prefix of the name, followed by '.' unless it is the whole name |
| Stems.KeyShape | main.py:128 | an image key is a prefix of the base name and contains neither '.' nor '/' |
| Stems.StemUnique | main.py:111 | any dot-free prefix ending at a '.' or at the end is the stem (the shape determines the stem) |
| Stems.BasenameUnique | main.py:128 | any '/'-free suffix that is the whole path or follows a '/' is the base name |
| Stems.Keys | main.py:158 | the list of keys has one entry per image, in image order, each the key of that image |
| Stems.KeySet | main.py:159 | the keys of the seeded dictionary: the distinct keys of the scanned paths; KeySetSize, KeySetSnoc and DuplicateStemsCollapse state its size and growth |
| Stems.KeyInKeySet | main.py:158-159 | the key of every scanned image is a key of the dictionary |
| Stems.ElementsSize | main.py:159 | a dictionary comprehension over a list has at most as many keys as the list has items |
| Stems.ElementsRepeated | main.py:159 | a list with a repeated item gives strictly fewer keys than items |
| Stems.KeySetSize | main.py:158-159 | there are never more keys than images |
| Stems.DuplicateStemsCollapse | main.py:158-159 | two images with the same stem collapse to one key while both stay in the image list |
| Stems.KeySetSnoc | main.py:158-159 | one more scanned image adds exactly its key to the key set |
| Stems.KeyExample | main.py:158 | "data/a.jpg" is stored under "a" |
| Stems.TwoImageKeys | main.py:158-159 | the keys of data/a.jpg and data/b.png are exactly {"a", "b"} |
| Annotations.Seeded | main.py:159 | the seeded store has exactly the scanned keys, each with an empty list |
| Annotations.Append | main.py:53 | appending to key k keeps the keys, makes k's list one longer ending in the new rectangle with its earlier entries unchanged, and leaves every other key's list unchanged |
| Annotations.RemoveLast | main.py:111-113 | on an empty list nothing changes; otherwise k's list loses exactly its last rectangle; other keys are unchanged |
| Annotations.RemoveLastUndoesAppend | main.py:110-113 | deleting right after a commit restores the store |
| Annotations.RemoveLastRepeated | main.py:112 | on an empty list further deletions are no-ops |
| Annotations.DeleteScenario | main.py:110-113 | three presses of D on a list of two rectangles remove the second, then the first, then nothing |
| Annotations.Wrap | main.py:123 | the renormalised cursor is in [0, n) and an in-range cursor is unchanged |
| Annotations.WrapCongruent | main.py:123 | the wrapped cursor differs from the raw one by a multiple of n (floor remainder) |
| Annotations.Advance | main.py:104-123 | after Left or Right the cursor is in [0, n), and it is the plain sum when that is in range |
| Annotations.LeftWrapsToLast | main.py:104-123 | Left at the first image goes to the last |
| Annotations.RightWrapsToFirst | main.py:104-123 | Right at the last image goes to the first |
| Annotations.AdvanceInverse | main.py:104-123 | Left undoes Right and Right undoes Left |
| Codec.Transposed | main.py:145-166 | the rectangle with width and height exchanged and the origin kept |
| Codec.EncodeRect | main.py:145 | a saved rectangle is a list of four integers |
| Codec.DecodeEntry | main.py:166 | an entry of at least four items is loaded as the rectangle with x e[0], y e[1], width e[2], height e[3]; DecodeEncodeRect and EncodeDecodeEntry relate it to saving |
| Codec.DecodeEncodeRect | main.py:145-166 | loading a saved rectangle exchanges its width and height |
| Codec.EncodeDecodeEntry | main.py:145-166 | saving a loaded entry writes its third and fourth items exchanged |
| Codec.EncodeList | main.py:144-145 | a saved list has the same length and order, each entry four integers that load back as the transposed rectangle |
| Codec.EncodeListSnoc | main.py:144-145 | encoding one more rectangle appends exactly its entry |
| Codec.DecodeList | main.py:165-166 | a loaded list has the stored length, and entry i becomes the rectangle (e[0], e[1], e[2], e[3]) |
| Codec.TransposeAll | main.py:145-166 | every rectangle of a list transposed, length and order kept |
| Codec.TransposeLabels | main.py:145-166 | every list of the store transposed, keys kept |
| Codec.Encoded | main.py:141-145 | the saved dictionary has exactly the store's keys, empty lists included; each list has its length and order and each entry is [x, y, height, width] |
| Codec.Loadable | main.py:164-166 | loading finishes exactly when every stored key with a non-empty list is a scanned key (otherwise KeyError) and every entry has at least four items (otherwise IndexError); a stored key with an empty list needs no scanned image |
| Codec.Loaded | main.py:158-166 | the loaded store has exactly the scanned keys; scanned keys not in the file are empty; scanned stored keys have their stored length and order, entry e loaded as (e[0], e[1], e[2], e[3]) |
| Codec.LoadSkipsUnscanned | main.py:164-166 | a stored key that was not scanned can only hold an empty list when loading succeeds, and the loaded store drops it |
| Codec.RemovedImageLoads | main.py:158-166 | a results file keeping the key "b" with an empty list after b's image is gone loads, giving just "a" with an empty list |
| Codec.SaveData | main.py:141-145 | the nested loops of save_data build exactly the saved dictionary |
| Codec.LoadedFrom | main.py:158-166 | any store with the scanned keys, holding the decoded list per stored key and an empty list elsewhere, is the loaded store |
| Codec.LoadNothing | main.py:158-161 | with no results file the loaded store is the seeded store |
| Codec.EncodedLoadable | main.py:142-166 | what is saved can be loaded back without KeyError or IndexError whenever every key with rectangles is a scanned key; keys with empty lists may be unscanned |
| Codec.DecodeEncodeList | main.py:144-166 | loading a saved list gives the list with every rectangle transposed |
| Codec.SaveLoadTransposes | main.py:141-166 | saving a store and loading it back keeps keys, lengths and order and exchanges width and height of every rectangle |
| Codec.TransposeTwice | main.py:145-166 | transposing the whole store twice restores it |
| Codec.SaveLoadTwiceRestores | main.py:141-166 | two save/load round trips restore the original store |
| Codec.TransposeFixedIffSquare | main.py:145-166 | transposing leaves the store unchanged if and only if every rectangle is a square |
| Codec.SaveLoadIdentityIffSquare | main.py:141-166 | one save/load round trip is the identity if and only if every rectangle has equal width and height |
| Codec.AppendSeeded | main.py:53-159 | one rectangle committed to a freshly seeded store: that key's list is just the rectangle, every other key's list is empty, and the keys are the scanned keys |
| Codec.DrawnStore | main.py:51-53 | on images a and b, a drag from (0,0) to (10,20) on a leaves a with the one rectangle (0, 0, 10, 20) and b empty |
| Codec.TransposeOne | main.py:145-166 | the scenario's rectangle (0, 0, 10, 20) transposed is (0, 0, 20, 10) |
| Codec.DrawSaveReloadScenario | main.py:141-166 | on images a and b, a drag from (0,0) to (10,20) on a commits a 10 by 20 rectangle, and after save and load it is 20 wide and 10 high, while b stays empty |
| Gui.RectList.constructor | main.py:38 | a new list is empty |
| Gui.ImageLabel.constructor | main.py:35-38 | both drag points are null and the label's list is a fresh empty list |
| Gui.ImageLabel.MousePress | main.py:41-42 | a press sets both drag points to the press position |
| Gui.ImageLabel.MouseMove | main.py:46-47 | a move updates only the end point |
| Gui.ImageLabel.MouseRelease | main.py:51-54 | a release appends the normalised drag rectangle to the label's list, changes no other list, and resets both points to null |
| Gui.SeedLabels | main.py:158-159 | one fresh, distinct empty list per scanned key, and no other key |
| Gui.AppendDecoded | main.py:165-166 | one stored list's entries are decoded and appended in stored order to the key's list |
| Gui.MergeStored | main.py:164-166 | each scanned stored key's list gets its decoded entries appended in stored order; other lists are unchanged; a stored key with no entries is skipped, with or without a list |
| Gui.LoadData | main.py:158-166 | the dictionary of lists built at load holds exactly the loaded store (the seeded one without a results file) |
| Gui.AnnotationGui.constructor | main.py:85-98 | the window starts on the first image with the loaded store, the label sharing the first image's list, and no drag in progress |
| Gui.AnnotationGui.ShowImage | main.py:128-137 | the label's list becomes the store's list for the shown image's key; the store is unchanged |
| Gui.Delta | main.py:104-107 | Left moves the cursor by -1, Right by +1, every other key by 0; KeyPress states the move with wrap-around |
| Gui.AnnotationGui.KeyPress | main.py:101-125 | the cursor stays in range (Left/Right wrap, others renormalise, Q leaves it); D removes the current image's last rectangle; no other key changes the store; S and Q return the saved dictionary of the store; Q asks to quit |
| Gui.AnnotationGui.ShowCurrent | main.py:123-125 | the cursor is wrapped into range and the label shares the list of the image under it; the store is unchanged |
| Gui.AnnotationGui.DeleteLast | main.py:110-113 | the current image's last rectangle goes if it has one; every other list is unchanged |
| Gui.AnnotationGui.MouseRelease | main.py:51-54 | through the shared list, exactly the current image's list grows by the drag rectangle; other keys are unchanged; the drag ends |

## Left out

- Rendering and widget plumbing (`paintEvent`, pens, `setPixmap`, `setFixedSize`, the layout): these are display only. The null-point test at main.py:68 only decides whether to draw a rectangle.
- Image decoding with OpenCV and building the `QImage` in `show_img`: these are foreign library calls. `ShowImage` keeps only the alias of line 137.
- Directory scanning with `glob`, including the second pattern tried at main.py:152-154: the scanned paths are a parameter.
- The pickle format and opening, reading and writing the results file: the model has the unpickled dictionary as an optional parameter and the saved one as a result.
- `sys.exit(app.exec_())` on Q and the command-line handling under `__main__`: these are process control. Q is modelled as the save plus a quit flag, with the cursor left as it was.
- Geometry.Normalized: width and height are the differences of the corner coordinates. The inclusive pixel arithmetic of Qt's `QRect` is not modelled: `QRect(begin, end)` has width end.x − begin.x + 1, and `normalized()` swaps corners only when that width (or height) is negative. For every drag that does not end exactly one pixel left of, or above, its start, Qt's extent is one more than the model's, so the saved entry has its last two items one less in the model than the program writes. For the drag in Codec.DrawSaveReloadScenario the model saves [0, 0, 20, 10] where the program saves [0, 0, 21, 11]. A drag that ends exactly one pixel left of (or above) its start is not swapped by Qt: the program keeps the press coordinate with extent 0 on that axis (from (10,0) to (9,0) it commits x = 10, width 0), where the model commits x = 9, width 1. This case is not modelled, and it is also why, in the program, the result can depend on drag direction, unlike Geometry.NormalizedSymmetric.
- Stems.Basename: only '/' separates path components. Windows separators, trailing slashes and other normalisation done by `Path` are not modelled.
- The iteration order of the dictionaries: the model's stores are maps, so order between keys is not modelled. The order within a list is modelled.
- The empty image set: the source crashes on it, at main.py:98 and with `% 0` at main.py:123. The constructor requires at least one image.
- Codec.Loaded: a stored key that is not a scanned key raises KeyError only when its list has an entry, and an entry shorter than four items raises IndexError. Being free of both is the precondition `Loadable`. The crash itself is not modelled.
- Integer width: `Rect` and `Entry` hold unbounded integers. `QRect(rect[0], …, rect[3])` takes C ints, so a stored item that is not an integer, or lies outside 32 bits, makes the load raise. `Decodable` only covers the IndexError of a short entry.
- The class-level defaults of `ImageLabel` at main.py:35-38 are shared between instances of the class. They are modelled as fields of each instance.
- Interactive scenarios on the widget objects are stated on values: Annotations.DeleteScenario and Codec.DrawSaveReloadScenario work on the store that `KeyPress`, `DeleteLast` and `MouseRelease` are proved to produce.
