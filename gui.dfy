/** The state behind the widgets: the image label with its drag points and the
    list it draws, and the main window with the image paths, the store of lists
    and the cursor. Each Python list of rectangles is an object, so that the
    label's list and the store's entry for the current image are one list, as
    they are after show_img. */
module Gui {
  import opened Wrappers
  import opened Geometry
  import opened Stems
  import opened Annotations
  import opened Codec

  /** The keys the window reacts to; every other key is Other. */
  datatype KeyCode = Left | Right | D | S | Q | Other

  /** The cursor movement a key asks for. */
  function Delta(key: KeyCode): int {
    match key
    case Left => -1
    case Right => 1
    case _ => 0
  }

  /** A mutable Python list of rectangles. */
  class RectList {
    var items: seq<Rect>

    constructor ()
      ensures items == []
    {
      items := [];
    }
  }

  /** The label that shows the image and records drags. */
  class ImageLabel {
    var begin: Point
    var end: Point
    var rectangles: RectList

    constructor ()
      ensures begin == NullPoint && end == NullPoint
      ensures fresh(rectangles) && rectangles.items == []
    {
      begin, end := NullPoint, NullPoint;
      rectangles := new RectList();
    }

    /** A press starts a drag: both points are the press position. */
    method MousePress(p: Point)
      modifies this`begin, this`end
      ensures begin == p && end == p
    {
      begin, end := p, p;
    }

    /** A move while dragging updates the live corner only. */
    method MouseMove(p: Point)
      modifies this`end
      ensures end == p
    {
      end := p;
    }

    /** A release appends the normalised drag rectangle to the label's list and
        ends the drag. */
    method MouseRelease()
      modifies this`begin, this`end, rectangles
      ensures rectangles.items == old(rectangles.items) + [Normalized(old(begin), old(end))]
      ensures begin == NullPoint && end == NullPoint
    {
      var r := Normalized(begin, end);
      rectangles.items := rectangles.items + [r];
      begin, end := NullPoint, NullPoint;
    }
  }

  /** Distinct keys hold distinct lists (each key is seeded with its own []). */
  ghost predicate Injective(m: map<string, RectList>) {
    forall k1, k2 :: k1 in m && k2 in m && k1 != k2 ==> m[k1] != m[k2]
  }

  /** A dictionary of lists as a value. */
  function StoreOf(m: map<string, RectList>): Labels
    reads m.Values
  {
    map k | k in m :: m[k].items
  }

  /** The dictionary comprehension of load_data: a fresh empty list for every
      key of the scanned images. */
  method SeedLabels(files: seq<string>) returns (m: map<string, RectList>)
    ensures m.Keys == KeySet(files) && Injective(m) && fresh(m.Values)
    ensures StoreOf(m) == Seeded(files)
  {
    m := map[];
    var i := 0;
    while i < |files|
      invariant 0 <= i <= |files|
      invariant m.Keys == KeySet(files[..i])
      invariant Injective(m)
      invariant forall k :: k in m ==> fresh(m[k]) && m[k].items == []
    {
      var empty := new RectList();
      KeySetSnoc(files[..i], files[i]);
      assert files[..i + 1] == files[..i] + [files[i]];
      m := m[Key(files[i]) := empty];
      i := i + 1;
    }
    assert files[..|files|] == files;
  }

  /** The merge loop of load_data: each stored entry, decoded, is appended to
      its key's list, in stored order. The key's list is looked up only for an
      entry, so a stored key with no entries needs no list; a stored entry whose
      key has no list is the KeyError the source raises, and is excluded. */
  method MergeStored(m: map<string, RectList>, d: Stored)
    requires forall k :: k in d && d[k] != [] ==> k in m
    requires Injective(m)
    requires forall k :: k in d ==> Decodable(d[k])
    modifies m.Values
    ensures forall k :: k in m ==>
      m[k].items == old(m[k].items) + if k in d then DecodeList(d[k]) else []
  {
    var pending := d.Keys;
    while pending != {}
      invariant pending <= d.Keys
      invariant forall k :: k in m ==>
        m[k].items == old(m[k].items) + if k in d && k !in pending then DecodeList(d[k]) else []
      modifies m.Values
      decreases pending
    {
      var name :| name in pending;
      var entries := d[name];
      if entries != [] {
        AppendDecoded(m[name], entries);
      }
      pending := pending - {name};
    }
  }

  /** The inner loop of load_data's merge: each entry of one stored list,
      decoded, appended in order to the key's list. */
  method AppendDecoded(list: RectList, entries: seq<Entry>)
    requires Decodable(entries)
    modifies list
    ensures list.items == old(list.items) + DecodeList(entries)
  {
    ghost var before := list.items;
    var j := 0;
    while j < |entries|
      invariant 0 <= j <= |entries|
      invariant |list.items| == |before| + j && list.items[..|before|] == before
      invariant forall t :: 0 <= t < j ==> list.items[|before| + t] == DecodeEntry(entries[t])
    {
      list.items := list.items + [DecodeEntry(entries[j])];
      j := j + 1;
    }
    assert list.items == before + DecodeList(entries);
  }

  /** load_data without the directory scan and the file read: files is what the
      scan found and stored the unpickled results file, if there is one. */
  method LoadData(files: seq<string>, stored: Option<Stored>) returns (m: map<string, RectList>)
    requires stored.Some? ==> Loadable(files, stored.value)
    ensures m.Keys == KeySet(files) && Injective(m) && fresh(m.Values)
    ensures StoreOf(m) == if stored.Some? then Loaded(files, stored.value) else Seeded(files)
  {
    m := SeedLabels(files);
    if stored.Some? {
      var d := stored.value;
      MergeStored(m, d);
      LoadedFrom(files, d, StoreOf(m));
    }
  }

  /** The main window. The image paths and the dictionary of lists are set once,
      when the window is built; the cursor moves and the lists change in place. */
  class AnnotationGui {
    const images: seq<string>
    const labels: map<string, RectList>
    var index: int
    const imgLabel: ImageLabel

    /** The cursor is on an image, the store has exactly the scanned keys, and the
        label draws (and appends to) the current image's own list. */
    ghost predicate Valid()
      reads this, imgLabel
    {
      && Consistent()
      && 0 <= index < |images|
      && imgLabel.rectangles == labels[Key(images[index])]
    }

    /** What holds from construction on, whatever the cursor: there are images,
        the store has exactly their keys and every key has its own list. */
    ghost predicate Consistent() {
      && |images| > 0
      && labels.Keys == KeySet(images)
      && Injective(labels)
    }

    /** The key of the image on screen. */
    function CurrentKey(): string
      reads this
      requires 0 <= index < |images|
    {
      Key(images[index])
    }

    /** The store as a value. */
    function Store(): Labels
      reads labels.Values
    {
      StoreOf(labels)
    }

    constructor (files: seq<string>, stored: Option<Stored>)
      requires |files| > 0
      requires stored.Some? ==> Loadable(files, stored.value)
      ensures Valid() && fresh(imgLabel) && fresh(labels.Values)
      ensures images == files && index == 0
      ensures Store() == if stored.Some? then Loaded(files, stored.value) else Seeded(files)
      ensures imgLabel.begin == NullPoint && imgLabel.end == NullPoint
    {
      imgLabel := new ImageLabel();
      var loaded := LoadData(files, stored);
      images, labels := files, loaded;
      index := 0;
      new;
      KeyInKeySet(images, index);
      ShowImage(images[index]);
    }

    /** Points the label at the list of the image being shown (rendering is not
        modelled). */
    method ShowImage(path: string)
      requires Key(path) in labels
      modifies imgLabel`rectangles
      ensures imgLabel.rectangles == labels[Key(path)]
      ensures Store() == old(Store())
    {
      imgLabel.rectangles := labels[Key(path)];
    }

    /** Left and Right move the cursor with wrap-around; D removes the current
        image's last rectangle if it has one; S writes the store; Q writes it and
        asks to quit, before the cursor is renormalised. */
    method KeyPress(key: KeyCode) returns (written: Option<Stored>, quit: bool)
      requires Valid()
      modifies this`index, imgLabel`rectangles, labels[Key(images[index])]
      ensures Valid()
      ensures index == if key == Q then old(index) else Advance(old(index), Delta(key), |images|)
      ensures Store() == if key == D then RemoveLast(old(Store()), old(CurrentKey())) else old(Store())
      ensures written == if key == S || key == Q then Some(Encoded(old(Store()))) else None
      ensures quit == (key == Q)
    {
      written, quit := None, false;
      if key == Left {
        index := index - 1;
      } else if key == Right {
        index := index + 1;
      } else if key == D {
        DeleteLast();
      } else if key == S {
        var saved := SaveData(Store());
        written := Some(saved);
      } else if key == Q {
        var saved := SaveData(Store());
        written, quit := Some(saved), true;
        return;
      }
      ShowCurrent();
    }

    /** The end of every handled key: the cursor wraps into range and the label
        is pointed at the list of the image now under it. */
    method ShowCurrent()
      requires Consistent()
      modifies this`index, imgLabel`rectangles
      ensures Valid()
      ensures index == Wrap(old(index), |images|)
      ensures Store() == old(Store())
    {
      index := Wrap(index, |images|);
      KeyInKeySet(images, index);
      ShowImage(images[index]);
    }

    /** Key D: the current image's last rectangle goes, if it has one. */
    method DeleteLast()
      requires Valid()
      modifies labels[Key(images[index])]
      ensures Valid()
      ensures Store() == RemoveLast(old(Store()), CurrentKey())
    {
      var list := labels[Key(images[index])];
      if list.items != [] {
        list.items := list.items[..|list.items| - 1];
      }
    }

    /** The label's release handler as it affects the store: through the shared
        list, exactly the current image's list grows by the drag rectangle. */
    method MouseRelease()
      requires Valid()
      modifies imgLabel`begin, imgLabel`end, labels[Key(images[index])]
      ensures Valid()
      ensures Store() == Append(old(Store()), CurrentKey(), Normalized(old(imgLabel.begin), old(imgLabel.end)))
      ensures imgLabel.begin == NullPoint && imgLabel.end == NullPoint
    {
      imgLabel.MouseRelease();
    }
  }
}
