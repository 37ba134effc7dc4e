/** The transformation between the in-memory store and the dictionary that is
    written to and read from the results file: each rectangle becomes a list of
    four integers. Saving writes [x, y, height, width]; loading reads an entry e
    as x = e[0], y = e[1], width = e[2], height = e[3]. */
module Codec {
  import opened Geometry
  import opened Stems
  import opened Annotations

  /** One stored rectangle: a list of integers. */
  type Entry = seq<int>

  /** The dictionary that is pickled: image key to a list of entries. */
  type Stored = map<string, seq<Entry>>

  /** The same rectangle with width and height exchanged. */
  function Transposed(r: Rect): (t: Rect)
    ensures t.x == r.x && t.y == r.y && t.width == r.height && t.height == r.width
  {
    Rect(r.x, r.y, r.height, r.width)
  }

  /** Saving one rectangle: origin, then height, then width. */
  function EncodeRect(r: Rect): (e: Entry)
    ensures |e| == 4
  {
    [r.x, r.y, r.height, r.width]
  }

  /** Loading one entry: QRect(e[0], e[1], e[2], e[3]), whose width is e[2] and
      whose height is e[3]. Items past the fourth are ignored. */
  function DecodeEntry(e: Entry): (r: Rect)
    requires |e| >= 4
  {
    Rect(e[0], e[1], e[2], e[3])
  }

  /** Decoding what was saved exchanges width and height. */
  lemma DecodeEncodeRect(r: Rect)
    ensures DecodeEntry(EncodeRect(r)) == Transposed(r)
  {
  }

  /** Saving what was decoded writes the third and fourth items exchanged. */
  lemma EncodeDecodeEntry(e: Entry)
    requires |e| >= 4
    ensures EncodeRect(DecodeEntry(e)) == [e[0], e[1], e[3], e[2]]
  {
  }

  function EncodeList(rs: seq<Rect>): (es: seq<Entry>)
    ensures |es| == |rs|
    ensures forall i :: 0 <= i < |rs| ==> |es[i]| == 4 && DecodeEntry(es[i]) == Transposed(rs[i])
  {
    seq(|rs|, i requires 0 <= i < |rs| => EncodeRect(rs[i]))
  }

  /** Encoding a list one rectangle at a time, as save_data's inner loop does. */
  lemma EncodeListSnoc(rs: seq<Rect>, r: Rect)
    ensures EncodeList(rs + [r]) == EncodeList(rs) + [EncodeRect(r)]
  {
  }

  /** Every entry of a list is long enough to be indexed up to [3]. */
  predicate Decodable(es: seq<Entry>) {
    forall i :: 0 <= i < |es| ==> |es[i]| >= 4
  }

  function DecodeList(es: seq<Entry>): (rs: seq<Rect>)
    requires Decodable(es)
    ensures |rs| == |es|
    ensures forall i :: 0 <= i < |es| ==> rs[i] == Rect(es[i][0], es[i][1], es[i][2], es[i][3])
  {
    seq(|es|, i requires 0 <= i < |es| && |es[i]| >= 4 => DecodeEntry(es[i]))
  }

  function TransposeAll(rs: seq<Rect>): (ts: seq<Rect>)
    ensures |ts| == |rs| && forall i :: 0 <= i < |rs| ==> ts[i] == Transposed(rs[i])
  {
    seq(|rs|, i requires 0 <= i < |rs| => Transposed(rs[i]))
  }

  /** The store with width and height exchanged in every rectangle. */
  function TransposeLabels(l: Labels): (t: Labels)
    ensures t.Keys == l.Keys
    ensures forall k :: k in l ==> t[k] == TransposeAll(l[k])
  {
    map k | k in l :: TransposeAll(l[k])
  }

  /** The dictionary save_data writes: every key, the empty lists too; every list
      with its length and order; every rectangle as [x, y, height, width]. */
  function Encoded(l: Labels): (d: Stored)
    ensures d.Keys == l.Keys
    ensures forall k :: k in l ==> |d[k]| == |l[k]|
    ensures forall k, i :: k in l && 0 <= i < |l[k]| ==>
      d[k][i] == [l[k][i].x, l[k][i].y, l[k][i].height, l[k][i].width]
  {
    map k | k in l :: EncodeList(l[k])
  }

  /** What load_data needs of a stored dictionary to finish: every stored key
      with a non-empty list is one of the scanned keys (the lookup of the key's
      list, which raises KeyError, happens only for a stored entry) and every
      entry has at least four items (otherwise the indexing raises IndexError). */
  predicate Loadable(images: seq<string>, d: Stored) {
    && (forall k :: k in d && d[k] != [] ==> k in KeySet(images))
    && forall k :: k in d ==> Decodable(d[k])
  }

  /** The store load_data builds: every scanned key seeded with an empty list,
      then each stored entry decoded and appended in stored order. */
  function Loaded(images: seq<string>, d: Stored): (l: Labels)
    requires Loadable(images, d)
    ensures l.Keys == KeySet(images)
    ensures forall k :: k in l && k !in d ==> l[k] == []
    ensures forall k :: k in d && k in l ==> |l[k]| == |d[k]|
    ensures forall k, i :: k in d && k in l && 0 <= i < |d[k]| ==>
      l[k][i] == Rect(d[k][i][0], d[k][i][1], d[k][i][2], d[k][i][3])
  {
    map k | k in KeySet(images) :: if k in d then DecodeList(d[k]) else []
  }

  /** save_data: the dictionary that S and Q write, built key by key and
      rectangle by rectangle. */
  method SaveData(l: Labels) returns (saved: Stored)
    ensures saved == Encoded(l)
  {
    saved := map k | k in l :: [];
    var pending := l.Keys;
    while pending != {}
      invariant pending <= l.Keys
      invariant saved.Keys == l.Keys
      invariant forall k :: k in saved ==> saved[k] == if k in pending then [] else EncodeList(l[k])
      decreases pending
    {
      var name :| name in pending;
      var rects := l[name];
      var out := saved[name];
      var j := 0;
      while j < |rects|
        invariant 0 <= j <= |rects|
        invariant out == EncodeList(rects[..j])
      {
        EncodeListSnoc(rects[..j], rects[j]);
        assert rects[..j + 1] == rects[..j] + [rects[j]];
        out := out + [EncodeRect(rects[j])];
        j := j + 1;
      }
      assert rects[..|rects|] == rects;
      saved := saved[name := out];
      pending := pending - {name};
    }
  }

  /** A store with the scanned keys whose lists are the decoded stored lists,
      or empty for keys nothing was stored under, is the loaded store. */
  lemma LoadedFrom(images: seq<string>, d: Stored, l: Labels)
    requires Loadable(images, d) && l.Keys == KeySet(images)
    requires forall k :: k in l ==> l[k] == if k in d then DecodeList(d[k]) else []
    ensures l == Loaded(images, d)
  {
  }

  /** Loading without a results file gives the seeded store. */
  lemma LoadNothing(images: seq<string>)
    ensures Loadable(images, map[]) && Loaded(images, map[]) == Seeded(images)
  {
  }

  /** A stored key that was not scanned holds no entries when loading succeeds,
      and the loaded store has no list for it: it is skipped. */
  lemma LoadSkipsUnscanned(images: seq<string>, d: Stored, k: string)
    requires Loadable(images, d) && k in d && k !in KeySet(images)
    ensures d[k] == [] && k !in Loaded(images, d)
  {
  }

  /** An image without rectangles removed between sessions: the results file
      still has its key with an empty list, and loading skips it. */
  lemma RemovedImageLoads()
    ensures var d: Stored := map["a" := [], "b" := []];
      && Loadable(["data/a.jpg"], d)
      && Loaded(["data/a.jpg"], d).Keys == {"a"}
      && Loaded(["data/a.jpg"], d)["a"] == []
  {
    KeyExample();
    assert Keys(["data/a.jpg"]) == ["a"];
  }

  /** What save_data writes can always be loaded back when every key with a
      non-empty list is among the scanned ones. */
  lemma EncodedLoadable(images: seq<string>, l: Labels)
    requires forall k :: k in l && l[k] != [] ==> k in KeySet(images)
    ensures Loadable(images, Encoded(l))
  {
  }

  /** Loading a saved list gives the list with every rectangle transposed. */
  lemma DecodeEncodeList(rs: seq<Rect>)
    ensures Decodable(EncodeList(rs)) && DecodeList(EncodeList(rs)) == TransposeAll(rs)
  {
  }

  /** Saving a store whose keys are exactly the scanned keys and loading it back
      exchanges width and height in every rectangle; keys, lengths and order are
      kept. */
  lemma SaveLoadTransposes(images: seq<string>, l: Labels)
    requires l.Keys == KeySet(images)
    ensures Loadable(images, Encoded(l))
    ensures Loaded(images, Encoded(l)) == TransposeLabels(l)
  {
    EncodedLoadable(images, l);
    var d := Encoded(l);
    var back := Loaded(images, d);
    var t := TransposeLabels(l);
    forall k | k in l
      ensures back[k] == t[k]
    {
      assert d[k] == EncodeList(l[k]);
      assert back[k] == DecodeList(d[k]);
      DecodeEncodeList(l[k]);
    }
    assert back.Keys == t.Keys;
  }

  lemma TransposeTwice(l: Labels)
    ensures TransposeLabels(TransposeLabels(l)) == l
  {
    forall k | k in l
      ensures TransposeLabels(TransposeLabels(l))[k] == l[k]
    {
    }
  }

  /** Two save/load round trips restore the original store. */
  lemma SaveLoadTwiceRestores(images: seq<string>, l: Labels)
    requires l.Keys == KeySet(images)
    ensures Loadable(images, Encoded(l))
    ensures Loadable(images, Encoded(Loaded(images, Encoded(l))))
    ensures Loaded(images, Encoded(Loaded(images, Encoded(l)))) == l
  {
    SaveLoadTransposes(images, l);
    SaveLoadTransposes(images, TransposeLabels(l));
    TransposeTwice(l);
  }

  /** Every rectangle of the store is a square. */
  predicate AllSquare(l: Labels) {
    forall k, i :: k in l && 0 <= i < |l[k]| ==> l[k][i].width == l[k][i].height
  }

  /** Exchanging width and height changes nothing exactly when every rectangle
      is a square. */
  lemma TransposeFixedIffSquare(l: Labels)
    ensures TransposeLabels(l) == l <==> AllSquare(l)
  {
    var t := TransposeLabels(l);
    if t == l {
      forall k, i | k in l && 0 <= i < |l[k]|
        ensures l[k][i].width == l[k][i].height
      {
        assert t[k][i] == Transposed(l[k][i]);
      }
    }
    if AllSquare(l) {
      forall k | k in l
        ensures t[k] == l[k]
      {
      }
    }
  }

  /** One save/load round trip is the identity exactly when every rectangle is a
      square. */
  lemma SaveLoadIdentityIffSquare(images: seq<string>, l: Labels)
    requires l.Keys == KeySet(images)
    ensures Loadable(images, Encoded(l))
    ensures Loaded(images, Encoded(l)) == l <==> AllSquare(l)
  {
    SaveLoadTransposes(images, l);
    TransposeFixedIffSquare(l);
  }

  /** One rectangle committed to a freshly seeded store. */
  lemma AppendSeeded(files: seq<string>, k: string, r: Rect)
    requires k in KeySet(files)
    ensures var l := Append(Seeded(files), k, r);
      && l.Keys == KeySet(files) && l[k] == [r]
      && forall k' :: k' in l && k' != k ==> l[k'] == []
  {
    var l := Append(Seeded(files), k, r);
    assert l[k] == [l[k][0]];
  }

  /** The store after the drag of the scenario below, key by key. */
  lemma DrawnStore(files: seq<string>, l: Labels)
    requires KeySet(files) == {"a", "b"}
    requires l == Append(Seeded(files), "a", Normalized(Point(0, 0), Point(10, 20)))
    ensures l.Keys == {"a", "b"} && l["a"] == [Rect(0, 0, 10, 20)] && l["b"] == []
  {
    var r := Normalized(Point(0, 0), Point(10, 20));
    assert r == Rect(0, 0, 10, 20);
    AppendSeeded(files, "a", r);
  }

  /** Transposing the scenario's one rectangle. */
  lemma TransposeOne()
    ensures TransposeAll([Rect(0, 0, 10, 20)]) == [Rect(0, 0, 20, 10)]
  {
    var t := TransposeAll([Rect(0, 0, 10, 20)]);
    assert |t| == 1 && t[0] == Rect(0, 0, 20, 10);
    assert t == [t[0]];
  }

  /** Two images a and b (TwoImageKeys shows that data/a.jpg and data/b.png
      are such a pair), no results file: one rectangle dragged from (0,0) to
      (10,20) on a, then save and load. The reloaded rectangle is 20 wide and
      10 high. */
  lemma DrawSaveReloadScenario(files: seq<string>, l: Labels)
    requires KeySet(files) == {"a", "b"}
    requires l == Append(Seeded(files), "a", Normalized(Point(0, 0), Point(10, 20)))
    ensures l.Keys == {"a", "b"} && l["a"] == [Rect(0, 0, 10, 20)] && l["b"] == []
    ensures Loadable(files, Encoded(l))
    ensures var back := Loaded(files, Encoded(l));
      back.Keys == {"a", "b"} && back["a"] == [Rect(0, 0, 20, 10)] && back["b"] == []
  {
    DrawnStore(files, l);
    SaveLoadTransposes(files, l);
    var t := TransposeLabels(l);
    assert t["a"] == TransposeAll(l["a"]);
    TransposeOne();
    assert t["b"] == TransposeAll([]);
  }
}
