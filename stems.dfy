/** How an image path becomes the key of its annotation list:
    the file's base name up to its first '.'. Paths use '/' as separator. */
module Stems {

  /** The last path component: everything after the last '/'. */
  function Basename(p: string): string
    decreases |p|
  {
    if p == [] || p[|p| - 1] == '/' then [] else Basename(p[..|p| - 1]) + [p[|p| - 1]]
  }

  /** The first field of name.split('.'). */
  function Stem(name: string): string
  {
    if name == [] || name[0] == '.' then [] else [name[0]] + Stem(name[1..])
  }

  /** The annotation key of an image path. */
  function Key(path: string): string
  {
    Stem(Basename(path))
  }

  /** The base name is the suffix of the path after its last '/': it holds no
      '/' and is preceded by one unless it is the whole path. */
  lemma {:induction false} BasenameShape(p: string)
    ensures '/' !in Basename(p)
    ensures |Basename(p)| <= |p| && Basename(p) == p[|p| - |Basename(p)|..]
    ensures |Basename(p)| < |p| ==> p[|p| - |Basename(p)| - 1] == '/'
    decreases |p|
  {
    if p != [] && p[|p| - 1] != '/' {
      var init := p[..|p| - 1];
      BasenameShape(init);
      assert Basename(p) == Basename(init) + [p[|p| - 1]];
      assert init[|init| - |Basename(init)|..] + [p[|p| - 1]] == p[|p| - |Basename(p)|..];
    }
  }

  /** The stem is the longest prefix of the name without a '.': it holds no '.'
      and is followed by one unless it is the whole name. */
  lemma {:induction false} StemShape(name: string)
    ensures '.' !in Stem(name)
    ensures |Stem(name)| <= |name| && Stem(name) == name[..|Stem(name)|]
    ensures |Stem(name)| < |name| ==> name[|Stem(name)|] == '.'
  {
    if name != [] && name[0] != '.' {
      StemShape(name[1..]);
    }
  }

  /** A key is a prefix of the base name and holds neither '.' nor '/'. */
  lemma KeyShape(path: string)
    ensures '.' !in Key(path) && '/' !in Key(path)
    ensures |Key(path)| <= |Basename(path)| && Key(path) == Basename(path)[..|Key(path)|]
  {
    BasenameShape(path);
    StemShape(Basename(path));
  }

  /** Stem's contract determines it: any dot-free prefix that ends at a '.' or at
      the end of the name is the stem. */
  lemma StemUnique(name: string, s: string)
    requires '.' !in s && |s| <= |name| && s == name[..|s|]
    requires |s| < |name| ==> name[|s|] == '.'
    ensures s == Stem(name)
  {
    StemShape(name);
  }

  /** The key of every image, in image order. */
  function Keys(images: seq<string>): (ks: seq<string>)
    ensures |ks| == |images| && forall i :: 0 <= i < |images| ==> ks[i] == Key(images[i])
  {
    seq(|images|, i requires 0 <= i < |images| => Key(images[i]))
  }

  /** Basename's shape determines it: any '/'-free suffix that is the whole path
      or is preceded by a '/' is the base name. */
  lemma BasenameUnique(p: string, b: string)
    requires '/' !in b && |b| <= |p| && b == p[|p| - |b|..]
    requires |b| < |p| ==> p[|p| - |b| - 1] == '/'
    ensures b == Basename(p)
  {
    BasenameShape(p);
  }

  /** The set of keys of a sequence of image paths (the keys of the dictionary
      comprehension over them); paths with the same stem share one key. */
  function KeySet(images: seq<string>): set<string>
  {
    Elements(Keys(images))
  }

  /** The key of each image is in the key set. */
  lemma KeyInKeySet(images: seq<string>, i: nat)
    requires i < |images|
    ensures Key(images[i]) in KeySet(images)
  {
    assert Keys(images)[i] == Key(images[i]);
  }

  /** The distinct elements of a sequence. */
  function Elements<T>(s: seq<T>): set<T> {
    set x | x in s
  }

  /** A sequence has at most as many distinct elements as it is long. */
  lemma {:induction false} ElementsSize<T>(s: seq<T>)
    ensures |Elements(s)| <= |s|
  {
    if s != [] {
      var init := s[..|s| - 1];
      assert Elements(s) == Elements(init) + {s[|s| - 1]} by {
        assert s == init + [s[|s| - 1]];
      }
      ElementsSize(init);
    }
  }

  /** A sequence with a repeated element has fewer distinct elements than it is long. */
  lemma ElementsRepeated<T>(s: seq<T>, i: nat, j: nat)
    requires i < j < |s| && s[i] == s[j]
    ensures |Elements(s)| < |s|
  {
    var rest := s[..j] + s[j + 1..];
    assert Elements(s) == Elements(rest) by {
      forall x | x in s ensures x in rest {
        var t :| 0 <= t < |s| && s[t] == x;
        var u := if t < j then t else if t == j then i else t - 1;
        assert rest[u] == x;
      }
      forall x | x in rest ensures x in s {
        var u :| 0 <= u < |rest| && rest[u] == x;
        assert s[if u < j then u else u + 1] == x;
      }
    }
    ElementsSize(rest);
  }

  /** There are never more keys than images. */
  lemma KeySetSize(images: seq<string>)
    ensures |KeySet(images)| <= |images|
  {
    ElementsSize(Keys(images));
  }

  /** Two paths with the same stem collapse into one key, while both stay in the
      image sequence: there are then fewer keys than images. */
  lemma DuplicateStemsCollapse(images: seq<string>, i: nat, j: nat)
    requires i < j < |images| && Key(images[i]) == Key(images[j])
    ensures |KeySet(images)| < |images|
  {
    ElementsRepeated(Keys(images), i, j);
  }

  /** Adding one image adds its key and nothing else. */
  lemma KeySetSnoc(images: seq<string>, p: string)
    ensures KeySet(images + [p]) == KeySet(images) + {Key(p)}
  {
    assert Keys(images + [p]) == Keys(images) + [Key(p)];
  }

  /** "data/a.jpg" is annotated under "a". */
  lemma KeyExample()
    ensures Key("data/a.jpg") == "a"
  {
    BasenameUnique("data/a.jpg", "a.jpg");
    StemUnique("a.jpg", "a");
  }

  /** The keys of a directory holding a.jpg and b.png. */
  lemma TwoImageKeys()
    ensures KeySet(["data/a.jpg", "data/b.png"]) == {"a", "b"}
  {
    var files := ["data/a.jpg", "data/b.png"];
    BasenameUnique(files[0], "a.jpg");
    StemUnique("a.jpg", "a");
    BasenameUnique(files[1], "b.png");
    StemUnique("b.png", "b");
    assert Keys(files) == ["a", "b"];
  }
}
