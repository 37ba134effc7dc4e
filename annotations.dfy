/** The annotation store as a value: image key to the rectangles drawn on that
    image, in drawing order; plus the wrapping cursor over the image sequence. */
module Annotations {
  import opened Geometry
  import opened Stems

  type Labels = map<string, seq<Rect>>

  /** The store before anything is drawn or loaded: every key of the scanned
      images with an empty list, and no other key. */
  function Seeded(images: seq<string>): (s: Labels)
    ensures s.Keys == KeySet(images)
    ensures forall k :: k in s ==> s[k] == []
  {
    map k | k in KeySet(images) :: []
  }

  /** A rectangle committed to the list of key k. */
  function Append(l: Labels, k: string, r: Rect): (l': Labels)
    requires k in l
    ensures l'.Keys == l.Keys
    ensures |l'[k]| == |l[k]| + 1 && l'[k][..|l[k]|] == l[k] && l'[k][|l[k]|] == r
    ensures forall k' :: k' in l && k' != k ==> l'[k'] == l[k']
  {
    l[k := l[k] + [r]]
  }

  /** The most recent rectangle of key k removed, when there is one. */
  function RemoveLast(l: Labels, k: string): (l': Labels)
    requires k in l
    ensures l'.Keys == l.Keys
    ensures l[k] == [] ==> l' == l
    ensures l[k] != [] ==> |l'[k]| == |l[k]| - 1 && l'[k] + [l[k][|l[k]| - 1]] == l[k]
    ensures forall k' :: k' in l && k' != k ==> l'[k'] == l[k']
  {
    if l[k] == [] then l else l[k := l[k][..|l[k]| - 1]]
  }

  /** Removing the last rectangle undoes committing one. */
  lemma RemoveLastUndoesAppend(l: Labels, k: string, r: Rect)
    requires k in l
    ensures RemoveLast(Append(l, k, r), k) == l
  {
  }

  /** Once a list is empty, further removals are no-ops. */
  lemma RemoveLastRepeated(l: Labels, k: string)
    requires k in l && l[k] == []
    ensures RemoveLast(RemoveLast(l, k), k) == l
  {
  }

  /** Pressing D three times on two rectangles empties the list, the third press
      changing nothing. */
  lemma DeleteScenario()
    ensures var l := map["a" := [Rect(0, 0, 10, 20), Rect(5, 5, 3, 3)]];
      && RemoveLast(l, "a") == map["a" := [Rect(0, 0, 10, 20)]]
      && RemoveLast(RemoveLast(l, "a"), "a") == map["a" := []]
      && RemoveLast(RemoveLast(RemoveLast(l, "a"), "a"), "a") == map["a" := []]
  {
    var l := map["a" := [Rect(0, 0, 10, 20), Rect(5, 5, 3, 3)]];
    assert l["a"][..1] == [Rect(0, 0, 10, 20)];
    assert RemoveLast(l, "a") == map["a" := [Rect(0, 0, 10, 20)]];
  }

  /** Python's floor remainder for a positive modulus: the representative of i
      modulo n in [0, n). */
  function Wrap(i: int, n: int): (r: int)
    requires n > 0
    ensures 0 <= r < n
    ensures 0 <= i < n ==> r == i
  {
    i % n
  }

  /** Wrap differs from its argument by a multiple of the modulus (floor division). */
  lemma WrapCongruent(i: int, n: int)
    requires n > 0
    ensures i - Wrap(i, n) == n * (i / n)
  {
  }

  /** The cursor after adding delta on a sequence of n images. */
  function Advance(index: int, delta: int, n: int): (r: int)
    requires n > 0
    ensures 0 <= r < n
    ensures 0 <= index + delta < n ==> r == index + delta
  {
    Wrap(index + delta, n)
  }

  /** Moving left from the first image shows the last one. */
  lemma LeftWrapsToLast(n: int)
    requires n > 0
    ensures Advance(0, -1, n) == n - 1
  {
  }

  /** Moving right from the last image shows the first one. */
  lemma RightWrapsToFirst(n: int)
    requires n > 0
    ensures Advance(n - 1, 1, n) == 0
  {
  }

  /** A left move undoes a right move and vice versa. */
  lemma {:induction false} AdvanceInverse(index: int, n: int)
    requires n > 0 && 0 <= index < n
    ensures Advance(Advance(index, 1, n), -1, n) == index
    ensures Advance(Advance(index, -1, n), 1, n) == index
  {
    if index == n - 1 {
      RightWrapsToFirst(n);
      LeftWrapsToLast(n);
    } else if index == 0 {
      LeftWrapsToLast(n);
      RightWrapsToFirst(n);
    }
  }
}
