/** Structure values, and the compressed bit masks which select parts of them.

    A structure's fields are numbered in preorder, the whole structure being field 0.  A
    value holds one datum per field.  `next[i]` is one past the last field inside field i,
    so setting bit i of a mask selects all of [i, next[i]).
 */
module PvData {

  type Mask = set<nat>
  type Value = seq<int>
  type Extents = seq<nat>

  /** Bit 0 stands for the whole structure, and every field lies within itself. */
  ghost predicate IsExtents(next: Extents) {
    && 0 < |next|
    && next[0] == |next|
    && forall i :: 0 <= i < |next| ==> i < next[i]
  }

  predicate Covers(next: Extents, mask: Mask, f: int) {
    exists b :: b in mask && b < |next| && b <= f < next[b]
  }

  /** What copying `src` over `dst` under a mask leaves in `dst`. */
  function Copy(next: Extents, dst: Value, src: Value, mask: Mask): (r: Value)
    ensures |r| == |dst|
  {
    seq(|dst|, f requires 0 <= f < |dst| => if f < |src| && Covers(next, mask, f) then src[f] else dst[f])
  }

  lemma CoversUnion(next: Extents, a: Mask, b: Mask, f: int)
    ensures Covers(next, a + b, f) <==> Covers(next, a, f) || Covers(next, b, f)
  {}

  lemma CopyNothing(next: Extents, dst: Value, src: Value)
    ensures Copy(next, dst, src, {}) == dst
  {}

  lemma CopyAll(next: Extents, dst: Value, src: Value, mask: Mask)
    requires IsExtents(next) && 0 in mask && |dst| == |src| == |next|
    ensures Copy(next, dst, src, mask) == src
  {}

  /** What a structure holds before anything is stored in it. */
  function Blank(next: Extents): (v: Value)
    ensures |v| == |next|
  {
    seq(|next|, _ => 0)
  }

  /** One element of a monitor queue: a value, the fields of it which changed since the
      element before it, and the fields of which some change was lost. */
  datatype Delta = Delta(value: Value, changed: Mask, overrun: Mask)

  ghost predicate AllSized(next: Extents, q: seq<Delta>) {
    forall d :: d in q ==> |d.value| == |next|
  }

  /** What a reader holds after applying a queue, first element first. */
  function Fold(next: Extents, view: Value, q: seq<Delta>): (r: Value)
    ensures |r| == |view|
    decreases |q|
  {
    if q == [] then view else Fold(next, Copy(next, view, q[0].value, q[0].changed), q[1..])
  }

  lemma {:induction false} FoldSnoc(next: Extents, view: Value, q: seq<Delta>, d: Delta)
    ensures Fold(next, view, q + [d]) == Copy(next, Fold(next, view, q), d.value, d.changed)
    decreases |q|
  {
    if q == [] {
      assert (q + [d])[1..] == [];
    } else {
      assert (q + [d])[1..] == q[1..] + [d];
      FoldSnoc(next, Copy(next, view, q[0].value, q[0].changed), q[1..], d);
    }
  }
}
