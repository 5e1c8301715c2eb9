/** Masks of bits over a tree of fields, and the two masks which decide whether a change
    concerns the value of a link or of a record.
 */
module FieldTree {
  import opened PvData

  datatype Field = Leaf | Struct(members: seq<Field>)

  /** A field as it is numbered in preorder: the number of its parent, or -1, and one past
      the number of the last field inside it. */
  datatype Slot = Slot(parent: int, next: nat, isStruct: bool)

  function Size(f: Field): (n: nat)
    ensures 0 < n
  {
    match f
    case Leaf => 1
    case Struct(ms) => 1 + SizeAll(ms)
  }

  function SizeAll(fs: seq<Field>): nat {
    if fs == [] then 0 else Size(fs[0]) + SizeAll(fs[1..])
  }

  function Layout(f: Field, at: nat, parent: int): seq<Slot> {
    match f
    case Leaf => [Slot(parent, at + 1, false)]
    case Struct(ms) => [Slot(parent, at + Size(f), true)] + LayoutAll(ms, at + 1, at)
  }

  function LayoutAll(fs: seq<Field>, at: nat, parent: int): seq<Slot> {
    if fs == [] then []
    else Layout(fs[0], at, parent) + LayoutAll(fs[1..], at + Size(fs[0]), parent)
  }

  // ---------- What is true of every layout ----------

  /** In a stretch of fields numbered from `at`, field i is below `parent` or below another
      of them, which it does not outlast; and between it and its parent nothing else is open. */
  ghost predicate Placed(s: seq<Slot>, at: nat, parent: int, i: nat)
    requires i < |s|
  {
    && at + i < s[i].next <= at + |s|
    && (!s[i].isStruct ==> s[i].next == at + i + 1)
    && (s[i].parent == parent || (at <= s[i].parent < at + i && s[i].next <= s[s[i].parent - at].next))
    && forall j :: 0 <= j < i && s[i].parent < at + j ==> s[j].next <= at + i
  }

  ghost predicate Block(s: seq<Slot>, at: nat, parent: int) {
    forall i :: 0 <= i < |s| ==> Placed(s, at, parent, i)
  }

  lemma BlockConcat(a: seq<Slot>, b: seq<Slot>, at: nat, parent: int)
    requires parent < at && Block(a, at, parent) && Block(b, at + |a|, parent)
    ensures Block(a + b, at, parent)
  {
    var s := a + b;
    forall i | 0 <= i < |s| ensures Placed(s, at, parent, i) {
      if i < |a| {
        assert Placed(a, at, parent, i);
      } else {
        var k := i - |a|;
        assert Placed(b, at + |a|, parent, k);
        if b[k].parent != parent { assert s[b[k].parent - at] == b[b[k].parent - at - |a|]; }
        forall j | 0 <= j < i && s[i].parent < at + j ensures s[j].next <= at + i {
          if j < |a| {
            assert Placed(a, at, parent, j);
          } else {
            assert s[j] == b[j - |a|];
          }
        }
      }
    }
  }

  lemma {:induction false} LayoutIsBlock(f: Field, at: nat, parent: int)
    requires parent < at
    ensures |Layout(f, at, parent)| == Size(f) && Block(Layout(f, at, parent), at, parent)
    decreases f, 0
  {
    var s := Layout(f, at, parent);
    if f.Struct? {
      var inner := LayoutAll(f.members, at + 1, at);
      LayoutAllIsBlock(f.members, at + 1, at);
      forall i | 0 < i < |s| ensures Placed(s, at, parent, i) {
        var k := i - 1;
        assert s[i] == inner[k] && Placed(inner, at + 1, at, k);
        if inner[k].parent != at { assert s[inner[k].parent - at] == inner[inner[k].parent - at - 1]; }
        forall j | 0 <= j < i && s[i].parent < at + j ensures s[j].next <= at + i {
          assert s[j] == inner[j - 1];
        }
      }
      assert Placed(s, at, parent, 0);
    }
  }

  lemma {:induction false} LayoutAllIsBlock(fs: seq<Field>, at: nat, parent: int)
    requires parent < at
    ensures |LayoutAll(fs, at, parent)| == SizeAll(fs) && Block(LayoutAll(fs, at, parent), at, parent)
    decreases fs, 0
  {
    if fs != [] {
      LayoutIsBlock(fs[0], at, parent);
      LayoutAllIsBlock(fs[1..], at + Size(fs[0]), parent);
      BlockConcat(Layout(fs[0], at, parent), LayoutAll(fs[1..], at + Size(fs[0]), parent), at, parent);
    }
  }

  ghost predicate IsTree(s: seq<Slot>) {
    && 0 < |s| && s[0].parent == -1 && s[0].next == |s|
    && Block(s, 0, -1)
    && forall i :: 0 < i < |s| ==> s[i].parent != -1
  }

  lemma ParentOf(s: seq<Slot>, f: nat)
    requires IsTree(s) && f < |s|
    ensures f < s[f].next <= |s|
    ensures 0 < f ==> 0 <= s[f].parent < f && s[f].next <= s[s[f].parent].next
    ensures forall j :: 0 <= j < f && s[f].parent < j ==> s[j].next <= f
  {
    assert Placed(s, 0, -1, f);
  }

  function Extent(s: seq<Slot>): (next: Extents)
    ensures |next| == |s|
    ensures forall i :: 0 <= i < |s| ==> next[i] == s[i].next
  {
    seq(|s|, i requires 0 <= i < |s| => s[i].next)
  }

  /** Every tree of fields has a preorder numbering of this kind. */
  lemma LayoutIsTree(f: Field)
    ensures IsTree(Layout(f, 0, -1)) && IsExtents(Extent(Layout(f, 0, -1)))
  {
    LayoutIsBlock(f, 0, -1);
    var s := Layout(f, 0, -1);
    if f.Struct? {
      LayoutAllIsBlock(f.members, 1, 0);
      forall i | 0 < i < |s| ensures s[i].parent != -1 {
        assert s[i] == LayoutAll(f.members, 1, 0)[i - 1];
        assert Placed(LayoutAll(f.members, 1, 0), 1, 0, i - 1);
      }
    }
    forall i | 0 <= i < |s| ensures i < s[i].next { ParentOf(s, i); }
  }

  // ---------- Subtrees ----------

  predicate Inside(s: seq<Slot>, b: int, f: int) {
    0 <= b < |s| && b <= f < s[b].next
  }

  /** Two subtrees are nested, or have nothing in common. */
  lemma {:induction false} Nested(s: seq<Slot>, b: int, f: int)
    requires IsTree(s) && Inside(s, b, f)
    ensures f < |s| && s[f].next <= s[b].next
    decreases f
  {
    ParentOf(s, b);
    ParentOf(s, f);
    if b < f {
      Nested(s, b, s[f].parent);
    }
  }

  ghost function Enclosing(s: seq<Slot>, v: nat): Mask {
    set b: nat | b < |s| && Inside(s, b, v)
  }

  ghost function Stretch(from: nat, to: nat): Mask {
    if to <= from then {} else Stretch(from, to - 1) + {to - 1}
  }

  lemma {:induction false} InStretch(from: nat, to: nat)
    ensures forall f: nat :: f in Stretch(from, to) <==> from <= f < to
  {
    if from < to { InStretch(from, to - 1); }
  }

  ghost function Within(s: seq<Slot>, v: nat): Mask
    requires v < |s|
  {
    Stretch(v, s[v].next)
  }

  // ---------- The masks ----------

  /** The bits of a field and of all structures around it. */
  method SetWithParents(s: seq<Slot>, v: nat) returns (mask: Mask)
    requires IsTree(s) && v < |s|
    ensures mask == Enclosing(s, v)
  {
    mask := {v};
    var parent := s[v].parent;
    ghost var last := v;
    ParentOf(s, v);
    while parent != -1
      invariant -1 <= parent < last <= v && parent == s[last].parent && Inside(s, last, v)
      invariant forall j :: 0 <= j < last && parent < j ==> s[j].next <= last
      invariant forall b: nat :: b in mask <==> last <= b <= v && Inside(s, b, v)
      decreases parent
    {
      ParentOf(s, last);
      ParentOf(s, parent);
      mask := mask + {parent};
      last := parent;
      parent := s[parent].parent;
    }
    assert last == 0;
  }

  /** onTypeChange(): the bits of the value, of its parents, and of its members.  A channel
      without a value field has none. */
  method ProcChanged(s: seq<Slot>, hasValue: bool, v: nat) returns (mask: Mask)
    requires IsTree(s) && v < |s|
    ensures mask == if hasValue then Enclosing(s, v) + Within(s, v) else {}
  {
    mask := {};
    if hasValue {
      mask := SetWithParents(s, v);
      ghost var around := mask;
      ParentOf(s, v);
      if s[v].isStruct {
        for i := v to s[v].next
          invariant mask == around + Stretch(v, i)
        {
          mask := mask + {i};
        }
      }
      assert s[v].next == v + 1 ==> Stretch(v, s[v].next) == Stretch(v, v) + {v};
      assert Placed(s, 0, -1, v);
    }
  }

  /** attachAll(): the bits of the value and of its parents, and bit 0.  Inside an element of
      a structure array only the bit of that array stands for the value, `enclosing`; it is
      negative when there is none. */
  method MaskValuePut(s: seq<Slot>, v: nat, enclosing: int) returns (mask: Mask)
    requires IsTree(s) && v < |s|
    ensures mask == if enclosing < 0 then Enclosing(s, v) else {0, enclosing as nat}
  {
    mask := SetWithParents(s, v);
    mask := mask + {0};
    if 0 <= enclosing {
      mask := {};
      mask := mask + {0};
      var bit: nat := enclosing;
      mask := mask + {bit};
    }
  }

  // ---------- What the masks decide ----------

  predicate Meets(a: Mask, b: Mask) {
    exists x :: x in a && x in b
  }

  /** An update processes the record of a link exactly when it changes some field of the
      link's value, whichever bits the update uses to say so. */
  lemma ProcChangedIsExact(s: seq<Slot>, v: nat, changed: Mask)
    requires IsTree(s) && v < |s|
    ensures Meets(changed, Enclosing(s, v) + Within(s, v))
            <==> exists f :: v <= f < s[v].next && Covers(Extent(s), changed, f)
  {
    InStretch(v, s[v].next);
    if Meets(changed, Enclosing(s, v) + Within(s, v)) {
      var b :| b in changed && b in Enclosing(s, v) + Within(s, v);
      var f := if b < v then v else b;
      ParentOf(s, v);
      if v <= b { Nested(s, v, b); ParentOf(s, b); }
      assert b < |s| && b <= f < Extent(s)[b];
      assert Covers(Extent(s), changed, f);
    }
    if f :| v <= f < s[v].next && Covers(Extent(s), changed, f) {
      var b :| b in changed && b < |s| && b <= f < s[b].next;
      assert b in Enclosing(s, v) + Within(s, v);
    }
  }

  /** A put writes a record exactly when its mask covers the record's value, a leaf. */
  lemma MaskValuePutIsExact(s: seq<Slot>, v: nat, changed: Mask)
    requires IsTree(s) && v < |s|
    ensures Meets(changed, Enclosing(s, v)) <==> Covers(Extent(s), changed, v)
  {}

  /** For a value inside an element of a structure array, only bit 0 and the bit of the array
      are looked for.  That misses a put which marks a structure between the two; it is right
      for all masks exactly when there is none. */
  lemma EnclosedPutIsExact(s: seq<Slot>, bit: nat)
    requires IsTree(s) && bit < |s|
    ensures (forall changed: Mask :: Meets(changed, {0, bit}) <==> Covers(Extent(s), changed, bit))
            <==> bit == 0 || s[bit].parent == 0
  {
    var p := s[bit].parent;
    if bit == 0 || p == 0 {
      forall changed: Mask ensures Meets(changed, {0, bit}) <==> Covers(Extent(s), changed, bit) {
        MaskValuePutIsExact(s, bit, changed);
        forall b: nat ensures b in Enclosing(s, bit) <==> b in {0, bit} {
          ParentOf(s, bit);
        }
      }
    } else {
      ParentOf(s, bit);
      var q: nat := p;
      var changed: Mask := {q};
      assert q in changed && p < |s| && p <= bit < Extent(s)[p];
      assert Covers(Extent(s), changed, bit);
      assert !Meets(changed, {0, bit});
    }
  }

  /** A put to a plain field looks for that field's own bit only.  It never takes a put which
      does not cover the field; it misses one exactly when the mask has the bit of a structure
      around the field and not the field's own; and so it is right for all masks only if
      nothing encloses the field. */
  lemma PlainPutIsExact(s: seq<Slot>, bit: nat, changed: Mask)
    requires IsTree(s) && bit < |s|
    ensures bit in changed ==> Covers(Extent(s), changed, bit)
    ensures (bit in changed <==> Covers(Extent(s), changed, bit))
            <==> bit in changed || !Meets(changed, Enclosing(s, bit) - {bit})
    ensures (forall mask: Mask :: bit in mask <==> Covers(Extent(s), mask, bit)) <==> bit == 0
  {
    MaskValuePutIsExact(s, bit, changed);
    ParentOf(s, bit);
    assert bit in Enclosing(s, bit);
    if bit == 0 {
      forall mask: Mask ensures bit in mask <==> Covers(Extent(s), mask, bit) {
        MaskValuePutIsExact(s, bit, mask);
        assert forall b :: b in Enclosing(s, bit) ==> b == bit;
      }
    } else {
      var whole: Mask := {0};
      assert 0 in whole && bit < Extent(s)[0];
      assert Covers(Extent(s), whole, bit) && bit !in whole;
    }
  }
}
