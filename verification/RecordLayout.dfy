/** Offsets, size and alignment of a record type, in bits. */
module RecordLayout {
  import opened Basics

  datatype Kind = Struct | Union

  /** Exponents of an alignment: of a byte, and the one that stands for an alignment that is not set. */
  const BIT8: nat := 3
  const BAD: nat := 15

  type DataAlign = e: nat | e <= BAD

  /** `align` is the exponent of the field's alignment; `bitFld` marks a bit-field. */
  datatype Field = Field(size: nat, align: DataAlign, bitFld: bool)

  function AlignBit(e: nat): (r: nat)
    ensures r > 0
  {
    if e == 0 then 1 else 2 * AlignBit(e - 1)
  }

  predicate Aligned(x: nat, a: nat)
    requires a > 0
  {
    x % a == 0
  }

  function NextMultiple(x: nat, a: nat): nat
    requires a > 0
  {
    (x / a + 1) * a
  }

  function RoundUp(x: nat, a: nat): nat
    requires a > 0
  {
    if Aligned(x, a) then x else NextMultiple(x, a)
  }

  ghost predicate Multiple(m: nat, a: nat) {
    exists k: nat :: m == k * a
  }

  /** The least multiple of `a` from `x` on. */
  ghost predicate LeastFrom(m: nat, x: nat, a: nat) {
    x <= m && Multiple(m, a) && forall n: nat :: x <= n && Multiple(n, a) ==> m <= n
  }

  lemma RoundUpIs(x: nat, a: nat)
    requires a > 0
    ensures LeastFrom(RoundUp(x, a), x, a)
  {
    var q, m := x / a, RoundUp(x, a);
    assert x == q * a + x % a;
    assert (q + 1) * a == q * a + a;
    assert m == (if x % a == 0 then q else q + 1) * a;
    forall n: nat | x <= n && Multiple(n, a) ensures m <= n {
      var k: nat :| n == k * a;
      assert (k + 1) * a == k * a + a;
      MulLe(k + 1, q, a);
      MulLe(q + 1, k, a);
    }
  }

  lemma MulLe(i: nat, j: nat, a: nat)
    ensures i <= j ==> i * a <= j * a
  {
    if i <= j {
      assert j * a == i * a + (j - i) * a;
    }
  }

  lemma {:induction false} Divides(e: nat, f: nat)
    requires e <= f
    ensures Multiple(AlignBit(f), AlignBit(e))
    decreases f
  {
    if e == f {
      assert AlignBit(f) == 1 * AlignBit(e);
    } else {
      Divides(e, f - 1);
      var k: nat :| AlignBit(f - 1) == k * AlignBit(e);
      assert AlignBit(f) == (2 * k) * AlignBit(e);
    }
  }

  lemma MultipleOn(m: nat, b: nat, a: nat)
    requires Multiple(m, b) && Multiple(b, a)
    ensures Multiple(m, a)
  {
    var k: nat :| m == k * b;
    var j: nat :| b == j * a;
    assert m == (k * j) * a;
  }

  /** Rounding to a smaller alignment first makes no difference. */
  lemma RoundTwice(x: nat, e: nat, f: nat)
    requires e <= f
    ensures RoundUp(RoundUp(x, AlignBit(e)), AlignBit(f)) == RoundUp(x, AlignBit(f))
  {
    var a, b := AlignBit(e), AlignBit(f);
    Divides(e, f);
    RoundUpIs(x, a);
    RoundUpIs(x, b);
    RoundUpIs(RoundUp(x, a), b);
    MultipleOn(RoundUp(x, b), b, a);
  }

  lemma RoundMonotone(x: nat, y: nat, a: nat)
    requires a > 0 && x <= y
    ensures RoundUp(x, a) <= RoundUp(y, a)
  {
    RoundUpIs(x, a);
    RoundUpIs(y, a);
  }

  /** The largest alignment that is set, and at least a byte. */
  function MaxAlign(fields: seq<Field>): (r: nat)
    ensures BIT8 <= r
    ensures forall f :: f in fields && f.align != BAD ==> f.align <= r
  {
    if fields == [] then BIT8
    else
      var n := |fields| - 1;
      var m := MaxAlign(fields[..n]);
      assert fields == fields[..n] + [fields[n]];
      if fields[n].align > m && fields[n].align != BAD then fields[n].align else m
  }

  /** A byte, or the alignment of some field. */
  lemma {:induction false} MaxAlignReached(fields: seq<Field>)
    ensures MaxAlign(fields) == BIT8 || exists f :: f in fields && f.align != BAD && f.align == MaxAlign(fields)
  {
    if fields != [] {
      var n := |fields| - 1;
      MaxAlignReached(fields[..n]);
      assert fields[n] in fields && forall f :: f in fields[..n] ==> f in fields;
    }
  }

  lemma NoAlign()
    ensures MaxAlign([]) == BIT8
  {
  }

  lemma MaxAlignStep(fields: seq<Field>, i: nat)
    requires i < |fields|
    ensures var m := MaxAlign(fields[..i]);
            MaxAlign(fields[..i + 1]) == if fields[i].align > m && fields[i].align != BAD then fields[i].align else m
  {
    assert fields[..i + 1][..i] == fields[..i];
  }

  function MaxSize(fields: seq<Field>): (r: nat)
    ensures forall f :: f in fields ==> f.size <= r
  {
    if fields == [] then 0
    else
      var n := |fields| - 1;
      var m := MaxSize(fields[..n]);
      assert fields == fields[..n] + [fields[n]];
      if fields[n].size > m then fields[n].size else m
  }

  /** Field `i` continues the bit-field before it. */
  predicate Joins(fields: seq<Field>, i: nat)
    requires i < |fields|
  {
    i > 0 && fields[i - 1].bitFld && fields[i].bitFld
  }

  /** How far a union reaches after a field: up to the rounded end so far, or as far as the field. */
  function UnionEnd(fields: seq<Field>): nat {
    if fields == [] then 0
    else
      var n := |fields| - 1;
      var end := UnionEnd(fields[..n]);
      var from := if Joins(fields, n) then end else RoundUp(end, AlignBit(fields[n].align));
      if fields[n].size > from then fields[n].size else from
  }

  /** The largest field, rounded up to the largest alignment. */
  function Tight(fields: seq<Field>): nat {
    RoundUp(MaxSize(fields), AlignBit(MaxAlign(fields)))
  }

  /** Before no field without an alignment does the rounding to its 32768 bits go beyond that. */
  ghost predicate UnsetHarmless(fields: seq<Field>) {
    forall i: nat :: i < |fields| && fields[i].align == BAD && !Joins(fields, i) ==>
      RoundUp(MaxSize(fields[..i]), AlignBit(BAD)) <= Tight(fields)
  }

  lemma NoEnd(fields: seq<Field>)
    ensures UnionEnd(fields[..0]) == 0
  {
  }

  /** The end of a union after its first `n + 1` fields, from the one after `n`. */
  lemma EndStep(fields: seq<Field>, n: nat)
    requires n < |fields|
    ensures var end := UnionEnd(fields[..n]);
            var from := if Joins(fields, n) then end else RoundUp(end, AlignBit(fields[n].align));
            UnionEnd(fields[..n + 1]) == if fields[n].size > from then fields[n].size else from
    ensures var size := MaxSize(fields[..n]);
            MaxSize(fields[..n + 1]) == if fields[n].size > size then fields[n].size else size
  {
    assert fields[..n + 1][..n] == fields[..n];
    assert Joins(fields[..n + 1], n) == Joins(fields, n);
  }

  /** A union reaches as far as its largest field, and no farther than that rounded to an unset alignment. */
  lemma {:induction false} EndBetween(fields: seq<Field>, n: nat)
    requires n <= |fields|
    ensures MaxSize(fields[..n]) <= UnionEnd(fields[..n]) <= RoundUp(MaxSize(fields[..n]), AlignBit(BAD))
  {
    hide Aligned, NextMultiple, RoundUp, AlignBit;
    var b := AlignBit(BAD);
    if n == 0 {
      RoundUpIs(0, b);
    } else {
      EndBetween(fields, n - 1);
      EndStep(fields, n - 1);
      var size, end := MaxSize(fields[..n - 1]), UnionEnd(fields[..n - 1]);
      var e := fields[n - 1].align;
      RoundUpIs(end, AlignBit(e));
      RoundUpIs(RoundUp(end, AlignBit(e)), b);
      RoundTwice(end, e, BAD);
      RoundTwice(size, BAD, BAD);
      RoundMonotone(end, RoundUp(size, b), b);
      RoundUpIs(MaxSize(fields[..n]), b);
      RoundMonotone(size, MaxSize(fields[..n]), b);
    }
  }

  lemma {:induction false} EndGrows(fields: seq<Field>, n: nat, m: nat)
    requires n <= m <= |fields|
    ensures UnionEnd(fields[..n]) <= UnionEnd(fields[..m])
    decreases m
  {
    if n < m {
      hide Aligned, NextMultiple, RoundUp, AlignBit;
      EndGrows(fields, n, m - 1);
      EndStep(fields, m - 1);
      RoundUpIs(UnionEnd(fields[..m - 1]), AlignBit(fields[m - 1].align));
    }
  }

  /** Rounding what lies below a multiple stays below it. */
  lemma RoundBelow(x: nat, m: nat, e: nat, f: nat)
    requires e <= f && x <= m && Multiple(m, AlignBit(f))
    ensures RoundUp(x, AlignBit(e)) <= m
  {
    Divides(e, f);
    MultipleOn(m, AlignBit(f), AlignBit(e));
    RoundUpIs(x, AlignBit(e));
  }

  function Max(a: nat, b: nat): nat {
    if a < b then b else a
  }

  /** How far the first `n` fields round that have no alignment and do not join a bit-field. */
  ghost function Inflated(fields: seq<Field>, n: nat): nat
    requires n <= |fields|
  {
    if n == 0 then 0
    else
      var i := n - 1;
      Max(Inflated(fields, i),
          if fields[i].align == BAD && !Joins(fields, i) then RoundUp(MaxSize(fields[..i]), AlignBit(BAD)) else 0)
  }

  lemma {:induction false} InflatedMultiple(fields: seq<Field>, n: nat)
    requires n <= |fields|
    ensures Multiple(Inflated(fields, n), AlignBit(BAD))
  {
    if n == 0 {
      assert 0 == 0 * AlignBit(BAD);
    } else {
      InflatedMultiple(fields, n - 1);
      assert 0 == 0 * AlignBit(BAD);
      RoundUpIs(MaxSize(fields[..n - 1]), AlignBit(BAD));
    }
  }

  lemma {:induction false} EndAtLeast(fields: seq<Field>, n: nat)
    requires n <= |fields|
    ensures Inflated(fields, n) <= UnionEnd(fields[..n])
  {
    hide Aligned, NextMultiple, RoundUp, AlignBit;
    if n > 0 {
      var i := n - 1;
      EndAtLeast(fields, i);
      EndGrows(fields, i, n);
      EndBetween(fields, i);
      EndStep(fields, i);
      RoundMonotone(MaxSize(fields[..i]), UnionEnd(fields[..i]), AlignBit(BAD));
    }
  }

  lemma BothMultiple(fields: seq<Field>, n: nat)
    requires n <= |fields|
    ensures Multiple(Max(Tight(fields), Inflated(fields, n)), AlignBit(MaxAlign(fields)))
  {
    hide Aligned, NextMultiple, RoundUp, AlignBit, MaxAlign, MaxSize, Inflated;
    var m := MaxAlign(fields);
    RoundUpIs(MaxSize(fields), AlignBit(m));
    InflatedMultiple(fields, n);
    AlignInRange(fields);
    Divides(m, BAD);
    MultipleOn(Inflated(fields, n), AlignBit(BAD), AlignBit(m));
  }

  lemma AlignInRange(fields: seq<Field>)
    ensures MaxAlign(fields) <= BAD
  {
    MaxAlignReached(fields);
  }

  lemma {:induction false} EndAtMost(fields: seq<Field>, n: nat)
    requires n <= |fields|
    ensures UnionEnd(fields[..n]) <= Max(Tight(fields), Inflated(fields, n))
  {
    hide Aligned, NextMultiple, RoundUp, AlignBit, MaxAlign;
    if n > 0 {
      var i := n - 1;
      var end, e, m := UnionEnd(fields[..i]), fields[i].align, MaxAlign(fields);
      EndAtMost(fields, i);
      EndStep(fields, i);
      RoundUpIs(MaxSize(fields), AlignBit(m));
      assert fields[i] in fields;
      if e == BAD {
        var b := AlignBit(BAD);
        EndBetween(fields, i);
        RoundTwice(MaxSize(fields[..i]), BAD, BAD);
        RoundMonotone(end, RoundUp(MaxSize(fields[..i]), b), b);
      } else {
        AlignBelow(fields, i);
        BothMultiple(fields, i);
        RoundBelow(end, Max(Tight(fields), Inflated(fields, i)), e, m);
      }
    }
  }

  /** The size of every union: its largest field rounded up, or what a field without an alignment makes of it. */
  lemma UnionExact(fields: seq<Field>)
    ensures RoundUp(UnionEnd(fields), AlignBit(MaxAlign(fields))) == Max(Tight(fields), Inflated(fields, |fields|))
  {
    hide Aligned, NextMultiple, RoundUp, AlignBit, MaxAlign, UnionEnd, MaxSize, Inflated;
    var n, a := |fields|, AlignBit(MaxAlign(fields));
    assert fields[..n] == fields;
    EndBetween(fields, n);
    EndAtLeast(fields, n);
    EndAtMost(fields, n);
    BothMultiple(fields, n);
    RoundUpIs(UnionEnd(fields), a);
    RoundMonotone(MaxSize(fields), UnionEnd(fields), a);
  }

  lemma AlignBelow(fields: seq<Field>, i: nat)
    requires i < |fields| && fields[i].align != BAD
    ensures fields[i].align <= MaxAlign(fields)
  {
    assert fields[i] in fields;
  }

  lemma {:induction false} InflatedIff(fields: seq<Field>, n: nat, x: nat)
    requires n <= |fields|
    ensures Inflated(fields, n) <= x <==>
            forall i: nat :: i < n && fields[i].align == BAD && !Joins(fields, i) ==>
              RoundUp(MaxSize(fields[..i]), AlignBit(BAD)) <= x
  {
    hide RoundUp, AlignBit, MaxSize, Joins;
    if n > 0 {
      InflatedIff(fields, n - 1, x);
    }
  }

  /**
    A union is as large as its largest field rounded up to the largest alignment
    exactly when no field without an alignment rounds beyond that.
   */
  lemma UnionTightIff(fields: seq<Field>)
    ensures RoundUp(UnionEnd(fields), AlignBit(MaxAlign(fields))) == Tight(fields) <==> UnsetHarmless(fields)
  {
    hide RoundUp, AlignBit, MaxAlign, UnionEnd, MaxSize, Joins, Inflated;
    UnionExact(fields);
    InflatedIff(fields, |fields|, Tight(fields));
  }

  /** When all alignments are set the roundings on the way make no difference to the size of a union. */
  lemma UnionSize(fields: seq<Field>)
    requires forall f :: f in fields ==> f.align != BAD
    ensures RoundUp(UnionEnd(fields), AlignBit(MaxAlign(fields))) == Tight(fields)
  {
    forall i: nat | i < |fields| ensures fields[i].align != BAD {
      assert fields[i] in fields;
    }
    UnionTightIff(fields);
  }

  /** A field without an alignment may inflate a union: two bytes, the second of them so, take 4096 bytes. */
  lemma UnsetAlignmentInflates()
    ensures var fields := [Field(8, BIT8, false), Field(8, BAD, false)];
            && Tight(fields) == 8 && RoundUp(UnionEnd(fields), AlignBit(MaxAlign(fields))) == 8 * 4096
  {
    var f, g := Field(8, BIT8, false), Field(8, BAD, false);
    assert AlignBit(BIT8) == 8;
    assert AlignBit(5) == 32 && AlignBit(7) == 128 && AlignBit(9) == 512 && AlignBit(11) == 2048;
    assert AlignBit(13) == 8192 && AlignBit(BAD) == 32768;
    assert [f, g][..1] == [f] && [f][..0] == [];
    assert MaxSize([f]) == 8 && MaxAlign([f]) == BIT8 && UnionEnd([f]) == 8;
    assert MaxSize([f, g]) == 8 && MaxAlign([f, g]) == BIT8 && UnionEnd([f, g]) == 32768;
  }

  // ----- what a layout must satisfy -------------------------------------------------

  /** Where field `i` starts, given the offsets before it. */
  ghost predicate Placed(fields: seq<Field>, ofst: seq<nat>, i: nat)
    requires i < |fields| && i < |ofst|
  {
    var from := if i == 0 then 0 else ofst[i - 1] + fields[i - 1].size;
    if i > 0 && fields[i - 1].bitFld && fields[i].bitFld then ofst[i] == from
    else LeastFrom(ofst[i], from, AlignBit(fields[i].align))
  }

  ghost predicate StructLayout(fields: seq<Field>, ofst: seq<nat>) {
    |ofst| == |fields| && forall i: nat :: i < |fields| ==> Placed(fields, ofst, i)
  }

  /** Fields are laid out one behind the other: no two of them overlap. */
  lemma {:induction false} Disjoint(fields: seq<Field>, ofst: seq<nat>, i: nat, j: nat)
    requires StructLayout(fields, ofst) && i < j < |fields|
    ensures ofst[i] + fields[i].size <= ofst[j]
    decreases j
  {
    assert Placed(fields, ofst, j);
    if i < j - 1 {
      Disjoint(fields, ofst, i, j - 1);
    }
  }

  /** Every field ends within the first `n` bits. */
  ghost predicate HoldsAll(fields: seq<Field>, ofst: seq<nat>, n: nat)
    requires |ofst| == |fields|
  {
    forall i :: 0 <= i < |fields| ==> ofst[i] + fields[i].size <= n
  }

  /** The smallest multiple of `a` that holds all fields. */
  ghost predicate Smallest(fields: seq<Field>, ofst: seq<nat>, n: nat, a: nat)
    requires |ofst| == |fields|
  {
    && HoldsAll(fields, ofst, n) && Multiple(n, a)
    && forall m: nat :: HoldsAll(fields, ofst, m) && Multiple(m, a) ==> n <= m
  }

  /** The end of the last field is the end of all. */
  lemma LastEnd(fields: seq<Field>, ofst: seq<nat>, n: nat)
    requires StructLayout(fields, ofst) && fields != []
    ensures HoldsAll(fields, ofst, n) <==> ofst[|fields| - 1] + fields[|fields| - 1].size <= n
  {
    var j := |fields| - 1;
    forall i: nat | i < j ensures ofst[i] + fields[i].size <= ofst[j] {
      Disjoint(fields, ofst, i, j);
    }
  }

  lemma StructSmallest(fields: seq<Field>, ofst: seq<nat>, end: nat, size: nat, a: nat)
    requires |ofst| == |fields| && StructLayout(fields, ofst) && LeastFrom(size, end, a)
    requires end == if fields == [] then 0 else ofst[|fields| - 1] + fields[|fields| - 1].size
    ensures Smallest(fields, ofst, size, a)
  {
    hide StructLayout, Multiple;
    forall n: nat ensures HoldsAll(fields, ofst, n) <==> end <= n {
      if fields != [] {
        LastEnd(fields, ofst, n);
      }
    }
  }

  class RecordType {
    const kind: Kind
    const fields: seq<Field>
    const empty: bool
    var complete: bool
    var analyzed: bool
    var ofst: seq<nat>
    var alignment: Option<nat>
    var bitSize: Option<nat>

    constructor (kind: Kind, fields: seq<Field>, empty: bool)
      ensures this.kind == kind && this.fields == fields && this.empty == empty && !analyzed && !complete
      ensures ofst == seq(|fields|, _ => 0) && alignment == None && bitSize == None
    {
      this.kind, this.fields, this.empty := kind, fields, empty;
      complete, analyzed := false, false;
      ofst := seq(|fields|, _ => 0);
      alignment, bitSize := None, None;
    }

    /** How far the fields reach. */
    ghost function Reach(): nat
      requires |ofst| == |fields|
      reads this`ofst
    {
      if fields == [] then 0
      else if kind.Struct? then ofst[|fields| - 1] + fields[|fields| - 1].size
      else UnionEnd(fields)
    }

    /**
      Lays out a complete record once.  The size is what the fields reach to,
      rounded up to the largest alignment; an alignment or size that is already
      set is kept.
     */
    method Analyze()
      requires |ofst| == |fields|
      modifies this
      ensures complete == old(complete) && |ofst| == |fields|
      ensures old(!complete || analyzed) ==>
                analyzed == old(analyzed) && ofst == old(ofst) && alignment == old(alignment) && bitSize == old(bitSize)
      ensures old(complete && !analyzed) ==> analyzed
      ensures old(complete && !analyzed) && empty ==>
                ofst == old(ofst) && alignment == Some(BIT8) && bitSize == old(bitSize)
      ensures old(complete && !analyzed) && !empty ==>
                && alignment == (if old(alignment).Some? then old(alignment) else Some(MaxAlign(fields)))
                && (kind.Struct? ==> StructLayout(fields, ofst))
                && (kind.Union? ==> forall i :: 0 <= i < |fields| ==> ofst[i] == 0)
                && (old(bitSize).Some? ==> bitSize == old(bitSize))
                && (old(bitSize).None? ==>
                      bitSize.Some? && LeastFrom(bitSize.value, Reach(), AlignBit(MaxAlign(fields))))
                && (old(bitSize).None? && kind.Struct? ==>
                      Smallest(fields, ofst, bitSize.value, AlignBit(MaxAlign(fields))))
                && (old(bitSize).None? && kind.Union? ==>
                      bitSize == Some(Max(Tight(fields), Inflated(fields, |fields|))))
                && (old(bitSize).None? && kind.Union? ==> (bitSize == Some(Tight(fields)) <==> UnsetHarmless(fields)))
    {
      if !complete || analyzed {
        return;
      }
      analyzed := true;
      if empty {
        alignment := Some(BIT8);
        return;
      }
      hide Aligned, NextMultiple, LeastFrom, MaxAlign, AlignBit, UnionEnd, StructLayout, UnsetHarmless, Tight,
           Smallest, Inflated, Max;
      var maxFldEndOfst, maxFldAlign := PlaceFields();
      var maxAlignBit := AlignBit(maxFldAlign);
      SizeKnown();
      hide RoundUp, Reach;
      assert RoundUp(maxFldEndOfst, maxAlignBit) ==
             if Aligned(maxFldEndOfst, maxAlignBit) then maxFldEndOfst
             else NextMultiple(maxFldEndOfst, maxAlignBit) by {
        RoundUpBy(maxFldEndOfst, maxAlignBit);
      }
      if !Aligned(maxFldEndOfst, maxAlignBit) {
        maxFldEndOfst := NextMultiple(maxFldEndOfst, maxAlignBit);
      }
      if alignment == None {
        alignment := Some(maxFldAlign);
      }
      if bitSize == None {
        bitSize := Some(maxFldEndOfst);
      }
    }

    /** What the rounded end is. */
    lemma SizeKnown()
      requires |ofst| == |fields| && (kind.Struct? ==> StructLayout(fields, ofst))
      ensures var a := AlignBit(MaxAlign(fields)); var size := RoundUp(Reach(), a);
              && LeastFrom(size, Reach(), a) && (kind.Struct? ==> Smallest(fields, ofst, size, a))
              && (kind.Union? ==> (size == Tight(fields) <==> UnsetHarmless(fields)))
              && (kind.Union? ==> size == Max(Tight(fields), Inflated(fields, |fields|)))
    {
      hide Aligned, NextMultiple, RoundUp, LeastFrom, MaxAlign, AlignBit, UnionEnd, StructLayout, UnsetHarmless,
           Tight, Smallest, Inflated, Max;
      var a := AlignBit(MaxAlign(fields));
      RoundUpIs(Reach(), a);
      if kind.Struct? {
        StructSmallest(fields, ofst, Reach(), RoundUp(Reach(), a), a);
      } else {
        UnionTightIff(fields);
        UnionExact(fields);
        if fields == [] {
          NoEnd(fields);
          assert fields[..0] == fields;
        }
      }
    }

    /** The loop over the fields. */
    method PlaceFields() returns (maxFldEndOfst: nat, maxFldAlign: nat)
      requires |ofst| == |fields|
      modifies this`ofst
      ensures |ofst| == |fields| && maxFldEndOfst == Reach() && maxFldAlign == MaxAlign(fields)
      ensures kind.Struct? ==> StructLayout(fields, ofst)
      ensures kind.Union? ==> forall i :: 0 <= i < |fields| ==> ofst[i] == 0
    {
      NoEnd(fields);
      hide LeastFrom, RoundUp, AlignBit, MaxAlign, UnionEnd, MaxSize;
      NoAlign();
      var isPrevBitFld := false;
      maxFldEndOfst, maxFldAlign := 0, BIT8;
      for i := 0 to |fields|
        invariant maxFldAlign == MaxAlign(fields[..i])
        invariant |ofst| == |fields| && isPrevBitFld == (i > 0 && fields[i - 1].bitFld)
        invariant kind.Struct? ==> StructLayout(fields[..i], ofst[..i])
        invariant kind.Struct? ==> maxFldEndOfst == if i == 0 then 0 else ofst[i - 1] + fields[i - 1].size
        invariant kind.Union? ==> maxFldEndOfst == UnionEnd(fields[..i]) && forall j :: 0 <= j < i ==> ofst[j] == 0
      {
        var fld := fields[i];
        assert fields[..i + 1][..i] == fields[..i];
        MaxAlignStep(fields, i);
        EndStep(fields, i);
        if fld.align > maxFldAlign && fld.align != BAD {
          maxFldAlign := fld.align;
        }
        RoundUpIs(maxFldEndOfst, AlignBit(fld.align));
        maxFldEndOfst := StartOf(fld, maxFldEndOfst, isPrevBitFld);
        if kind == Struct {
          ghost var was := ofst;
          ofst := ofst[i := maxFldEndOfst];
          assert ofst[..i] == was[..i];
          StructGrows(fields, ofst, i);
          maxFldEndOfst := maxFldEndOfst + fld.size;
        } else {
          ofst := ofst[i := 0];
          if fld.size > maxFldEndOfst {
            maxFldEndOfst := fld.size;
          }
        }
        isPrevBitFld := fld.bitFld;
      }
      assert fields[..|fields|] == fields && ofst[..|fields|] == ofst;
    }
  }

  lemma RoundUpBy(x: nat, a: nat)
    requires a > 0
    ensures RoundUp(x, a) == if Aligned(x, a) then x else NextMultiple(x, a)
  {
  }

  lemma ZeroAligned(a: nat)
    requires a > 0
    ensures Aligned(0, a)
  {
  }

  /** Where a field starts that comes behind `end`: aligned, unless it joins another bit-field. */
  method StartOf(fld: Field, end: nat, isPrevBitFld: bool) returns (start: nat)
    ensures start == if isPrevBitFld && fld.bitFld then end else RoundUp(end, AlignBit(fld.align))
  {
    hide Aligned, NextMultiple, AlignBit;
    start := end;
    var alignBit := AlignBit(fld.align);
    ZeroAligned(alignBit);
    var isAligned := Aligned(end, alignBit) || (isPrevBitFld && fld.bitFld);
    if !isAligned && end != 0 {
      start := NextMultiple(end, alignBit);
    }
  }

  lemma StructGrows(fields: seq<Field>, ofst: seq<nat>, i: nat)
    requires i < |fields| == |ofst| && StructLayout(fields[..i], ofst[..i]) && Placed(fields, ofst, i)
    ensures StructLayout(fields[..i + 1], ofst[..i + 1])
  {
    var f, o := fields[..i + 1], ofst[..i + 1];
    forall j: nat | j < |f| ensures Placed(f, o, j) {
      if j < i {
        assert Placed(fields[..i], ofst[..i], j);
      }
    }
  }
}
