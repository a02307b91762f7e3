/** Per-symbol stacks that hold versions and block marks together. */
module VersionStacks {
  import opened Basics

  datatype Entry = Version(id: nat) | Mark(node: nat)

  // ----- the 32-bit encoding -------------------------------------------------

  const INT32_MAX: nat := 0x7fff_ffff

  /** How the source packs an entry into one unsigned 32-bit word. */
  function ToWord(e: Entry): nat {
    match e case Version(id) => id case Mark(node) => node + INT32_MAX + 1
  }

  predicate IsMarkWord(w: nat) { w > INT32_MAX }

  predicate IsVerWord(w: nat) { w < INT32_MAX }

  /** Under the asserted bound on identifiers a word fits, and tells marks from versions. */
  lemma WordsAreExact(e: Entry, f: Entry)
    requires (if e.Version? then e.id else e.node) < INT32_MAX
    requires (if f.Version? then f.id else f.node) < INT32_MAX
    ensures ToWord(e) < 0x1_0000_0000
    ensures IsVerWord(ToWord(e)) <==> e.Version?
    ensures IsMarkWord(ToWord(e)) <==> e.Mark?
    ensures ToWord(e) == ToWord(f) ==> e == f
  {
  }

  // ----- one stack -----------------------------------------------------------

  /** The topmost version, marks being skipped. */
  function TopOf(s: seq<Entry>): Option<nat> {
    if s == [] then None
    else match s[|s| - 1]
      case Version(id) => Some(id)
      case Mark(_) => TopOf(s[..|s| - 1])
  }

  /** The stack below the versions pushed since the last mark. */
  function Stripped(s: seq<Entry>): (r: seq<Entry>)
    ensures |r| <= |s| && r == s[..|r|]
    ensures r != [] ==> r[|r| - 1].Mark?
    ensures forall i :: |r| <= i < |s| ==> s[i].Version?
  {
    if s == [] || s[|s| - 1].Mark? then s else Stripped(s[..|s| - 1])
  }

  ghost predicate AllVersions(s: seq<Entry>) {
    forall i :: 0 <= i < |s| ==> s[i].Version?
  }

  lemma TopPush(s: seq<Entry>, e: Entry)
    ensures TopOf(s + [e]) == if e.Version? then Some(e.id) else TopOf(s)
  {
    assert (s + [e])[..|s|] == s;
  }

  /** Popping what was pushed above a mark gives back the stack below it. */
  lemma {:induction false} StripMarked(s: seq<Entry>, node: nat, above: seq<Entry>)
    requires AllVersions(above)
    ensures Stripped(s + [Mark(node)] + above) == s + [Mark(node)]
  {
    var t := s + [Mark(node)] + above;
    if above != [] {
      assert t[..|t| - 1] == s + [Mark(node)] + above[..|above| - 1];
      StripMarked(s, node, above[..|above| - 1]);
    } else {
      assert t == s + [Mark(node)];
    }
  }

  // ----- all stacks ----------------------------------------------------------

  type Stacks = seq<seq<Entry>>

  ghost predicate AllHaveTop(t: Stacks) {
    forall i :: 0 <= i < |t| ==> TopOf(t[i]).Some?
  }

  function TopsOf(t: Stacks): (r: seq<nat>)
    ensures |r| == |t|
  {
    seq(|t|, i requires 0 <= i < |t| => if TopOf(t[i]).Some? then TopOf(t[i]).value else 0)
  }

  /** Only versions were pushed, and only for symbols in `d`. */
  ghost predicate Grown(t: Stacks, t': Stacks, d: set<nat>) {
    && |t| == |t'|
    && (forall i :: 0 <= i < |t| ==> t[i] <= t'[i] && AllVersions(t'[i][|t[i]|..]))
    && (forall i :: 0 <= i < |t| && i !in d ==> t'[i] == t[i])
  }

  lemma GrownTrans(t0: Stacks, t1: Stacks, t2: Stacks, d1: set<nat>, d2: set<nat>)
    requires Grown(t0, t1, d1) && Grown(t1, t2, d2)
    ensures Grown(t0, t2, d1 + d2)
  {
    forall i | 0 <= i < |t0|
      ensures t0[i] <= t2[i] && AllVersions(t2[i][|t0[i]|..])
    {
      assert t2[i][|t0[i]|..] == t1[i][|t0[i]|..] + t2[i][|t1[i]|..];
    }
  }

  function PushOne(t: Stacks, sym: nat, ver: nat): (r: Stacks)
    ensures |r| == |t|
  {
    if sym < |t| then t[sym := t[sym] + [Version(ver)]] else t
  }

  /** The versions `next`, `next + 1`, ... pushed for the symbols of a list, in order. */
  function PushEach(t: Stacks, syms: seq<nat>, next: nat): (r: Stacks)
    ensures |r| == |t|
  {
    if syms == [] then t
    else
      var n := |syms| - 1;
      PushOne(PushEach(t, syms[..n], next), syms[n], next + n)
  }

  /** For distinct symbols that is one version each, and nothing for the others. */
  lemma {:induction false} PushEachAt(t: Stacks, syms: seq<nat>, next: nat, i: nat)
    requires NoDup(syms) && i < |t|
    ensures i !in syms ==> PushEach(t, syms, next)[i] == t[i]
    ensures forall k :: 0 <= k < |syms| && syms[k] == i ==> PushEach(t, syms, next)[i] == t[i] + [Version(next + k)]
  {
    if syms != [] {
      var n := |syms| - 1;
      PushEachAt(t, syms[..n], next, i);
      forall k | 0 <= k < |syms| && syms[k] == i
        ensures PushEach(t, syms, next)[i] == t[i] + [Version(next + k)]
      {
        if k < n {
          assert syms[..n][k] == i;
        } else {
          assert i !in syms[..n];
        }
      }
    }
  }

  /** The stacks once `node` has put its mark on the symbols of `list`. */
  function Marked(t: Stacks, list: seq<nat>, node: nat): Stacks {
    seq(|t|, i requires 0 <= i < |t| => if i in list then t[i] + [Mark(node)] else t[i])
  }

  lemma MarkedTops(t: Stacks, list: seq<nat>, node: nat)
    requires AllHaveTop(t)
    ensures AllHaveTop(Marked(t, list, node)) && TopsOf(Marked(t, list, node)) == TopsOf(t)
  {
    forall i | 0 <= i < |t|
      ensures TopOf(Marked(t, list, node)[i]) == TopOf(t[i])
    {
      TopPush(t[i], Mark(node));
    }
  }

  class VersionStack {
    /** The last version number given out for each symbol. */
    var lastVer: seq<nat>
    var stk: Stacks

    constructor ()
      ensures lastVer == [] && stk == []
    {
      lastVer, stk := [], [];
    }

    /** Pushes the zero version and the mark of the function entry for every symbol. */
    method Initialize(zeros: seq<nat>, node: nat)
      requires lastVer == [] && stk == []
      modifies this
      ensures |lastVer| == |stk| == |zeros|
      ensures forall i :: 0 <= i < |zeros| ==> lastVer[i] == 0 && stk[i] == [Version(zeros[i]), Mark(node)]
    {
      var i := 0;
      while i < |zeros|
        invariant 0 <= i <= |zeros| && |lastVer| == |stk| == i
        invariant forall j :: 0 <= j < i ==> lastVer[j] == 0 && stk[j] == [Version(zeros[j]), Mark(node)]
      {
        lastVer := lastVer + [0];
        stk := stk + [[Version(zeros[i])]];
        stk := stk[i := stk[i] + [Mark(node)]];
        i := i + 1;
      }
    }

    method NextVersion(sym: nat) returns (number: nat)
      requires sym < |lastVer|
      modifies this`lastVer
      ensures number == old(lastVer[sym]) + 1 && lastVer == old(lastVer)[sym := number]
    {
      lastVer := lastVer[sym := lastVer[sym] + 1];
      number := lastVer[sym];
    }

    method PushVer(sym: nat, ver: nat)
      requires sym < |stk|
      modifies this`stk
      ensures stk == old(stk)[sym := old(stk)[sym] + [Version(ver)]]
      ensures old(AllHaveTop(stk)) ==> AllHaveTop(stk) && TopsOf(stk) == TopsOf(old(stk))[sym := ver]
      ensures Grown(old(stk), stk, {sym})
    {
      TopPush(stk[sym], Version(ver));
      stk := stk[sym := stk[sym] + [Version(ver)]];
      assert stk[sym][|old(stk)[sym]|..] == [Version(ver)];
    }

    method TopVerId(sym: nat) returns (ver: nat)
      requires sym < |stk| && TopOf(stk[sym]).Some?
      ensures Some(ver) == TopOf(stk[sym])
    {
      var s := stk[sym];
      var i := |s| - 1;
      assert s[..|s|] == s;
      while s[i].Mark?
        invariant 0 <= i < |s| && TopOf(s[..i + 1]).Some? && TopOf(s[..i + 1]) == TopOf(s)
        decreases i
      {
        assert s[..i + 1][..i] == s[..i];
        i := i - 1;
      }
      assert s[..|s|] == s;
      ver := s[i].id;
    }

    method PushMark(list: seq<nat>, node: nat)
      requires NoDup(list) && forall k :: 0 <= k < |list| ==> list[k] < |stk|
      modifies this`stk
      ensures stk == Marked(old(stk), list, node)
    {
      var k := 0;
      while k < |list|
        invariant 0 <= k <= |list| && |stk| == |old(stk)|
        invariant forall i :: 0 <= i < |stk| ==>
                    stk[i] == if i in list[..k] then old(stk)[i] + [Mark(node)] else old(stk)[i]
      {
        assert list[k] !in list[..k];
        assert list[..k + 1] == list[..k] + [list[k]];
        stk := stk[list[k] := stk[list[k]] + [Mark(node)]];
        k := k + 1;
      }
      assert list[..|list|] == list;
    }

    /** Pops the versions above the mark, checks that the mark is the node's, and pops it. */
    method PopMark(list: seq<nat>, node: nat)
      requires NoDup(list)
      requires forall k :: 0 <= k < |list| ==>
                 && list[k] < |stk|
                 && var s := Stripped(stk[list[k]]); s != [] && s[|s| - 1] == Mark(node)
      modifies this`stk
      ensures |stk| == |old(stk)|
      ensures forall i :: 0 <= i < |stk| ==>
                stk[i] == if i in list then (var s := Stripped(old(stk)[i]); s[..if |s| > 0 then |s| - 1 else 0])
                          else old(stk)[i]
    {
      var k := 0;
      while k < |list|
        invariant 0 <= k <= |list| && |stk| == |old(stk)|
        invariant forall i :: 0 <= i < |stk| ==>
                    stk[i] == if i in list[..k]
                              then (var s := Stripped(old(stk)[i]); s[..if |s| > 0 then |s| - 1 else 0])
                              else old(stk)[i]
      {
        assert list[k] !in list[..k];
        assert list[..k + 1] == list[..k] + [list[k]];
        var s := stk[list[k]];
        while s[|s| - 1].Version?
          invariant Stripped(s) == Stripped(old(stk)[list[k]]) && s != []
          decreases |s|
        {
          s := s[..|s| - 1];
        }
        assert s[|s| - 1] == Mark(node);
        stk := stk[list[k] := s[..|s| - 1]];
        k := k + 1;
      }
      assert list[..|list|] == list;
    }

    /** Pops the mark of the function entry everywhere; only the zero versions may remain. */
    method Finalize(zeros: seq<nat>, node: nat)
      requires |stk| == |zeros| && exists d :: Grown(Initial(zeros, node), stk, d)
      modifies this`stk
      ensures |stk| == |zeros| && forall i :: 0 <= i < |zeros| ==> stk[i] == [Version(zeros[i])]
    {
      ghost var t := stk;
      var i := 0;
      while i < |stk|
        invariant 0 <= i <= |stk| == |zeros|
        invariant forall j :: 0 <= j < i ==> stk[j] == [Version(zeros[j])]
        invariant forall j :: i <= j < |stk| ==> stk[j] == t[j]
      {
        InitialStripped(zeros, node, t, i);
        var s := stk[i];
        while s[|s| - 1].Version?
          invariant Stripped(s) == Stripped(t[i]) && s != []
          decreases |s|
        {
          s := s[..|s| - 1];
        }
        assert s[|s| - 1] == Mark(node);
        s := s[..|s| - 1];
        assert |s| == 1 && TopOf(s) == Some(zeros[i]);
        stk := stk[i := s];
        i := i + 1;
      }
    }
  }

  /** The stacks after initialisation: the zero version under the mark of the function entry. */
  function Initial(zeros: seq<nat>, node: nat): Stacks {
    seq(|zeros|, i requires 0 <= i < |zeros| => [Version(zeros[i]), Mark(node)])
  }

  lemma InitialTops(zeros: seq<nat>, node: nat)
    ensures AllHaveTop(Initial(zeros, node)) && TopsOf(Initial(zeros, node)) == zeros
  {
    forall i | 0 <= i < |zeros|
      ensures TopOf(Initial(zeros, node)[i]) == Some(zeros[i])
    {
      assert Initial(zeros, node)[i] == [Version(zeros[i])] + [Mark(node)];
      TopPush([Version(zeros[i])], Mark(node));
    }
  }

  lemma InitialStripped(zeros: seq<nat>, node: nat, t: Stacks, i: nat)
    requires (exists d :: Grown(Initial(zeros, node), t, d)) && i < |zeros|
    ensures Stripped(t[i]) == [Version(zeros[i]), Mark(node)]
  {
    var d :| Grown(Initial(zeros, node), t, d);
    var base := [Version(zeros[i])];
    assert Initial(zeros, node)[i] == base + [Mark(node)];
    assert t[i] == base + [Mark(node)] + t[i][2..];
    StripMarked(base, node, t[i][2..]);
  }

  /** After a block that pushed only versions of marked symbols, popping restores the stacks. */
  lemma PopRestores(t0: Stacks, t1: Stacks, t2: Stacks, list: seq<nat>, node: nat)
    requires Grown(Marked(t0, list, node), t1, Elems(list))
    requires |t2| == |t1|
    requires forall i :: 0 <= i < |t2| ==>
               t2[i] == if i in list then (var s := Stripped(t1[i]); s[..if |s| > 0 then |s| - 1 else 0]) else t1[i]
    ensures t2 == t0
  {
    forall i | 0 <= i < |t2| ensures t2[i] == t0[i] {
      if i in list {
        PopReady(t0, t1, list, node, i, Elems(list));
        assert (t0[i] + [Mark(node)])[..|t0[i]|] == t0[i];
      } else {
        assert i !in Elems(list);
      }
    }
  }

  /** Whatever was pushed: marked stacks are restored, and the others keep what was pushed on them. */
  lemma PopLeaves(t0: Stacks, t1: Stacks, t2: Stacks, list: seq<nat>, node: nat, d: set<nat>)
    requires Grown(Marked(t0, list, node), t1, d) && |t2| == |t1|
    requires forall i :: 0 <= i < |t2| ==>
               t2[i] == if i in list then (var s := Stripped(t1[i]); s[..if |s| > 0 then |s| - 1 else 0]) else t1[i]
    ensures forall i :: 0 <= i < |t2| ==> t2[i] == if i in list then t0[i] else t1[i]
    ensures Grown(t0, t2, d)
  {
    forall i | 0 <= i < |t2| ensures t2[i] == if i in list then t0[i] else t1[i] {
      if i in list {
        PopReady(t0, t1, list, node, i, d);
        assert (t0[i] + [Mark(node)])[..|t0[i]|] == t0[i];
      }
    }
    forall i | 0 <= i < |t0| ensures t0[i] <= t2[i] && AllVersions(t2[i][|t0[i]|..]) {
      assert Marked(t0, list, node)[i] == if i in list then t0[i] + [Mark(node)] else t0[i];
    }
    forall i | 0 <= i < |t0| && i !in d ensures t2[i] == t0[i] {
      assert Marked(t0, list, node)[i] == t1[i];
    }
  }

  /** In that situation the mark found under the versions is the one that was pushed. */
  lemma PopReady(t0: Stacks, t1: Stacks, list: seq<nat>, node: nat, i: nat, d: set<nat>)
    requires Grown(Marked(t0, list, node), t1, d) && i < |t0| && i in list
    ensures Stripped(t1[i]) == t0[i] + [Mark(node)]
  {
    var m := t0[i] + [Mark(node)];
    assert Marked(t0, list, node)[i] == m;
    var above := t1[i][|m|..];
    assert t1[i] == t0[i] + [Mark(node)] + above;
    StripMarked(t0[i], node, above);
  }
}
