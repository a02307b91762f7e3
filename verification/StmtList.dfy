/** Statement lists: doubly linked through tables of identifiers, with an end sentinel in each block. */
module StmtLists {
  import opened Basics

  /** Links by statement; first statement and sentinel by block. */
  datatype Tables = Tables(prev: seq<Option<nat>>, next: seq<Option<nat>>, parent: seq<Option<nat>>,
                           begin: seq<nat>, end: seq<nat>)

  ghost predicate Shaped(t: Tables) {
    |t.prev| == |t.next| == |t.parent| && |t.begin| == |t.end|
  }

  ghost predicate InBounds(t: Tables, full: seq<nat>) {
    forall i: nat :: i < |full| ==> full[i] < |t.prev|
  }

  /** The statements of block `blk` and its sentinel, each once. */
  ghost predicate Owned(t: Tables, blk: nat, full: seq<nat>)
    requires Shaped(t)
  {
    NoDup(full) && InBounds(t, full) && forall i: nat :: i < |full| ==> t.parent[full[i]] == Some(blk)
  }

  ghost predicate NextIs(t: Tables, full: seq<nat>, i: nat)
    requires Shaped(t) && i < |full|
  {
    full[i] < |t.prev| && t.next[full[i]] == if i + 1 < |full| then Some(full[i + 1]) else None
  }

  ghost predicate PrevIs(t: Tables, full: seq<nat>, i: nat)
    requires Shaped(t) && i < |full|
  {
    full[i] < |t.prev| && t.prev[full[i]] == if i > 0 then Some(full[i - 1]) else None
  }

  ghost predicate Forward(t: Tables, full: seq<nat>)
    requires Shaped(t)
  {
    forall i: nat :: i < |full| ==> NextIs(t, full, i)
  }

  ghost predicate Backward(t: Tables, full: seq<nat>)
    requires Shaped(t)
  {
    forall i: nat :: i < |full| ==> PrevIs(t, full, i)
  }

  /** The links of block `blk` spell out the statements `s`, then the sentinel. */
  ghost predicate Spells(t: Tables, blk: nat, s: seq<nat>)
    requires Shaped(t) && blk < |t.begin|
  {
    var full := s + [t.end[blk]];
    Owned(t, blk, full) && Forward(t, full) && Backward(t, full) && t.begin[blk] == full[0]
  }

  ghost predicate AllSpell(t: Tables, lists: seq<seq<nat>>) {
    Shaped(t) && |lists| == |t.begin| && forall blk: nat :: blk < |lists| ==> Spells(t, blk, lists[blk])
  }

  /** Other blocks do not see changes to statements that are not theirs. */
  lemma SpellsFrame(t: Tables, t': Tables, blk: nat, s: seq<nat>)
    requires Shaped(t) && Shaped(t') && blk < |t.begin| == |t'.begin| && |t.prev| == |t'.prev|
    requires Spells(t, blk, s) && t'.begin[blk] == t.begin[blk] && t'.end[blk] == t.end[blk]
    requires forall x: nat :: x < |t.prev| && t.parent[x] == Some(blk) ==>
               t'.prev[x] == t.prev[x] && t'.next[x] == t.next[x] && t'.parent[x] == t.parent[x]
    ensures Spells(t', blk, s)
  {
    var full := s + [t.end[blk]];
    assert forall i: nat :: i < |full| ==> full[i] < |t.prev| && t.parent[full[i]] == Some(blk);
    forall i: nat | i < |full| ensures NextIs(t', full, i) && PrevIs(t', full, i) {
      assert NextIs(t, full, i) && PrevIs(t, full, i);
    }
  }

  ghost function WithInsert(s: seq<nat>, i: nat, x: nat): seq<nat>
    requires i <= |s|
  {
    s[..i] + [x] + s[i..]
  }

  /** The tables after `x` has been put in front of `pos` in block `blk`. */
  ghost function InsertTables(t: Tables, blk: nat, pos: nat, x: nat): Tables
    requires Shaped(t) && blk < |t.begin| && pos < |t.prev| && x < |t.prev|
    requires t.prev[pos].Some? ==> t.prev[pos].value < |t.prev|
  {
    var next := t.next[x := Some(pos)];
    t.(parent := t.parent[x := Some(blk)],
       prev := t.prev[x := t.prev[pos]][pos := Some(x)],
       next := if t.prev[pos].Some? then next[t.prev[pos].value := Some(x)] else next,
       begin := if t.prev[pos].Some? then t.begin else t.begin[blk := x])
  }

  lemma InsertOwned(t: Tables, blk: nat, full: seq<nat>, i: nat, x: nat)
    requires Shaped(t) && Owned(t, blk, full) && i <= |full| && x < |t.prev| && x !in full
    ensures Owned(t.(parent := t.parent[x := Some(blk)]), blk, WithInsert(full, i, x))
  {
    var full' := WithInsert(full, i, x);
    forall j: nat | j < |full'|
      ensures full'[j] < |t.prev| && (j != i ==> full'[j] == full[if j < i then j else j - 1] && full'[j] != x)
      ensures t.parent[x := Some(blk)][full'[j]] == Some(blk)
    {
      if j != i {
        assert full[if j < i then j else j - 1] < |t.prev|;
      }
    }
    forall j: nat, k: nat | j < k < |full'| ensures full'[j] != full'[k] {
      assert j != i && k != i ==> full[if j < i then j else j - 1] != full[if k < i then k else k - 1];
    }
  }

  lemma InsertForward(t: Tables, t': Tables, full: seq<nat>, i: nat, x: nat)
    requires Shaped(t) && Shaped(t') && |t'.prev| == |t.prev| && InBounds(t, full) && Forward(t, full) &&
             NoDup(full) && i < |full|
    requires x < |t.prev| && x !in full && t'.next[x] == Some(full[i])
    requires i > 0 ==> t'.next[full[i - 1]] == Some(x)
    requires forall y: nat :: y < |t.prev| && y != x && (i > 0 ==> y != full[i - 1]) ==> t'.next[y] == t.next[y]
    ensures Forward(t', WithInsert(full, i, x))
  {
    var full' := WithInsert(full, i, x);
    forall j: nat | j < |full'| ensures NextIs(t', full', j) {
      if j != i {
        var at := if j < i then j else j - 1;
        assert NextIs(t, full, at);
        assert full'[j] == full[at] && full[at] != x;
        assert i > 0 && at != i - 1 ==> full[at] != full[i - 1];
        assert j + 1 < |full'| ==>
               full'[j + 1] == if j + 1 < i then full[at + 1] else if j + 1 == i then x else full[j];
      }
    }
  }

  lemma InsertBackward(t: Tables, t': Tables, full: seq<nat>, i: nat, x: nat)
    requires Shaped(t) && Shaped(t') && |t'.prev| == |t.prev| && InBounds(t, full) && Backward(t, full) &&
             NoDup(full) && i < |full|
    requires x < |t.prev| && x !in full && t'.prev[full[i]] == Some(x)
    requires t'.prev[x] == if i > 0 then Some(full[i - 1]) else None
    requires forall y: nat :: y < |t.prev| && y != x && y != full[i] ==> t'.prev[y] == t.prev[y]
    ensures Backward(t', WithInsert(full, i, x))
  {
    var full' := WithInsert(full, i, x);
    forall j: nat | j < |full'| ensures PrevIs(t', full', j) {
      if j != i {
        var at := if j < i then j else j - 1;
        assert full'[j] == full[at] && full[at] != x;
        assert at != i ==> full[at] != full[i];
        assert PrevIs(t, full, at);
        assert j > 0 ==> full'[j - 1] == if j < i then full[j - 1] else if j == i + 1 then x else full[j - 2];
      }
    }
  }

  lemma InsertSpells(t: Tables, blk: nat, s: seq<nat>, i: nat, x: nat)
    requires Shaped(t) && blk < |t.begin| && Spells(t, blk, s) && i <= |s|
    requires x < |t.prev| && t.parent[x] == None
    ensures var pos := (s + [t.end[blk]])[i];
            && pos < |t.prev| && (t.prev[pos].Some? ==> t.prev[pos].value < |t.prev|)
            && Shaped(InsertTables(t, blk, pos, x))
            && Spells(InsertTables(t, blk, pos, x), blk, WithInsert(s, i, x))
  {
    var full := s + [t.end[blk]];
    BeginIff(t, blk, s, i);
    var t' := InsertTables(t, blk, full[i], x);
    assert x !in full;
    assert WithInsert(s, i, x) + [t.end[blk]] == WithInsert(full, i, x);
    assert i > 0 ==> full[0] != full[i];
    hide WithInsert, NoDup;
    InsertOwned(t, blk, full, i, x);
    InsertForward(t, t', full, i, x);
    InsertBackward(t, t', full, i, x);
  }

  /** The tables after `x` has been taken out of block `blk`. */
  ghost function RemoveTables(t: Tables, blk: nat, x: nat): Tables
    requires Shaped(t) && blk < |t.begin| && x < |t.prev|
    requires t.next[x].Some? && t.next[x].value < |t.prev|
    requires t.prev[x].Some? ==> t.prev[x].value < |t.prev|
  {
    var n := t.next[x].value;
    t.(parent := t.parent[x := None],
       prev := t.prev[n := t.prev[x]][x := None],
       next := (if t.prev[x].Some? then t.next[t.prev[x].value := Some(n)] else t.next)[x := None],
       begin := if t.prev[x].Some? then t.begin else t.begin[blk := n])
  }

  ghost function Without(s: seq<nat>, i: nat): seq<nat>
    requires i < |s|
  {
    s[..i] + s[i + 1..]
  }

  lemma RemoveOwned(t: Tables, blk: nat, full: seq<nat>, i: nat)
    requires Shaped(t) && Owned(t, blk, full) && i < |full|
    ensures full[i] < |t.prev| && Owned(t.(parent := t.parent[full[i] := None]), blk, Without(full, i))
  {
    var full' := Without(full, i);
    forall j: nat | j < |full'|
      ensures full'[j] < |t.prev| && full'[j] == full[if j < i then j else j + 1] && full'[j] != full[i]
      ensures t.parent[full[i] := None][full'[j]] == Some(blk)
    {
      assert full[if j < i then j else j + 1] < |t.prev| && full[if j < i then j else j + 1] != full[i];
    }
    forall j: nat, k: nat | j < k < |full'| ensures full'[j] != full'[k] {
      assert full[if j < i then j else j + 1] != full[if k < i then k else k + 1];
    }
  }

  lemma RemoveForward(t: Tables, t': Tables, full: seq<nat>, i: nat)
    requires Shaped(t) && Shaped(t') && |t'.prev| == |t.prev| && InBounds(t, full) && Forward(t, full) &&
             NoDup(full) && i < |full| - 1
    requires i > 0 ==> t'.next[full[i - 1]] == Some(full[i + 1])
    requires forall y: nat :: y < |t.prev| && y != full[i] && (i > 0 ==> y != full[i - 1]) ==> t'.next[y] == t.next[y]
    ensures Forward(t', Without(full, i))
  {
    var full' := Without(full, i);
    forall j: nat | j < |full'| ensures NextIs(t', full', j) {
      var at := if j < i then j else j + 1;
      assert full'[j] == full[at] && full[at] != full[i];
      assert i > 0 && at != i - 1 ==> full[at] != full[i - 1];
      assert NextIs(t, full, at);
      assert j + 1 < |full'| ==> full'[j + 1] == full[if j + 1 < i then j + 1 else j + 2];
    }
  }

  lemma RemoveBackward(t: Tables, t': Tables, full: seq<nat>, i: nat)
    requires Shaped(t) && Shaped(t') && |t'.prev| == |t.prev| && InBounds(t, full) && Backward(t, full) &&
             NoDup(full) && i < |full| - 1
    requires t'.prev[full[i + 1]] == if i > 0 then Some(full[i - 1]) else None
    requires forall y: nat :: y < |t.prev| && y != full[i] && y != full[i + 1] ==> t'.prev[y] == t.prev[y]
    ensures Backward(t', Without(full, i))
  {
    var full' := Without(full, i);
    forall j: nat | j < |full'| ensures PrevIs(t', full', j) {
      var at := if j < i then j else j + 1;
      assert full'[j] == full[at] && full[at] != full[i];
      assert at != i + 1 ==> full[at] != full[i + 1];
      assert PrevIs(t, full, at);
      assert j > 0 ==> full'[j - 1] == full[if j - 1 < i then j - 1 else j];
    }
  }

  lemma RemoveSpells(t: Tables, blk: nat, s: seq<nat>, i: nat)
    requires Shaped(t) && blk < |t.begin| && Spells(t, blk, s) && i < |s|
    ensures s[i] < |t.prev| && t.next[s[i]].Some? && t.next[s[i]].value < |t.prev|
    ensures t.prev[s[i]].Some? ==> t.prev[s[i]].value < |t.prev|
    ensures Shaped(RemoveTables(t, blk, s[i])) && Spells(RemoveTables(t, blk, s[i]), blk, Without(s, i))
  {
    var full := s + [t.end[blk]];
    BeginIff(t, blk, s, i);
    BeginIff(t, blk, s, i + 1);
    var t' := RemoveTables(t, blk, full[i]);
    assert Without(s, i) + [t.end[blk]] == Without(full, i);
    assert full[i] != full[i + 1] && (i > 0 ==> full[0] != full[i] && full[i - 1] != full[i]);
    RemoveOwned(t, blk, full, i);
    RemoveForward(t, t', full, i);
    RemoveBackward(t, t', full, i);
  }

  class Container {
    var prev: seq<Option<nat>>
    var next: seq<Option<nat>>
    var parent: seq<Option<nat>>
    var begin: seq<nat>
    var end: seq<nat>
    /** The statements of each block, in order. */
    ghost var lists: seq<seq<nat>>

    constructor ()
      ensures Valid() && lists == []
    {
      prev, next, parent, begin, end, lists := [], [], [], [], [], [];
    }

    ghost function Now(): Tables
      reads this
    {
      Tables(prev, next, parent, begin, end)
    }

    ghost predicate Valid()
      reads this
    {
      AllSpell(Now(), lists)
    }

    /** Position of `pos` in block `blk`, the sentinel being behind the last statement. */
    ghost predicate At(blk: nat, i: nat, pos: nat)
      reads this
    {
      Valid() && blk < |lists| && i <= |lists[blk]| && pos == (lists[blk] + [end[blk]])[i]
    }

    /** Inserts a statement that is in no list in front of `pos`. */
    method PrependAt(blk: nat, pos: nat, stmt: nat, ghost i: nat) returns (r: nat)
      requires At(blk, i, pos) && stmt < |parent| && parent[stmt] == None
      modifies this
      ensures r == stmt
      ensures Valid() && lists == old(lists)[blk := WithInsert(old(lists[blk]), i, stmt)] && end == old(end)
    {
      ghost var t, s := Now(), lists[blk];
      InsertOne(t, lists, blk, i, stmt);
      BeginIff(t, blk, s, i);
      hide AllSpell, WithInsert;
      next := next[stmt := Some(pos)];
      parent := parent[stmt := parent[pos]];
      if pos == begin[blk] {
        prev := prev[pos := Some(stmt)];
        begin := begin[blk := stmt];
        prev := prev[stmt := None];
      } else {
        var before := prev[pos].value;
        prev := prev[stmt := Some(before)];
        next := next[before := Some(stmt)];
        prev := prev[pos := Some(stmt)];
      }
      assert Now() == InsertTables(t, blk, pos, stmt);
      lists := lists[blk := WithInsert(s, i, stmt)];
      r := stmt;
    }

    method Prepend(blk: nat, stmt: nat) returns (r: nat)
      requires Valid() && blk < |lists| && stmt < |parent| && parent[stmt] == None
      modifies this
      ensures r == stmt
      ensures Valid() && lists == old(lists)[blk := [stmt] + old(lists[blk])] && end == old(end)
    {
      r := PrependAt(blk, begin[blk], stmt, 0);
      assert WithInsert(old(lists[blk]), 0, stmt) == [stmt] + old(lists[blk]);
    }

    method Append(blk: nat, stmt: nat) returns (r: nat)
      requires Valid() && blk < |lists| && stmt < |parent| && parent[stmt] == None
      modifies this
      ensures r == stmt
      ensures Valid() && lists == old(lists)[blk := old(lists[blk]) + [stmt]] && end == old(end)
    {
      r := PrependAt(blk, end[blk], stmt, |lists[blk]|);
      assert WithInsert(old(lists[blk]), |old(lists[blk])|, stmt) == old(lists[blk]) + [stmt];
    }

    /**
      Inserts a statement that is in no list behind `pos`.  Behind the sentinel
      that fails: the statement is linked on both sides of it, and nothing comes
      next whose link could be set.
     */
    method AppendAt(blk: nat, pos: nat, stmt: nat, ghost i: nat) returns (r: Option<nat>)
      requires At(blk, i, pos) && stmt < |parent| && parent[stmt] == None
      modifies this
      ensures r == if i < |old(lists[blk])| then Some(stmt) else None
      ensures r.Some? ==> Valid() && lists == old(lists)[blk := WithInsert(old(lists[blk]), i + 1, stmt)]
      ensures r.None? ==> |prev| == |next| && pos < |next| && stmt < |next|
      ensures r.None? ==> next[pos] == Some(stmt) && next[stmt] == None
      ensures r.None? ==> prev[pos] == Some(stmt) && prev[stmt] == Some(pos)
      ensures end == old(end)
    {
      ghost var t, s := Now(), lists[blk];
      SentinelLast(t, blk, s, i);
      BeginIff(t, blk, s, i);
      if pos == end[blk] {
        var _ := PrependAt(blk, pos, stmt, i);
        assert lists[blk] == s + [stmt];
        LastLinks(Now(), blk, s, stmt);
      } else {
        InsertOne(t, lists, blk, i + 1, stmt);
        BeginIff(t, blk, s, i + 1);
      }
      hide AllSpell, Spells, WithInsert;
      var after := next[pos];
      next := next[pos := Some(stmt)];
      prev := prev[stmt := Some(pos)];
      next := next[stmt := after];
      if after == None {
        return None;
      }
      prev := prev[after.value := Some(stmt)];
      parent := parent[stmt := parent[pos]];
      assert Now() == InsertTables(t, blk, after.value, stmt);
      lists := lists[blk := WithInsert(s, i + 1, stmt)];
      r := Some(stmt);
    }

    /** Takes a statement out of its list; it is in no list afterwards. */
    method Remove(blk: nat, pos: nat, ghost i: nat) returns (after: nat)
      requires At(blk, i, pos) && i < |lists[blk]|
      modifies this
      ensures Valid() && lists == old(lists)[blk := Without(old(lists[blk]), i)]
      ensures parent == old(parent)[pos := None] && At(blk, i, after) && end == old(end)
    {
      ghost var t, s := Now(), lists[blk];
      RemoveSpells(t, blk, s, i);
      BeginIff(t, blk, s, i);
      BeginIff(t, blk, s, i + 1);
      hide Spells, Without;
      after := next[pos].value;
      if pos == begin[blk] {
        begin := begin[blk := after];
        prev := prev[after := None];
      } else {
        var before := prev[pos].value;
        prev := prev[after := Some(before)];
        next := next[before := Some(after)];
      }
      prev := prev[pos := None];
      next := next[pos := None];
      parent := parent[pos := None];
      assert Now() == RemoveTables(t, blk, pos);
      lists := lists[blk := Without(s, i)];
      OthersSpell(t, Now(), old(lists), lists, blk);
      assert after == (s + [end[blk]])[i + 1];
    }

    /** Gives the statements of block `src` to block `dst`; the links stay as they are. */
    method SetOwner(src: nat, dst: nat)
      requires Valid() && src < |lists| && dst < |lists|
      modifies this`parent
      ensures |parent| == |old(parent)|
      ensures forall x: nat :: x < |parent| ==> parent[x] == if x in lists[src] then Some(dst) else old(parent)[x]
    {
      ghost var t, s, k: nat := Now(), lists[src], 0;
      ghost var full := s + [end[src]];
      BeginIff(t, src, s, 0);
      var stmt := begin[src];
      while stmt != end[src]
        invariant k <= |s| && stmt == full[k] && |parent| == |t.parent|
        invariant forall x: nat :: x < |parent| ==> parent[x] == if x in s[..k] then Some(dst) else t.parent[x]
        decreases |s| - k
      {
        BeginIff(t, src, s, k);
        assert s[..k + 1] == s[..k] + [stmt];
        parent := parent[stmt := Some(dst)];
        stmt := next[stmt].value;
        k := k + 1;
      }
      SentinelLast(t, src, s, k);
      assert s[..k] == s;
    }

    lemma FirstAt(blk: nat)
      requires Valid() && blk < |lists|
      ensures blk < |begin| && At(blk, 0, begin[blk])
    {
      assert Spells(Now(), blk, lists[blk]);
    }

    /** Leaves a block that has given away its statements empty. */
    method CleanUp(blk: nat)
      requires blk < |begin| && blk < |end| && end[blk] < |next| && end[blk] < |prev|
      modifies this`begin, this`next, this`prev
      ensures begin == old(begin)[blk := end[blk]]
      ensures next == old(next)[end[blk] := None] && prev == old(prev)[end[blk] := None]
    {
      begin := begin[blk := end[blk]];
      next := next[begin[blk] := None];
      prev := prev[end[blk] := None];
    }

    /** Moves all statements of block `src` to the front of block `dst`. */
    method PrependList(dst: nat, src: nat) returns (first: nat)
      requires Valid() && src < |lists| && dst < |lists| && src != dst
      modifies this
      ensures Valid() && end == old(end)
      ensures lists == old(lists)[dst := old(lists[src]) + old(lists[dst])][src := []]
      ensures At(dst, 0, first)
    {
      ghost var t, s, d := Now(), lists[src], lists[dst];
      EmptyIff(t, src, s);
      if begin[src] == end[src] {
        assert s + d == d;
        assert lists == lists[dst := s + d][src := []];
        return begin[dst];
      }
      var blkBegin, blkEnd := begin[src], end[src];
      SetOwner(src, dst);
      EndsOf(t, src, s);
      EndsOf(t, dst, d);
      Apart(t, lists, src, dst);
      assert TwoBlocks(t, src, dst, s, d);
      hide Spells, TwoBlocks, AllSpell, At, NoDup, Shaped;
      var last := prev[blkEnd].value;
      prev := prev[begin[dst] := Some(last)];
      next := next[last := Some(begin[dst])];
      begin := begin[dst := blkBegin];
      prev := prev[blkBegin := None];
      CleanUp(src);
      lists := lists[dst := s + d][src := []];
      PrependJoins(t, Now(), old(lists), src, dst);
      first := blkBegin;
      FirstAt(dst);
    }

    /** Moves all statements of block `src` to the end of block `dst`. */
    method AppendList(dst: nat, src: nat) returns (first: nat)
      requires Valid() && src < |lists| && dst < |lists| && src != dst
      modifies this
      ensures Valid() && end == old(end)
      ensures lists == old(lists)[dst := old(lists[dst]) + old(lists[src])][src := []]
      ensures At(dst, 0, first)
    {
      ghost var t, s, d := Now(), lists[src], lists[dst];
      EmptyIff(t, src, s);
      if begin[src] == end[src] {
        assert d + s == d;
        assert lists == lists[dst := d + s][src := []];
        return begin[dst];
      }
      var blkBegin, blkEnd := begin[src], end[src];
      SetOwner(src, dst);
      EndsOf(t, src, s);
      EndsOf(t, dst, d);
      EmptyIff(t, dst, d);
      Apart(t, lists, src, dst);
      assert TwoBlocks(t, src, dst, s, d);
      hide Spells, TwoBlocks, AllSpell, At, NoDup, Shaped;
      if begin[dst] == end[dst] {
        begin := begin[dst := blkBegin];
        prev := prev[blkBegin := None];
      } else {
        next := next[prev[end[dst]].value := Some(blkBegin)];
        prev := prev[blkBegin := prev[end[dst]]];
      }
      var last := prev[blkEnd].value;
      prev := prev[end[dst] := Some(last)];
      next := next[last := Some(end[dst])];
      CleanUp(src);
      lists := lists[dst := d + s][src := []];
      if d == [] {
        assert d + s == s + d;
        PrependJoins(t, Now(), old(lists), src, dst);
      } else {
        AppendJoins(t, Now(), old(lists), src, dst);
      }
      first := begin[dst];
      FirstAt(dst);
    }
  }

  /** The first statement, or the sentinel of an empty block, is the one without a predecessor. */
  lemma BeginIff(t: Tables, blk: nat, s: seq<nat>, i: nat)
    requires Shaped(t) && blk < |t.begin| && Spells(t, blk, s) && i <= |s|
    ensures var pos := (s + [t.end[blk]])[i];
            && pos < |t.prev| && t.parent[pos] == Some(blk) && (pos == t.begin[blk] <==> t.prev[pos] == None)
            && (t.prev[pos].Some? ==> t.prev[pos].value < |t.prev| && t.parent[t.prev[pos].value] == Some(blk))
            && t.prev[pos] == (if i > 0 then Some((s + [t.end[blk]])[i - 1]) else None)
            && t.next[pos] == if i < |s| then Some((s + [t.end[blk]])[i + 1]) else None
  {
    var full := s + [t.end[blk]];
    assert PrevIs(t, full, i) && NextIs(t, full, i);
    assert i > 0 ==> full[0] != full[i] && PrevIs(t, full, i - 1);
  }

  /** The last statement and the sentinel behind it. */
  lemma LastLinks(t: Tables, blk: nat, s: seq<nat>, x: nat)
    requires Shaped(t) && blk < |t.begin| && Spells(t, blk, s + [x])
    ensures var pos := t.end[blk];
            x < |t.prev| && pos < |t.prev| && x != pos && t.next[pos] == None && t.prev[pos] == Some(x)
  {
    BeginIff(t, blk, s + [x], |s| + 1);
    BeginIff(t, blk, s + [x], |s|);
    SentinelLast(t, blk, s + [x], |s|);
  }

  /** A change to one block leaves the others alone. */
  lemma OthersSpell(t: Tables, t': Tables, lists: seq<seq<nat>>, lists': seq<seq<nat>>, blk: nat)
    requires AllSpell(t, lists) && Shaped(t') && blk < |lists| && |t'.begin| == |t.begin| && |t'.prev| == |t.prev|
    requires |lists'| == |lists| && Spells(t', blk, lists'[blk])
    requires forall c: nat :: c < |lists| && c != blk ==>
               lists'[c] == lists[c] && t'.begin[c] == t.begin[c] && t'.end[c] == t.end[c]
    requires forall x: nat :: x < |t.prev| && t.parent[x].Some? && t.parent[x] != Some(blk) ==>
               t'.prev[x] == t.prev[x] && t'.next[x] == t.next[x] && t'.parent[x] == t.parent[x]
    ensures AllSpell(t', lists')
  {
    forall c: nat | c < |lists'| ensures Spells(t', c, lists'[c]) {
      if c != blk {
        SpellsFrame(t, t', c, lists[c]);
      }
    }
  }

  /** Inserting into one block leaves what belongs to the others. */
  lemma InsertFrame(t: Tables, blk: nat, pos: nat, x: nat)
    requires Shaped(t) && blk < |t.begin| && pos < |t.prev| && x < |t.prev| && t.parent[x] == None
    requires t.parent[pos] == Some(blk)
    requires t.prev[pos].Some? ==> t.prev[pos].value < |t.prev| && t.parent[t.prev[pos].value] == Some(blk)
    ensures var t' := InsertTables(t, blk, pos, x);
            && Shaped(t') && |t'.begin| == |t.begin| && |t'.prev| == |t.prev| && t'.end == t.end
            && (forall c: nat :: c < |t.begin| && c != blk ==> t'.begin[c] == t.begin[c])
            && forall y: nat :: y < |t.prev| && t.parent[y].Some? && t.parent[y] != Some(blk) ==>
                 t'.prev[y] == t.prev[y] && t'.next[y] == t.next[y] && t'.parent[y] == t.parent[y]
  {
  }

  /** Inserting into one block, with all others as they were. */
  lemma InsertOne(t: Tables, lists: seq<seq<nat>>, blk: nat, i: nat, x: nat)
    requires AllSpell(t, lists) && blk < |lists| && i <= |lists[blk]| && x < |t.prev| && t.parent[x] == None
    ensures var pos := (lists[blk] + [t.end[blk]])[i];
            && pos < |t.prev| && (t.prev[pos].Some? ==> t.prev[pos].value < |t.prev|)
            && AllSpell(InsertTables(t, blk, pos, x), lists[blk := WithInsert(lists[blk], i, x)])
  {
    var pos, lists' := (lists[blk] + [t.end[blk]])[i], lists[blk := WithInsert(lists[blk], i, x)];
    BeginIff(t, blk, lists[blk], i);
    InsertSpells(t, blk, lists[blk], i, x);
    InsertFrame(t, blk, pos, x);
    hide Spells, WithInsert, InsertTables;
    OthersSpell(t, InsertTables(t, blk, pos, x), lists, lists', blk);
  }

  lemma SentinelLast(t: Tables, blk: nat, s: seq<nat>, k: nat)
    requires Shaped(t) && blk < |t.begin| && Spells(t, blk, s) && k <= |s|
    ensures (s + [t.end[blk]])[k] == t.end[blk] <==> k == |s|
  {
    var full := s + [t.end[blk]];
    assert k < |s| ==> full[k] != full[|s|];
  }

  lemma EmptyIff(t: Tables, blk: nat, s: seq<nat>)
    requires Shaped(t) && blk < |t.begin| && Spells(t, blk, s)
    ensures t.begin[blk] == t.end[blk] <==> s == []
  {
    SentinelLast(t, blk, s, 0);
  }

  /** What the links at both ends of a block are, and who owns its statements. */
  lemma EndsOf(t: Tables, blk: nat, s: seq<nat>)
    requires Shaped(t) && blk < |t.begin| && Spells(t, blk, s)
    ensures t.end[blk] < |t.prev| && t.begin[blk] == (s + [t.end[blk]])[0] < |t.prev|
    ensures s != [] ==> t.prev[t.end[blk]] == Some(s[|s| - 1]) && s[|s| - 1] < |t.prev| && s[0] < |t.prev|
    ensures s == [] ==> t.prev[t.end[blk]] == None
    ensures t.parent[t.end[blk]] == Some(blk) && t.parent[t.begin[blk]] == Some(blk)
    ensures forall x :: x in s ==> x < |t.prev| && t.parent[x] == Some(blk)
  {
    BeginIff(t, blk, s, 0);
    BeginIff(t, blk, s, |s|);
    var full := s + [t.end[blk]];
    forall x | x in s ensures x < |t.prev| && t.parent[x] == Some(blk) {
      var i :| 0 <= i < |s| && s[i] == x;
      BeginIff(t, blk, s, i);
      assert full[i] == x;
    }
  }

  /** Different blocks have no statement in common. */
  lemma Apart(t: Tables, lists: seq<seq<nat>>, a: nat, b: nat)
    requires AllSpell(t, lists) && a < |lists| && b < |lists| && a != b
    ensures forall x :: x in lists[a] + [t.end[a]] ==> x !in lists[b] + [t.end[b]]
  {
    var u, v := lists[a] + [t.end[a]], lists[b] + [t.end[b]];
    assert Spells(t, a, lists[a]) && Spells(t, b, lists[b]);
    forall i: nat, j: nat | i < |u| && j < |v| ensures u[i] != v[j] {
      assert t.parent[u[i]] == Some(a) && t.parent[v[j]] == Some(b);
    }
  }

  // ----- joining two chains -----------------------------------------------------------

  lemma JoinForward(t: Tables, u: seq<nat>, v: seq<nat>)
    requires Shaped(t) && u != [] && v != [] && InBounds(t, u) && InBounds(t, v)
    requires forall i: nat :: i < |u| - 1 ==> t.next[u[i]] == Some((u + v)[i + 1])
    requires t.next[u[|u| - 1]] == Some(v[0]) && Forward(t, v)
    ensures Forward(t, u + v)
  {
    var w := u + v;
    forall i: nat | i < |w| ensures NextIs(t, w, i) {
      if i < |u| {
        assert w[i] == u[i];
      } else {
        assert NextIs(t, v, i - |u|) && w[i] == v[i - |u|];
      }
    }
  }

  lemma JoinBackward(t: Tables, u: seq<nat>, v: seq<nat>)
    requires Shaped(t) && u != [] && v != [] && InBounds(t, u) && InBounds(t, v)
    requires forall i: nat :: 0 < i < |v| ==> t.prev[v[i]] == Some((u + v)[|u| + i - 1])
    requires t.prev[v[0]] == Some(u[|u| - 1]) && Backward(t, u)
    ensures Backward(t, u + v)
  {
    var w := u + v;
    forall i: nat | i < |w| ensures PrevIs(t, w, i) {
      if i < |u| {
        assert PrevIs(t, u, i) && w[i] == u[i];
      } else {
        assert w[i] == v[i - |u|];
      }
    }
  }

  /** The blocks `src`, not empty, and `dst` before their lists are joined. */
  ghost predicate TwoBlocks(t: Tables, src: nat, dst: nat, s: seq<nat>, d: seq<nat>) {
    && Shaped(t) && src < |t.begin| && dst < |t.begin| && src != dst && s != []
    && Spells(t, src, s) && Spells(t, dst, d)
    && forall x :: x in s + [t.end[src]] ==> x !in d + [t.end[dst]]
  }

  /** All of `s` is now in `dst`, and nothing else changed its owner; `src` is left empty. */
  ghost predicate Handed(t: Tables, t': Tables, src: nat, dst: nat, s: seq<nat>)
    requires Shaped(t) && src < |t.begin|
  {
    && Shaped(t') && |t'.prev| == |t.prev| && |t'.begin| == |t.begin| && t'.end == t.end
    && (forall x: nat :: x < |t.parent| ==> t'.parent[x] == if x in s then Some(dst) else t.parent[x])
    && t'.begin[src] == t.end[src] < |t.prev| && t'.next[t.end[src]] == None && t'.prev[t.end[src]] == None
  }

  lemma SourceEmptied(t: Tables, t': Tables, src: nat, dst: nat, s: seq<nat>, d: seq<nat>)
    requires TwoBlocks(t, src, dst, s, d) && Handed(t, t', src, dst, s)
    ensures Spells(t', src, [])
  {
    var full := s + [t.end[src]];
    assert full[|s|] == t.end[src] && t.parent[full[|s|]] == Some(src);
    forall i | 0 <= i < |s| ensures s[i] != t.end[src] {
      assert full[i] != full[|s|];
    }
  }

  lemma JoinOwned(t: Tables, t': Tables, src: nat, dst: nat, s: seq<nat>, d: seq<nat>, full: seq<nat>)
    requires TwoBlocks(t, src, dst, s, d) && Handed(t, t', src, dst, s)
    requires full == s + (d + [t.end[dst]]) || full == d + (s + [t.end[dst]])
    ensures Owned(t', dst, full)
  {
    var u, v := s + [t.end[src]], d + [t.end[dst]];
    assert forall i :: 0 <= i < |s| ==> u[i] == s[i];
    assert forall i :: 0 <= i < |d| ==> v[i] == d[i];
    forall x | x in full ensures x < |t.prev| && t'.parent[x] == Some(dst) {
      assert x in s || x in v;
      if x in s {
        var i :| 0 <= i < |s| && u[i] == x;
      } else {
        var i :| 0 <= i < |v| && v[i] == x;
        assert t.parent[v[i]] == Some(dst);
      }
    }
    forall i, j | 0 <= i < j < |full| ensures full[i] != full[j] {
      assert forall x :: x in s ==> x in u;
      if full == s + v {
        assert full[i] == if i < |s| then u[i] else v[i - |s|];
        assert full[j] == if j < |s| then u[j] else v[j - |s|];
      } else {
        assert full[i] == if i < |d| then v[i] else u[i - |d|];
        assert full[j] == if j < |d| then v[j] else if j < |d| + |s| then u[j - |d|] else v[|d|];
      }
    }
  }

  /** Links that did not change still hold. */
  lemma KeptNext(t: Tables, t': Tables, full: seq<nat>, i: nat)
    requires Shaped(t) && Shaped(t') && |t'.prev| == |t.prev| && Forward(t, full) && i < |full|
    ensures full[i] < |t.prev|
    ensures t'.next[full[i]] == t.next[full[i]] ==> NextIs(t', full, i)
  {
    assert NextIs(t, full, i);
  }

  lemma KeptPrev(t: Tables, t': Tables, full: seq<nat>, i: nat)
    requires Shaped(t) && Shaped(t') && |t'.prev| == |t.prev| && Backward(t, full) && i < |full|
    ensures full[i] < |t.prev|
    ensures t'.prev[full[i]] == t.prev[full[i]] ==> PrevIs(t', full, i)
  {
    assert PrevIs(t, full, i);
  }

  /** `s` in front of the statements of `dst`. */
  ghost predicate LinkedInFront(t: Tables, t': Tables, src: nat, dst: nat, s: seq<nat>, d: seq<nat>)
    requires Shaped(t) && src < |t.begin| && dst < |t.begin| && s != []
  {
    var last, first := s[|s| - 1], (d + [t.end[dst]])[0];
    && last < |t.prev| && first < |t.prev| && s[0] < |t.prev| && t.end[src] < |t.prev|
    && t'.next == t.next[last := Some(first)][t.end[src] := None]
    && t'.prev == t.prev[first := Some(last)][s[0] := None][t.end[src] := None]
  }

  lemma PrependForward(t: Tables, t': Tables, src: nat, dst: nat, s: seq<nat>, d: seq<nat>)
    requires TwoBlocks(t, src, dst, s, d) && Handed(t, t', src, dst, s) && LinkedInFront(t, t', src, dst, s, d)
    ensures Forward(t', s + (d + [t.end[dst]]))
  {
    hide NoDup, Spells;
    var u, v, e := s + [t.end[src]], d + [t.end[dst]], t.end[src];
    LinksOf(t, src, s);
    LinksOf(t, dst, d);
    SourceDistinct(t, src, s);
    forall i: nat | i < |v| ensures NextIs(t', v, i) {
      assert v[i] in v && e in u && s[|s| - 1] in u;
      KeptNext(t, t', v, i);
    }
    forall i: nat | i < |s| - 1 ensures t'.next[s[i]] == Some((s + v)[i + 1]) {
      KeptNext(t, t', u, i);
      assert u[i] == s[i] && u[i + 1] == s[i + 1];
    }
    JoinForward(t', s, v);
  }

  lemma PrependBackward(t: Tables, t': Tables, src: nat, dst: nat, s: seq<nat>, d: seq<nat>)
    requires TwoBlocks(t, src, dst, s, d) && Handed(t, t', src, dst, s) && LinkedInFront(t, t', src, dst, s, d)
    ensures Backward(t', s + (d + [t.end[dst]]))
  {
    hide NoDup, Spells;
    var u, v, e := s + [t.end[src]], d + [t.end[dst]], t.end[src];
    LinksOf(t, src, s);
    LinksOf(t, dst, d);
    SourceDistinct(t, src, s);
    assert v[0] in v && e in u && s[0] in u;
    forall i: nat | 0 < i < |v| ensures t'.prev[v[i]] == Some((s + v)[|s| + i - 1]) {
      assert v[i] in v;
      KeptPrev(t, t', v, i);
      TargetDistinct(t, dst, d, i);
    }
    forall i: nat | i < |s| ensures PrevIs(t', s, i) {
      assert u[i] == s[i] && s[i] in u;
      KeptPrev(t, t', u, i);
    }
    JoinBackward(t', s, v);
  }

  lemma PrependListSpells(t: Tables, t': Tables, src: nat, dst: nat, s: seq<nat>, d: seq<nat>)
    requires TwoBlocks(t, src, dst, s, d) && Handed(t, t', src, dst, s) && LinkedInFront(t, t', src, dst, s, d)
    requires t'.begin[dst] == s[0]
    ensures Spells(t', dst, s + d) && Spells(t', src, [])
  {
    hide LinkedInFront, Owned, Forward, Backward;
    SourceEmptied(t, t', src, dst, s, d);
    var v := d + [t.end[dst]];
    assert s + d + [t.end[dst]] == s + v;
    JoinOwned(t, t', src, dst, s, d, s + v);
    PrependForward(t, t', src, dst, s, d);
    PrependBackward(t, t', src, dst, s, d);
  }

  lemma LinksOf(t: Tables, blk: nat, s: seq<nat>)
    requires Shaped(t) && blk < |t.begin| && Spells(t, blk, s)
    ensures var full := s + [t.end[blk]]; InBounds(t, full) && Forward(t, full) && Backward(t, full)
    ensures InBounds(t, s)
  {
    var full := s + [t.end[blk]];
    forall i: nat | i < |s| ensures s[i] < |t.prev| {
      assert full[i] < |t.prev|;
    }
  }

  lemma SourceDistinct(t: Tables, src: nat, s: seq<nat>)
    requires Shaped(t) && src < |t.begin| && Spells(t, src, s) && s != []
    ensures t.end[src] < |t.prev| && forall i: nat :: i < |s| ==>
              && s[i] < |t.prev| && s[i] != t.end[src]
              && (i > 0 ==> s[i] != s[0]) && (i < |s| - 1 ==> s[i] != s[|s| - 1])
  {
    var full := s + [t.end[src]];
    assert full[|s|] < |t.prev|;
    forall i: nat | i < |s|
      ensures s[i] < |t.prev| && s[i] != t.end[src] && (i > 0 ==> s[i] != s[0]) && (i < |s| - 1 ==> s[i] != s[|s| - 1])
    {
      assert full[i] < |t.prev| && full[i] != full[|s|];
      assert i > 0 ==> full[0] != full[i];
      assert i < |s| - 1 ==> full[i] != full[|s| - 1];
    }
  }

  lemma TargetDistinct(t: Tables, dst: nat, d: seq<nat>, i: nat)
    requires Shaped(t) && dst < |t.begin| && Spells(t, dst, d) && i <= |d|
    ensures var v := d + [t.end[dst]];
            (i > 0 ==> v[i] != v[0]) && (i < |d| ==> v[i] != v[|d|]) && (d != [] && i != |d| - 1 ==> v[i] != v[|d| - 1])
  {
    var v := d + [t.end[dst]];
    assert i > 0 ==> v[0] != v[i];
    assert i < |d| ==> v[i] != v[|d|];
    assert d != [] && i < |d| - 1 ==> v[i] != v[|d| - 1];
    assert d != [] && i == |d| ==> v[|d| - 1] != v[i];
  }

  /** `s` between the statements of `dst` and its sentinel. */
  ghost predicate LinkedBehind(t: Tables, t': Tables, src: nat, dst: nat, s: seq<nat>, d: seq<nat>)
    requires Shaped(t) && src < |t.begin| && dst < |t.begin| && s != [] && d != []
  {
    var last, end, before := s[|s| - 1], t.end[dst], d[|d| - 1];
    && last < |t.prev| && end < |t.prev| && s[0] < |t.prev| && before < |t.prev| && t.end[src] < |t.prev|
    && t'.next == t.next[before := Some(s[0])][last := Some(end)][t.end[src] := None]
    && t'.prev == t.prev[s[0] := Some(before)][end := Some(last)][t.end[src] := None]
  }

  lemma AppendForward(t: Tables, t': Tables, src: nat, dst: nat, s: seq<nat>, d: seq<nat>)
    requires TwoBlocks(t, src, dst, s, d) && Handed(t, t', src, dst, s) && d != [] &&
             LinkedBehind(t, t', src, dst, s, d)
    ensures Forward(t', d + (s + [t.end[dst]]))
  {
    hide NoDup, Spells;
    var u, v, e, w := s + [t.end[src]], d + [t.end[dst]], t.end[src], s + [t.end[dst]];
    LinksOf(t, src, s);
    LinksOf(t, dst, d);
    SourceDistinct(t, src, s);
    assert e in u && s[|s| - 1] in u && v[|d|] == t.end[dst] && v[|d|] in v && v[|d| - 1] == d[|d| - 1] &&
           v[|d| - 1] in v;
    forall i: nat | i < |v| ensures i < |d| - 1 ==> t'.next[d[i]] == Some((d + w)[i + 1]) {
      assert v[i] in v;
      KeptNext(t, t', v, i);
      TargetDistinct(t, dst, d, i);
      assert i < |d| ==> v[i] == d[i];
      assert i < |d| - 1 ==> v[i + 1] == d[i + 1];
    }
    KeptNext(t, t', v, |d|);
    TargetDistinct(t, dst, d, |d|);
    assert NextIs(t', [t.end[dst]], 0);
    forall i: nat | i < |s| - 1 ensures t'.next[s[i]] == Some((s + [t.end[dst]])[i + 1]) {
      KeptNext(t, t', u, i);
      assert u[i] == s[i] && s[i] in u && u[i + 1] == s[i + 1];
    }
    JoinForward(t', s, [t.end[dst]]);
    JoinForward(t', d, w);
  }

  lemma AppendBackward(t: Tables, t': Tables, src: nat, dst: nat, s: seq<nat>, d: seq<nat>)
    requires TwoBlocks(t, src, dst, s, d) && Handed(t, t', src, dst, s) && d != [] &&
             LinkedBehind(t, t', src, dst, s, d)
    ensures Backward(t', d + (s + [t.end[dst]]))
  {
    hide NoDup, Spells;
    var u, v, e, w := s + [t.end[src]], d + [t.end[dst]], t.end[src], s + [t.end[dst]];
    LinksOf(t, src, s);
    LinksOf(t, dst, d);
    SourceDistinct(t, src, s);
    assert e in u && s[0] in u && v[|d|] == t.end[dst] && v[|d|] in v;
    forall i: nat | i < |d| ensures PrevIs(t', d, i) {
      assert v[i] == d[i] && v[i] in v;
      KeptPrev(t, t', v, i);
      TargetDistinct(t, dst, d, i);
    }
    forall i: nat | 0 < i < |s| ensures t'.prev[s[i]] == Some((d + w)[|d| + i - 1]) {
      KeptPrev(t, t', u, i);
      assert u[i] == s[i] && s[i] in u && u[i - 1] == s[i - 1];
    }
    JoinBackward(t', d, w);
  }

  lemma AppendListSpells(t: Tables, t': Tables, src: nat, dst: nat, s: seq<nat>, d: seq<nat>)
    requires TwoBlocks(t, src, dst, s, d) && Handed(t, t', src, dst, s) && d != [] &&
             LinkedBehind(t, t', src, dst, s, d)
    requires t'.begin[dst] == t.begin[dst]
    ensures Spells(t', dst, d + s) && Spells(t', src, [])
  {
    SourceEmptied(t, t', src, dst, s, d);
    assert t.begin[dst] == d[0];
    hide LinkedBehind, Owned, Forward, Backward;
    var w := s + [t.end[dst]];
    assert d + s + [t.end[dst]] == d + w;
    JoinOwned(t, t', src, dst, s, d, d + w);
    AppendForward(t, t', src, dst, s, d);
    AppendBackward(t, t', src, dst, s, d);
  }

  lemma OtherTwo(t: Tables, t': Tables, lists: seq<seq<nat>>, lists': seq<seq<nat>>, src: nat, dst: nat)
    requires AllSpell(t, lists) && Shaped(t') && |t'.begin| == |t.begin| && |t'.prev| == |t.prev|
    requires src < |lists| && dst < |lists| && |lists'| == |lists|
    requires Spells(t', src, lists'[src]) && Spells(t', dst, lists'[dst])
    requires forall c: nat :: c < |lists| && c != src && c != dst ==>
               lists'[c] == lists[c] && t'.begin[c] == t.begin[c] && t'.end[c] == t.end[c]
    requires forall x: nat ::
               x < |t.prev| && t.parent[x].Some? && t.parent[x] != Some(src) && t.parent[x] != Some(dst) ==>
               t'.prev[x] == t.prev[x] && t'.next[x] == t.next[x] && t'.parent[x] == t.parent[x]
    ensures AllSpell(t', lists')
  {
    forall c: nat | c < |lists'| ensures Spells(t', c, lists'[c]) {
      if c != src && c != dst {
        SpellsFrame(t, t', c, lists[c]);
      }
    }
  }

  lemma PrependJoins(t: Tables, t': Tables, lists: seq<seq<nat>>, src: nat, dst: nat)
    requires AllSpell(t, lists) && src < |lists| && dst < |lists|
    requires TwoBlocks(t, src, dst, lists[src], lists[dst]) && Handed(t, t', src, dst, lists[src])
    requires LinkedInFront(t, t', src, dst, lists[src], lists[dst])
    requires t'.begin == t.begin[dst := lists[src][0]][src := t.end[src]]
    ensures AllSpell(t', lists[dst := lists[src] + lists[dst]][src := []])
  {
    var s, d := lists[src], lists[dst];
    PrependListSpells(t, t', src, dst, s, d);
    EndsOf(t, src, s);
    EndsOf(t, dst, d);
    hide Spells, NoDup;
    assert forall x: nat :: x in s ==> t.parent[x] == Some(src);
    OtherTwo(t, t', lists, lists[dst := s + d][src := []], src, dst);
  }

  lemma AppendJoins(t: Tables, t': Tables, lists: seq<seq<nat>>, src: nat, dst: nat)
    requires AllSpell(t, lists) && src < |lists| && dst < |lists| && lists[dst] != []
    requires TwoBlocks(t, src, dst, lists[src], lists[dst]) && Handed(t, t', src, dst, lists[src])
    requires LinkedBehind(t, t', src, dst, lists[src], lists[dst])
    requires t'.begin == t.begin[src := t.end[src]]
    ensures AllSpell(t', lists[dst := lists[dst] + lists[src]][src := []])
  {
    var s, d := lists[src], lists[dst];
    AppendListSpells(t, t', src, dst, s, d);
    EndsOf(t, src, s);
    EndsOf(t, dst, d);
    hide Spells, NoDup;
    assert forall x: nat :: x in s ==> t.parent[x] == Some(src);
    assert d[|d| - 1] in d && s[0] in s && s[|s| - 1] in s;
    OtherTwo(t, t', lists, lists[dst := d + s][src := []], src, dst);
  }
}
