/** Depth-first numbering of the blocks of a graph, and the meeting point of two blocks in a tree. */
module PostOrder {

  type Graph = seq<seq<nat>>

  ghost predicate InRange(g: Graph) {
    forall b, s :: 0 <= b < |g| && s in g[b] ==> s < |g|
  }

  /** A path along edges, each of its blocks a successor of the one before. */
  ghost predicate IsPath(g: Graph, path: seq<nat>) {
    && path != [] && (forall i :: 0 <= i < |path| ==> path[i] < |g|)
    && (forall i :: 0 < i < |path| ==> path[i] in g[path[i - 1]])
  }

  ghost predicate Reaches(g: Graph, a: nat, b: nat) {
    exists path :: IsPath(g, path) && path[0] == a && path[|path| - 1] == b
  }

  lemma ReachesSelf(g: Graph, a: nat)
    requires a < |g|
    ensures Reaches(g, a, a)
  {
    assert IsPath(g, [a]);
  }

  lemma ReachesOn(g: Graph, a: nat, b: nat, s: nat)
    requires Reaches(g, a, b) && b < |g| && s in g[b] && s < |g|
    ensures Reaches(g, a, s)
  {
    var path :| IsPath(g, path) && path[0] == a && path[|path| - 1] == b;
    assert IsPath(g, path + [s]);
    assert (path + [s])[0] == a;
  }

  lemma {:induction false} ReachesTrans(g: Graph, a: nat, b: nat, path: seq<nat>)
    requires Reaches(g, a, b) && IsPath(g, path) && path[0] == b
    ensures Reaches(g, a, path[|path| - 1])
    decreases |path|
  {
    if |path| > 1 {
      var n := |path| - 1;
      assert IsPath(g, path[..n]);
      ReachesTrans(g, a, b, path[..n]);
      ReachesOn(g, a, path[n - 1], path[n]);
    }
  }

  /** A set with `a` in it that edges do not leave holds all that `a` reaches. */
  lemma {:induction false} ClosedHolds(g: Graph, closed: set<nat>, path: seq<nat>)
    requires IsPath(g, path) && path[0] in closed
    requires forall b, s :: b in closed && b < |g| && s in g[b] ==> s in closed
    ensures path[|path| - 1] in closed
    decreases |path|
  {
    if |path| > 1 {
      assert IsPath(g, path[..|path| - 1]);
      ClosedHolds(g, closed, path[..|path| - 1]);
    }
  }

  // ----- what a numbering must satisfy ----------------------------------------------

  ghost function Numbered(post: seq<int>): set<nat> {
    set b: nat | b < |post| && post[b] != -1
  }

  /** The numbers are 0, 1, ..., `next - 1`, each given once. */
  ghost predicate Counted(post: seq<int>, next: nat) {
    && (forall b: nat :: b in Numbered(post) ==> 0 <= post[b] < next)
    && (forall b: nat, c: nat :: b in Numbered(post) && c in Numbered(post) && post[b] == post[c] ==> b == c)
    && (forall k: nat :: k < next ==> Given(post, k))
  }

  ghost predicate Given(post: seq<int>, k: nat) {
    exists b: nat :: b in Numbered(post) && post[b] == k
  }

  /** An edge leads to a smaller number, unless it closes a cycle. */
  ghost predicate EdgeDown(g: Graph, post: seq<int>, b: nat, s: nat)
    requires b < |post|
  {
    (s < |post| && post[s] != -1 && post[s] < post[b]) || Reaches(g, s, b)
  }

  ghost predicate EdgesDown(g: Graph, post: seq<int>)
    requires |g| == |post|
  {
    forall b: nat, s :: b in Numbered(post) && s in g[b] ==> EdgeDown(g, post, b, s)
  }

  /** A path from `a` to `b` along which the numbers fall. */
  ghost predicate FallsTo(g: Graph, post: seq<int>, a: nat, b: nat, path: seq<nat>) {
    && IsPath(g, path) && path[0] == a && path[|path| - 1] == b
    && (forall i :: 0 <= i < |path| ==> path[i] in Numbered(post))
    && (forall i, j :: 0 <= i < j < |path| ==> post[path[j]] < post[path[i]])
  }

  ghost predicate Falls(g: Graph, post: seq<int>, a: nat, b: nat) {
    exists path :: FallsTo(g, post, a, b, path)
  }

  lemma FallsKept(g: Graph, post: seq<int>, post': seq<int>, a: nat, b: nat)
    requires Falls(g, post, a, b) && Numbered(post) <= Numbered(post')
    requires forall c :: c in Numbered(post) ==> post'[c] == post[c]
    ensures Falls(g, post', a, b)
  {
    var path :| FallsTo(g, post, a, b, path);
    assert FallsTo(g, post', a, b, path);
  }

  /** From some successor of `a` the numbers fall to `b`. */
  ghost predicate FallsBelow(g: Graph, post: seq<int>, a: nat, b: nat)
    requires a < |g|
  {
    exists s :: s in g[a] && Falls(g, post, s, b)
  }

  lemma FallsBelowKept(g: Graph, post: seq<int>, post': seq<int>, a: nat, b: nat)
    requires a < |g| && FallsBelow(g, post, a, b) && Numbered(post) <= Numbered(post')
    requires forall c :: c in Numbered(post) ==> post'[c] == post[c]
    ensures FallsBelow(g, post', a, b)
  {
    var s :| s in g[a] && Falls(g, post, s, b);
    FallsKept(g, post, post', s, b);
  }

  /** One more block in front, numbered last. */
  lemma FallsVia(g: Graph, post: seq<int>, a: nat, b: nat, next: nat)
    requires |post| == |g| && a < |g| && a !in Numbered(post) && Counted(post, next)
    requires a == b || FallsBelow(g, post, a, b)
    ensures Falls(g, post[a := next], a, b)
  {
    var post' := post[a := next];
    assert forall c :: c in Numbered(post) ==> post[c] < next;
    if a == b {
      assert FallsTo(g, post', a, b, [a]);
    } else {
      var s :| s in g[a] && Falls(g, post, s, b);
      var path :| FallsTo(g, post, s, b, path);
      PathVia(g, a, path);
      hide IsPath, Counted;
      assert forall i :: 0 <= i < |path| ==> post'[path[i]] == post[path[i]] < next;
      assert FallsTo(g, post', a, b, [a] + path);
    }
  }

  lemma PathVia(g: Graph, a: nat, path: seq<nat>)
    requires IsPath(g, path) && a < |g| && path[0] in g[a]
    ensures IsPath(g, [a] + path)
  {
  }

  /** Every path from the entry to `b` passes `a`. */
  ghost predicate Dominates(g: Graph, entry: nat, a: nat, b: nat) {
    forall path :: IsPath(g, path) && path[0] == entry && path[|path| - 1] == b ==> a in path
  }

  /** What dominates a block has a larger number. */
  lemma DominatorAbove(g: Graph, post: seq<int>, entry: nat, a: nat, b: nat)
    requires Falls(g, post, entry, b) && Dominates(g, entry, a, b) && a != b
    ensures a in Numbered(post) && b in Numbered(post) && post[b] < post[a]
  {
    var path :| FallsTo(g, post, entry, b, path);
    var i :| 0 <= i < |path| && path[i] == a;
    assert i < |path| - 1;
  }

  /** Numbered blocks are visited, and so are their successors. */
  ghost predicate Explored(g: Graph, post: seq<int>, visited: set<nat>)
    requires |g| == |post|
  {
    && Numbered(post) <= visited && (forall b :: b in visited ==> b < |g|)
    && forall b: nat, s :: b in Numbered(post) && s in g[b] ==> s in visited
  }

  function BlocksBelow(n: nat): (r: set<nat>)
    ensures forall b: nat :: b in r <==> b < n
  {
    if n == 0 then {} else BlocksBelow(n - 1) + {n - 1}
  }

  class DomBuilder {
    const succ: Graph
    const entry: nat
    var postOrder: seq<int>
    var revPostOrder: seq<nat>
    var immDom: seq<nat>

    constructor (succ: Graph, entry: nat)
      ensures this.succ == succ && this.entry == entry
      ensures |postOrder| == |immDom| == |succ| && Numbered(postOrder) == {}
    {
      this.succ, this.entry := succ, entry;
      postOrder, revPostOrder := seq(|succ|, _ => -1), [];
      immDom := seq(|succ|, _ => 0);
    }

    /**
      Numbers what can be reached from `bb` without passing a visited block;
      `bb` comes last, and from it the numbers fall to each newly numbered block.
     */
    method NumberPostOrder(bb: nat, orderId: nat, visited: set<nat>) returns (orderId': nat, visited': set<nat>)
      requires InRange(succ) && |postOrder| == |succ| && bb < |succ|
      requires Counted(postOrder, orderId) && Explored(succ, postOrder, visited) && EdgesDown(succ, postOrder)
      requires forall b :: b in visited - Numbered(postOrder) ==> Reaches(succ, b, bb)
      modifies this`postOrder
      ensures |postOrder| == |succ|
      ensures Counted(postOrder, orderId') && Explored(succ, postOrder, visited') && EdgesDown(succ, postOrder)
      ensures visited + {bb} <= visited'
      ensures Numbered(postOrder) == Numbered(old(postOrder)) + (visited' - visited)
      ensures forall b :: b in Numbered(old(postOrder)) ==> postOrder[b] == old(postOrder)[b]
      ensures forall b :: b in visited' - visited ==> Reaches(succ, bb, b) && Falls(succ, postOrder, bb, b)
      ensures orderId <= orderId' && (bb !in visited ==> postOrder[bb] == orderId' - 1)
      decreases BlocksBelow(|succ|) - visited
    {
      hide Reaches, Counted, EdgesDown, Falls;
      orderId', visited' := orderId, visited;
      ghost var first := postOrder;
      if bb in visited {
        return;
      }
      visited' := visited' + {bb};
      ReachesSelf(succ, bb);
      UnvisitedUnnumbered(succ, postOrder, visited, bb);
      for i := 0 to |succ[bb]|
        invariant |postOrder| == |succ| && visited + {bb} <= visited'
        invariant Counted(postOrder, orderId') && Explored(succ, postOrder, visited') && EdgesDown(succ, postOrder)
        invariant Numbered(postOrder) == Numbered(old(postOrder)) + (visited' - visited - {bb})
        invariant forall b :: b in Numbered(old(postOrder)) ==> postOrder[b] == old(postOrder)[b]
        invariant forall b :: b in visited' - visited ==> Reaches(succ, bb, b)
        invariant forall b :: b in visited' - visited - {bb} ==> FallsBelow(succ, postOrder, bb, b)
        invariant orderId <= orderId'
        invariant forall j :: 0 <= j < i ==> succ[bb][j] in visited'
      {
        var s := succ[bb][i];
        ghost var before, post := visited', postOrder;
        assert s in succ[bb];
        forall b | b in visited' - Numbered(postOrder) ensures Reaches(succ, b, s) {
          assert b == bb || b in visited - Numbered(first);
          ReachesOn(succ, b, bb, s);
        }
        assert bb in BlocksBelow(|succ|) - visited && BlocksBelow(|succ|) - visited' <= BlocksBelow(|succ|) - visited;
        orderId', visited' := NumberPostOrder(s, orderId', visited');
        forall b | b in visited' - before ensures Reaches(succ, bb, b) {
          ReachesVia(succ, bb, s, b);
        }
        forall b | b in before - visited - {bb} ensures FallsBelow(succ, postOrder, bb, b) {
          FallsBelowKept(succ, post, postOrder, bb, b);
        }
      }
      NumberLast(succ, postOrder, visited', bb, orderId');
      forall b | b in visited' - visited ensures Falls(succ, postOrder[bb := orderId'], bb, b) {
        FallsVia(succ, postOrder, bb, b, orderId');
      }
      postOrder := postOrder[bb := orderId'];
      orderId' := orderId' + 1;
    }

    /**
      Numbers the blocks the entry reaches, and only these, 0, 1, ... with the
      entry last; the reverse order lists them by descending number.  With or
      without cycles, what dominates a block has a larger number.
     */
    method ComputePostOrder()
      requires InRange(succ) && |postOrder| == |succ| && entry < |succ| && Numbered(postOrder) == {}
      modifies this`postOrder, this`revPostOrder
      ensures |postOrder| == |succ|
      ensures forall b: nat :: b in Numbered(postOrder) <==> b < |succ| && Reaches(succ, entry, b)
      ensures Counted(postOrder, |revPostOrder|) && EdgesDown(succ, postOrder)
      ensures revPostOrder != [] && revPostOrder[0] == entry
      ensures forall b: nat :: b in Numbered(postOrder) ==> Falls(succ, postOrder, entry, b)
      ensures forall a: nat, b: nat :: b in Numbered(postOrder) && Dominates(succ, entry, a, b) && a != b ==>
                a in Numbered(postOrder) && postOrder[b] < postOrder[a]
      ensures forall k: nat :: k < |revPostOrder| ==>
                revPostOrder[k] in Numbered(postOrder) && postOrder[revPostOrder[k]] == |revPostOrder| - 1 - k
      ensures forall b: nat :: b in Numbered(postOrder) ==> revPostOrder[|revPostOrder| - 1 - postOrder[b]] == b
    {
      hide Reaches, Falls, Dominates;
      var orderId, visited := NumberPostOrder(entry, 0, {});
      AllReached(succ, postOrder, visited, entry);
      assert entry in Numbered(postOrder);
      FillReverse(orderId);
      forall a: nat, b: nat | b in Numbered(postOrder) && Dominates(succ, entry, a, b) && a != b
        ensures a in Numbered(postOrder) && postOrder[b] < postOrder[a]
      {
        DominatorAbove(succ, postOrder, entry, a, b);
      }
    }

    /** The inverse of the numbering, from the last number down. */
    method FillReverse(orderId: nat)
      requires Counted(postOrder, orderId) && 0 < orderId
      modifies this`revPostOrder
      ensures |revPostOrder| == orderId
      ensures forall k: nat :: k < orderId ==>
                revPostOrder[k] in Numbered(postOrder) && postOrder[revPostOrder[k]] == orderId - 1 - k
      ensures forall b: nat :: b in Numbered(postOrder) ==> revPostOrder[orderId - 1 - postOrder[b]] == b
    {
      var maxOrderId := orderId - 1;
      revPostOrder := seq(orderId, _ => 0);
      for idx := 0 to |postOrder|
        invariant |revPostOrder| == orderId
        invariant forall b: nat :: b < idx && b in Numbered(postOrder) ==> revPostOrder[maxOrderId - postOrder[b]] == b
      {
        var pid := postOrder[idx];
        if pid == -1 {
          continue;
        }
        assert idx in Numbered(postOrder);
        revPostOrder := revPostOrder[maxOrderId - pid := idx];
      }
      forall k: nat | k < orderId
        ensures revPostOrder[k] in Numbered(postOrder) && postOrder[revPostOrder[k]] == orderId - 1 - k
      {
        assert Given(postOrder, orderId - 1 - k);
        var b: nat :| b in Numbered(postOrder) && postOrder[b] == orderId - 1 - k;
      }
    }

    // ----- the meeting point ------------------------------------------------------------

    /** Every numbered block but the entry has a numbered parent with a larger number. */
    ghost predicate TreeUp()
      reads this`postOrder, this`immDom
    {
      && |immDom| == |postOrder| && entry in Numbered(postOrder)
      && (forall b: nat :: b in Numbered(postOrder) ==> 0 <= postOrder[b] <= postOrder[entry])
      && (forall b: nat, c: nat ::
            b in Numbered(postOrder) && c in Numbered(postOrder) && postOrder[b] == postOrder[c] ==> b == c)
      && (forall b: nat :: b in Numbered(postOrder) && b != entry ==>
            immDom[b] in Numbered(postOrder) && postOrder[b] < postOrder[immDom[b]])
    }

    /** `a` lies on the way from `b` up to the entry. */
    ghost predicate Above(a: nat, b: nat)
      requires TreeUp() && b in Numbered(postOrder)
      reads this`postOrder, this`immDom
      decreases postOrder[entry] - postOrder[b]
    {
      a == b || (b != entry && Above(a, immDom[b]))
    }

    lemma {:induction false} AboveLarger(a: nat, b: nat)
      requires TreeUp() && b in Numbered(postOrder) && Above(a, b)
      ensures a in Numbered(postOrder) && postOrder[b] <= postOrder[a]
      decreases postOrder[entry] - postOrder[b]
    {
      if a != b {
        AboveLarger(a, immDom[b]);
      }
    }

    /** What is above both blocks stays so when the one with the smaller number goes up a step. */
    lemma StepKeeps(b: nat, c: nat)
      requires TreeUp() && b in Numbered(postOrder) && c in Numbered(postOrder) && postOrder[b] < postOrder[c]
      ensures b < |immDom| && immDom[b] in Numbered(postOrder)
      ensures postOrder[b] < postOrder[immDom[b]] <= postOrder[entry]
      ensures forall x: nat :: Above(x, b) && Above(x, c) <==> Above(x, immDom[b]) && Above(x, c)
    {
      forall x: nat | Above(x, c) ensures x != b {
        AboveLarger(x, c);
      }
    }

    /** What is above both blocks. */
    ghost predicate Common(x: nat, b: nat, c: nat)
      requires TreeUp() && b in Numbered(postOrder) && c in Numbered(postOrder)
      reads this`postOrder, this`immDom
    {
      Above(x, b) && Above(x, c)
    }

    lemma Distinct(b: nat, c: nat)
      requires TreeUp() && b in Numbered(postOrder) && c in Numbered(postOrder) && b != c
      ensures postOrder[b] != postOrder[c]
    {
    }

    lemma Bounded(b: nat)
      requires TreeUp() && b in Numbered(postOrder)
      ensures entry < |postOrder| && postOrder[b] <= postOrder[entry]
    {
    }

    lemma AboveSelf(b: nat)
      requires TreeUp() && b in Numbered(postOrder)
      ensures Above(b, b)
    {
    }

    /** One of the inner loops: `from` goes up until its number is no longer the smaller one. */
    method ClimbTo(from: nat, c: nat) returns (b: nat)
      requires TreeUp() && from in Numbered(postOrder) && c in Numbered(postOrder)
      ensures b in Numbered(postOrder) && postOrder[from] <= postOrder[b] && postOrder[b] >= postOrder[c]
      ensures postOrder[from] < postOrder[c] ==> postOrder[from] < postOrder[b]
      ensures forall x: nat :: Common(x, b, c) <==> Common(x, from, c)
    {
      hide TreeUp, Above;
      b := from;
      while postOrder[b] < postOrder[c]
        invariant b in Numbered(postOrder) && postOrder[from] <= postOrder[b]
        invariant forall x: nat :: Common(x, b, c) <==> Common(x, from, c)
        decreases postOrder[c] - postOrder[b]
      {
        StepKeeps(b, c);
        b := immDom[b];
      }
    }

    /** The nearest block above both: it is above both, and whatever else is above both is above it. */
    method GetIntersection(bb1: nat, bb2: nat) returns (r: nat)
      requires TreeUp() && bb1 in Numbered(postOrder) && bb2 in Numbered(postOrder)
      ensures r in Numbered(postOrder) && Above(r, bb1) && Above(r, bb2)
      ensures forall x: nat :: Above(x, bb1) && Above(x, bb2) ==> Above(x, r)
    {
      hide TreeUp, Above;
      var b, c := bb1, bb2;
      Bounded(b);
      while b != c
        invariant b in Numbered(postOrder) && c in Numbered(postOrder)
        invariant forall x: nat :: Common(x, b, c) <==> Common(x, bb1, bb2)
        decreases 2 * postOrder[entry] - postOrder[b] - postOrder[c]
      {
        ghost var b0, c0 := b, c;
        Distinct(b, c);
        b := ClimbTo(b, c);
        c := ClimbTo(c, b);
        forall x: nat ensures Common(x, b, c) <==> Common(x, b0, c0) {
          assert Common(x, b, c0) <==> Common(x, b0, c0);
          assert Common(x, c, b) <==> Common(x, c0, b);
        }
        Bounded(b);
        Bounded(c);
      }
      r := b;
      AboveSelf(r);
      assert Common(r, b, c);
      forall x: nat | Above(x, bb1) && Above(x, bb2) ensures Above(x, r) {
        assert Common(x, bb1, bb2);
      }
    }
  }

  lemma ReachesVia(g: Graph, a: nat, s: nat, b: nat)
    requires a < |g| && s in g[a] && s < |g| && Reaches(g, s, b)
    ensures Reaches(g, a, b)
  {
    ReachesSelf(g, a);
    ReachesOn(g, a, a, s);
    var path :| IsPath(g, path) && path[0] == s && path[|path| - 1] == b;
    ReachesTrans(g, a, s, path);
  }

  lemma UnvisitedUnnumbered(g: Graph, post: seq<int>, visited: set<nat>, bb: nat)
    requires |g| == |post| && Explored(g, post, visited) && bb !in visited && bb < |g|
    ensures bb !in Numbered(post) && Explored(g, post, visited + {bb})
  {
  }

  /** Numbering a block whose successors are all visited. */
  lemma NumberLast(g: Graph, post: seq<int>, visited: set<nat>, bb: nat, next: nat)
    requires |g| == |post| && bb < |g| && bb !in Numbered(post) && bb in visited
    requires Counted(post, next) && Explored(g, post, visited) && EdgesDown(g, post)
    requires forall s :: s in g[bb] ==> s in visited
    requires forall b :: b in visited - Numbered(post) ==> Reaches(g, b, bb)
    ensures var post' := post[bb := next];
            && Numbered(post') == Numbered(post) + {bb}
            && Counted(post', next + 1) && Explored(g, post', visited) && EdgesDown(g, post')
  {
    hide Reaches;
    var post' := post[bb := next];
    assert Numbered(post') == Numbered(post) + {bb};
    forall k: nat | k < next + 1 ensures Given(post', k) {
      if k == next {
        assert bb in Numbered(post');
      } else {
        assert Given(post, k);
        var b: nat :| b in Numbered(post) && post[b] == k;
        assert b in Numbered(post') && post'[b] == k;
      }
    }
    forall b: nat, s | b in Numbered(post') && s in g[b] ensures EdgeDown(g, post', b, s) {
      if b == bb {
        assert s in Numbered(post) || Reaches(g, s, bb);
      } else {
        assert EdgeDown(g, post, b, s);
      }
    }
  }

  /** A finished numbering covers exactly what the entry reaches. */
  lemma AllReached(g: Graph, post: seq<int>, visited: set<nat>, entry: nat)
    requires |g| == |post| && Explored(g, post, visited) && Numbered(post) == visited && entry in visited
    requires forall b :: b in visited ==> Reaches(g, entry, b)
    ensures forall b: nat :: b in Numbered(post) <==> b < |g| && Reaches(g, entry, b)
  {
    forall b: nat | b < |g| && Reaches(g, entry, b) ensures b in visited {
      var path :| IsPath(g, path) && path[0] == entry && path[|path| - 1] == b;
      ClosedHolds(g, visited, path);
    }
  }
}
