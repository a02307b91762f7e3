/** Lists of register moves that are executed one after the other. */
module Moves {
  import opened Execution

  type Reg = (nat, nat)

  datatype Move = Move(dst: Reg, src: Reg)

  function RunMoves(ms: seq<Move>, regs: RegState): RegState {
    if ms == [] then regs
    else RunMoves(ms[1..], regs[ms[0].dst := ReadReg(regs, ms[0].src)])
  }

  /** The register whose content `r` holds after the moves. */
  function Source(ms: seq<Move>, r: Reg): Reg {
    if ms == [] then r
    else
      var x := Source(ms[1..], r);
      if x == ms[0].dst then ms[0].src else x
  }

  lemma {:induction false} RunIs(ms: seq<Move>, regs: RegState, r: Reg)
    ensures ReadReg(RunMoves(ms, regs), r) == ReadReg(regs, Source(ms, r))
  {
    if ms != [] {
      RunIs(ms[1..], regs[ms[0].dst := ReadReg(regs, ms[0].src)], r);
    }
  }

  /** No move overwrites what a later one reads. */
  ghost predicate InOrder(ms: seq<Move>) {
    forall i, j :: 0 <= i < j < |ms| ==> ms[i].dst != ms[j].src
  }

  /** Each target has one source. */
  ghost predicate OneSource(ms: seq<Move>) {
    forall m, n :: m in ms && n in ms && m.dst == n.dst ==> m.src == n.src
  }

  /** In order, a move delivers what its source held at first. */
  lemma {:induction false} Delivers(ms: seq<Move>, m: Move)
    requires InOrder(ms) && m in ms && forall n :: n in ms && n.dst == m.dst ==> n.src == m.src
    ensures Source(ms, m.dst) == m.src
  {
    var rest := ms[1..];
    assert forall i, j :: 0 <= i < j < |rest| ==> rest[i] == ms[i + 1] && rest[j] == ms[j + 1];
    assert forall n :: n in rest ==> n in ms;
    if m in rest {
      Delivers(rest, m);
      var j :| 0 <= j < |rest| && rest[j] == m;
      assert ms[0].dst != ms[j + 1].src;
    } else {
      assert m == ms[0];
      Untouched(rest, m.dst);
    }
  }

  lemma {:induction false} Untouched(ms: seq<Move>, r: Reg)
    requires forall m :: m in ms ==> m.dst != r
    ensures Source(ms, r) == r
  {
    if ms != [] {
      assert ms[0] in ms && forall m :: m in ms[1..] ==> m in ms;
      Untouched(ms[1..], r);
    }
  }

  /** What a register held that no move reads is in no target afterwards. */
  lemma {:induction false} NeverRead(ms: seq<Move>, a: Reg, r: Reg)
    requires forall m :: m in ms ==> m.src != a
    requires exists m :: m in ms && m.dst == r
    ensures Source(ms, r) != a
  {
    var rest := ms[1..];
    assert ms[0] in ms && forall m :: m in rest ==> m in ms;
    if exists m :: m in rest && m.dst == r {
      NeverRead(rest, a, r);
    } else {
      Untouched(rest, r);
    }
  }

  /** What the first move overwrites is lost. */
  lemma Lost(ms: seq<Move>, r: Reg)
    requires ms != [] && ms[0].dst != ms[0].src
    ensures Source(ms, r) != ms[0].dst
  {
  }

  ghost predicate AllDelivered(ms: seq<Move>) {
    forall m :: m in ms ==> Source(ms, m.dst) == m.src
  }

  lemma {:induction false} DeliveredInOrder(ms: seq<Move>)
    requires (forall m :: m in ms ==> m.dst != m.src) && AllDelivered(ms)
    ensures InOrder(ms)
  {
    if ms != [] {
      var rest := ms[1..];
      assert ms[0] in ms && forall m :: m in rest ==> m in ms;
      forall m | m in ms ensures m.src != ms[0].dst {
        Lost(ms, m.dst);
      }
      forall m | m in rest ensures Source(rest, m.dst) == m.src {
        NeverRead(rest, ms[0].dst, m.dst);
      }
      DeliveredInOrder(rest);
      forall i, j | 0 <= i < j < |ms| ensures ms[i].dst != ms[j].src {
        assert ms[j] in ms;
        if i > 0 {
          assert ms[i] == rest[i - 1] && ms[j] == rest[j - 1];
        }
      }
    }
  }

  /** All moves deliver exactly when none overwrites what a later one reads and none replaces another's result. */
  lemma DeliveredIff(ms: seq<Move>)
    requires forall m :: m in ms ==> m.dst != m.src
    ensures AllDelivered(ms) <==> InOrder(ms) && OneSource(ms)
  {
    if AllDelivered(ms) {
      DeliveredInOrder(ms);
    }
    if InOrder(ms) && OneSource(ms) {
      forall m | m in ms ensures Source(ms, m.dst) == m.src {
        Delivers(ms, m);
      }
    }
  }
}
