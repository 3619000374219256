/** The saturating reference count: compare-and-swap loops of many threads against the version under a lock. */
module Refcount {

  const MAX: nat := 0xffff_ffff // CRYPTO_REFCOUNT_MAX

  // ---- the version under a lock

  class Locked {
    var count: nat

    constructor ()
      ensures count == 1
    {
      count := 1;
    }

    method Inc()
      requires count <= MAX
      modifies this
      ensures count == LockedInc(old(count))
    {
      if count < MAX {
        count := count + 1;
      }
    }

    /** Aborts at zero. */
    method DecAndTestZero() returns (ret: bool)
      requires 0 < count <= MAX
      modifies this
      ensures count == LockedDec(old(count)) && ret == (count == 0)
    {
      if count < MAX {
        count := count - 1;
      }
      ret := count == 0;
    }
  }

  function LockedInc(count: nat): nat {
    if count < MAX then count + 1 else count
  }

  function LockedDec(count: nat): nat
    requires count > 0
  {
    if count < MAX then count - 1 else count
  }

  // ---- the version with compare-and-swap

  /** Where a thread is: outside, or in a loop with the value it expects. */
  datatype Op = Idle | Inc(expected: nat) | Dec(expected: nat)

  /** The shared count, and for each thread the references it owns and where it is. zeros counts the decrements that
      returned 1; aborted says that one found zero. */
  datatype Sys = Sys(count: nat, refs: seq<nat>, ops: seq<Op>, zeros: nat, aborted: bool)

  /** A thread enters an increment or a decrement only with a reference; it may hand references on between its calls.
      Turn is one round of the loop; a weak compare-and-swap may fail for no reason. */
  datatype Step = StartInc(t: nat) | StartDec(t: nat) | Turn(t: nat, spurious: bool) | Hand(t: nat, u: nat)

  function Enter(s: Sys, t: nat, op: Op): Sys {
    if t < |s.refs| && t < |s.ops| && s.ops[t].Idle? && s.refs[t] > 0 then s.(ops := s.ops[t := op]) else s
  }

  function Leave(s: Sys, t: nat, count: nat, refs: nat): Sys
    requires t < |s.refs| && t < |s.ops|
  {
    s.(count := count, refs := s.refs[t := refs], ops := s.ops[t := Idle])
  }

  function Do(s: Sys, step: Step): Sys {
    match step
    case StartInc(t) => Enter(s, t, Inc(s.count)) // atomic_load
    case StartDec(t) => Enter(s, t, Dec(s.count))
    case Hand(t, u) =>
      if t < |s.refs| && u < |s.refs| && t < |s.ops| && t != u && s.ops[t].Idle? && s.refs[t] > 0
      then s.(refs := s.refs[t := s.refs[t] - 1][u := s.refs[u] + 1]) else s
    case Turn(t, spurious) =>
      if t >= |s.refs| || t >= |s.ops| then s
      else
        match s.ops[t]
        case Idle => s
        case Inc(expected) =>
          if expected == MAX then Leave(s, t, s.count, s.refs[t] + 1)
          else if s.count == expected && !spurious then Leave(s, t, expected + 1, s.refs[t] + 1)
          else s.(ops := s.ops[t := Inc(s.count)])
        case Dec(expected) =>
          if expected == 0 then s.(aborted := true)
          else if expected == MAX then Leave(s, t, s.count, if s.refs[t] > 0 then s.refs[t] - 1 else 0)
          else if s.count == expected && !spurious then
            Leave(s, t, expected - 1, if s.refs[t] > 0 then s.refs[t] - 1 else 0)
              .(zeros := if expected - 1 == 0 then s.zeros + 1 else s.zeros)
          else s.(ops := s.ops[t := Dec(s.count)])
  }

  /** The step ends a call; that is where the call takes effect. */
  predicate Ends(s: Sys, step: Step) {
    step.Turn? && step.t < |s.refs| && step.t < |s.ops| && !s.ops[step.t].Idle? && Do(s, step).ops != s.ops
      && Do(s, step).ops[step.t].Idle?
  }

  function Exec(s: Sys, steps: seq<Step>): Sys
    decreases |steps|
  {
    if steps == [] then s else Exec(Do(s, steps[0]), steps[1..])
  }

  // ---- owned references

  function Sum(refs: seq<nat>): nat {
    if refs == [] then 0 else Sum(refs[..|refs| - 1]) + refs[|refs| - 1]
  }

  lemma {:induction false} SumUpdate(refs: seq<nat>, t: nat, n: nat)
    requires t < |refs|
    ensures Sum(refs[t := n]) + refs[t] == Sum(refs) + n
    decreases |refs|
  {
    var last := |refs| - 1;
    if t == last {
      assert refs[t := n][..last] == refs[..last];
    } else {
      assert refs[t := n][..last] == refs[..last][t := n];
      SumUpdate(refs[..last], t, n);
    }
  }

  lemma {:induction false} SumAtLeast(refs: seq<nat>, t: nat)
    requires t < |refs|
    ensures Sum(refs) >= refs[t]
    decreases |refs|
  {
    if t < |refs| - 1 { SumAtLeast(refs[..|refs| - 1], t); }
  }

  // ---- the invariant

  predicate OpOk(op: Op, refs: nat, count: nat) {
    op.Idle? || (refs > 0 && 0 < op.expected <= MAX && (op.expected == MAX ==> count == MAX))
  }

  predicate Inv(s: Sys) {
    && |s.ops| == |s.refs| && s.count <= MAX && !s.aborted
    && (s.count == MAX || s.count == Sum(s.refs))
    && s.zeros == (if s.count == 0 then 1 else 0)
    && forall t :: 0 <= t < |s.ops| ==> OpOk(s.ops[t], s.refs[t], s.count)
  }

  lemma OwnedMeansPositive(s: Sys, t: nat)
    requires Inv(s) && t < |s.refs| && s.refs[t] > 0
    ensures s.count > 0
  {
    SumAtLeast(s.refs, t);
  }

  lemma TurnKeeps(s: Sys, t: nat, spurious: bool)
    requires Inv(s)
    ensures Inv(Do(s, Turn(t, spurious)))
  {
    hide Sum;
    if t < |s.ops| && !s.ops[t].Idle? {
      assert OpOk(s.ops[t], s.refs[t], s.count);
      OwnedMeansPositive(s, t);
      SumUpdate(s.refs, t, s.refs[t] + 1);
      SumUpdate(s.refs, t, s.refs[t] - 1);
    }
  }

  lemma HandKeeps(s: Sys, t: nat, u: nat)
    requires Inv(s)
    ensures Inv(Do(s, Hand(t, u)))
  {
    hide Sum;
    if t < |s.refs| && u < |s.refs| && t != u && s.refs[t] > 0 {
      var mid := s.refs[t := s.refs[t] - 1];
      SumUpdate(s.refs, t, s.refs[t] - 1);
      SumUpdate(mid, u, mid[u] + 1);
    }
  }

  lemma DoKeeps(s: Sys, step: Step)
    requires Inv(s)
    ensures Inv(Do(s, step))
  {
    hide Sum;
    match step
    case StartInc(t) => if t < |s.refs| && s.refs[t] > 0 { OwnedMeansPositive(s, t); }
    case StartDec(t) => if t < |s.refs| && s.refs[t] > 0 { OwnedMeansPositive(s, t); }
    case Hand(t, u) => HandKeeps(s, t, u);
    case Turn(t, spurious) => TurnKeeps(s, t, spurious);
  }

  lemma {:induction false} ExecKeeps(s: Sys, steps: seq<Step>)
    requires Inv(s)
    ensures Inv(Exec(s, steps))
    decreases |steps|
  {
    hide Do, Inv;
    if steps != [] {
      DoKeeps(s, steps[0]);
      ExecKeeps(Do(s, steps[0]), steps[1..]);
    }
  }

  // ---- the results

  /** Each call takes effect in one step, and that step is the locked operation; every other step leaves the count. */
  lemma CallsRefineLocked(s: Sys, step: Step)
    requires Inv(s)
    ensures !Ends(s, step) ==> Do(s, step).count == s.count && Do(s, step).zeros == s.zeros
    ensures Ends(s, step) && s.ops[step.t].Inc? ==>
      Do(s, step).count == LockedInc(s.count) && Do(s, step).zeros == s.zeros
    ensures Ends(s, step) && s.ops[step.t].Dec? ==> s.count > 0 && Do(s, step).count == LockedDec(s.count)
    ensures Ends(s, step) && s.ops[step.t].Dec? ==>
      Do(s, step).zeros == s.zeros + if Do(s, step).count == 0 then 1 else 0
  {
    hide Sum;
    if step.Turn? && step.t < |s.ops| {
      var op := s.ops[step.t];
      assert OpOk(op, s.refs[step.t], s.count);
      if !op.Idle? {
        OwnedMeansPositive(s, step.t);
        assert op != Idle && (op.Inc? ==> s.ops[step.t := Inc(s.count)][step.t] != Idle);
      }
    }
  }

  /** Two rounds of one thread, with no failure for no reason and no other thread in between. */
  function Twice(s: Sys, t: nat): Sys {
    Do(Do(s, Turn(t, false)), Turn(t, false))
  }

  /** What a call of thread t makes of the state it takes effect in. */
  function Called(s: Sys, t: nat, inc: bool): Sys
    requires t < |s.refs| && t < |s.ops| && s.refs[t] > 0 && s.count > 0
  {
    if inc then s.(count := LockedInc(s.count), refs := s.refs[t := s.refs[t] + 1], ops := s.ops[t := Idle])
    else
      var left := LockedDec(s.count);
      s.(count := left, refs := s.refs[t := s.refs[t] - 1], ops := s.ops[t := Idle],
        zeros := s.zeros + if left == 0 then 1 else 0)
  }

  /** A round that finds what it expects ends the call; another one learns what to expect, or ends it too. */
  lemma OneRound(s: Sys, t: nat)
    requires Inv(s) && t < |s.ops| && !s.ops[t].Idle?
    ensures s.refs[t] > 0 && s.count > 0
    ensures var r, inc := Do(s, Turn(t, false)), s.ops[t].Inc?;
      if s.ops[t].expected == s.count || s.ops[t].expected == MAX then r == Called(s, t, inc)
      else r == s.(ops := s.ops[t := if inc then Inc(s.count) else Dec(s.count)])
  {
    hide Sum;
    assert OpOk(s.ops[t], s.refs[t], s.count);
    OwnedMeansPositive(s, t);
  }

  /** No call is starved by itself: wherever its thread stands in the loop, two rounds without interference end it, with
      just the effect of the locked operation. */
  lemma AloneFinishes(s: Sys, t: nat)
    requires Inv(s) && t < |s.ops| && !s.ops[t].Idle?
    ensures s.refs[t] > 0 && s.count > 0 && Twice(s, t) == Called(s, t, s.ops[t].Inc?)
  {
    hide Do, Inv, Sum;
    var one := Do(s, Turn(t, false));
    OneRound(s, t);
    Bounds(s, t);
    if one == Called(s, t, s.ops[t].Inc?) {
      IdleTurn(one, t);
    } else {
      DoKeeps(s, Turn(t, false));
      OneRound(one, t);
      assert one.ops[t := Idle] == s.ops[t := Idle];
    }
  }

  lemma Bounds(s: Sys, t: nat)
    requires Inv(s) && t < |s.ops|
    ensures t < |s.refs|
  {
  }

  lemma IdleTurn(s: Sys, t: nat)
    requires t < |s.ops| && s.ops[t].Idle?
    ensures Do(s, Turn(t, false)) == s
  {
  }

  /** And a call from outside: an increment increments, and a decrement decrements. */
  lemma CallAlone(s: Sys, t: nat, inc: bool)
    requires Inv(s) && t < |s.ops| && s.ops[t].Idle? && s.refs[t] > 0
    ensures s.count > 0
    ensures Twice(Do(s, if inc then StartInc(t) else StartDec(t)), t) == Called(s, t, inc)
  {
    hide Sum, Twice;
    OwnedMeansPositive(s, t);
    var step := if inc then StartInc(t) else StartDec(t);
    DoKeeps(s, step);
    AloneFinishes(Do(s, step), t);
    assert Do(s, step).ops[t := Idle] == s.ops[t := Idle] == s.ops;
  }

  function Begin(owner: nat, threads: nat): Sys
    requires owner < threads
  {
    Sys(1, seq(threads, i => if i == owner then 1 else 0), seq(threads, _ => Idle), 0, false)
  }

  lemma {:induction false} SumOne(n: nat, owner: nat)
    ensures Sum(seq(n, i => if i == owner then 1 else 0)) == if owner < n then 1 else 0
  {
    if n > 0 {
      var all: seq<nat> := seq(n, i => if i == owner then 1 else 0);
      assert all[..n - 1] == seq(n - 1, i => if i == owner then 1 else 0);
      SumOne(n - 1, owner);
    }
  }

  /** Any number of threads, any interleaving, any spurious failures: no call aborts, the count is the number of owned
      references until it saturates, and one decrement returns 1 exactly when the last reference is gone. */
  lemma CountIsOwned(owner: nat, threads: nat, steps: seq<Step>)
    requires owner < threads
    ensures var s := Exec(Begin(owner, threads), steps);
      && !s.aborted && (s.count != MAX ==> s.count == Sum(s.refs))
      && s.zeros == (if s.count == 0 then 1 else 0)
  {
    hide Exec, Sum;
    SumOne(threads, owner);
    ExecKeeps(Begin(owner, threads), steps);
  }

  /** At the maximum the count stays, and no later decrement returns 1. */
  lemma {:induction false} SaturationSticks(s: Sys, steps: seq<Step>)
    requires Inv(s) && s.count == MAX
    ensures Exec(s, steps).count == MAX && Exec(s, steps).zeros == 0
    decreases |steps|
  {
    hide Do, Inv;
    if steps == [] {
      NoZeros(s);
    } else {
      DoKeeps(s, steps[0]);
      CallsRefineLocked(s, steps[0]);
      StaysAtMax(s, steps[0]);
      SaturationSticks(Do(s, steps[0]), steps[1..]);
    }
  }

  lemma NoZeros(s: Sys)
    requires Inv(s) && s.count == MAX
    ensures s.zeros == 0
  {
  }

  lemma StaysAtMax(s: Sys, step: Step)
    requires Inv(s) && s.count == MAX
    ensures Do(s, step).count == MAX
  {
    hide Do;
    CallsRefineLocked(s, step);
  }
}
