/** The reconnect loop of the Merkle cache subscription. */
module Backoff {
  import opened Prelude

  const BASE_ERROR_DELAY := 1
  const BASE_IDLE_DELAY := 5
  const MAX_DELAY := 60
  const PROGRESS_DELAY := 1

  /** How one subscription run ended. */
  datatype Outcome = Finished(updatesCached: nat, byShutdown: bool) | Failed

  /** One pass of the loop: the shutdown flag at its top, the run, the flag after the run. */
  datatype Turn = Turn(flagBefore: bool, outcome: Outcome, flagAfter: bool)

  predicate Ends(t: Turn) {
    t.flagBefore || t.flagAfter || (t.outcome.Finished? && t.outcome.byShutdown)
  }

  predicate Idle(t: Turn) {
    t.outcome.Finished? && t.outcome.updatesCached == 0
  }

  /** The turns before the one that ends the loop. */
  function LiveTurns(turns: seq<Turn>): (n: nat)
    ensures n <= |turns|
    ensures forall i :: 0 <= i < n ==> !Ends(turns[i])
    ensures n < |turns| ==> Ends(turns[n])
  {
    if turns == [] || Ends(turns[0]) then 0 else 1 + LiveTurns(turns[1..])
  }

  function Pow2(n: nat): nat {
    if n == 0 then 1 else 2 * Pow2(n - 1)
  }

  /** The consecutive errors at the end of `turns`. */
  function Errors(turns: seq<Turn>): nat {
    if turns == [] || !turns[|turns| - 1].outcome.Failed? then 0 else 1 + Errors(turns[..|turns| - 1])
  }

  /** The consecutive empty runs at the end of `turns`. */
  function EmptyRuns(turns: seq<Turn>): nat {
    if turns == [] || !Idle(turns[|turns| - 1]) then 0 else 1 + EmptyRuns(turns[..|turns| - 1])
  }

  function ErrorDelay(turns: seq<Turn>): nat {
    Min(BASE_ERROR_DELAY * Pow2(Errors(turns)), MAX_DELAY)
  }

  function IdleDelay(turns: seq<Turn>): nat {
    Min(BASE_IDLE_DELAY * Pow2(EmptyRuns(turns)), MAX_DELAY)
  }

  /** The sleep after turn `t`, given the turns before it. */
  function SleepAfter(before: seq<Turn>, t: Turn): nat {
    if t.outcome.Failed? then ErrorDelay(before)
    else if Idle(t) then IdleDelay(before)
    else PROGRESS_DELAY
  }

  lemma DoubleCapped(base: nat, n: nat)
    ensures Min(Min(base * Pow2(n), MAX_DELAY) * 2, MAX_DELAY) == Min(base * Pow2(n + 1), MAX_DELAY)
  {
    assert base * Pow2(n + 1) == 2 * (base * Pow2(n));
  }

  lemma DelaysStep(turns: seq<Turn>, i: nat)
    requires i < |turns|
    ensures ErrorDelay(turns[..i + 1])
         == if turns[i].outcome.Failed? then Min(ErrorDelay(turns[..i]) * 2, MAX_DELAY) else BASE_ERROR_DELAY
    ensures IdleDelay(turns[..i + 1])
         == if Idle(turns[i]) then Min(IdleDelay(turns[..i]) * 2, MAX_DELAY) else BASE_IDLE_DELAY
  {
    assert turns[..i + 1][..i] == turns[..i];
    DoubleCapped(BASE_ERROR_DELAY, Errors(turns[..i]));
    DoubleCapped(BASE_IDLE_DELAY, EmptyRuns(turns[..i]));
  }

  lemma LiveStep(turns: seq<Turn>, i: nat)
    requires i < |turns|
    ensures LiveTurns(turns[i..]) == if Ends(turns[i]) then 0 else 1 + LiveTurns(turns[i + 1..])
  {
    assert turns[i..][0] == turns[i] && turns[i..][1..] == turns[i + 1..];
  }

  /** Each sleep is the one its turn and the turns before it call for. */
  ghost predicate Slept(turns: seq<Turn>, slept: seq<nat>)
    requires |slept| <= |turns|
  {
    forall i :: 0 <= i < |slept| ==> slept[i] == SleepAfter(turns[..i], turns[i])
  }

  lemma SleptSnoc(turns: seq<Turn>, slept: seq<nat>)
    requires |slept| < |turns| && Slept(turns, slept)
    ensures Slept(turns, slept + [SleepAfter(turns[..|slept|], turns[|slept|])])
  {
    hide SleepAfter;
  }

  lemma NothingSlept(turns: seq<Turn>)
    ensures Slept(turns, [])
  {
  }

  lemma FreshDelays()
    ensures ErrorDelay([]) == BASE_ERROR_DELAY && IdleDelay([]) == BASE_IDLE_DELAY
  {
  }

  /**
   * The loop over its turns: what it slept, how many subscriptions it started, whether it ended. After k
   * consecutive errors the next error sleep is min(2^k, 60); after k consecutive empty runs the next idle
   * sleep is min(5 * 2^k, 60); a turn that sees the flag at its top starts nothing.
   */
  method SubscriptionLoop(turns: seq<Turn>) returns (slept: seq<nat>, started: nat, ended: bool)
    ensures |slept| == LiveTurns(turns)
    ensures Slept(turns, slept)
    ensures ended <==> LiveTurns(turns) < |turns|
    ensures started == LiveTurns(turns) + if ended && !turns[LiveTurns(turns)].flagBefore then 1 else 0
  {
    hide ErrorDelay, IdleDelay, Slept;
    FreshDelays();
    NothingSlept(turns);
    slept, started, ended := [], 0, false;
    var errorDelay := BASE_ERROR_DELAY;
    var idleDelay := BASE_IDLE_DELAY;
    hide LiveTurns;
    assert turns[0..] == turns && turns[..0] == [];
    for i := 0 to |turns|
      invariant |slept| == started == i && !ended
      invariant LiveTurns(turns) == i + LiveTurns(turns[i..])
      invariant errorDelay == ErrorDelay(turns[..i]) && idleDelay == IdleDelay(turns[..i])
      invariant Slept(turns, slept)
    {
      DelaysStep(turns, i);
      LiveStep(turns, i);
      SleptSnoc(turns, slept);
      var t := turns[i];
      if t.flagBefore {
        ended := true;
        return;
      }
      started := started + 1;
      match t.outcome {
        case Finished(updatesCached, byShutdown) =>
          errorDelay := BASE_ERROR_DELAY;
          if t.flagAfter || byShutdown {
            ended := true;
            return;
          }
          if updatesCached == 0 {
            slept := slept + [idleDelay];
            idleDelay := Min(idleDelay * 2, MAX_DELAY);
          } else {
            idleDelay := BASE_IDLE_DELAY;
            slept := slept + [PROGRESS_DELAY];
          }
        case Failed =>
          if t.flagAfter {
            ended := true;
            return;
          }
          slept := slept + [errorDelay];
          errorDelay := Min(errorDelay * 2, MAX_DELAY);
          idleDelay := BASE_IDLE_DELAY;
      }
    }
  }

  /** At any point at most one of the two delays is above its base. */
  lemma OnlyOneDelayIsRaised(turns: seq<Turn>)
    ensures ErrorDelay(turns) == BASE_ERROR_DELAY || IdleDelay(turns) == BASE_IDLE_DELAY
  {
  }

  function Sum(xs: seq<nat>): nat {
    if xs == [] then 0 else Sum(xs[..|xs| - 1]) + xs[|xs| - 1]
  }

  lemma {:induction false} Pow2Positive(n: nat)
    ensures Pow2(n) >= 1
  {
    if n == 0 {
    } else {
      Pow2Positive(n - 1);
    }
  }

  /** However the runs end, every turn that goes on sleeps: n turns take at least n seconds, at most 60 n. */
  lemma {:induction false} NoTightLoop(turns: seq<Turn>, slept: seq<nat>)
    requires |slept| <= |turns| && Slept(turns, slept)
    ensures |slept| <= Sum(slept) <= MAX_DELAY * |slept|
  {
    if slept == [] {
    } else {
      var n := |slept| - 1;
      Pow2Positive(Errors(turns[..n]));
      Pow2Positive(EmptyRuns(turns[..n]));
      NoTightLoop(turns, slept[..n]);
    }
  }

  // ---- The delays spelled out ----

  /** `k` runs in a row that ended in an error. */
  ghost predicate FailedRuns(turns: seq<Turn>) {
    forall t :: t in turns ==> t.outcome == Failed
  }

  /** Runs in a row that cached nothing. */
  ghost predicate EmptyOnes(turns: seq<Turn>) {
    forall t :: t in turns ==> t.outcome.Finished? && t.outcome.updatesCached == 0
  }

  lemma {:induction false} CountFailed(before: seq<Turn>, turns: seq<Turn>)
    requires FailedRuns(turns) && (before != [] ==> before[|before| - 1].outcome != Failed)
    ensures Errors(before + turns) == |turns|
  {
    if turns == [] {
      assert before + turns == before;
    } else {
      var n := |turns| - 1;
      assert turns[n] in turns;
      CountFailed(before, turns[..n]);
      assert (before + turns)[..|before + turns| - 1] == before + turns[..n];
    }
  }

  lemma {:induction false} CountEmpty(before: seq<Turn>, turns: seq<Turn>)
    requires EmptyOnes(turns)
    requires before != [] ==>
      before[|before| - 1].outcome == Failed || before[|before| - 1].outcome.updatesCached > 0
    ensures EmptyRuns(before + turns) == |turns|
  {
    if turns == [] {
      assert before + turns == before;
    } else {
      var n := |turns| - 1;
      assert turns[n] in turns;
      CountEmpty(before, turns[..n]);
      assert (before + turns)[..|before + turns| - 1] == before + turns[..n];
    }
  }

  lemma {:induction false} Pow2Grows(n: nat, m: nat)
    requires n <= m
    ensures Pow2(n) <= Pow2(m)
  {
    if n == m {
    } else {
      Pow2Grows(n, m - 1);
    }
  }

  lemma SmallPowers()
    ensures Pow2(0) == 1 && Pow2(1) == 2 && Pow2(2) == 4 && Pow2(3) == 8
    ensures Pow2(4) == 16 && Pow2(5) == 32 && Pow2(6) == 64
  {
  }

  /**
   * The sleeps in seconds: after a first error and each further one 1, 2, 4, 8, 16, 32 and then always 60;
   * after a first empty run and each further one 5, 10, 20, 40 and then always 60; after a run that cached
   * anything 1.
   */
  lemma SleepsAre(before: seq<Turn>, errors: seq<Turn>, empties: seq<Turn>, t: Turn)
    requires FailedRuns(errors) && EmptyOnes(empties)
    ensures t.outcome == Failed && (before != [] ==> before[|before| - 1].outcome != Failed) ==>
      SleepAfter(before + errors, t) == if |errors| < 6 then [1, 2, 4, 8, 16, 32][|errors|] else 60
    ensures t.outcome.Finished? && t.outcome.updatesCached == 0
            && (before != [] ==>
                  before[|before| - 1].outcome == Failed || before[|before| - 1].outcome.updatesCached > 0) ==>
      SleepAfter(before + empties, t) == if |empties| < 4 then [5, 10, 20, 40][|empties|] else 60
    ensures t.outcome.Finished? && t.outcome.updatesCached > 0 ==> SleepAfter(before, t) == 1
  {
    SmallPowers();
    hide Pow2, Errors, EmptyRuns;
    if before != [] ==> before[|before| - 1].outcome != Failed {
      CountFailed(before, errors);
      if |errors| >= 6 {
        Pow2Grows(6, |errors|);
      }
    }
    if before != [] ==> before[|before| - 1].outcome == Failed || before[|before| - 1].outcome.updatesCached > 0 {
      CountEmpty(before, empties);
      if |empties| >= 4 {
        Pow2Grows(4, |empties|);
      }
    }
  }

  /** The loop goes on past the first `n` turns exactly when none of them saw the flag or ended by shutdown. */
  lemma {:induction false} LivesThroughIff(turns: seq<Turn>, n: nat)
    requires n <= |turns|
    ensures LiveTurns(turns) >= n <==>
      forall i :: 0 <= i < n ==>
        !turns[i].flagBefore && !turns[i].flagAfter && !(turns[i].outcome.Finished? && turns[i].outcome.byShutdown)
  {
    var live := LiveTurns(turns);
    if live < n {
      assert Ends(turns[live]);
    } else {
      assert forall i :: 0 <= i < n ==> !Ends(turns[i]);
    }
  }
}
