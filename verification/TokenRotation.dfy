/** When the rotator looks at a cluster's token again (internal/plugin/eks/policy.go and the
    scheduling in internal/controller/plugin/eks/rotator_controller.go). Times and durations
    are in nanoseconds. */
module TokenRotation {

  import opened Options

  datatype Policy = Policy(refreshBefore: int, maxRefresh: int, failureBackoff: int, immediateRequeue: int)

  const SECOND := 1_000_000_000

  const DEFAULT_POLICY := Policy(300 * SECOND, 600 * SECOND, 30 * SECOND, 15 * SECOND)

  function OrDefault(d: int, other: int): int { if d <= 0 then other else d }

  function WithDefaults(p: Policy): Policy {
    Policy(OrDefault(p.refreshBefore, DEFAULT_POLICY.refreshBefore), OrDefault(p.maxRefresh, DEFAULT_POLICY.maxRefresh),
           OrDefault(p.failureBackoff, DEFAULT_POLICY.failureBackoff),
           OrDefault(p.immediateRequeue, DEFAULT_POLICY.immediateRequeue))
  }

  /** ComputeNextRequeue; None is the zero time. */
  function NextRequeue(now: int, expiration: Option<int>, policy: Policy): int {
    var p := WithDefaults(policy);
    if expiration.None? then p.failureBackoff
    else
      var until := expiration.value - p.refreshBefore - now;
      if until <= 0 then p.immediateRequeue
      else if until > p.maxRefresh then p.maxRefresh
      else until
  }

  function Max(a: int, b: int): int { if a < b then b else a }

  /** The delay is positive and never above the largest of the three bounds; with time to spare
      it ends at least refreshBefore ahead of the expiration. */
  lemma RequeueBounds(now: int, expiration: Option<int>, policy: Policy)
    ensures var p := WithDefaults(policy); var d := NextRequeue(now, expiration, policy);
            && 0 < d <= Max(p.maxRefresh, Max(p.immediateRequeue, p.failureBackoff))
            && (expiration.Some? && expiration.value - now > p.refreshBefore ==>
                  now + d <= expiration.value - p.refreshBefore && d <= p.maxRefresh)
    ensures WithDefaults(WithDefaults(policy)) == WithDefaults(policy)
  {
  }

  /** When the next reconcile is due: of the instants that are at most maxRefresh away and at least
      refreshBefore ahead of the expiration it is the last one; when there is none ahead it comes after
      immediateRequeue, and without an expiration after failureBackoff. A bound that is not positive
      is its default: 5 minutes, 10 minutes, 30 seconds, 15 seconds. */
  lemma NextIsDue(now: int, expiration: Option<int>, policy: Policy)
    ensures var d := NextRequeue(now, expiration, policy);
            var refreshBefore := if policy.refreshBefore > 0 then policy.refreshBefore else 300_000_000_000;
            var maxRefresh := if policy.maxRefresh > 0 then policy.maxRefresh else 600_000_000_000;
            var failureBackoff := if policy.failureBackoff > 0 then policy.failureBackoff else 30_000_000_000;
            var immediateRequeue := if policy.immediateRequeue > 0 then policy.immediateRequeue else 15_000_000_000;
            && (expiration.None? ==> d == failureBackoff)
            && (expiration.Some? && expiration.value - now <= refreshBefore ==> d == immediateRequeue)
            && (expiration.Some? && expiration.value - now > refreshBefore ==>
                  && d <= maxRefresh && now + d <= expiration.value - refreshBefore
                  && (d == maxRefresh || now + d == expiration.value - refreshBefore))
  {
  }

  /** The next token is there before this one expires, when it comes `late` after the planned time. */
  predicate Covers(policy: Policy, now: int, expiration: int, late: int) {
    now + NextRequeue(now, Some(expiration), policy) + late < expiration
  }

  /** Every lateness below refreshBefore is covered exactly when the token had more than
      refreshBefore left when the next reconcile was scheduled. */
  lemma CoversIff(policy: Policy, now: int, expiration: int)
    ensures (forall late :: 0 <= late < WithDefaults(policy).refreshBefore ==> Covers(policy, now, expiration, late)) <==>
            expiration - now > WithDefaults(policy).refreshBefore
  {
    var p := WithDefaults(policy);
    if expiration - now <= p.refreshBefore {
      assert !Covers(policy, now, expiration, p.refreshBefore - 1);
    }
  }

  // ---- runs ----

  /** One token: stored; the next reconcile scheduled; how late each wake-up came after its planned
      time, up to the one that stored the next token; and the wait for a retry after each wake-up
      that failed. */
  datatype Cycle = Cycle(stored: int, scheduled: int, expiration: int, late: seq<nat>, waits: seq<nat>)

  function Sum(s: seq<nat>): nat { if s == [] then 0 else s[0] + Sum(s[1..]) }

  /** When the next token is there at the latest; a watch may wake the controller earlier. */
  function NextStored(policy: Policy, c: Cycle): int {
    c.scheduled + NextRequeue(c.scheduled, Some(c.expiration), policy) + Sum(c.late) + Sum(c.waits)
  }

  /** The token outlives refreshBefore when scheduling, and lateness and retries together take
      less than refreshBefore. */
  predicate InTime(policy: Policy, c: Cycle) {
    var p := WithDefaults(policy);
    && c.stored <= c.scheduled
    && c.expiration - c.scheduled > p.refreshBefore
    && Sum(c.late) + Sum(c.waits) < p.refreshBefore
  }

  ghost predicate TimedRun(policy: Policy, run: seq<Cycle>) {
    && run != []
    && (forall i :: 0 <= i < |run| ==> InTime(policy, run[i]))
    && (forall i :: 0 < i < |run| ==> Follows(policy, run, i))
  }

  predicate Follows(policy: Policy, run: seq<Cycle>, i: nat)
    requires 0 < i < |run|
  {
    run[i - 1].scheduled <= run[i].stored <= NextStored(policy, run[i - 1])
  }

  /** The secret's token at a time: the one stored last. */
  function TokenAt(run: seq<Cycle>, t: int): Cycle
    requires run != []
  {
    if |run| == 1 || run[|run| - 1].stored <= t then run[|run| - 1] else TokenAt(run[..|run| - 1], t)
  }

  lemma CycleIsCovered(policy: Policy, c: Cycle)
    requires InTime(policy, c)
    ensures c.scheduled < NextStored(policy, c) < c.expiration
  {
    RequeueBounds(c.scheduled, Some(c.expiration), policy);
  }

  /** The token never lapses: at every instant from the first store to the latest one for the next
      token, the stored token is unexpired. */
  lemma {:induction false} TokenNeverLapses(policy: Policy, run: seq<Cycle>, t: int)
    requires TimedRun(policy, run)
    requires run[0].stored <= t <= NextStored(policy, run[|run| - 1])
    ensures TokenAt(run, t).stored <= t < TokenAt(run, t).expiration
  {
    var last := run[|run| - 1];
    CycleIsCovered(policy, last);
    if |run| > 1 && t < last.stored {
      var before := run[..|run| - 1];
      assert before[0] == run[0] && before[|before| - 1] == run[|run| - 2];
      assert Follows(policy, run, |run| - 1);
      forall i | 0 < i < |before| ensures Follows(policy, before, i) {
        assert Follows(policy, run, i);
      }
      TokenNeverLapses(policy, before, t);
    }
  }

  /** With the default policy and punctual wake-ups the promise covers nine failures in a row that
      are retried after failureBackoff, and not ten. */
  lemma NineRetries(c: Cycle, failures: nat)
    requires c.late == [] && c.stored <= c.scheduled
    requires |c.waits| == failures && forall i :: 0 <= i < failures ==> c.waits[i] == DEFAULT_POLICY.failureBackoff
    requires c.expiration - c.scheduled > DEFAULT_POLICY.refreshBefore
    ensures InTime(DEFAULT_POLICY, c) <==> failures <= 9
  {
    SumOfEqual(c.waits, DEFAULT_POLICY.failureBackoff);
  }

  lemma {:induction false} SumOfEqual(s: seq<nat>, x: nat)
    requires forall i :: 0 <= i < |s| ==> s[i] == x
    ensures Sum(s) == |s| * x
  {
    if s != [] {
      SumOfEqual(s[1..], x);
    }
  }
}
