/** The connection gate (`admission.rs`): a semaphore with immediate reject and a separate counter
    of rejections. `ConnectionGate` is one caller's view; the interleaved steps below are many
    callers', for whom a failed acquire and its counting are two moments. */
module Admission {

  const U64_VALUES: nat := 0x1_0000_0000_0000_0000

  datatype Gate = Gate(max: nat, available: nat, held: set<nat>, rejected: nat, counting: nat,
                       attempts: nat, failed: nat, counted: nat, dropped: nat)

  function FreshGate(max: nat): Gate {
    Gate(max, max, {}, 0, 0, 0, 0, 0, 0)
  }

  function SaturatingSub(a: nat, b: nat): nat {
    if b <= a then a - b else 0
  }

  /** The gate as the service holds it. `history` is the run of steps its calls have made, so far
      without a rejection that still has to be counted. */
  class ConnectionGate {
    const max: nat
    var available: nat
    var rejected: nat
    ghost var history: Gate

    ghost predicate Valid()
      reads this
    {
      && Inv(history) && history.counting == 0
      && history.max == max && history.available == available && history.rejected == rejected
    }

    constructor (max: nat)
      ensures Valid() && history == FreshGate(max)
    {
      this.max := max;
      available, rejected := max, 0;
      history := FreshGate(max);
    }

    /** `permit` names the permit that is handed out, if one is. */
    method TryAdmit(ghost permit: nat) returns (admitted: bool)
      requires Valid() && permit !in history.held
      modifies this
      ensures Valid()
      ensures admitted <==> permit in history.held
      ensures admitted <==> |old(history).held| < max
      ensures history == if admitted then Step(old(history), TriesToAcquire(permit))
                         else Step(Step(old(history), TriesToAcquire(permit)), CountsRejection)
    {
      StepKeepsInv(history, TriesToAcquire(permit));
      StepKeepsInv(Step(history, TriesToAcquire(permit)), CountsRejection);
      history := Step(history, TriesToAcquire(permit));
      if available == 0 {
        rejected := (rejected + 1) % U64_VALUES;
        history := Step(history, CountsRejection);
        return false;
      }
      available := available - 1;
      admitted := true;
    }

    /** Dropping a permit returns it to the semaphore. */
    method DropPermit(ghost permit: nat)
      requires Valid() && permit in history.held
      modifies this
      ensures Valid() && history == Step(old(history), DropsPermit(permit))
    {
      StepKeepsInv(history, DropsPermit(permit));
      history := Step(history, DropsPermit(permit));
      available := available + 1;
    }

    /** The number of permits handed out and not yet dropped. */
    method Active() returns (active: nat)
      requires Valid()
      ensures active == |history.held|
    {
      active := SaturatingSub(max, available);
    }

    /** The number of failed attempts, up to the counter's wrap-around. */
    method RejectedCount() returns (count: nat)
      requires Valid()
      ensures count == history.failed % U64_VALUES
    {
      count := rejected;
    }
  }

  datatype Event =
    | TriesToAcquire(permit: nat)
    | CountsRejection
    | DropsPermit(permit: nat)

  /** `permit` names are fresh; an event that is not enabled changes nothing. */
  function Step(g: Gate, e: Event): Gate {
    match e
    case TriesToAcquire(permit) =>
      if permit in g.held then g
      else if g.available > 0
      then g.(available := g.available - 1, held := g.held + {permit}, attempts := g.attempts + 1)
      else g.(attempts := g.attempts + 1, failed := g.failed + 1, counting := g.counting + 1)
    case CountsRejection =>
      if g.counting == 0 then g
      else g.(counting := g.counting - 1, counted := g.counted + 1, rejected := (g.rejected + 1) % U64_VALUES)
    case DropsPermit(permit) =>
      if permit !in g.held then g
      else g.(available := g.available + 1, held := g.held - {permit}, dropped := g.dropped + 1)
  }

  function Run(max: nat, events: seq<Event>): Gate {
    if events == [] then FreshGate(max) else Step(Run(max, events[..|events| - 1]), events[|events| - 1])
  }

  /** Permits are conserved, and every failed attempt is either counted or about to be. */
  ghost predicate Inv(g: Gate) {
    && |g.held| + g.available == g.max
    && g.attempts == |g.held| + g.dropped + g.failed
    && g.counted + g.counting == g.failed
    && g.rejected == g.counted % U64_VALUES
    && (g.dropped == 0 && g.failed > 0 ==> g.available == 0)
  }

  lemma WrappedSuccessor(n: nat)
    ensures (n % U64_VALUES + 1) % U64_VALUES == (n + 1) % U64_VALUES
  {
  }

  lemma StepKeepsInv(g: Gate, e: Event)
    requires Inv(g)
    ensures Inv(Step(g, e)) && Step(g, e).max == g.max
  {
    if e.CountsRejection? {
      WrappedSuccessor(g.counted);
    } else if e.DropsPermit? && e.permit in g.held {
      assert g.held == (g.held - {e.permit}) + {e.permit};
    }
  }

  lemma {:induction false} EveryRunKeepsInv(max: nat, events: seq<Event>)
    ensures Inv(Run(max, events)) && Run(max, events).max == max
    decreases |events|
  {
    if events != [] {
      EveryRunKeepsInv(max, events[..|events| - 1]);
      StepKeepsInv(Run(max, events[..|events| - 1]), events[|events| - 1]);
    }
  }

  lemma AddBack(a: nat, b: nat)
    ensures (a % U64_VALUES + b) % U64_VALUES == (a + b) % U64_VALUES
  {
    var q := a / U64_VALUES;
    assert a + b == (a % U64_VALUES + b) + U64_VALUES * q;
  }

  lemma RejectionsAreCountedOrUnderWay(g: Gate)
    requires Inv(g)
    ensures (g.rejected + g.counting) % U64_VALUES == g.failed % U64_VALUES
    ensures g.failed < U64_VALUES ==> g.rejected + g.counting == g.failed
  {
    AddBack(g.counted, g.counting);
  }

  /** Under every interleaving: held and available permits make up the ceiling, so `active` is the
      number of held permits, and recorded rejections plus those still being recorded are the
      failed attempts, up to the counter's wrap-around. */
  lemma PermitsAndRejectionsAreConserved(max: nat, events: seq<Event>)
    ensures var g := Run(max, events);
            && |g.held| + g.available == max
            && (g.rejected + g.counting) % U64_VALUES == g.failed % U64_VALUES
            && (g.failed < U64_VALUES ==> g.rejected + g.counting == g.failed)
  {
    EveryRunKeepsInv(max, events);
    RejectionsAreCountedOrUnderWay(Run(max, events));
  }

  /** While nobody drops a permit, N attempts admit exactly min(N, ceiling). */
  lemma AttemptsWithoutDrops(max: nat, events: seq<Event>)
    requires Run(max, events).dropped == 0
    ensures var g := Run(max, events);
            |g.held| == if g.attempts <= max then g.attempts else max
  {
    EveryRunKeepsInv(max, events);
  }

  // ---------- the same read off the events ----------

  /** The permits that are out: whoever tries while fewer than the ceiling are gets one. */
  function Out(max: nat, events: seq<Event>): set<nat> {
    if events == [] then {}
    else
      var out, last := Out(max, events[..|events| - 1]), events[|events| - 1];
      match last
      case TriesToAcquire(permit) => if |out| < max then out + {permit} else out
      case DropsPermit(permit) => out - {permit}
      case CountsRejection => out
  }

  /** How many of the events are attempts for a permit that is not out. */
  function Attempts(max: nat, events: seq<Event>): nat {
    if events == [] then 0
    else
      var init, last := events[..|events| - 1], events[|events| - 1];
      Attempts(max, init) + if last.TriesToAcquire? && last.permit !in Out(max, init) then 1 else 0
  }

  /** How many of those came while the whole ceiling was out. */
  function FailedAttempts(max: nat, events: seq<Event>): nat {
    if events == [] then 0
    else
      var init, last := events[..|events| - 1], events[|events| - 1];
      FailedAttempts(max, init)
      + if last.TriesToAcquire? && last.permit !in Out(max, init) && |Out(max, init)| >= max then 1 else 0
  }

  /** How many of the failed attempts have been counted. */
  function Recorded(max: nat, events: seq<Event>): nat {
    if events == [] then 0
    else
      var init := events[..|events| - 1];
      Recorded(max, init)
      + if events[|events| - 1].CountsRejection? && Recorded(max, init) < FailedAttempts(max, init) then 1 else 0
  }

  /** Every run does what its events say: who tries below the ceiling gets a permit and keeps it until it
      is dropped, who tries at the ceiling is refused, and the counter shows the refusals recorded. */
  lemma {:induction false} GateFollowsItsEvents(max: nat, events: seq<Event>)
    ensures var g := Run(max, events);
            && g.held == Out(max, events) && |g.held| <= max
            && g.attempts == Attempts(max, events) && g.failed == FailedAttempts(max, events)
            && g.counted == Recorded(max, events) && g.rejected == Recorded(max, events) % U64_VALUES
    decreases |events|
  {
    EveryRunKeepsInv(max, events);
    if events != [] {
      var init, last := events[..|events| - 1], events[|events| - 1];
      GateFollowsItsEvents(max, init);
      EveryRunKeepsInv(max, init);
      if last.TriesToAcquire? && last.permit in Out(max, init) {
        assert Out(max, init) + {last.permit} == Out(max, init);
      } else if last.DropsPermit? && last.permit !in Out(max, init) {
        assert Out(max, init) - {last.permit} == Out(max, init);
      }
    }
  }
}
