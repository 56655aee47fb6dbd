/** The warning throttle (`log_throttle.rs`): one line per window, which reports how many
    occurrences were suppressed since the line before. */
module LogThrottle {

  import opened Wrappers

  const WARN_THROTTLE_WINDOW: nat := 60 * 1_000_000_000
  const U64_MAX: nat := 0xffff_ffff_ffff_ffff

  datatype Throttle = Throttle(lastLogged: Option<int>, suppressed: nat)

  const FRESH := Throttle(None, 0)

  function SaturatingSince(now: int, earlier: int): nat {
    if now >= earlier then now - earlier else 0
  }

  function Admitted(t: Throttle, now: int): (Throttle, Option<nat>) {
    if t.lastLogged.Some? && SaturatingSince(now, t.lastLogged.value) < WARN_THROTTLE_WINDOW
    then (t.(suppressed := if t.suppressed < U64_MAX then t.suppressed + 1 else U64_MAX), None)
    else (Throttle(Some(now), 0), Some(t.suppressed))
  }

  class WarnThrottle {
    var lastLogged: Option<int>
    var suppressed: nat

    constructor ()
      ensures Contents() == FRESH
    {
      lastLogged, suppressed := None, 0;
    }

    ghost function Contents(): Throttle
      reads this
    {
      Throttle(lastLogged, suppressed)
    }

    method Admit(now: int) returns (line: Option<nat>)
      modifies this
      ensures (Contents(), line) == Admitted(old(Contents()), now)
    {
      match lastLogged {
        case Some(last) =>
          if SaturatingSince(now, last) < WARN_THROTTLE_WINDOW {
            suppressed := if suppressed < U64_MAX then suppressed + 1 else U64_MAX;
            return None;
          }
        case None =>
      }
      lastLogged := Some(now);
      line := Some(suppressed);
      suppressed := 0;
    }
  }

  // ---------- any sequence of instants ----------

  /** A logged line: when, and the suppressed count it reports. */
  datatype Line = Line(at: int, reported: nat)

  function After(instants: seq<int>): Throttle {
    if instants == [] then FRESH else Admitted(After(instants[..|instants| - 1]), instants[|instants| - 1]).0
  }

  function Lines(instants: seq<int>): seq<Line> {
    if instants == [] then []
    else
      var now := instants[|instants| - 1];
      Lines(instants[..|instants| - 1])
      + match Admitted(After(instants[..|instants| - 1]), now).1
        case None => []
        case Some(n) => [Line(now, n)]
  }

  function Reported(lines: seq<Line>): nat {
    if lines == [] then 0 else Reported(lines[..|lines| - 1]) + lines[|lines| - 1].reported
  }

  lemma LinesOfOneMore(instants: seq<int>)
    requires instants != []
    ensures var before, now := instants[..|instants| - 1], instants[|instants| - 1];
            var (t, line) := Admitted(After(before), now);
            && After(instants) == t
            && if line.None? then Lines(instants) == Lines(before)
               else Lines(instants) == Lines(before) + [Line(now, line.value)]
                    && Reported(Lines(instants)) == Reported(Lines(before)) + line.value
  {
    var before, now := instants[..|instants| - 1], instants[|instants| - 1];
    var line := Admitted(After(before), now).1;
    if line.Some? {
      assert (Lines(before) + [Line(now, line.value)])[..|Lines(before)|] == Lines(before);
    }
  }

  /** Every call is a logged line, or reported by one, or still pending: for any instants at all,
      backward ones too, as long as the counter has not been filled; past that, calls are lost
      but none is made up. */
  lemma {:induction false} EveryCallIsAccountedFor(instants: seq<int>)
    ensures After(instants).suppressed <= U64_MAX
    ensures |Lines(instants)| + Reported(Lines(instants)) + After(instants).suppressed <= |instants|
    ensures |instants| <= U64_MAX ==>
              |Lines(instants)| + Reported(Lines(instants)) + After(instants).suppressed == |instants|
    decreases |instants|
  {
    if instants != [] {
      EveryCallIsAccountedFor(instants[..|instants| - 1]);
      LinesOfOneMore(instants);
    }
  }

  lemma {:induction false} LastLineIsRemembered(instants: seq<int>)
    ensures After(instants).lastLogged
         == if Lines(instants) == [] then None else Some(Lines(instants)[|Lines(instants)| - 1].at)
    decreases |instants|
  {
    if instants != [] {
      LastLineIsRemembered(instants[..|instants| - 1]);
      LinesOfOneMore(instants);
    }
  }

  /** Logged lines are in time order and at least the window apart, the clock's jumps
      notwithstanding. */
  lemma {:induction false} LinesAreSpaced(instants: seq<int>, i: nat)
    requires i + 1 < |Lines(instants)|
    ensures Lines(instants)[i + 1].at - Lines(instants)[i].at >= WARN_THROTTLE_WINDOW
    decreases |instants|
  {
    if instants != [] {
      var before := instants[..|instants| - 1];
      LinesOfOneMore(instants);
      LastLineIsRemembered(before);
      if i + 1 < |Lines(before)| {
        LinesAreSpaced(before, i);
      }
    }
  }

  // ---------- which calls are logged ----------

  /** How many calls came after the last logged line. */
  function CallsSinceTheLine(instants: seq<int>): nat {
    if instants == [] then 0
    else
      var before := instants[..|instants| - 1];
      if |Lines(instants)| > |Lines(before)| then 0 else CallsSinceTheLine(before) + 1
  }

  function AtMostU64(n: nat): nat {
    if n <= U64_MAX then n else U64_MAX
  }

  lemma {:induction false} PendingCallsAreCounted(instants: seq<int>)
    ensures After(instants).suppressed == AtMostU64(CallsSinceTheLine(instants))
    decreases |instants|
  {
    if instants != [] {
      PendingCallsAreCounted(instants[..|instants| - 1]);
      LinesOfOneMore(instants);
    }
  }

  /** A call is logged exactly if it is the first, or comes the window or more after the last line; its
      line reports the calls since that one. A call that is not logged leaves the lines as they are. */
  lemma CallIsLoggedIff(before: seq<int>, now: int)
    ensures var lines, lines' := Lines(before), Lines(before + [now]);
            if lines == [] || now - lines[|lines| - 1].at >= WARN_THROTTLE_WINDOW
            then lines' == lines + [Line(now, AtMostU64(CallsSinceTheLine(before)))]
            else lines' == lines
  {
    assert (before + [now])[..|before|] == before;
    LinesOfOneMore(before + [now]);
    LastLineIsRemembered(before);
    PendingCallsAreCounted(before);
  }
}
