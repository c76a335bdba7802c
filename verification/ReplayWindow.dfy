/** The sliding replay window of `CoverRuntime` (`src/handlers/coverRuntime.ts`). */
module ReplayWindow {
  import opened Wrappers

  const REPLAY_WINDOW: nat := 1024

  /** The highest counter admitted so far, and the admitted counters that are still remembered. */
  datatype Window = Window(highest: Option<nat>, seen: set<nat>)

  const NEW := Window(None, {})

  function Above(s: set<nat>, floor: nat): (r: set<nat>)
    ensures forall x: nat :: x in r <==> x in s && x > floor
  {
    set x | x in s && x > floor
  }

  /** `#admitInboundCounter`. */
  function Admit(w: Window, counter: nat): (Window, bool) {
    if w.highest.Some? && w.highest.value >= REPLAY_WINDOW && counter <= w.highest.value - REPLAY_WINDOW then (w, false)
    else if counter in w.seen then (w, false)
    else
      var seen := w.seen + {counter};
      if w.highest.Some? && counter <= w.highest.value then (Window(w.highest, seen), true)
      else
        var kept := if counter >= REPLAY_WINDOW then Above(seen, counter - REPLAY_WINDOW) else seen;
        (Window(Some(counter), kept), true)
  }

  // ----- runs

  /** The window after a sequence of counters, and the answer given to each. */
  datatype Log = Log(window: Window, answers: seq<bool>)

  function Run(counters: seq<nat>): (log: Log)
    ensures |log.answers| == |counters|
  {
    if counters == [] then Log(NEW, [])
    else
      var log, last := Run(counters[..|counters| - 1]), counters[|counters| - 1];
      var (w, ok) := Admit(log.window, last);
      Log(w, log.answers + [ok])
  }

  /** Counter `x` was admitted in the run. */
  ghost predicate Admitted(counters: seq<nat>, answers: seq<bool>, x: nat) {
    exists i :: 0 <= i < |counters| && i < |answers| && counters[i] == x && answers[i]
  }

  /** The window remembers exactly the admitted counters that a new one could still repeat. */
  ghost predicate Remembers(w: Window, counters: seq<nat>, answers: seq<bool>) {
    && (w.highest.None? ==> w.seen == {} && forall x: nat :: !Admitted(counters, answers, x))
    && (w.highest.Some? ==>
          && Admitted(counters, answers, w.highest.value)
          && (forall x: nat :: Admitted(counters, answers, x) ==> x <= w.highest.value)
          && (forall x: nat :: x in w.seen <==> Admitted(counters, answers, x) && x + REPLAY_WINDOW > w.highest.value))
  }

  lemma AdmittedMore(counters: seq<nat>, answers: seq<bool>, c: nat, ok: bool, x: nat)
    requires |answers| == |counters|
    ensures Admitted(counters + [c], answers + [ok], x) <==> Admitted(counters, answers, x) || (ok && x == c)
  {
    var cs, bs := counters + [c], answers + [ok];
    if Admitted(counters, answers, x) {
      var i :| 0 <= i < |counters| && counters[i] == x && answers[i];
      assert cs[i] == x && bs[i];
    }
    if ok && x == c { assert cs[|counters|] == x && bs[|counters|]; }
  }

  lemma {:induction false} RunRemembers(counters: seq<nat>)
    ensures Remembers(Run(counters).window, counters, Run(counters).answers)
    decreases |counters|
  {
    if counters != [] {
      var rest, c := counters[..|counters| - 1], counters[|counters| - 1];
      var log := Run(rest);
      RunRemembers(rest);
      assert counters == rest + [c];
      forall x: nat ensures Admitted(counters, Run(counters).answers, x) <==>
          Admitted(rest, log.answers, x) || (Admit(log.window, c).1 && x == c) {
        AdmittedMore(rest, log.answers, c, Admit(log.window, c).1, x);
      }
    }
  }

  lemma {:induction false} RunPrefix(counters: seq<nat>, n: nat)
    requires n <= |counters|
    ensures Run(counters[..n]).answers == Run(counters).answers[..n]
    decreases |counters|
  {
    if n < |counters| {
      var rest := counters[..|counters| - 1];
      RunPrefix(rest, n);
      assert rest[..n] == counters[..n];
      assert Run(counters).answers == Run(rest).answers + [Run(counters).answers[|rest|]];
    } else {
      assert counters[..n] == counters;
    }
  }

  /** A counter is fresh and recent, compared with every counter that was ever admitted. */
  ghost predicate Acceptable(counters: seq<nat>, answers: seq<bool>, c: nat) {
    forall x: nat :: Admitted(counters, answers, x) ==> x != c && c + REPLAY_WINDOW > x
  }

  /**
   The bounded window decides as the unbounded set of all admitted counters would: the i-th counter
   is admitted if and only if it was never admitted before and is not 1024 or more behind any
   admitted one.
   */
  lemma WindowRefinesSet(counters: seq<nat>, i: nat)
    requires i < |counters|
    ensures Run(counters).answers[i] <==> Acceptable(counters[..i], Run(counters).answers[..i], counters[i])
  {
    var before, upto := counters[..i], counters[..i + 1];
    RunPrefix(counters, i + 1);
    RunPrefix(counters, i);
    assert upto[..|upto| - 1] == before;
    RunRemembers(before);
    var w := Run(before).window;
    assert Run(upto).answers[i] == Admit(w, counters[i]).1;
    if w.highest.Some? { assert Admitted(before, Run(before).answers, w.highest.value); }
  }

  /** No counter is admitted twice. */
  lemma AdmittedOnce(counters: seq<nat>, i: nat, j: nat)
    requires i < j < |counters| && Run(counters).answers[i] && Run(counters).answers[j]
    ensures counters[i] != counters[j]
  {
    WindowRefinesSet(counters, j);
    var before, answers := counters[..j], Run(counters).answers[..j];
    assert before[i] == counters[i] && answers[i];
    assert Admitted(before, answers, counters[i]);
  }

  lemma {:induction false} RangeSize(s: set<nat>, low: int, n: nat)
    requires forall x: nat :: x in s ==> low < x <= low + n
    ensures |s| <= n
    decreases n
  {
    if n > 0 {
      var top := low + n;
      var rest := set x | x in s && x != top;
      RangeSize(rest, low, n - 1);
      assert s == rest || (top >= 0 && s == rest + {top as nat});
    } else {
      assert s == {};
    }
  }

  /** At most 1024 counters are remembered. */
  lemma RetainedBounded(counters: seq<nat>)
    ensures |Run(counters).window.seen| <= REPLAY_WINDOW
  {
    RunRemembers(counters);
    var w := Run(counters).window;
    if w.highest.Some? { RangeSize(w.seen, w.highest.value - REPLAY_WINDOW, REPLAY_WINDOW); }
  }

  // ----- the object

  class InboundCounters {
    var highest: Option<nat>
    var seen: set<nat>

    ghost function View(): Window
      reads this
    {
      Window(highest, seen)
    }

    constructor ()
      ensures View() == NEW
    {
      highest, seen := None, {};
    }

    /** Forget every counter up to `floor`, one at a time. */
    method Prune(floor: nat)
      modifies this`seen
      ensures seen == Above(old(seen), floor)
    {
      var rest := seen;
      while rest != {}
        invariant rest <= seen <= old(seen)
        invariant forall x: nat :: x in old(seen) && x > floor ==> x in seen
        invariant forall x: nat :: x in seen && x !in rest ==> x > floor
        decreases |rest|
      {
        var x :| x in rest;
        rest := rest - {x};
        if x <= floor { seen := seen - {x}; }
      }
      assert seen == Above(old(seen), floor);
    }

    method AdmitInboundCounter(counter: nat) returns (ok: bool)
      modifies this
      ensures (View(), ok) == Admit(old(View()), counter)
    {
      if highest.Some? && highest.value >= REPLAY_WINDOW && counter <= highest.value - REPLAY_WINDOW { return false; }
      if counter in seen { return false; }
      seen := seen + {counter};
      if highest.None? || counter > highest.value {
        highest := Some(counter);
        if counter >= REPLAY_WINDOW { Prune(counter - REPLAY_WINDOW); }
      }
      return true;
    }
  }
}
