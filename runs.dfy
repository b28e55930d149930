/** Facts about many steps of the scheduler: a test slot with its replays, a
    whole run without replays, and the frame driver's throttling. */
module Runs {
  import opened Summary
  import opened Scheduler

  /** Consecutive `run_test` calls, the routine doing `os[i]` on the i-th. */
  function AfterRuns(s: State, os: seq<Outcome>): State
    decreases |os|
  {
    if os == [] then s else AfterRuns(AfterRunTest(s, os[0]), os[1..])
  }

  /** The routines those calls invoke, in order (a call that finds nothing to
      run invokes none). */
  function Invoked(s: State, os: seq<Outcome>): seq<RoutineId>
    decreases |os|
  {
    if os == [] then []
    else
      (if Active(s).Some? then [Active(s).value] else [])
      + Invoked(AfterRunTest(s, os[0]), os[1..])
  }

  /** The value `tick!` returns inside each of those invocations. */
  function Ticks(s: State, os: seq<Outcome>): seq<nat>
    decreases |os|
  {
    if os == [] then []
    else
      (if Active(s).Some? then [s.iteration] else [])
      + Ticks(AfterRunTest(s, os[0]), os[1..])
  }

  /** An invocation that ends by returning after a `wait!`. */
  predicate Waits(o: Outcome) {
    !o.panicked && o.lastWait.Some?
  }

  /** An invocation that ends the slot: a panic, or a return without `wait!`. */
  predicate Completes(o: Outcome) {
    o.panicked || o.lastWait.None?
  }

  function Repeat(r: RoutineId, n: nat): seq<RoutineId> {
    if n == 0 then [] else [r] + Repeat(r, n - 1)
  }

  /** `n` consecutive numbers starting at `a`. */
  function CountFrom(a: nat, n: nat): seq<nat>
    decreases n
  {
    if n == 0 then [] else [a] + CountFrom(a + 1, n - 1)
  }

  /** Number of invocations in `os` that panicked. */
  function Panics(os: seq<Outcome>): nat {
    if os == [] then 0 else (if os[0].panicked then 1 else 0) + Panics(os[1..])
  }

  /** The marks printed for a sequence of completed invocations. */
  function Marks(os: seq<Outcome>): seq<string> {
    if os == [] then [] else [Mark(os[0].panicked)] + Marks(os[1..])
  }

  /** The bookkeeping stays consistent over any number of `run_test` calls. */
  lemma {:induction false} RunsKeepValid(s: State, os: seq<Outcome>)
    requires Valid(s)
    ensures Valid(AfterRuns(s, os))
    decreases |os|
  {
    if os != [] {
      RunTestKeepsValid(s, os[0]);
      RunsKeepValid(AfterRunTest(s, os[0]), os[1..]);
    }
  }

  /** A test slot: a routine that executes `wait!` on each of its first K
      invocations and then returns without one (or panics) is invoked exactly
      K+1 times, sees `tick!` count up by one per invocation, and is counted
      once, as a pass or as a failure. The slot then advances and is reset;
      if a focus was set, the run ends there. */
  lemma {:induction false} ReplaySlot(s: State, ws: seq<Outcome>, last: Outcome)
    requires Active(s).Some? && !s.wantsReplay
    requires forall i :: 0 <= i < |ws| ==> Waits(ws[i])
    requires Completes(last)
    ensures Invoked(s, ws + [last]) == Repeat(Active(s).value, |ws| + 1)
    ensures Ticks(s, ws + [last]) == CountFrom(s.iteration, |ws| + 1)
    ensures var t := AfterRuns(s, ws + [last]);
      t.index == s.index + 1
      && t.passes == s.passes + (if last.panicked then 0 else 1)
      && t.failures == s.failures + (if last.panicked then 1 else 0)
      && SlotReset(t) && t.registry == s.registry
      && t.output == s.output + [Mark(last.panicked)]
                     + (if s.focused.Some? then [SummaryLine(t.passes, t.failures)] else [])
      && t.quitRequested == (s.quitRequested || s.focused.Some?)
    decreases |ws|
  {
    var os := ws + [last];
    if ws == [] {
      assert os[1..] == [];
      RunTestCompletes(s, last);
    } else {
      assert os[0] == ws[0] && os[1..] == ws[1..] + [last];
      RunTestReplays(s, ws[0]);
      var s1 := AfterRunTest(s, ws[0]);
      assert Active(s1) == Active(s);
      ReplaySlot(s1, ws[1..], last);
    }
  }

  /** Focus mode: the focused routine is the one run, whatever the index and
      the registry, for each of its replays; its first completion prints the
      summary and asks to quit, and the focus is gone afterwards. */
  lemma FocusedSlot(s: State, r: RoutineId, ws: seq<Outcome>, last: Outcome)
    requires s.focused == Some(r) && !s.wantsReplay
    requires forall i :: 0 <= i < |ws| ==> Waits(ws[i])
    requires Completes(last)
    ensures Invoked(s, ws + [last]) == Repeat(r, |ws| + 1)
    ensures var t := AfterRuns(s, ws + [last]);
      t.quitRequested && t.focused.None?
      && t.output == s.output + [Mark(last.panicked), SummaryLine(t.passes, t.failures)]
  {
    ReplaySlot(s, ws, last);
  }

  /** One `run_test` of a run without focus whose routine does not replay:
      the routine at the index runs, and the next call starts at the next
      index with nothing pending. */
  lemma CompletionAdvances(s: State, o: Outcome)
    requires s.focused.None? && !s.wantsReplay && s.index < |s.registry|
    requires Completes(o)
    ensures Active(s) == Some(s.registry[s.index])
    ensures var t := AfterRunTest(s, o);
      t.index == s.index + 1 && t.registry == s.registry && t.focused.None? && !t.wantsReplay
  {
    RunTestCompletes(s, o);
  }

  /** The same call counts the routine once, prints its mark and does not
      ask to quit. */
  lemma CompletionCounts(s: State, o: Outcome)
    requires s.focused.None? && !s.wantsReplay && s.index < |s.registry|
    requires Completes(o)
    ensures var t := AfterRunTest(s, o);
      t.passes == s.passes + (if o.panicked then 0 else 1)
      && t.failures == s.failures + (if o.panicked then 1 else 0)
      && t.output == s.output + [Mark(o.panicked)]
      && t.quitRequested == s.quitRequested
  {
    RunTestCompletes(s, o);
  }

  /** A run with no replays and no focus counts each routine exactly once
      and prints one mark per routine, without asking to quit. */
  lemma {:induction false} NoReplayRun(s: State, os: seq<Outcome>)
    requires s.focused.None? && !s.wantsReplay
    requires s.index + |os| <= |s.registry|
    requires forall i :: 0 <= i < |os| ==> Completes(os[i])
    ensures var t := AfterRuns(s, os);
      t.index == s.index + |os|
      && t.failures == s.failures + Panics(os)
      && t.passes + t.failures == s.passes + s.failures + |os|
      && t.output == s.output + Marks(os)
      && t.quitRequested == s.quitRequested
      && t.registry == s.registry && t.focused.None? && !t.wantsReplay
    decreases |os|
  {
    if os == [] {
      assert s.output + [] == s.output;
    } else {
      var s1 := AfterRunTest(s, os[0]);
      CompletionAdvances(s, os[0]);
      CompletionCounts(s, os[0]);
      assert forall i :: 0 <= i < |os[1..]| ==> Completes(os[1..][i]);
      NoReplayRun(s1, os[1..]);
      assert s.output + Marks(os) == s1.output + Marks(os[1..]) by {
        assert Marks(os) == [Mark(os[0].panicked)] + Marks(os[1..]);
      }
    }
  }

  /** The same run invokes the registered routines one after another, in
      registration order, starting at the current index. */
  lemma {:induction false} NoReplayOrder(s: State, os: seq<Outcome>)
    requires s.focused.None? && !s.wantsReplay
    requires s.index + |os| <= |s.registry|
    requires forall i :: 0 <= i < |os| ==> Completes(os[i])
    ensures Invoked(s, os) == s.registry[s.index..s.index + |os|]
    decreases |os|
  {
    if os != [] {
      var s1 := AfterRunTest(s, os[0]);
      CompletionAdvances(s, os[0]);
      assert forall i :: 0 <= i < |os[1..]| ==> Completes(os[1..][i]);
      NoReplayOrder(s1, os[1..]);
      var r, i, j := s.registry, s.index, s.index + |os|;
      assert Invoked(s1, os[1..]) == r[i + 1..j];
      assert Invoked(s, os) == [r[i]] + Invoked(s1, os[1..]);
      SliceFront(r, i, j);
    }
  }

  lemma SliceFront(r: seq<RoutineId>, i: nat, j: nat)
    requires i < j <= |r|
    ensures r[i..j] == [r[i]] + r[i + 1..j]
  {
  }

  /** Once the registry is exhausted without a focus, `run_test` prints the
      summary over the whole registry: the total is the number of registered
      tests. */
  lemma RunEnds(s: State, o: Outcome)
    requires Valid(s) && s.focused.None? && s.index == |s.registry|
    ensures var t := AfterRunTest(s, o);
      t.quitRequested
      && t.output == s.output
           + [NatToString(|s.registry|) + " examples, " + NatToString(s.failures) + " failures"]
  {
    RunTestNothingToRun(s, o);
    SummaryShape(s.passes, s.failures);
  }

  /** A whole run from start-up: register the tests, then give every one a
      single invocation that does not replay. Every test is invoked once, in
      registration order, and the next `run_test` prints
      "<number of tests> examples, <number of panics> failures". */
  lemma FullRun(start: State, tests: seq<RoutineId>, os: seq<Outcome>, o: Outcome)
    requires NotStarted(start) && start.registry == []
    requires |os| == |tests|
    requires forall i :: 0 <= i < |os| ==> Completes(os[i])
    ensures var s := AfterSetup(start, tests);
      Invoked(s, os) == tests
      && var t := AfterRunTest(AfterRuns(s, os), o);
      t.quitRequested
      && t.output == Marks(os)
           + [NatToString(|tests|) + " examples, " + NatToString(Panics(os)) + " failures"]
  {
    var s := AfterSetup(start, tests);
    assert s.registry == tests;
    assert NotStarted(s);
    assert Valid(s);
    NoReplayRun(s, os);
    NoReplayOrder(s, os);
    assert tests[0..|os|] == tests;
    var u := AfterRuns(s, os);
    assert u.failures == Panics(os) && u.output == Marks(os);
    RunsKeepValid(s, os);
    RunEnds(u, o);
  }

  /** Running `a` then `b` is running `a + b`. */
  lemma {:induction false} RunsAppend(s: State, a: seq<Outcome>, b: seq<Outcome>)
    ensures AfterRuns(s, a + b) == AfterRuns(AfterRuns(s, a), b)
    decreases |a|
  {
    if a == [] {
      assert a + b == b;
    } else {
      assert (a + b)[0] == a[0] && (a + b)[1..] == a[1..] + b;
      RunsAppend(AfterRunTest(s, a[0]), a[1..], b);
    }
  }

  /** The routines invoked by `a + b` are those of `a`, then those of `b`
      from where `a` left off. */
  lemma {:induction false} InvokedAppend(s: State, a: seq<Outcome>, b: seq<Outcome>)
    ensures Invoked(s, a + b) == Invoked(s, a) + Invoked(AfterRuns(s, a), b)
    decreases |a|
  {
    if a == [] {
      assert a + b == b;
    } else {
      assert (a + b)[0] == a[0] && (a + b)[1..] == a[1..] + b;
      InvokedAppend(AfterRunTest(s, a[0]), a[1..], b);
    }
  }

  /** One test slot as its routine plays it: the invocations that end with a
      `wait!`, then the one that completes the slot. */
  datatype Slot = Slot(waits: seq<Outcome>, last: Outcome)

  predicate WellFormed(sl: Slot) {
    (forall i :: 0 <= i < |sl.waits| ==> Waits(sl.waits[i])) && Completes(sl.last)
  }

  /** The invocation outcomes of consecutive slots, in order. */
  function Flatten(slots: seq<Slot>): seq<Outcome> {
    if slots == [] then [] else slots[0].waits + [slots[0].last] + Flatten(slots[1..])
  }

  /** The routines `rs` each invoked once per invocation of its slot. */
  function SlotRoutines(rs: seq<RoutineId>, slots: seq<Slot>): seq<RoutineId>
    requires |slots| <= |rs|
  {
    if slots == [] then [] else Repeat(rs[0], |slots[0].waits| + 1) + SlotRoutines(rs[1..], slots[1..])
  }

  /** Number of slots whose completing invocation panicked. */
  function SlotPanics(slots: seq<Slot>): nat {
    if slots == [] then 0 else (if slots[0].last.panicked then 1 else 0) + SlotPanics(slots[1..])
  }

  /** The mark printed for each slot, in order. */
  function SlotMarks(slots: seq<Slot>): seq<string> {
    if slots == [] then [] else [Mark(slots[0].last.panicked)] + SlotMarks(slots[1..])
  }

  /** One slot of a run without focus: the routine at the index is invoked
      once per invocation of the slot and counted once, its mark printed,
      and the next slot starts at the next index with nothing pending. */
  lemma SlotWithoutFocus(s: State, sl: Slot)
    requires s.focused.None? && !s.wantsReplay && s.index < |s.registry|
    requires WellFormed(sl)
    ensures var t := AfterRuns(s, sl.waits + [sl.last]);
      t.index == s.index + 1
      && t.passes + t.failures == s.passes + s.failures + 1
      && t.failures == s.failures + (if sl.last.panicked then 1 else 0)
      && t.output == s.output + [Mark(sl.last.panicked)]
      && t.quitRequested == s.quitRequested
      && t.registry == s.registry && t.focused.None? && !t.wantsReplay
  {
    ReplaySlot(s, sl.waits, sl.last);
  }

  /** The same slot invokes the routine at the index, once per invocation. */
  lemma SlotInvokes(s: State, sl: Slot)
    requires s.focused.None? && !s.wantsReplay && s.index < |s.registry|
    requires WellFormed(sl)
    ensures Invoked(s, sl.waits + [sl.last]) == Repeat(s.registry[s.index], |sl.waits| + 1)
  {
    ReplaySlot(s, sl.waits, sl.last);
  }

  /** A run without focus, whatever the replays, counts each slot once,
      prints one mark per slot and does not quit. */
  lemma {:induction false} SlotsTally(s: State, slots: seq<Slot>)
    requires s.focused.None? && !s.wantsReplay
    requires s.index + |slots| <= |s.registry|
    requires forall k :: 0 <= k < |slots| ==> WellFormed(slots[k])
    ensures var t := AfterRuns(s, Flatten(slots));
      t.index == s.index + |slots|
      && t.passes + t.failures == s.passes + s.failures + |slots|
      && t.failures == s.failures + SlotPanics(slots)
      && t.output == s.output + SlotMarks(slots)
      && t.quitRequested == s.quitRequested
      && t.registry == s.registry && t.focused.None? && !t.wantsReplay
    decreases |slots|
  {
    if slots == [] {
      assert s.output + [] == s.output;
    } else {
      var sl, rest := slots[0], slots[1..];
      var first := sl.waits + [sl.last];
      assert Flatten(slots) == first + Flatten(rest);
      RunsAppend(s, first, Flatten(rest));
      SlotWithoutFocus(s, sl);
      assert forall k :: 0 <= k < |rest| ==> WellFormed(rest[k]);
      var s1 := AfterRuns(s, first);
      SlotsTally(s1, rest);
      var m := Mark(sl.last.panicked);
      assert s1.output == s.output + [m];
      assert AfterRuns(s, Flatten(slots)) == AfterRuns(s1, Flatten(rest));
      assert s.output + SlotMarks(slots) == (s.output + [m]) + SlotMarks(rest);
    }
  }

  /** The same run invokes the registered routines from the index on, in
      registration order, each once per invocation of its slot. */
  lemma {:induction false} SlotsOrder(s: State, slots: seq<Slot>)
    requires s.focused.None? && !s.wantsReplay
    requires s.index + |slots| <= |s.registry|
    requires forall k :: 0 <= k < |slots| ==> WellFormed(slots[k])
    ensures Invoked(s, Flatten(slots)) == SlotRoutines(s.registry[s.index..s.index + |slots|], slots)
    decreases |slots|
  {
    if slots != [] {
      var sl, rest := slots[0], slots[1..];
      var first := sl.waits + [sl.last];
      assert Flatten(slots) == first + Flatten(rest);
      InvokedAppend(s, first, Flatten(rest));
      SlotInvokes(s, sl);
      SlotWithoutFocus(s, sl);
      var s1 := AfterRuns(s, first);
      assert forall k :: 0 <= k < |rest| ==> WellFormed(rest[k]);
      SlotsOrder(s1, rest);
      var rs := s.registry[s.index..s.index + |slots|];
      assert rs[0] == s.registry[s.index];
      assert rs[1..] == s1.registry[s1.index..s1.index + |rest|];
    }
  }

  /** A whole run from start-up with replays: register the tests, then play
      one slot per test. Every test is invoked in registration order, once
      per invocation of its slot, and the next `run_test` prints
      "<number of tests> examples, <number of failed slots> failures". */
  lemma FullReplayRun(start: State, tests: seq<RoutineId>, slots: seq<Slot>, o: Outcome)
    requires NotStarted(start) && start.registry == []
    requires |slots| == |tests|
    requires forall k :: 0 <= k < |slots| ==> WellFormed(slots[k])
    ensures var s := AfterSetup(start, tests);
      Invoked(s, Flatten(slots)) == SlotRoutines(tests, slots)
      && var t := AfterRunTest(AfterRuns(s, Flatten(slots)), o);
      t.quitRequested
      && t.output == SlotMarks(slots)
           + [NatToString(|tests|) + " examples, " + NatToString(SlotPanics(slots)) + " failures"]
  {
    var s := AfterSetup(start, tests);
    assert s.registry == tests && s.index == 0;
    assert Valid(s);
    SlotsOrder(s, slots);
    assert tests[0..|slots|] == tests;
    SlotsTally(s, slots);
    var u := AfterRuns(s, Flatten(slots));
    assert u.failures == SlotPanics(slots) && u.output == SlotMarks(slots);
    assert u.focused.None? && u.index == |u.registry|;
    RunsKeepValid(s, Flatten(slots));
    RunEnds(u, o);
  }

  /** One host frame: the time elapsed since the previous one, and what the
      routine does if the frame fires a run. */
  datatype Frame = Frame(delta: real, outcome: Outcome)

  /** Consecutive calls of `process`. */
  function AfterFrames(s: State, fs: seq<Frame>): State
    decreases |fs|
  {
    if fs == [] then s
    else
      var last := fs[|fs| - 1];
      AfterProcess(AfterFrames(s, fs[..|fs| - 1]), last.delta, last.outcome)
  }

  /** Total time elapsed over some frames. */
  function Elapsed(fs: seq<Frame>): real
    decreases |fs|
  {
    if fs == [] then 0.0 else Elapsed(fs[..|fs| - 1]) + fs[|fs| - 1].delta
  }

  /** While the accumulated time stays at or below the delay, frames only
      accumulate it: no run fires and nothing else changes. */
  lemma {:induction false} QuietFrames(s: State, fs: seq<Frame>)
    requires forall k :: 1 <= k <= |fs| ==> s.timeCounter + Elapsed(fs[..k]) <= s.delay
    ensures AfterFrames(s, fs) == s.(timeCounter := s.timeCounter + Elapsed(fs))
    decreases |fs|
  {
    if fs != [] {
      var init := fs[..|fs| - 1];
      forall k | 1 <= k <= |init|
        ensures s.timeCounter + Elapsed(init[..k]) <= s.delay
      {
        assert init[..k] == fs[..k];
      }
      QuietFrames(s, init);
      assert fs[..|fs|] == fs;
    }
  }

  /** The next run fires on the first frame that takes the accumulated time
      strictly past the delay, and starts with the counter back at zero. */
  lemma {:induction false} FiresWhenDelayPassed(s: State, fs: seq<Frame>)
    requires |fs| > 0
    requires forall k :: 1 <= k < |fs| ==> s.timeCounter + Elapsed(fs[..k]) <= s.delay
    requires s.timeCounter + Elapsed(fs) > s.delay
    ensures AfterFrames(s, fs) == AfterRunTest(s.(timeCounter := 0.0), fs[|fs| - 1].outcome)
  {
    var init := fs[..|fs| - 1];
    forall k | 1 <= k <= |init|
      ensures s.timeCounter + Elapsed(init[..k]) <= s.delay
    {
      assert init[..k] == fs[..k];
    }
    QuietFrames(s, init);
  }
}
