/** The replay-driven test scheduler as values. `State` holds every cell the
    harness keeps: the registry and the focus override, the four scheduler
    cells, the runner's own counters, the runner's child nodes, whether the
    engine was asked to quit, and the text printed so far. One function per
    operation gives the state after it; the class `Runner.Harness` is proved
    against these functions. */
module Scheduler {
  import opened Summary

  datatype Option<T> = None | Some(value: T)

  /** Identity of a test routine: the function pointer registered by `test!`
      or `focus!`. The routine body itself is opaque. */
  type RoutineId = nat

  /** Identity of a node attached under the runner. */
  type ChildId = nat

  /** What one invocation of a test routine does to the harness, as seen from
      outside the routine: the nodes it attached under the runner, the
      argument of the last `wait!` it executed (`wait!` returns from the
      function it appears in, so several can run when a helper uses it), and
      whether it ended by panicking. */
  datatype Outcome = Outcome(spawned: seq<ChildId>, lastWait: Option<real>, panicked: bool)

  datatype State = State(
    registry: seq<RoutineId>,   // REGISTERED_TESTS, in registration order
    focused: Option<RoutineId>, // FOCUSED_TEST
    index: nat,                 // CURRENT_TEST_INDEX
    iteration: nat,             // CURRENT_TEST_ITERATION
    wantsReplay: bool,          // WANTS_REPLAY
    delay: real,                // DELAY_BEFORE_NEXT_TEST_RUN
    timeCounter: real,          // TestRunner.time_counter
    passes: nat,                // TestRunner.passes
    failures: nat,              // TestRunner.failures
    children: seq<ChildId>,     // the runner node's children
    quitRequested: bool,        // get_tree().quit() was called
    output: seq<string>)        // ".", "F" and summary lines, in print order

  /** The mark printed for a completed test: green "." or red "F". */
  function Mark(panicked: bool): string {
    if panicked then "F" else "."
  }

  /** Occurrences of `x` in `xs`. */
  function Count(xs: seq<string>, x: string): nat {
    if xs == [] then 0 else Count(xs[..|xs| - 1], x) + (if xs[|xs| - 1] == x then 1 else 0)
  }

  lemma {:induction false} CountAppend(xs: seq<string>, ys: seq<string>, x: string)
    ensures Count(xs + ys, x) == Count(xs, x) + Count(ys, x)
    decreases |ys|
  {
    if ys == [] {
      assert xs + ys == xs;
    } else {
      var init := ys[..|ys| - 1];
      assert (xs + ys)[..|xs + ys| - 1] == xs + init;
      CountAppend(xs, init, x);
    }
  }

  /** The bookkeeping the scheduler keeps consistent: every test slot left
      behind was counted exactly once, and the marks printed agree with the
      counters. */
  ghost predicate Valid(s: State) {
    s.passes + s.failures == s.index
    && Count(s.output, ".") == s.passes
    && Count(s.output, "F") == s.failures
  }

  /** The harness before anything has run: nothing counted, nothing
      printed, no focus, no replay pending, no quit requested. */
  predicate NotStarted(s: State) {
    s.index == 0 && s.passes == 0 && s.failures == 0 && s.output == []
    && s.focused.None? && !s.wantsReplay && !s.quitRequested
  }

  /** The harness when the runner is created: empty registry, no focus, all
      scheduler cells at their initial values (src/lib.rs:10-15) and the
      runner's fields zero (src/lib.rs:128-135). Its test slot is the one
      `cleanup` leaves behind. */
  function Initial(): (s: State)
    ensures NotStarted(s) && SlotReset(s)
    ensures s.registry == [] && s.timeCounter == 0.0
  {
    State([], None, 0, 0, false, 0.0, 0.0, 0, 0, [], false, [])
  }

  lemma InitialValid()
    ensures Valid(Initial())
  {
  }

  /** `test!` (src/lib.rs:46-51): push the routine at the back of the registry. */
  function AfterRegister(s: State, r: RoutineId): (t: State)
    ensures |t.registry| == |s.registry| + 1
    ensures t.registry[..|s.registry|] == s.registry && t.registry[|s.registry|] == r
    ensures t.(registry := s.registry) == s
  {
    s.(registry := s.registry + [r])
  }

  /** `focus!` (src/lib.rs:19-24): set the override, replacing any earlier one. */
  function AfterFocus(s: State, r: RoutineId): (t: State)
    ensures t.focused == Some(r)
    ensures t.(focused := s.focused) == s
  {
    s.(focused := Some(r))
  }

  /** `wait!` (src/lib.rs:37-43): ask for a replay after `millis`. The value
      is stored as given and later compared with the summed frame deltas. */
  function AfterWait(s: State, millis: real): (t: State)
    ensures t.wantsReplay && t.delay == millis
    ensures t.(wantsReplay := s.wantsReplay, delay := s.delay) == s
  {
    s.(wantsReplay := true, delay := millis)
  }

  /** `quit` (src/lib.rs:182-195): print the summary and ask the engine to quit. */
  function AfterQuit(s: State): (t: State)
    ensures t.quitRequested
    ensures t.output == s.output + [SummaryLine(s.passes, s.failures)]
    ensures t.(quitRequested := s.quitRequested, output := s.output) == s
  {
    s.(output := s.output + [SummaryLine(s.passes, s.failures)], quitRequested := true)
  }

  /** A fresh test slot: what `cleanup` leaves behind. */
  predicate SlotReset(s: State) {
    s.iteration == 0 && s.delay == 0.0 && !s.wantsReplay && s.focused.None? && s.children == []
  }

  /** `cleanup` (src/lib.rs:198-215): reset the per-test cells, drop the
      focus and free every child of the runner. */
  function AfterCleanup(s: State): (t: State)
    ensures SlotReset(t)
    ensures t.registry == s.registry && t.index == s.index
    ensures t.passes == s.passes && t.failures == s.failures
    ensures t.timeCounter == s.timeCounter && t.output == s.output
    ensures t.quitRequested == s.quitRequested
  {
    s.(iteration := 0, delay := 0.0, wantsReplay := false, focused := None, children := [])
  }

  /** The routine `run_test` selects (src/lib.rs:218-228): the override when
      one is set, otherwise the registered routine at the current index, if any. */
  function Active(s: State): Option<RoutineId> {
    if s.focused.Some? then s.focused
    else if s.index < |s.registry| then Some(s.registry[s.index])
    else None
  }

  /** The effect of the routine's own body: the nodes it attached, and its
      last `wait!` if it executed one. */
  function AfterInvoke(s: State, o: Outcome): State {
    var u := s.(children := s.children + o.spawned);
    if o.lastWait.Some? then AfterWait(u, o.lastWait.value) else u
  }

  /** Whether `run_test` takes the replay branch (src/lib.rs:240-248): the
      routine returned normally and a replay was pending when it did. */
  predicate Replays(s: State, o: Outcome) {
    !o.panicked && (s.wantsReplay || o.lastWait.Some?)
  }

  /** `run_test` (src/lib.rs:217-268): one advance of the scheduler. What it
      does on each of its three paths is stated by `RunTestNothingToRun`,
      `RunTestReplays` and `RunTestCompletes`. */
  function AfterRunTest(s: State, o: Outcome): (t: State)
    ensures t.registry == s.registry && t.timeCounter == s.timeCounter
  {
    if Active(s).None? then AfterQuit(s)
    else if Replays(s, o) then AfterReplay(s, o)
    else AfterCompletion(s, o)
  }

  /** The replay branch (src/lib.rs:241-248), after the routine has run. */
  function AfterReplay(s: State, o: Outcome): State {
    var u := AfterInvoke(s, o);
    u.(wantsReplay := false, iteration := u.iteration + 1)
  }

  /** The pass and failure branches (src/lib.rs:249-257) and what follows
      them (src/lib.rs:260-267), after the routine has run. */
  function AfterCompletion(s: State, o: Outcome): State {
    var cleaned := AfterCleanup(Counted(AfterInvoke(s, o), o.panicked));
    if s.focused.Some? then AfterQuit(cleaned) else cleaned
  }

  /** A completed test counted, its mark printed, and the index advanced. */
  function Counted(u: State, panicked: bool): State {
    if panicked then u.(failures := u.failures + 1, output := u.output + ["F"], index := u.index + 1)
    else u.(passes := u.passes + 1, output := u.output + ["."], index := u.index + 1)
  }

  /** Nothing to run (no focus, index past the registry): `run_test` prints
      the summary and asks to quit, and changes no scheduler cell or counter. */
  lemma RunTestNothingToRun(s: State, o: Outcome)
    requires Active(s).None?
    ensures var t := AfterRunTest(s, o);
      t.output == s.output + [SummaryLine(s.passes, s.failures)] && t.quitRequested
      && t.(output := s.output, quitRequested := s.quitRequested) == s
  {
  }

  /** Replay: a normal return with a replay pending keeps the slot. The
      iteration goes up by one and the request is consumed; index, counters,
      focus and children (plus any the routine attached) stay; the delay is
      the one the routine asked for; `quit` is not called, even under a focus. */
  lemma RunTestReplays(s: State, o: Outcome)
    requires Active(s).Some? && Replays(s, o)
    ensures var t := AfterRunTest(s, o);
      t.iteration == s.iteration + 1 && !t.wantsReplay
      && t.index == s.index && t.passes == s.passes && t.failures == s.failures
      && t.focused == s.focused && t.children == s.children + o.spawned
      && t.delay == (if o.lastWait.Some? then o.lastWait.value else s.delay)
      && t.output == s.output && t.quitRequested == s.quitRequested
  {
  }

  /** Completion: a panic (whatever was requested before it) or a return
      without a pending replay. Exactly one of the counters goes up by one,
      the index goes up by one, the slot is reset by `cleanup`, the mark is
      printed, and a run begun with a focus ends with the summary. */
  lemma RunTestCompletes(s: State, o: Outcome)
    requires Active(s).Some? && !Replays(s, o)
    ensures var t := AfterRunTest(s, o);
      t.index == s.index + 1
      && t.passes == s.passes + (if o.panicked then 0 else 1)
      && t.failures == s.failures + (if o.panicked then 1 else 0)
      && SlotReset(t)
      && t.output == s.output + [Mark(o.panicked)]
                     + (if s.focused.Some? then [SummaryLine(t.passes, t.failures)] else [])
      && t.quitRequested == (s.quitRequested || s.focused.Some?)
  {
  }

  /** Whether the frame with elapsed time `delta` fires a test run
      (src/lib.rs:170-174): the accumulated time strictly exceeds the delay. */
  predicate Fires(s: State, delta: real) {
    s.timeCounter + delta > s.delay
  }

  /** `process` (src/lib.rs:169-178): one frame. `o` is what the routine does
      if the frame fires a run. */
  function AfterProcess(s: State, delta: real, o: Outcome): (t: State)
    ensures t.timeCounter == if Fires(s, delta) then 0.0 else s.timeCounter + delta
    ensures !Fires(s, delta) ==> t.(timeCounter := s.timeCounter) == s
    ensures Fires(s, delta) ==> t == AfterRunTest(s.(timeCounter := 0.0), o)
  {
    var counter := s.timeCounter + delta;
    if counter > s.delay then AfterRunTest(s.(timeCounter := 0.0), o)
    else s.(timeCounter := counter)
  }

  /** Every operation keeps the bookkeeping consistent. */
  lemma RunTestKeepsValid(s: State, o: Outcome)
    requires Valid(s)
    ensures Valid(AfterRunTest(s, o))
  {
    if Active(s).None? {
      RunTestNothingToRun(s, o);
      QuitKeepsValid(s);
    } else if Replays(s, o) {
      RunTestReplays(s, o);
    } else {
      CompletionKeepsValid(s, o);
    }
  }

  lemma QuitKeepsValid(s: State)
    requires Valid(s)
    ensures Valid(AfterQuit(s))
  {
    var line := [SummaryLine(s.passes, s.failures)];
    CountAppend(s.output, line, ".");
    CountAppend(s.output, line, "F");
  }

  lemma CompletionKeepsValid(s: State, o: Outcome)
    requires Valid(s) && Active(s).Some? && !Replays(s, o)
    ensures Valid(AfterRunTest(s, o))
  {
    RunTestCompletes(s, o);
    var t := AfterRunTest(s, o);
    var extra := if s.focused.Some? then [SummaryLine(t.passes, t.failures)] else [];
    MarkKeepsTally(s, t, o.panicked, extra);
  }

  /** Counting one more completed test and printing its mark, possibly
      followed by a summary line, keeps the tally consistent. */
  lemma MarkKeepsTally(s: State, t: State, panicked: bool, extra: seq<string>)
    requires Valid(s)
    requires t.index == s.index + 1
    requires t.passes == s.passes + (if panicked then 0 else 1)
    requires t.failures == s.failures + (if panicked then 1 else 0)
    requires t.output == s.output + [Mark(panicked)] + extra
    requires forall i :: 0 <= i < |extra| ==> |extra[i]| > 1
    ensures Valid(t)
  {
    var mark := [Mark(panicked)];
    CountAppend(s.output, mark, ".");
    CountAppend(s.output, mark, "F");
    CountAppend(s.output + mark, extra, ".");
    CountAppend(s.output + mark, extra, "F");
    NoShortEntries(extra, ".");
    NoShortEntries(extra, "F");
  }

  lemma {:induction false} NoShortEntries(xs: seq<string>, x: string)
    requires |x| == 1
    requires forall i :: 0 <= i < |xs| ==> |xs[i]| > 1
    ensures Count(xs, x) == 0
    decreases |xs|
  {
    if xs != [] {
      NoShortEntries(xs[..|xs| - 1], x);
    }
  }

  lemma ProcessKeepsValid(s: State, delta: real, o: Outcome)
    requires Valid(s)
    ensures Valid(AfterProcess(s, delta, o))
  {
    if Fires(s, delta) {
      RunTestKeepsValid(s.(timeCounter := 0.0), o);
    }
  }

  /** The operations outside `run_test` leave the invariant alone: `test!`,
      `focus!` and `wait!` touch neither the counters, the index nor the
      output, and `cleanup` keeps all three. */
  lemma OtherOperationsKeepValid(s: State, r: RoutineId, millis: real)
    requires Valid(s)
    ensures Valid(AfterRegister(s, r)) && Valid(AfterFocus(s, r))
    ensures Valid(AfterWait(s, millis)) && Valid(AfterCleanup(s))
  {
  }

  /** The registry is only ever appended to: after any sequence of `test!`
      calls, the registry is the routines in registration order. */
  function AfterSetup(s: State, tests: seq<RoutineId>): (t: State)
    ensures t == s.(registry := s.registry + tests)
    decreases |tests|
  {
    if tests == [] then s
    else
      var t := AfterSetup(s, tests[..|tests| - 1]);
      assert s.registry + tests == t.registry + [tests[|tests| - 1]];
      AfterRegister(t, tests[|tests| - 1])
  }

  /** A later `focus!` overrides an earlier one; at most one override exists. */
  lemma FocusReplaces(s: State, r1: RoutineId, r2: RoutineId)
    ensures AfterFocus(AfterFocus(s, r1), r2) == AfterFocus(s, r2)
  {
  }

  /** Two `wait!`s in one invocation leave only the last one's delay. */
  lemma WaitLastWins(s: State, d1: real, d2: real)
    ensures AfterWait(AfterWait(s, d1), d2) == AfterWait(s, d2)
  {
  }

  /** Cleanup is idempotent. */
  lemma CleanupIdempotent(s: State)
    ensures AfterCleanup(AfterCleanup(s)) == AfterCleanup(s)
  {
  }
}
