/** The test runner node and the process-wide cells it drives, as one object
    whose fields are overwritten in place. Each method is proved to leave the
    object in the state the matching function of `Scheduler` gives. */
module Runner {
  import opened Summary
  import opened Scheduler

  class Harness {
    var registry: seq<RoutineId>     // REGISTERED_TESTS
    var focused: Option<RoutineId>   // FOCUSED_TEST
    var index: nat                   // CURRENT_TEST_INDEX
    var iteration: nat               // CURRENT_TEST_ITERATION
    var wantsReplay: bool            // WANTS_REPLAY
    var delay: real                  // DELAY_BEFORE_NEXT_TEST_RUN
    var timeCounter: real            // time_counter
    var passes: nat
    var failures: nat
    var children: seq<ChildId>       // the runner node's children
    var quitRequested: bool          // get_tree().quit() was called
    var output: seq<string>          // what the print macros wrote, without colours

    /** The harness as a value of the scheduler model. */
    function Snapshot(): State
      reads this
    {
      State(registry, focused, index, iteration, wantsReplay, delay, timeCounter,
            passes, failures, children, quitRequested, output)
    }

    /** `TestRunner::init` (src/lib.rs:128-135), together with the initial
        values of the process-wide cells (src/lib.rs:10-15). */
    constructor ()
      ensures Snapshot() == Initial()
    {
      registry, focused := [], None;
      index, iteration, wantsReplay, delay := 0, 0, false, 0.0;
      timeCounter, passes, failures := 0.0, 0, 0;
      children, quitRequested, output := [], false, [];
      new;
      assert Snapshot() == State([], None, 0, 0, false, 0.0, 0.0, 0, 0, [], false, []);
    }

    /** `test!` */
    method Register(r: RoutineId)
      modifies this
      ensures Snapshot() == AfterRegister(old(Snapshot()), r)
    {
      registry := registry + [r];
    }

    /** `focus!` */
    method Focus(r: RoutineId)
      modifies this
      ensures Snapshot() == AfterFocus(old(Snapshot()), r)
    {
      focused := Some(r);
    }

    /** `tick!` (src/lib.rs:27-34): the replay count of the running test. */
    method Tick() returns (i: nat)
      ensures i == iteration
    {
      i := iteration;
    }

    /** `wait!` up to its `return` (src/lib.rs:37-43). */
    method Wait(millis: real)
      modifies this
      ensures Snapshot() == AfterWait(old(Snapshot()), millis)
    {
      wantsReplay := true;
      delay := millis;
    }

    /** `quit` (src/lib.rs:182-195). */
    method Quit()
      modifies this
      ensures Snapshot() == AfterQuit(old(Snapshot()))
    {
      var total := passes + failures;
      var line;
      if failures > 0 {
        line := NatToString(total) + " examples, " + NatToString(failures) + " failures";
      } else {
        line := NatToString(passes) + " examples, 0 failures";
      }
      output := output + [line];
      quitRequested := true;
    }

    /** `cleanup` (src/lib.rs:198-215): each child freed leaves the runner's
        list of children. */
    method Cleanup()
      modifies this
      ensures Snapshot() == AfterCleanup(old(Snapshot()))
    {
      iteration := 0;
      delay := 0.0;
      wantsReplay := false;
      focused := None;
      var attached := children;
      for i := 0 to |attached|
        invariant children == attached[i..]
        invariant Snapshot() == AfterCleanup(old(Snapshot())).(children := attached[i..])
      {
        children := children[1..];
      }
    }

    /** The call of the routine inside `catch_unwind` (src/lib.rs:235-237),
        as far as the harness can see it: the routine attaches nodes under
        the runner and may execute `wait!`. */
    method Invoke(o: Outcome)
      modifies this
      ensures Snapshot() == AfterInvoke(old(Snapshot()), o)
    {
      children := children + o.spawned;
      if o.lastWait.Some? {
        Wait(o.lastWait.value);
      }
    }

    /** `run_test` (src/lib.rs:217-268). The routine's call inside
        `catch_unwind` is replaced by its outcome `o`: the nodes it attaches,
        the `wait!` it executes and whether it panics. Returns the routine it
        invoked, if any. */
    method RunTest(o: Outcome) returns (invoked: Option<RoutineId>)
      modifies this
      ensures invoked == Active(old(Snapshot()))
      ensures Snapshot() == AfterRunTest(old(Snapshot()), o)
    {
      ghost var before := Snapshot();
      var focus := focused;
      if focus.Some? {
        invoked := focus;
      } else if index < |registry| {
        invoked := Some(registry[index]);
      } else {
        invoked := None;
      }
      if invoked.None? {
        Quit();
        assert Snapshot() == AfterRunTest(before, o);
        return;
      }
      Invoke(o);
      if !o.panicked && wantsReplay {
        wantsReplay := false;
        iteration := iteration + 1;
        assert Snapshot() == AfterReplay(before, o);
        return;
      }
      Record(o.panicked);
      Cleanup();
      if focus.Some? {
        Quit();
      }
      assert Snapshot() == AfterCompletion(before, o);
    }

    /** The tally step of `run_test` (src/lib.rs:249-262): a passing test
        prints "." and a panicking one "F", each is counted, and the index
        moves on. */
    method Record(panicked: bool)
      modifies this
      ensures Snapshot() == Counted(old(Snapshot()), panicked)
    {
      if panicked {
        failures := failures + 1;
        output := output + ["F"];
      } else {
        passes := passes + 1;
        output := output + ["."];
      }
      index := index + 1;
    }

    /** `process` (src/lib.rs:169-178): one frame of `delta` elapsed time.
        `o` is what the routine does if the frame runs it. Returns whether
        `run_test` was called. */
    method Process(delta: real, o: Outcome) returns (fired: bool)
      modifies this
      ensures fired == Fires(old(Snapshot()), delta)
      ensures Snapshot() == AfterProcess(old(Snapshot()), delta, o)
    {
      timeCounter := timeCounter + delta;
      var currentDelay := delay;
      fired := timeCounter > currentDelay;
      if fired {
        timeCounter := 0.0;
        var _ := RunTest(o);
      }
    }
  }
}
