# A verified model of the replay-driven test scheduler

The repository is a test harness for Godot that is written in Rust. Tests are
registered with `test!`, or singled out with `focus!`. A `TestRunner` node
runs them one at a time from its per-frame `process` callback.

A test cannot suspend itself. Instead it executes `wait!(d)`, which stores
a delay and a replay request and returns. `run_test` then invokes the same
routine again once more than `d` of frame time has passed. The routine reads
`tick!` to learn how many times it has already been replayed. Each
invocation runs inside `catch_unwind`. When the routine returns without a
pending replay, it counts as a pass and prints a green ".". When it panics,
it counts as a failure and prints a red "F". After either, the index moves
on and `cleanup` resets the per-test cells and frees the runner's children.
When no routine is left, or after a focused routine completes, `quit`
prints "<total> examples, <failures> failures" and asks the engine to quit.

The project has four modules:

- `Summary` (summary.dfy) renders the summary line. It proves that the
  decimal rendering round-trips, and that the line determines the tally.
- `Scheduler` (scheduler.dfy) is the specification. `State` holds every
  cell of the harness: the registry, the focus override, the four scheduler
  cells, the runner's counters and children, the quit request and the text
  printed. There is one function `After…` per operation. Lemmas cover the
  three paths of `run_test` and the bookkeeping invariant `Valid`.
- `Runs` (runs.dfy) proves properties of sequences of calls. These are the
  replay slot of one test, focus mode, whole runs with and without
  replays, and the frame-time throttling in `process`.
- `Runner` (runner.dfy) is the imperative model. The class `Harness` has
  the source's fields, which its methods overwrite in place. Each method
  ensures `Snapshot() == After…(old(Snapshot()), …)`.

A test routine's body is not modelled. Each invocation is described by an
`Outcome`:

- the nodes it attached under the runner;
- the argument of the last `wait!` it executed, if any;
- whether it panicked.

`wait!` expands to a `return` from the function it is written in (src/lib.rs:37-43).
A routine that calls `wait!` inside a helper can therefore execute more
than one `wait!` in an invocation, or wait and then panic. The model follows
the code here: only the last delay matters, and a panic wins over a
pending replay. This differs from the stronger reading that nothing runs
after a replay request.

The macro's argument is named `millis`, but it is stored unchanged and
compared with the summed frame deltas (src/lib.rs:40, 172-174). The model
does the same and applies no unit conversion.

## Model

| member | source | states |
|---|---|---|
| Summary.NatToString | src/lib.rs:188-190 | the `{}` rendering of a count is a non-empty string of decimal digits with no leading zero |
| Summary.ParseNatToString | src/lib.rs:188-190 | reading the rendered digits back gives the count again, so the printed counts lose nothing |
| Summary.NatToStringInjective | src/lib.rs:188-190 | two different counts never print the same way |
| Summary.SummaryLine | src/lib.rs:182-191 | the line `quit` prints, chosen by whether there were failures; it is never empty |
| Summary.SummaryShape | src/lib.rs:185-191 | both branches print the same shape: the total (passes plus failures), then the number of failures |
| Summary.SummaryDetermines | src/lib.rs:185-191 | equal summary lines mean equal totals and equal failure counts, so the line determines the tally |
| Summary.SummaryAllPassed | src/lib.rs:189-190 | five passes and no failures print "5 examples, 0 failures" |
| Summary.SummaryWithFailures | src/lib.rs:185-188 | three passes and two failures print "5 examples, 2 failures" |
| Scheduler.Initial | src/lib.rs:10-15 | the start state: empty registry, no focus, index, iteration and delay zero, no replay pending, the counters and frame time zero, nothing printed, no children, no quit requested; its slot is the one `cleanup` leaves |
| Scheduler.InitialValid | src/lib.rs:128-135 | the start state satisfies the bookkeeping invariant |
| Scheduler.CountAppend | src/lib.rs:251 | counting the marks in printed text distributes over concatenation |
| Scheduler.AfterRegister | src/lib.rs:46-51 | `test!` appends the routine at the back of the registry, keeps the earlier entries in order and changes nothing else |
| Scheduler.AfterSetup | src/lib.rs:46-51 | any sequence of `test!` calls leaves the registry as the old one followed by the routines in registration order, and nothing else changed |
| Scheduler.AfterFocus | src/lib.rs:19-24 | `focus!` sets the override to the routine and changes nothing else |
| Scheduler.FocusReplaces | src/lib.rs:19-24 | a later `focus!` replaces an earlier one |
| Scheduler.AfterWait | src/lib.rs:37-43 | `wait!` sets the replay request and stores the delay as given, and changes nothing else |
| Scheduler.WaitLastWins | src/lib.rs:37-43 | of two `wait!`s, only the last one's delay remains |
| Scheduler.AfterQuit | src/lib.rs:182-195 | `quit` appends the summary of the current counters to the output and requests quitting, and changes nothing else |
| Scheduler.AfterCleanup | src/lib.rs:198-215 | `cleanup` resets iteration, delay, the replay request and the focus, frees every child, and keeps the registry, index, counters, time, output and quit request |
| Scheduler.CleanupIdempotent | src/lib.rs:198-215 | cleaning twice is the same as cleaning once |
| Scheduler.AfterRunTest | src/lib.rs:217-268 | `run_test` changes neither the registry nor the frame-time counter |
| Scheduler.RunTestNothingToRun | src/lib.rs:223-233 | with no focus and the index past the registry, `run_test` only prints the summary and requests quitting |
| Scheduler.RunTestReplays | src/lib.rs:235-248 | when the routine returns normally with a replay pending, the iteration goes up by one and the request is cleared; the delay is kept and the children attached; the index, counters, focus and output are untouched |
| Scheduler.RunTestCompletes | src/lib.rs:239-267 | otherwise the routine is counted once, as a pass or (if it panicked) as a failure; its mark is printed, the index advances and the slot is reset; under a focus the summary follows and quitting is requested |
| Scheduler.AfterProcess | src/lib.rs:169-178 | a frame adds its delta; only when the total passes the delay is the counter reset to zero and `run_test` called, otherwise nothing else changes |
| Scheduler.RunTestKeepsValid | src/lib.rs:249-262 | `run_test` preserves the invariant: passes plus failures equals the index, and the printed "." and "F" marks match the counters |
| Scheduler.QuitKeepsValid | src/lib.rs:182-195 | printing the summary does not disturb the mark counts |
| Scheduler.CompletionKeepsValid | src/lib.rs:249-267 | the completion path keeps the invariant, including when a focused test also prints the summary |
| Scheduler.MarkKeepsTally | src/lib.rs:249-262 | one counter plus one and its mark printed, followed by summary lines, keeps the marks in step with the counters |
| Scheduler.NoShortEntries | src/lib.rs:188-190 | summary lines are never mistaken for a mark |
| Scheduler.ProcessKeepsValid | src/lib.rs:169-178 | a frame preserves the invariant |
| Scheduler.OtherOperationsKeepValid | src/lib.rs:19-51 | `test!`, `focus!`, `wait!` and `cleanup` each preserve the invariant |
| Runs.RunsKeepValid | src/lib.rs:217-268 | any number of `run_test` calls preserve the invariant |
| Runs.ReplaySlot | src/lib.rs:27-43 | a routine that waits K times and then completes is invoked K+1 times; `tick!` reads iteration, iteration+1, … on successive invocations; it is counted once, its slot advances and is reset |
| Runs.FocusedSlot | src/lib.rs:218-267 | a focused routine is the one invoked on every replay, whatever the registry; its completion prints its mark then the summary, requests quitting, and removes the focus |
| Runs.CompletionAdvances | src/lib.rs:226-262 | without focus, a non-replaying routine is the one at the index, and the next call starts at the next index with no focus and no replay pending |
| Runs.CompletionCounts | src/lib.rs:249-262 | the same call counts the routine once, as a pass or a failure, prints its mark and does not quit |
| Runs.NoReplayRun | src/lib.rs:217-262 | a run without focus and without replays counts each invocation once, prints one mark per invocation in order, and does not quit |
| Runs.NoReplayOrder | src/lib.rs:226-227 | the same run invokes the registered routines in registration order from the current index |
| Runs.RunEnds | src/lib.rs:223-233 | once the registry is exhausted, the summary names the number of registered tests as the total |
| Runs.FullRun | src/lib.rs:217-268 | registering tests and running each once invokes them in order; the next call prints their marks followed by "<tests> examples, <panics> failures" and quits |
| Runs.SlotWithoutFocus | src/lib.rs:240-262 | without focus, a slot of K waits and a completion is counted once, prints its mark, and leaves the next slot at the next index with nothing pending |
| Runs.SlotInvokes | src/lib.rs:226-237 | the same slot invokes the routine at the index K+1 times |
| Runs.SlotsTally | src/lib.rs:217-262 | a run of slots without focus, whatever the replays, advances the index by the number of slots, counts each slot once (failures = slots whose completion panicked), prints one mark per slot in order and does not quit |
| Runs.SlotsOrder | src/lib.rs:226-237 | the same run invokes the registered routines from the index in registration order, each once per invocation of its slot |
| Runs.FullReplayRun | src/lib.rs:217-268 | registering tests then playing one slot per test, with any replays, invokes each test in registration order once per invocation of its slot; the next call prints one mark per test and "<tests> examples, <failed slots> failures", and quits |
| Runs.QuietFrames | src/lib.rs:169-178 | while the accumulated frame time stays at or below the delay, frames only accumulate time |
| Runs.FiresWhenDelayPassed | src/lib.rs:169-178 | the first frame that takes the accumulated time past the delay calls `run_test`, with the counter back at zero |
| Runner.Harness.constructor | src/lib.rs:128-135 | a new runner is in the start state |
| Runner.Harness.Register | src/lib.rs:46-51 | updates the registry in place as `AfterRegister` says |
| Runner.Harness.Focus | src/lib.rs:19-24 | sets the override in place as `AfterFocus` says |
| Runner.Harness.Tick | src/lib.rs:27-34 | returns the current iteration and changes nothing |
| Runner.Harness.Wait | src/lib.rs:37-43 | sets the replay request and delay in place as `AfterWait` says |
| Runner.Harness.Quit | src/lib.rs:182-195 | builds the line in the source's two branches and reaches `AfterQuit`'s state |
| Runner.Harness.Cleanup | src/lib.rs:198-215 | frees the children one at a time in a loop, and reaches `AfterCleanup`'s state |
| Runner.Harness.Invoke | src/lib.rs:235-237 | the routine's visible effect: attached children and its last `wait!` |
| Runner.Harness.Record | src/lib.rs:249-261 | counts a pass or a failure, prints its mark and advances the index |
| Runner.Harness.RunTest | src/lib.rs:217-268 | returns the routine that the selection picks (the override, else the one at the index, else none) and reaches `AfterRunTest`'s state |
| Runner.Harness.Process | src/lib.rs:169-178 | reports whether the frame fired a run, and reaches `AfterProcess`'s state |

## Left out

- The panic hook of `ready` and its backtrace filtering (src/lib.rs:137-167) are not modelled. They only format diagnostics for a panic. The blank line `ready` prints is not modelled either.
- The colour macros (src/lib.rs:53-98) are not modelled. The output log holds the printed text without ANSI colour codes, without the two leading newlines of the summary, and without flushing.
- `assert_approx_eq` (src/lib.rs:100-114) compares floating-point values. The model has no floating point; the macro only matters as one way for a test to panic, which `Outcome.panicked` covers.
- The `Mutex` and `lazy_static` wrappers are not modelled, and neither is concurrency. The cells are plain fields of one object.
- `test!` from inside a running test is not modelled. `run_test` holds the registry lock across the call (src/lib.rs:219, 235-237), so re-locking it from the same thread blocks or panics.
- `focus!` from inside a running test is not modelled. The focus lock is released before the call (src/lib.rs:218), so it succeeds. On the replay path the new override survives (src/lib.rs:241-248), and the next `run_test` runs the newly focused routine with the index and iteration carried over, then quits after it completes. On the completion path `cleanup` clears it (src/lib.rs:208-209). `Outcome` does not carry a focus change.
- Scheduler.AfterProcess: `f64` time and delays are modelled as exact reals, so rounding in the summed deltas is not modelled.
- Runner.Harness.Record: `usize` counters and the index are unbounded naturals, so overflow is not modelled.
- A routine's body is abstract. Only its visible effect (attached children, last `wait!`, panic) is modelled. `tick!` values are proved for each invocation (Runs.ReplaySlot), but what a body does with them is not.
- Freeing a Godot node and `get_tree().quit()` are modelled as removing the node from the runner's children and as a flag. The engine's own shutdown is outside the model. The source does not stop calling `process` after `quit`, and neither does the model.
- Runner.Harness: the class carries no invariant of its own. The bookkeeping invariant is proved on the specification functions its methods are tied to (Scheduler.RunTestKeepsValid, Scheduler.ProcessKeepsValid).
