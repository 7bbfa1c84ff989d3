/** Starting and stopping the sidecar from the Codex wrapper (adapters/codex-pty/wrapper.js). Every
    stretch of code between two awaits is one step; awaited work may finish in any order. */
module Wrapper {
  import opened Wrappers

  datatype Status = Enabled | Disabled | AwaitingThread | Failed

  /** Where a control request stands. `EnableStopping` waits for `sidecar.stop()` and has read the
      thread state before; the numbers say which `sidecar.start()` is awaited. */
  datatype Task =
    | EnableStopping(ready: bool)
    | EnableStarting(start: nat)
    | DisableWaiting(start: nat)
    | DisableStopping
    | Done(status: Status)

  datatype Watch = NoWatch | Watching | WatchStarting(start: nat) | WatchEnding

  /** The module's variables; `starting` are the calls of `sidecar.start()` under way, `starts` how
      many have been made, and `tasks` the control requests so far. */
  datatype State = State(sidecarStarted: bool, desiredEnabled: bool, enablePromise: Option<nat>, watch: Watch,
                         lastError: Option<string>, starts: nat, starting: set<nat>, tasks: seq<Task>)

  const FRESH: State := State(false, false, None, NoWatch, None, 0, {}, [])

  datatype Step =
    | Enable(profileChanged: bool, ready: bool)
    | EnableStopped(task: nat, error: Option<string>)
    | EnableWoken(task: nat)
    | Disable
    | DisableWoken(task: nat)
    | DisableStopped(task: nat, error: Option<string>)
    | StartDone(start: nat, error: Option<string>)
    | ThreadFound
    | ThreadMissing(thrown: Option<string>)
    | WatchWoken
    | WatchDone

  // ---- the steps as functions ----------------------------------------------------------------------

  /** startSidecarNow up to its await: the start to wait for, if there is one. */
  function StartSidecarNow(s: State): (State, Option<nat>) {
    if s.sidecarStarted then (s, None)
    else if s.enablePromise.Some? then (s, s.enablePromise)
    else (s.(enablePromise := Some(s.starts), starts := s.starts + 1, starting := s.starting + {s.starts}),
      Some(s.starts))
  }

  /** enableBus once the sidecar does not run. */
  function EnableRest(s: State, ready: bool): (State, Task) {
    if !ready then
      (s.(lastError := None, watch := if s.watch.NoWatch? then Watching else s.watch), Done(AwaitingThread))
    else
      var (s1, start) := StartSidecarNow(s);
      (s1, if start.Some? then EnableStarting(start.value) else Done(Enabled))
  }

  function EnableArrives(s: State, profileChanged: bool, ready: bool): (State, Task) {
    var s1 := s.(desiredEnabled := true);
    if !s.sidecarStarted then EnableRest(s1, ready)
    else if profileChanged then (s1, EnableStopping(ready))
    else (s1, Done(Enabled))
  }

  function EnableContinues(s: State, ready: bool, error: Option<string>): (State, Task) {
    if error.Some? then (s.(lastError := error), Done(Failed))
    else EnableRest(s.(sidecarStarted := false, lastError := None), ready)
  }

  function DisableRest(s: State): Task {
    if s.sidecarStarted then DisableStopping else Done(Disabled)
  }

  function DisableArrives(s: State): (State, Task) {
    var s1 := s.(desiredEnabled := false);
    (s1, if s.enablePromise.Some? then DisableWaiting(s.enablePromise.value) else DisableRest(s1))
  }

  function DisableEnds(s: State, error: Option<string>): (State, Task) {
    if error.Some? then (s.(lastError := error), Done(Failed))
    else (s.(sidecarStarted := false, lastError := None), Done(Disabled))
  }

  function StartEnds(s: State, start: nat, error: Option<string>): State {
    s.(starting := s.starting - {start}, enablePromise := None, lastError := error,
       sidecarStarted := s.sidecarStarted || error.None?)
  }

  function WatchContinues(s: State): State {
    if s.desiredEnabled && !s.sidecarStarted then
      var (s1, start) := StartSidecarNow(s);
      s1.(watch := if start.Some? then WatchStarting(start.value) else WatchEnding)
    else s.(watch := WatchEnding)
  }

  function WatchFails(s: State, thrown: Option<string>): State {
    s.(watch := WatchEnding,
       lastError := if thrown.Some? then thrown
                    else if s.desiredEnabled then Some("thread_id_not_available") else s.lastError)
  }

  function Add(r: (State, Task)): State { r.0.(tasks := r.0.tasks + [r.1]) }

  function Update(r: (State, Task), k: nat): State
    requires k < |r.0.tasks|
  {
    r.0.(tasks := r.0.tasks[k := r.1])
  }

  /** The task is there, and what it waits for is over. */
  predicate Ready(s: State, step: Step) {
    match step
    case Enable(_, _) => true
    case Disable => true
    case EnableStopped(k, _) => k < |s.tasks| && s.tasks[k].EnableStopping?
    case EnableWoken(k) => k < |s.tasks| && s.tasks[k].EnableStarting? && s.tasks[k].start !in s.starting
    case DisableWoken(k) => k < |s.tasks| && s.tasks[k].DisableWaiting? && s.tasks[k].start !in s.starting
    case DisableStopped(k, _) => k < |s.tasks| && s.tasks[k].DisableStopping?
    case StartDone(n, _) => n in s.starting
    case ThreadFound => s.watch.Watching?
    case ThreadMissing(_) => s.watch.Watching?
    case WatchWoken => s.watch.WatchStarting? && s.watch.start !in s.starting
    case WatchDone => s.watch.WatchEnding?
  }

  function Next(s: State, step: Step): State
    requires Ready(s, step)
  {
    match step
    case Enable(profileChanged, ready) => Add(EnableArrives(s, profileChanged, ready))
    case EnableStopped(k, error) => Update(EnableContinues(s, s.tasks[k].ready, error), k)
    case EnableWoken(k) => Update((s, Done(if s.sidecarStarted then Enabled else Failed)), k)
    case Disable => Add(DisableArrives(s))
    case DisableWoken(k) => Update((s, DisableRest(s)), k)
    case DisableStopped(k, error) => Update(DisableEnds(s, error), k)
    case StartDone(n, error) => StartEnds(s, n, error)
    case ThreadFound => WatchContinues(s)
    case ThreadMissing(thrown) => WatchFails(s, thrown)
    case WatchWoken => s.(watch := WatchEnding)
    case WatchDone => s.(watch := NoWatch)
  }

  /** A run: steps that are not ready do not happen. */
  function Run(s: State, steps: seq<Step>): State {
    if steps == [] then s
    else
      var before := Run(s, steps[..|steps| - 1]);
      if Ready(before, steps[|steps| - 1]) then Next(before, steps[|steps| - 1]) else before
  }

  // ---- the module ------------------------------------------------------------------------------------

  class Bus {
    var sidecarStarted: bool
    var desiredEnabled: bool
    var enablePromise: Option<nat>
    var watch: Watch
    var lastError: Option<string>
    var starts: nat
    ghost var starting: set<nat>
    var tasks: seq<Task>

    ghost function Contents(): State
      reads this
    {
      State(sidecarStarted, desiredEnabled, enablePromise, watch, lastError, starts, starting, tasks)
    }

    constructor ()
      ensures Contents() == FRESH
    {
      sidecarStarted, desiredEnabled, enablePromise, watch, lastError := false, false, None, NoWatch, None;
      starts, starting, tasks := 0, {}, [];
    }

    method StartSidecar() returns (start: Option<nat>)
      modifies this
      ensures (Contents(), start) == StartSidecarNow(old(Contents()))
    {
      start := None;
      if !sidecarStarted {
        if enablePromise.None? {
          enablePromise, starting, starts := Some(starts), starting + {starts}, starts + 1;
        }
        start := enablePromise;
      }
    }

    /** The end of enableBus, for a request whose place in `tasks` is `k`. */
    method FinishEnable(ready: bool, k: nat)
      requires k < |tasks|
      modifies this
      ensures Contents() == Update(EnableRest(old(Contents()), ready), k)
    {
      if !ready {
        lastError := None;
        if watch.NoWatch? {
          watch := Watching;
        }
        tasks := tasks[k := Done(AwaitingThread)];
      } else {
        var start := StartSidecar();
        tasks := tasks[k := if start.Some? then EnableStarting(start.value) else Done(Enabled)];
      }
    }

    method EnableBus(profileChanged: bool, ready: bool)
      modifies this
      ensures Contents() == Next(old(Contents()), Enable(profileChanged, ready))
    {
      desiredEnabled := true;
      if sidecarStarted {
        tasks := tasks + [if profileChanged then EnableStopping(ready) else Done(Enabled)];
      } else {
        ghost var before := tasks;
        tasks := tasks + [Done(Failed)];
        FinishEnable(ready, |tasks| - 1);
        assert (before + [Done(Failed)])[|before| := tasks[|before|]] == before + [tasks[|before|]];
      }
    }

    method EnableAfterStop(k: nat, error: Option<string>)
      requires Ready(Contents(), EnableStopped(k, error))
      modifies this
      ensures Contents() == Next(old(Contents()), EnableStopped(k, error))
    {
      var ready := tasks[k].ready;
      if error.Some? {
        lastError := error;
        tasks := tasks[k := Done(Failed)];
      } else {
        sidecarStarted, lastError := false, None;
        FinishEnable(ready, k);
      }
    }

    method DisableBus()
      modifies this
      ensures Contents() == Next(old(Contents()), Disable)
    {
      desiredEnabled := false;
      if enablePromise.Some? {
        tasks := tasks + [DisableWaiting(enablePromise.value)];
      } else {
        tasks := tasks + [if sidecarStarted then DisableStopping else Done(Disabled)];
      }
    }

    method DisableAfterStart(k: nat)
      requires Ready(Contents(), DisableWoken(k))
      modifies this
      ensures Contents() == Next(old(Contents()), DisableWoken(k))
    {
      tasks := tasks[k := if sidecarStarted then DisableStopping else Done(Disabled)];
    }

    method DisableAfterStop(k: nat, error: Option<string>)
      requires Ready(Contents(), DisableStopped(k, error))
      modifies this
      ensures Contents() == Next(old(Contents()), DisableStopped(k, error))
    {
      if error.Some? {
        lastError := error;
        tasks := tasks[k := Done(Failed)];
      } else {
        sidecarStarted, lastError := false, None;
        tasks := tasks[k := Done(Disabled)];
      }
    }

    /** `sidecar.start()` has settled. */
    method SidecarStarted(start: nat, error: Option<string>)
      requires Ready(Contents(), StartDone(start, error))
      modifies this
      ensures Contents() == Next(old(Contents()), StartDone(start, error))
    {
      if error.None? {
        sidecarStarted := true;
      }
      lastError := error;
      enablePromise, starting := None, starting - {start};
    }

    method ThreadReady()
      requires Ready(Contents(), ThreadFound)
      modifies this
      ensures Contents() == Next(old(Contents()), ThreadFound)
    {
      if desiredEnabled && !sidecarStarted {
        var start := StartSidecar();
        watch := if start.Some? then WatchStarting(start.value) else WatchEnding;
      } else {
        watch := WatchEnding;
      }
    }

    method ThreadNotReady(thrown: Option<string>)
      requires Ready(Contents(), ThreadMissing(thrown))
      modifies this
      ensures Contents() == Next(old(Contents()), ThreadMissing(thrown))
    {
      if thrown.Some? {
        lastError := thrown;
      } else if desiredEnabled {
        lastError := Some("thread_id_not_available");
      }
      watch := WatchEnding;
    }
  }

  // ---- at most one start -----------------------------------------------------------------------------

  /** The promise is set exactly while a start is under way, and there is never more than one. */
  ghost predicate OneStart(s: State) {
    && s.starting == (if s.enablePromise.Some? then {s.enablePromise.value} else {})
    && (forall n :: n in s.starting ==> n < s.starts)
  }

  lemma StepKeepsOneStart(s: State, step: Step)
    requires OneStart(s) && Ready(s, step)
    ensures OneStart(Next(s, step))
  {
  }

  /** Under every interleaving at most one `sidecar.start()` is under way. */
  lemma {:induction false} AtMostOneStart(steps: seq<Step>)
    ensures OneStart(Run(FRESH, steps)) && |Run(FRESH, steps).starting| <= 1
  {
    if steps != [] {
      var init := steps[..|steps| - 1];
      AtMostOneStart(init);
      if Ready(Run(FRESH, init), steps[|steps| - 1]) {
        StepKeepsOneStart(Run(FRESH, init), steps[|steps| - 1]);
      }
    }
  }

  // ---- a disable is final --------------------------------------------------------------------------------

  /** An enable that changes the profile has stopped the sidecar in order to start it again. */
  predicate Restarting(s: State) {
    exists k :: 0 <= k < |s.tasks| && s.tasks[k] == EnableStopping(true)
  }

  /** From its arrival on, disable request `d` leaves no start behind. */
  ghost predicate Settling(s: State, d: nat) {
    && OneStart(s) && !s.desiredEnabled && !Restarting(s) && d < |s.tasks|
    && match s.tasks[d]
       case DisableWaiting(n) => s.starting <= {n}
       case DisableStopping => s.starting == {}
       case Done(status) => s.starting == {} && (status == Disabled ==> !s.sidecarStarted)
       case _ => false
  }

  lemma StepKeepsSettling(s: State, step: Step, d: nat)
    requires Settling(s, d) && Ready(s, step) && !step.Enable?
    ensures Settling(Next(s, step), d)
    ensures s.tasks[d].Done? ==> Next(s, step).tasks[d] == s.tasks[d]
  {
    StepKeepsOneStart(s, step);
  }

  predicate NoEnable(steps: seq<Step>) {
    forall k :: 0 <= k < |steps| ==> !steps[k].Enable?
  }

  lemma {:induction false} RunKeepsSettling(s: State, steps: seq<Step>, d: nat)
    requires Settling(s, d) && NoEnable(steps)
    ensures Settling(Run(s, steps), d)
    ensures s.tasks[d].Done? ==> Run(s, steps).tasks[d] == s.tasks[d]
  {
    if steps != [] {
      var init := steps[..|steps| - 1];
      RunKeepsSettling(s, init, d);
      if Ready(Run(s, init), steps[|steps| - 1]) {
        StepKeepsSettling(Run(s, init), steps[|steps| - 1], d);
      }
    }
  }

  /** A disable that arrives in `s` is undone: it answers `disabled` after some steps, and after some
      more the sidecar runs again, though no enable has arrived since. */
  ghost predicate Undone(s: State, first: seq<Step>, later: seq<Step>) {
    && NoEnable(first) && NoEnable(later)
    && var answered := Run(Next(s, Disable), first);
       && |s.tasks| < |answered.tasks| && answered.tasks[|s.tasks|] == Done(Disabled)
       && Run(answered, later).sidecarStarted
  }

  lemma NotUndone(s: State, first: seq<Step>, later: seq<Step>)
    requires OneStart(s) && !Restarting(s)
    ensures !Undone(s, first, later)
  {
    var d := |s.tasks|;
    var arrived := Next(s, Disable);
    assert arrived.tasks[..d] == s.tasks && !arrived.tasks[d].EnableStopping?;
    assert Settling(arrived, d);
    if Undone(s, first, later) {
      RunKeepsSettling(arrived, first, d);
      RunKeepsSettling(Run(arrived, first), later, d);
    }
  }

  lemma RunNothing(s: State)
    ensures Run(s, []) == s
  {
  }

  lemma RunSnoc(s: State, steps: seq<Step>, step: Step)
    ensures Run(s, steps + [step])
            == if Ready(Run(s, steps), step) then Next(Run(s, steps), step) else Run(s, steps)
  {
    assert (steps + [step])[..|steps|] == steps;
  }

  /** The disable can be answered while the stop of the restarting enable is still awaited. */
  lemma DisableAnswers(s: State, k: nat) returns (first: seq<Step>)
    requires OneStart(s) && k < |s.tasks| && s.tasks[k] == EnableStopping(true)
    ensures NoEnable(first)
    ensures var x := Run(Next(s, Disable), first);
            && |x.tasks| == |s.tasks| + 1 && x.tasks[|s.tasks|] == Done(Disabled)
            && x.tasks[k] == EnableStopping(true) && x.enablePromise.None? && !x.sidecarStarted
  {
    hide Run;
    var d := |s.tasks|;
    var s1 := Next(s, Disable);
    RunNothing(s1);
    first := [];
    if s1.tasks[d].DisableWaiting? {
      RunTwo(s1, StartDone(s1.tasks[d].start, None), DisableWoken(d));
      first := [StartDone(s1.tasks[d].start, None), DisableWoken(d)];
    }
    var x := Run(s1, first);
    if x.tasks[d].DisableStopping? {
      RunSnoc(s1, first, DisableStopped(d, None));
      first := first + [DisableStopped(d, None)];
    }
  }

  lemma RunTwo(x: State, a: Step, b: Step)
    requires Ready(x, a) && Ready(Next(x, a), b)
    ensures Run(x, [a, b]) == Next(Next(x, a), b)
  {
    hide Ready, Next;
    assert [a, b][..1] == [a] && [a][..0] == [];
    assert Run(x, [a]) == Next(Run(x, []), a);
  }

  lemma RestartFollows(x: State, k: nat)
    requires k < |x.tasks| && x.tasks[k] == EnableStopping(true) && x.enablePromise.None?
    ensures Run(x, [EnableStopped(k, None), StartDone(x.starts, None)]).sidecarStarted
  {
    hide Run;
    assert Ready(x, EnableStopped(k, None));
    RunTwo(x, EnableStopped(k, None), StartDone(x.starts, None));
  }

  /** A disable can be undone without a later enable exactly when, at its arrival, an enable that
      changes the profile is waiting for the sidecar to stop. Enables that wait for their start,
      other disables and the thread watcher do no harm in any interleaving. */
  lemma DisableIsUndoneIffRestarting(s: State)
    requires OneStart(s)
    ensures (exists first, later :: Undone(s, first, later)) <==> Restarting(s)
  {
    if Restarting(s) {
      var k :| 0 <= k < |s.tasks| && s.tasks[k] == EnableStopping(true);
      var first := DisableAnswers(s, k);
      var x := Run(Next(s, Disable), first);
      RestartFollows(x, k);
      var later := [EnableStopped(k, None), StartDone(x.starts, None)];
      assert Undone(s, first, later);
    } else {
      forall first, later
        ensures !Undone(s, first, later)
      {
        NotUndone(s, first, later);
      }
    }
  }

  /** So when control requests come one at a time, in any run, a disable that has been answered with
      `disabled` keeps the sidecar off, and no start under way, until the next enable. */
  lemma DisableIsFinal(before: seq<Step>, first: seq<Step>, later: seq<Step>)
    requires var s := Run(FRESH, before); forall k :: 0 <= k < |s.tasks| ==> s.tasks[k].Done?
    requires NoEnable(first) && NoEnable(later)
    requires var s := Run(FRESH, before);
             var answered := Run(Next(s, Disable), first);
             |s.tasks| < |answered.tasks| && answered.tasks[|s.tasks|] == Done(Disabled)
    ensures var s := Run(FRESH, before);
            var end := Run(Run(Next(s, Disable), first), later);
            !end.sidecarStarted && end.starting == {} && !end.desiredEnabled
  {
    AtMostOneStart(before);
    var s := Run(FRESH, before);
    var d := |s.tasks|;
    var arrived := Next(s, Disable);
    assert arrived.tasks[..d] == s.tasks;
    assert Settling(arrived, d);
    RunKeepsSettling(arrived, first, d);
    RunKeepsSettling(Run(arrived, first), later, d);
  }

  /** The overlap happens: the sidecar runs and an enable with a new profile arrives. */
  lemma RestartHappens()
    ensures Restarting(Run(FRESH, [Enable(false, true), StartDone(0, None), Enable(true, true)]))
  {
    var a, b, c := Enable(false, true), StartDone(0, None), Enable(true, true);
    RunSnoc(FRESH, [], a);
    RunSnoc(FRESH, [a], b);
    RunSnoc(FRESH, [a, b], c);
    assert [] + [a] == [a] && [a] + [b] == [a, b] && [a, b] + [c] == [a, b, c];
    assert Run(FRESH, [a, b, c]).tasks[1] == EnableStopping(true);
  }

  // ---- when an enable is final -----------------------------------------------------------------------

  /** The task is on its way to stop the sidecar. */
  predicate Stopper(t: Task) { t.EnableStopping? || t.DisableWaiting? || t.DisableStopping? }

  predicate Stopping(s: State) {
    exists k :: 0 <= k < |s.tasks| && Stopper(s.tasks[k])
  }

  /** An enable that arrives can be answered `enabled`: the sidecar runs under the same profile, or
      the thread is ready for a start. */
  predicate CanAnswer(s: State, profileChanged: bool, ready: bool) {
    ready || (s.sidecarStarted && !profileChanged)
  }

  /** No request that takes the sidecar down: no disable, and no enable that changes the profile. */
  predicate NoStop(steps: seq<Step>) {
    forall k :: 0 <= k < |steps| ==> !steps[k].Disable? && !(steps[k].Enable? && steps[k].profileChanged)
  }

  /** An enable that arrives in `s` is undone: it answers `enabled` after some steps, and after some
      more the sidecar is off and no start is under way, though nobody has asked for that since. */
  ghost predicate EnableUndone(s: State, profileChanged: bool, ready: bool, first: seq<Step>, later: seq<Step>) {
    && NoStop(first) && NoStop(later)
    && var answered := Run(Next(s, Enable(profileChanged, ready)), first);
       && |s.tasks| < |answered.tasks| && answered.tasks[|s.tasks|] == Done(Enabled)
       && var end := Run(answered, later);
          !end.sidecarStarted && end.starting == {}
  }

  /** From its arrival on, no task but enable request `e` can stop the sidecar, and not even that
      one once it is answered. */
  ghost predicate Rising(s: State, e: nat) {
    && e < |s.tasks| && (forall k :: 0 <= k < |s.tasks| && k != e ==> !Stopper(s.tasks[k]))
    && match s.tasks[e]
       case EnableStopping(_) => true
       case EnableStarting(_) => true
       case Done(status) => status == Enabled ==> s.sidecarStarted
       case _ => false
  }

  lemma StepKeepsRising(s: State, step: Step, e: nat)
    requires Rising(s, e) && Ready(s, step) && NoStop([step])
    ensures Rising(Next(s, step), e)
    ensures s.tasks[e].Done? ==> Next(s, step).tasks[e] == s.tasks[e]
  {
    assert [step][0] == step;
  }

  lemma {:induction false} RunKeepsRising(s: State, steps: seq<Step>, e: nat)
    requires Rising(s, e) && NoStop(steps)
    ensures Rising(Run(s, steps), e)
    ensures s.tasks[e].Done? ==> Run(s, steps).tasks[e] == s.tasks[e]
  {
    if steps != [] {
      var init := steps[..|steps| - 1];
      RunKeepsRising(s, init, e);
      if Ready(Run(s, init), steps[|steps| - 1]) {
        StepKeepsRising(Run(s, init), steps[|steps| - 1], e);
      }
    }
  }

  /** When nothing is on its way to stop the sidecar, an enable that has been answered `enabled`
      keeps it on in every interleaving, until somebody asks for a stop. */
  lemma EnableIsFinal(s: State, profileChanged: bool, ready: bool, first: seq<Step>, later: seq<Step>)
    requires !Stopping(s) && NoStop(first) && NoStop(later)
    requires var answered := Run(Next(s, Enable(profileChanged, ready)), first);
             |s.tasks| < |answered.tasks| && answered.tasks[|s.tasks|] == Done(Enabled)
    ensures Run(Run(Next(s, Enable(profileChanged, ready)), first), later).sidecarStarted
  {
    var e := |s.tasks|;
    var arrived := Next(s, Enable(profileChanged, ready));
    assert arrived.tasks[..e] == s.tasks;
    assert forall k :: 0 <= k < e ==> arrived.tasks[k] == s.tasks[k];
    assert Rising(arrived, e);
    RunKeepsRising(arrived, first, e);
    RunKeepsRising(Run(arrived, first), later, e);
  }

  /** Where an enable stands that waits for nothing but a ready thread that it has not found. */
  predicate Hopeless(s: State, e: nat) {
    e < |s.tasks| && s.tasks[e] in {EnableStopping(false), Done(AwaitingThread), Done(Failed)}
  }

  lemma HopelessStep(s: State, step: Step, e: nat)
    requires Hopeless(s, e) && Ready(s, step)
    ensures Hopeless(Next(s, step), e)
  {
  }

  lemma {:induction false} HopelessStays(s: State, steps: seq<Step>, e: nat)
    requires Hopeless(s, e)
    ensures Hopeless(Run(s, steps), e)
  {
    hide Hopeless, Ready, Next;
    if steps != [] {
      var init := steps[..|steps| - 1];
      HopelessStays(s, init, e);
      if Ready(Run(s, init), steps[|steps| - 1]) {
        HopelessStep(Run(s, init), steps[|steps| - 1], e);
      }
    }
  }

  /** One more step. */
  lemma Then(s: State, steps: seq<Step>, step: Step) returns (more: seq<Step>)
    requires Ready(Run(s, steps), step) && NoStop(steps) && NoStop([step])
    ensures more == steps + [step] && NoStop(more) && Run(s, more) == Next(Run(s, steps), step)
  {
    RunSnoc(s, steps, step);
    more := steps + [step];
    assert [step][0] == step;
  }

  /** The start it waits for works and its request is answered. */
  lemma StartAnswers(s: State, steps: seq<Step>, e: nat) returns (first: seq<Step>)
    requires NoStop(steps)
    requires var x := Run(s, steps);
             OneStart(x) && e < |x.tasks| && x.tasks[e].EnableStarting? && x.enablePromise == Some(x.tasks[e].start)
    ensures NoStop(first)
    ensures var x, y := Run(s, steps), Run(s, first);
            OneStart(y) && y.sidecarStarted && y.tasks == x.tasks[e := Done(Enabled)]
  {
    hide Run, NoStop;
    var x := Run(s, steps);
    StartDoneStops(x.tasks[e].start, e);
    first := Then(s, steps, StartDone(x.tasks[e].start, None));
    first := Then(s, first, EnableWoken(e));
  }

  lemma StartDoneStops(n: nat, e: nat)
    ensures NoStop([StartDone(n, None)]) && NoStop([EnableWoken(e)])
  {
  }

  /** The request waits for the start under way, or has been answered by a running sidecar. */
  ghost predicate Answering(x: State, tasks: seq<Task>) {
    && OneStart(x) && |x.tasks| == |tasks| + 1 && x.tasks[..|tasks|] == tasks
    && match x.tasks[|tasks|]
       case EnableStarting(start) => x.enablePromise == Some(start)
       case Done(status) => status == Enabled && x.sidecarStarted
       case _ => false
  }

  /** An enable that can be answered `enabled` comes to that while every other request still waits. */
  lemma EnableComesTo(s: State, profileChanged: bool, ready: bool) returns (first: seq<Step>)
    requires OneStart(s) && CanAnswer(s, profileChanged, ready)
    ensures NoStop(first) && Answering(Run(Next(s, Enable(profileChanged, ready)), first), s.tasks)
  {
    hide Run;
    var e := |s.tasks|;
    var arrived := Next(s, Enable(profileChanged, ready));
    StepKeepsOneStart(s, Enable(profileChanged, ready));
    RunNothing(arrived);
    first := [];
    if s.sidecarStarted && profileChanged {
      StepKeepsOneStart(arrived, EnableStopped(e, None));
      first := Then(arrived, first, EnableStopped(e, None));
    }
  }

  lemma EnableAnswers(s: State, profileChanged: bool, ready: bool) returns (first: seq<Step>)
    requires OneStart(s) && CanAnswer(s, profileChanged, ready)
    ensures NoStop(first)
    ensures var x := Run(Next(s, Enable(profileChanged, ready)), first);
            OneStart(x) && x.sidecarStarted && x.tasks == s.tasks + [Done(Enabled)]
  {
    hide Run, Next, NoStop;
    first := EnableComesTo(s, profileChanged, ready);
    var arrived := Next(s, Enable(profileChanged, ready));
    if Run(arrived, first).tasks[|s.tasks|].EnableStarting? {
      first := StartAnswers(arrived, first, |s.tasks|);
    }
  }

  /** A disable that waits wakes up and goes on to stop the running sidecar. */
  lemma DisableWakes(s: State, k: nat) returns (later: seq<Step>)
    requires OneStart(s) && s.sidecarStarted && k < |s.tasks| && s.tasks[k].DisableWaiting?
    ensures NoStop(later)
    ensures var x := Run(s, later); OneStart(x) && k < |x.tasks| && x.tasks[k].DisableStopping?
  {
    hide Run;
    RunNothing(s);
    later := [];
    if s.enablePromise.Some? {
      StepKeepsOneStart(s, StartDone(s.enablePromise.value, None));
      later := Then(s, later, StartDone(s.enablePromise.value, None));
    }
    StepKeepsOneStart(Run(s, later), DisableWoken(k));
    later := Then(s, later, DisableWoken(k));
  }

  lemma StopWorks(s: State, steps: seq<Step>, k: nat) returns (later: seq<Step>)
    requires NoStop(steps)
    requires var x := Run(s, steps);
             OneStart(x) && k < |x.tasks| && (x.tasks[k].EnableStopping? || x.tasks[k].DisableStopping?)
    ensures NoStop(later) && var x := Run(s, later); OneStart(x) && !x.sidecarStarted
  {
    hide Run, OneStart, NoStop;
    var x := Run(s, steps);
    var step := if x.tasks[k].EnableStopping? then EnableStopped(k, None) else DisableStopped(k, None);
    StoppedIsNoStop(k);
    StepKeepsOneStart(x, step);
    later := Then(s, steps, step);
  }

  lemma StoppedIsNoStop(k: nat)
    ensures NoStop([EnableStopped(k, None)]) && NoStop([DisableStopped(k, None)])
  {
  }

  /** The start under way fails, if there is one. */
  lemma StartFails(s: State, steps: seq<Step>) returns (later: seq<Step>)
    requires NoStop(steps) && OneStart(Run(s, steps)) && !Run(s, steps).sidecarStarted
    ensures NoStop(later) && !Run(s, later).sidecarStarted && Run(s, later).starting == {}
  {
    hide Run;
    var x := Run(s, steps);
    later := steps;
    if x.enablePromise.Some? {
      later := Then(s, steps, StartDone(x.enablePromise.value, Some("start_failed")));
    }
  }

  /** What is on its way to stop the sidecar does so. */
  lemma StopperStops(s: State, k: nat) returns (later: seq<Step>)
    requires OneStart(s) && s.sidecarStarted && k < |s.tasks| && Stopper(s.tasks[k])
    ensures NoStop(later) && var end := Run(s, later); !end.sidecarStarted && end.starting == {}
  {
    hide Run, OneStart;
    RunNothing(s);
    later := [];
    if s.tasks[k].DisableWaiting? {
      later := DisableWakes(s, k);
    }
    later := StopWorks(s, later, k);
    later := StartFails(s, later);
  }

  /** An enable can be answered `enabled` and then undone without a later request exactly when it can
      be answered so at all and, at its arrival, a request is on its way to stop the sidecar: a
      disable that waits, or an enable that changes the profile. */
  lemma EnableIsUndoneIffStopping(s: State, profileChanged: bool, ready: bool)
    requires OneStart(s)
    ensures (exists first, later :: EnableUndone(s, profileChanged, ready, first, later))
            <==> Stopping(s) && CanAnswer(s, profileChanged, ready)
  {
    if Stopping(s) && CanAnswer(s, profileChanged, ready) {
      var k :| 0 <= k < |s.tasks| && Stopper(s.tasks[k]);
      var first := EnableAnswers(s, profileChanged, ready);
      var x := Run(Next(s, Enable(profileChanged, ready)), first);
      var later := StopperStops(x, k);
      assert EnableUndone(s, profileChanged, ready, first, later);
    } else {
      forall first, later
        ensures !EnableUndone(s, profileChanged, ready, first, later)
      {
        EnableNotUndone(s, profileChanged, ready, first, later);
      }
    }
  }

  lemma EnableNotUndone(s: State, profileChanged: bool, ready: bool, first: seq<Step>, later: seq<Step>)
    requires !(Stopping(s) && CanAnswer(s, profileChanged, ready))
    ensures !EnableUndone(s, profileChanged, ready, first, later)
  {
    if EnableUndone(s, profileChanged, ready, first, later) {
      if CanAnswer(s, profileChanged, ready) {
        EnableIsFinal(s, profileChanged, ready, first, later);
      } else {
        HopelessStays(Next(s, Enable(profileChanged, ready)), first, |s.tasks|);
      }
    }
  }

  /** Such an enable arrives: while a disable awaits the stop of the running sidecar. */
  lemma StoppingHappens()
    ensures var s := Run(FRESH, [Enable(false, true), StartDone(0, None), Disable]);
            Stopping(s) && CanAnswer(s, false, false)
  {
    var a, b, c := Enable(false, true), StartDone(0, None), Disable;
    RunSnoc(FRESH, [], a);
    RunSnoc(FRESH, [a], b);
    RunSnoc(FRESH, [a, b], c);
    assert [] + [a] == [a] && [a] + [b] == [a, b] && [a, b] + [c] == [a, b, c];
    assert Run(FRESH, [a, b, c]).tasks[1] == DisableStopping;
  }

  // ---- what the answers say, and what follows ----------------------------------------------------------

  /** The task whose wait a step ends, or the one it adds. */
  function Concerns(s: State, step: Step): Option<nat> {
    match step
    case Enable(_, _) => Some(|s.tasks|)
    case Disable => Some(|s.tasks|)
    case EnableStopped(k, _) => Some(k)
    case EnableWoken(k) => Some(k)
    case DisableWoken(k) => Some(k)
    case DisableStopped(k, _) => Some(k)
    case _ => None
  }

  /** Every answer is true when it is given. `enabled`: the sidecar runs. `disabled`: it does not.
      `awaiting_thread`: the thread watch is on, nothing is wrong, and the wish to run is unchanged. `error`: a stop
      failed, which leaves the sidecar as it was and is reported, or no start has worked. */
  lemma AnswersAreTrue(s: State, step: Step, k: nat, status: Status)
    requires Ready(s, step) && Concerns(s, step) == Some(k) && Next(s, step).tasks[k] == Done(status)
    ensures var s1 := Next(s, step);
            match status
            case Enabled => s1.sidecarStarted
            case Disabled => !s1.sidecarStarted && s1.starting == s.starting
            case AwaitingThread =>
              !s1.watch.NoWatch? && s1.lastError == None && !s1.sidecarStarted
              && s1.desiredEnabled == (s.desiredEnabled || step.Enable?)
            case Failed =>
              && s1.sidecarStarted == s.sidecarStarted && s1.watch == s.watch
              && (step.EnableStopped? || step.DisableStopped? ==> step.error.Some? && s1.lastError == step.error)
              && (!step.EnableStopped? && !step.DisableStopped? ==> step.EnableWoken? && !s1.sidecarStarted)
  {
  }

  /** A stop that works clears the error of earlier attempts, and the sidecar is off. */
  lemma StopClearsError(s: State, k: nat)
    requires k < |s.tasks|
    ensures s.tasks[k].DisableStopping? ==>
              var s1 := Next(s, DisableStopped(k, None)); s1.lastError == None && !s1.sidecarStarted
    ensures s.tasks[k].EnableStopping? ==>
              var s1 := Next(s, EnableStopped(k, None)); s1.lastError == None && !s1.sidecarStarted
  {
  }

  /** A request that awaits a start goes on when that start has settled, and not before. */
  lemma RequestsWaitForStart(s: State, k: nat, n: nat, error: Option<string>)
    requires k < |s.tasks| && s.tasks[k] in {EnableStarting(n), DisableWaiting(n)} && n in s.starting
    ensures !Ready(s, EnableWoken(k)) && !Ready(s, DisableWoken(k))
    ensures var s1 := Next(s, StartDone(n, error)); Ready(s1, EnableWoken(k)) || Ready(s1, DisableWoken(k))
  {
  }

  /** A start that settles is over, is reported, and leaves the sidecar running if it worked. */
  lemma StartSettles(s: State, n: nat, error: Option<string>)
    requires Ready(s, StartDone(n, error))
    ensures var s1 := Next(s, StartDone(n, error));
            && s1.lastError == error && s1.enablePromise == None && n !in s1.starting
            && (error == None ==> s1.sidecarStarted) && (error.Some? ==> s1.sidecarStarted == s.sidecarStarted)
            && s1.tasks == s.tasks && s1.desiredEnabled == s.desiredEnabled
  {
  }

  /** The thread watch: a thread that is found while the bus is wanted and off begins or joins a start; a
      watch that finds none is over and reports why, if the bus is wanted or something was thrown. */
  lemma WatchTells(s: State, thrown: Option<string>)
    requires s.watch.Watching?
    ensures var s1 := Next(s, ThreadFound);
            if s.desiredEnabled && !s.sidecarStarted
            then s1.enablePromise.Some? && s1.watch == WatchStarting(s1.enablePromise.value)
            else s1 == s.(watch := WatchEnding)
    ensures var s1 := Next(s, ThreadMissing(thrown));
            s1 == s.(watch := WatchEnding,
                     lastError := if thrown.Some? then thrown
                                  else if s.desiredEnabled then Some("thread_id_not_available") else s.lastError)
  {
  }

  lemma RunThree(x: State, a: Step, b: Step, c: Step)
    requires Ready(x, a) && Ready(Next(x, a), b) && Ready(Next(Next(x, a), b), c)
    ensures Run(x, [a, b, c]) == Next(Next(Next(x, a), b), c)
  {
    hide Ready, Next;
    RunTwo(x, a, b);
    RunSnoc(x, [a, b], c);
    assert [a, b] + [c] == [a, b, c];
  }

  /** An enable before the first prompt: it waits for the thread, and when that appears the sidecar starts. */
  lemma WatchStartsSidecar(s: State, profileChanged: bool)
    requires OneStart(s) && !s.sidecarStarted && s.enablePromise == None && s.watch == NoWatch
    ensures var s1 := Next(s, Enable(profileChanged, false));
            s1.tasks == s.tasks + [Done(AwaitingThread)] && s1.watch == Watching && s1.desiredEnabled
    ensures Run(s, [Enable(profileChanged, false), ThreadFound, StartDone(s.starts, None)]).sidecarStarted
  {
    hide Run;
    RunThree(s, Enable(profileChanged, false), ThreadFound, StartDone(s.starts, None));
  }

  /** With the thread there, an enable starts the sidecar at once and is answered when it runs. */
  lemma EnableStartsSidecar(s: State, profileChanged: bool)
    requires OneStart(s) && !s.sidecarStarted && s.enablePromise == None
    ensures var end := Run(s, [Enable(profileChanged, true), StartDone(s.starts, None), EnableWoken(|s.tasks|)]);
            end.sidecarStarted && end.desiredEnabled && end.tasks == s.tasks + [Done(Enabled)]
  {
    hide Run;
    RunThree(s, Enable(profileChanged, true), StartDone(s.starts, None), EnableWoken(|s.tasks|));
  }

  /** A disable waits for the start under way and then stops what it has started. */
  lemma DisableStopsStart(s: State, n: nat)
    requires OneStart(s) && s.enablePromise == Some(n)
    ensures var d := |s.tasks|; var s1 := Run(s, [Disable, StartDone(n, None), DisableWoken(d)]);
            && s1.tasks == s.tasks + [DisableStopping] && !s1.desiredEnabled
            && Ready(s1, DisableStopped(d, None)) && !Next(s1, DisableStopped(d, None)).sidecarStarted
            && Next(s1, DisableStopped(d, None)).tasks == s.tasks + [Done(Disabled)]
  {
    hide Run;
    RunThree(s, Disable, StartDone(n, None), DisableWoken(|s.tasks|));
  }

  /** An enable with another profile stops the sidecar and starts it again. */
  lemma ProfileRestarts(s: State)
    requires OneStart(s) && s.sidecarStarted && s.enablePromise == None
    ensures var k := |s.tasks|;
            var s1 := Run(s, [Enable(true, true), EnableStopped(k, None), StartDone(s.starts, None)]);
            && s1.sidecarStarted && s1.desiredEnabled && s1.starts == s.starts + 1
            && Ready(s1, EnableWoken(k)) && Next(s1, EnableWoken(k)).tasks == s.tasks + [Done(Enabled)]
  {
    hide Run;
    RunThree(s, Enable(true, true), EnableStopped(|s.tasks|, None), StartDone(s.starts, None));
  }

  /** Without a change of profile a running sidecar is left alone. */
  lemma EnableWhileRunning(s: State, ready: bool)
    requires s.sidecarStarted
    ensures Next(s, Enable(false, ready)) == s.(desiredEnabled := true, tasks := s.tasks + [Done(Enabled)])
  {
  }

  /** The thread watch that has begun or joined a start is on until that start has settled, and then ends; only
      then can an enable begin another one. */
  lemma WatchWaitsForStart(s: State, n: nat, error: Option<string>)
    requires s.watch == WatchStarting(n) && n in s.starting
    ensures !Ready(s, WatchWoken) && !Ready(s, WatchDone) && Ready(s, StartDone(n, error))
    ensures var s1 := Next(s, StartDone(n, error));
            && Ready(s1, WatchWoken) && Ready(Next(s1, WatchWoken), WatchDone)
            && Next(Next(s1, WatchWoken), WatchDone) == s1.(watch := NoWatch)
  {
  }
}
