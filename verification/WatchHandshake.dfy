/** The Start/EnsureWatch handshake of the dynamic watcher: which informers get a
    handler, which get started, and how many flushers run, in any interleaving. */
module WatchHandshake {

  import Runs

  type Resource = string  // a resolved GroupVersionResource

  /** The fields guarded by the mutex, and the informer factory they drive. */
  datatype Registry = Registry(
    stopSet: bool,                 // stopCh is non-nil
    flusherStarted: bool,
    informers: set<Resource>,
    created: set<Resource>,        // informers the factory knows
    handlers: map<Resource, nat>,  // handlers added per informer
    started: set<Resource>,        // informers the factory has started
    flushers: nat)                 // flushLoop goroutines
  {
    function HandlersOf(g: Resource): nat { if g in handlers then handlers[g] else 0 }

    /** Critical section of Start. */
    function LockStart(): Registry { this.(stopSet := true, flusherStarted := true) }

    /** Critical section of EnsureWatch; `accepted` is whether AddEventHandler succeeded. */
    function LockEnsure(g: Resource, accepted: bool): Registry {
      if g in informers then this
      else if accepted then
        this.(created := created + {g}, informers := informers + {g}, handlers := handlers[g := HandlersOf(g) + 1])
      else this.(created := created + {g})
    }

    /** factory.Start: starts every informer created so far. */
    function StartFactory(): Registry { this.(started := started + created) }
  }

  datatype Call =
    | AtStart                          // Start, before its critical section
    | AtSpawn(first: bool)             // Start, about to launch the flusher if it is the first
    | AtFactoryStart                   // Start, about to start the factory
    | Blocked                          // Start, waiting for the stop channel
    | AtEnsure(resource: Resource)     // EnsureWatch, before its critical section
    | AtLateStart(resource: Resource)  // EnsureWatch saw a stop channel: about to start the factory
    | Finished

  datatype State = State(reg: Registry, calls: seq<Call>)

  datatype Step =
    | NewStart | NewEnsure(resource: Resource)
    | Lock(call: nat, accepted: bool) | Spawn(call: nat) | Factory(call: nat)

  ghost predicate Init(s: State) {
    s == State(Registry(false, false, {}, {}, map[], {}, 0), [])
  }

  ghost predicate Next(s: State, step: Step, t: State) {
    match step
    case NewStart => t == s.(calls := s.calls + [AtStart])
    case NewEnsure(g) => t == s.(calls := s.calls + [AtEnsure(g)])
    case Lock(i, accepted) =>
      i < |s.calls| &&
      (match s.calls[i]
       case AtStart =>
         t == State(s.reg.LockStart(), s.calls[i := AtSpawn(!s.reg.flusherStarted)])
       case AtEnsure(g) =>
         var added := g !in s.reg.informers && accepted;
         t == State(s.reg.LockEnsure(g, accepted),
                    s.calls[i := if added && s.reg.stopSet then AtLateStart(g) else Finished])
       case _ => false)
    case Spawn(i) =>
      i < |s.calls| && s.calls[i].AtSpawn? &&
      t == State(if s.calls[i].first then s.reg.(flushers := s.reg.flushers + 1) else s.reg,
                 s.calls[i := AtFactoryStart])
    case Factory(i) =>
      i < |s.calls| && (s.calls[i].AtFactoryStart? || s.calls[i].AtLateStart?) &&
      t == State(s.reg.StartFactory(), s.calls[i := if s.calls[i].AtFactoryStart? then Blocked else Finished])
  }

  /** A Start call that has yet to start the factory. */
  ghost predicate StartAhead(s: State) {
    exists i :: 0 <= i < |s.calls| && (s.calls[i].AtSpawn? || s.calls[i].AtFactoryStart?)
  }

  ghost predicate LateStartAhead(s: State, g: Resource) {
    exists i :: 0 <= i < |s.calls| && s.calls[i] == AtLateStart(g)
  }

  ghost predicate SpawnAhead(s: State) {
    exists i :: 0 <= i < |s.calls| && s.calls[i] == AtSpawn(true)
  }

  ghost predicate Inv(s: State) {
    && (forall g :: s.reg.HandlersOf(g) == if g in s.reg.informers then 1 else 0)
    && s.reg.informers <= s.reg.created && s.reg.started <= s.reg.created
    && (forall g :: g in s.reg.informers && g !in s.reg.started && s.reg.stopSet ==>
          StartAhead(s) || LateStartAhead(s, g))
    && (forall i :: 0 <= i < |s.calls| && !s.calls[i].AtStart? && !s.calls[i].AtEnsure? && !s.calls[i].Finished? ==>
          s.reg.stopSet)
    && s.reg.stopSet == s.reg.flusherStarted
    && (!s.reg.stopSet ==> s.reg.started == {})
    && s.reg.flushers <= 1
    && (forall i, j :: 0 <= i < j < |s.calls| && s.calls[i] == AtSpawn(true) ==> s.calls[j] != AtSpawn(true))
    && (s.reg.flusherStarted ==> (SpawnAhead(s) <==> s.reg.flushers == 0))
    && (!s.reg.flusherStarted ==> s.reg.flushers == 0 && !SpawnAhead(s))
  }

  /** Replacing one call keeps every other witness. */
  lemma OthersAhead(s: State, t: State, i: nat)
    requires i < |s.calls| && |t.calls| == |s.calls|
    requires forall j :: 0 <= j < |s.calls| && j != i ==> t.calls[j] == s.calls[j]
    ensures StartAhead(s) && !s.calls[i].AtSpawn? && !s.calls[i].AtFactoryStart? ==> StartAhead(t)
    ensures t.calls[i].AtSpawn? || t.calls[i].AtFactoryStart? ==> StartAhead(t)
    ensures forall g :: LateStartAhead(s, g) && s.calls[i] != AtLateStart(g) ==> LateStartAhead(t, g)
    ensures forall g :: t.calls[i] == AtLateStart(g) ==> LateStartAhead(t, g)
    ensures SpawnAhead(s) && s.calls[i] != AtSpawn(true) ==> SpawnAhead(t)
    ensures SpawnAhead(t) && t.calls[i] != AtSpawn(true) ==> SpawnAhead(s)
    ensures t.calls[i] == AtSpawn(true) ==> SpawnAhead(t)
  {
    if StartAhead(s) && !s.calls[i].AtSpawn? && !s.calls[i].AtFactoryStart? {
      var j :| 0 <= j < |s.calls| && (s.calls[j].AtSpawn? || s.calls[j].AtFactoryStart?);
      assert t.calls[j] == s.calls[j];
    }
    forall g | LateStartAhead(s, g) && s.calls[i] != AtLateStart(g)
      ensures LateStartAhead(t, g)
    {
      var j :| 0 <= j < |s.calls| && s.calls[j] == AtLateStart(g);
      assert t.calls[j] == s.calls[j];
    }
    if SpawnAhead(s) && s.calls[i] != AtSpawn(true) {
      var j :| 0 <= j < |s.calls| && s.calls[j] == AtSpawn(true);
      assert t.calls[j] == s.calls[j];
    }
  }

  lemma NewCallKeepsInv(s: State, step: Step, t: State)
    requires Inv(s) && Next(s, step, t) && (step.NewStart? || step.NewEnsure?)
    ensures Inv(t)
  {
    assert forall j :: 0 <= j < |s.calls| ==> t.calls[j] == s.calls[j];
    if StartAhead(s) {
      var j :| 0 <= j < |s.calls| && (s.calls[j].AtSpawn? || s.calls[j].AtFactoryStart?);
      assert t.calls[j] == s.calls[j];
    }
    forall g | LateStartAhead(s, g) ensures LateStartAhead(t, g) {
      var j :| 0 <= j < |s.calls| && s.calls[j] == AtLateStart(g);
      assert t.calls[j] == s.calls[j];
    }
    if SpawnAhead(s) {
      var j :| 0 <= j < |s.calls| && s.calls[j] == AtSpawn(true);
      assert t.calls[j] == s.calls[j];
    }
  }

  lemma NextKeepsInv(s: State, step: Step, t: State)
    requires Inv(s) && Next(s, step, t)
    ensures Inv(t)
  {
    match step
    case NewStart => NewCallKeepsInv(s, step, t);
    case NewEnsure(g) => NewCallKeepsInv(s, step, t);
    case Lock(i, accepted) => OthersAhead(s, t, i);
    case Spawn(i) => OthersAhead(s, t, i);
    case Factory(i) => OthersAhead(s, t, i);
  }

  ghost predicate IsRun(run: seq<State>, steps: seq<Step>) { Runs.IsLabelled(Init, Next, run, steps) }

  lemma {:induction false} RunInv(run: seq<State>, steps: seq<Step>, i: nat)
    requires IsRun(run, steps) && i < |run|
    ensures Inv(run[i])
  {
    if i > 0 {
      RunInv(run, steps, i - 1);
      assert Runs.LabelledAt(Next, run, steps, i - 1);
      NextKeepsInv(run[i - 1], steps[i - 1], run[i]);
    }
  }

  /** Every resource gets at most one handler, exactly one if it is registered, and
      at most one flusher ever runs, whatever the interleaving. */
  lemma OneHandlerOneFlusher(run: seq<State>, steps: seq<Step>, i: nat)
    requires IsRun(run, steps) && i < |run|
    ensures forall g :: run[i].reg.HandlersOf(g) <= 1 && (run[i].reg.HandlersOf(g) == 1 <==> g in run[i].reg.informers)
    ensures run[i].reg.flushers <= 1
  {
    RunInv(run, steps, i);
  }

  /** Step `i` is the critical section of an EnsureWatch for the resource whose AddEventHandler succeeds. */
  ghost predicate AcceptsAt(run: seq<State>, steps: seq<Step>, g: Resource, i: nat)
    requires |run| == |steps| + 1 && i < |steps|
  {
    && steps[i].Lock? && steps[i].accepted && steps[i].call < |run[i].calls|
    && run[i].calls[steps[i].call] == AtEnsure(g)
  }

  /** Step `i` is the critical section of a Start. */
  ghost predicate StartsAt(run: seq<State>, steps: seq<Step>, i: nat)
    requires |run| == |steps| + 1 && i < |steps|
  {
    steps[i].Lock? && steps[i].call < |run[i].calls| && run[i].calls[steps[i].call] == AtStart
  }

  ghost predicate AcceptedBefore(run: seq<State>, steps: seq<Step>, g: Resource, n: nat)
    requires |run| == |steps| + 1 && n <= |steps|
  {
    exists i :: 0 <= i < n && AcceptsAt(run, steps, g, i)
  }

  ghost predicate StartedBefore(run: seq<State>, steps: seq<Step>, n: nat)
    requires |run| == |steps| + 1 && n <= |steps|
  {
    exists i :: 0 <= i < n && StartsAt(run, steps, i)
  }

  lemma RegistersExactly(run: seq<State>, steps: seq<Step>, g: Resource, i: nat)
    requires IsRun(run, steps) && i < |steps|
    ensures g in run[i + 1].reg.informers <==> g in run[i].reg.informers || AcceptsAt(run, steps, g, i)
    ensures run[i + 1].reg.stopSet <==> run[i].reg.stopSet || StartsAt(run, steps, i)
  {
    assert Runs.LabelledAt(Next, run, steps, i);
  }

  /** A resource is registered exactly when some EnsureWatch for it got its handler accepted, and the
      watcher has a stop channel exactly when some Start has taken the lock. */
  lemma {:induction false} RegisteredExactly(run: seq<State>, steps: seq<Step>, g: Resource, n: nat)
    requires IsRun(run, steps) && n < |run|
    ensures g in run[n].reg.informers <==> AcceptedBefore(run, steps, g, n)
    ensures run[n].reg.stopSet <==> StartedBefore(run, steps, n)
  {
    if n > 0 {
      RegisteredExactly(run, steps, g, n - 1);
      RegistersExactly(run, steps, g, n - 1);
    }
  }

  /** No start step is outstanding. */
  predicate Settled(s: State) {
    forall i :: 0 <= i < |s.calls| ==> s.calls[i] in {Blocked, Finished}
  }

  /** Once every call has run its start steps, a watcher that was started has started
      every registered informer and launched its one flusher; one that was not has
      started nothing. */
  lemma SettledMeansStarted(run: seq<State>, steps: seq<Step>, i: nat)
    requires IsRun(run, steps) && i < |run| && Settled(run[i])
    ensures run[i].reg.stopSet ==> run[i].reg.informers <= run[i].reg.started && run[i].reg.flushers == 1
    ensures !run[i].reg.stopSet ==> run[i].reg.started == {} && run[i].reg.flushers == 0 && Blocked !in run[i].calls
  {
    RunInv(run, steps, i);
    var s := run[i];
    assert forall j :: 0 <= j < |s.calls| ==> s.calls[j] in {Blocked, Finished};
    assert !StartAhead(s) && !SpawnAhead(s);
    assert forall g :: !LateStartAhead(s, g);
  }

  /** What was ensured is watched: once the handler was accepted the resource has one handler for good,
      and when no start step is outstanding after a Start its informer runs. */
  lemma EnsuredIsWatched(run: seq<State>, steps: seq<Step>, g: Resource, i: nat, n: nat)
    requires IsRun(run, steps) && i < n < |run| && AcceptsAt(run, steps, g, i)
    ensures g in run[n].reg.informers && run[n].reg.HandlersOf(g) == 1
    ensures Settled(run[n]) && StartedBefore(run, steps, n) ==> g in run[n].reg.started
  {
    RegisteredExactly(run, steps, g, n);
    OneHandlerOneFlusher(run, steps, n);
    if Settled(run[n]) {
      SettledMeansStarted(run, steps, n);
    }
  }
}
