/** StartStopOnce (core/utils/utils.go) as a protocol between any number of calls.

    A call is identified by a number and sits at one program counter; every step is
    one atomic action of the source: the compare-and-swap in front of the lock,
    taking the lock, the compare-and-swap or load behind it, the load that words
    the error of a stop, the beginning and the end of the caller's function, and
    the last compare-and-swap with the unlock. */
module StartStopOnce {
  datatype State = Unstarted | Started | Starting | StartFailed | Stopping | Stopped | StopFailed

  datatype Outcome =
    | Succeeded
    | FnFailed
    | AlreadyStartedOnce
    | AlreadyStopped
    | CannotStopUnstarted
    | CannotStop(state: State)
    | Ran
    | Skipped

  datatype Pc =
    | StartWaiting
    | StartRunning
    | StartFinishing(ok: bool)
    | StopWaiting
    | StopChecking
    | StopLoading
    | StopRunning
    | StopFinishing(ok: bool)
    | IfWaiting
    | IfChecking
    | IfRunning
    | Done(outcome: Outcome)

  /** What happened to the functions handed to StartOnce and StopOnce, in order. */
  datatype Happening = StartBegan | StartReturned(ok: bool) | StopBegan | StopReturned(ok: bool)

  datatype Once = Once(state: State, calls: map<nat, Pc>, log: seq<Happening>, panicked: bool)

  datatype Action =
    | CallStart(t: nat) | LockStart(t: nat) | ReturnStart(t: nat, ok: bool) | FinishStart(t: nat)
    | CallStop(t: nat) | LockStop(t: nat) | CheckStop(t: nat) | LoadStop(t: nat) | ReturnStop(t: nat, ok: bool) | FinishStop(t: nat)
    | CallIf(t: nat) | LockIf(t: nat) | CheckIf(t: nat) | ReturnIf(t: nat)

  // -------------------------------------------------------------------- steps

  predicate At(s: Once, t: nat, pc: Pc) { t in s.calls && s.calls[t] == pc }

  predicate Writing(pc: Pc) {
    pc.StartRunning? || pc.StartFinishing? || pc.StopChecking? || pc.StopLoading? || pc.StopRunning? || pc.StopFinishing?
  }

  predicate ReadingLock(pc: Pc) { pc.IfChecking? || pc.IfRunning? }

  ghost predicate CanLock(s: Once) { forall u :: u in s.calls ==> !Writing(s.calls[u]) && !ReadingLock(s.calls[u]) }

  ghost predicate CanRLock(s: Once) { forall u :: u in s.calls ==> !Writing(s.calls[u]) }

  ghost predicate Enabled(s: Once, a: Action) {
    match a
    case CallStart(t) => t !in s.calls
    case LockStart(t) => At(s, t, StartWaiting) && CanLock(s)
    case ReturnStart(t, _) => At(s, t, StartRunning)
    case FinishStart(t) => t in s.calls && s.calls[t].StartFinishing?
    case CallStop(t) => t !in s.calls
    case LockStop(t) => At(s, t, StopWaiting) && CanLock(s)
    case CheckStop(t) => At(s, t, StopChecking)
    case LoadStop(t) => At(s, t, StopLoading)
    case ReturnStop(t, _) => At(s, t, StopRunning)
    case FinishStop(t) => t in s.calls && s.calls[t].StopFinishing?
    case CallIf(t) => t !in s.calls
    case LockIf(t) => At(s, t, IfWaiting) && CanRLock(s)
    case CheckIf(t) => At(s, t, IfChecking)
    case ReturnIf(t) => At(s, t, IfRunning)
  }

  function Goto(s: Once, t: nat, pc: Pc): Once { s.(calls := s.calls[t := pc]) }

  /** The last compare-and-swap of StartOnce and StopOnce; when it fails the source panics. */
  function FinishCas(s: Once, t: nat, from: State, to: State, ok: bool): Once {
    if s.state == from then Goto(s, t, Done(if ok then Succeeded else FnFailed)).(state := to)
    else Goto(s, t, Done(FnFailed)).(panicked := true)
  }

  function Apply(s: Once, a: Action): Once {
    match a
    case CallStart(t) =>
      if s.state.Unstarted? then Goto(s, t, StartWaiting).(state := Starting) else Goto(s, t, Done(AlreadyStartedOnce))
    case LockStart(t) => Goto(s, t, StartRunning).(log := s.log + [StartBegan])
    case ReturnStart(t, ok) => Goto(s, t, StartFinishing(ok)).(log := s.log + [StartReturned(ok)])
    case FinishStart(t) =>
      if At(s, t, StartFinishing(true)) then FinishCas(s, t, Starting, Started, true)
      else FinishCas(s, t, Starting, StartFailed, false)
    case CallStop(t) => Goto(s, t, StopWaiting)
    case LockStop(t) => Goto(s, t, StopChecking)
    case CheckStop(t) =>
      if s.state.Started? then Goto(s, t, StopRunning).(state := Stopping, log := s.log + [StopBegan]) else Goto(s, t, StopLoading)
    case LoadStop(t) =>
      (match s.state
       case Stopped => Goto(s, t, Done(AlreadyStopped))
       case Unstarted => Goto(s, t, Done(CannotStopUnstarted))
       case other => Goto(s, t, Done(CannotStop(other))))
    case ReturnStop(t, ok) => Goto(s, t, StopFinishing(ok)).(log := s.log + [StopReturned(ok)])
    case FinishStop(t) =>
      if At(s, t, StopFinishing(true)) then FinishCas(s, t, Stopping, Stopped, true)
      else FinishCas(s, t, Stopping, StopFailed, false)
    case CallIf(t) => Goto(s, t, IfWaiting)
    case LockIf(t) => Goto(s, t, IfChecking)
    case CheckIf(t) => if s.state.Started? then Goto(s, t, IfRunning) else Goto(s, t, Done(Skipped))
    case ReturnIf(t) => Goto(s, t, Done(Ran))
  }

  const INITIAL: Once := Once(Unstarted, map[], [], false)

  ghost predicate IsRun(states: seq<Once>, actions: seq<Action>) {
    && |states| == |actions| + 1
    && states[0] == INITIAL
    && forall i :: 0 <= i < |actions| ==> Enabled(states[i], actions[i]) && states[i + 1] == Apply(states[i], actions[i])
  }

  // ---------------------------------------------------------------- invariant

  predicate StartPc(pc: Pc) { pc.StartWaiting? || pc.StartRunning? || pc.StartFinishing? }

  predicate StopPc(pc: Pc) { pc.StopRunning? || pc.StopFinishing? }

  const UP: seq<Happening> := [StartBegan, StartReturned(true)]

  /** The log at each point of the one StartOnce call that got through, and of the one
      StopOnce call that did. */
  function LogAt(pc: Pc): seq<Happening>
    requires StartPc(pc) || StopPc(pc)
  {
    match pc
    case StartWaiting => []
    case StartRunning => [StartBegan]
    case StartFinishing(ok) => [StartBegan, StartReturned(ok)]
    case StopRunning => UP + [StopBegan]
    case StopFinishing(ok) => UP + [StopBegan, StopReturned(ok)]
  }

  predicate LogMatches(state: State, log: seq<Happening>) {
    match state
    case Unstarted => log == []
    case Started => log == UP
    case Starting => log == [] || log == [StartBegan] || log == UP || log == [StartBegan, StartReturned(false)]
    case StartFailed => log == [StartBegan, StartReturned(false)]
    case Stopping => log == UP + [StopBegan] || log == UP + [StopBegan, StopReturned(true)] || log == UP + [StopBegan, StopReturned(false)]
    case Stopped => log == UP + [StopBegan, StopReturned(true)]
    case StopFailed => log == UP + [StopBegan, StopReturned(false)]
  }

  /** The lock lets no two calls be at these places, and neither does the first
      compare-and-swap of StartOnce. */
  predicate Compatible(p: Pc, q: Pc) {
    && !(Writing(p) && (Writing(q) || ReadingLock(q)))
    && !(Writing(q) && ReadingLock(p))
    && !(StartPc(p) && StartPc(q))
  }

  predicate Local(state: State, log: seq<Happening>, pc: Pc) {
    && (StartPc(pc) ==> state.Starting? && log == LogAt(pc))
    && (StopPc(pc) ==> state.Stopping? && log == LogAt(pc))
    && (pc.IfRunning? ==> state.Started?)
    && (pc.StopLoading? ==> !state.Started?)
  }

  ghost predicate Inv(s: Once) {
    && !s.panicked
    && LogMatches(s.state, s.log)
    && (forall t :: t in s.calls ==> Local(s.state, s.log, s.calls[t]))
    && (forall t, u :: t in s.calls && u in s.calls && t != u ==> Compatible(s.calls[t], s.calls[u]))
    && (s.state.Stopping? ==> exists t :: t in s.calls && StopPc(s.calls[t]))
  }

  /** A step of one call keeps Inv if it does so where that call is concerned. */
  lemma MoveKeepsInv(s: Once, s': Once, t: nat, pc: Pc)
    requires Inv(s) && s'.calls == s.calls[t := pc] && !s'.panicked
    requires LogMatches(s'.state, s'.log) && Local(s'.state, s'.log, pc)
    requires forall u :: u in s.calls && u != t ==> Compatible(pc, s.calls[u]) && Local(s'.state, s'.log, s.calls[u])
    requires s'.state.Stopping? ==> StopPc(pc) || (s.state.Stopping? && !(t in s.calls && StopPc(s.calls[t])))
    ensures Inv(s')
  {
    forall v, u | v in s'.calls && u in s'.calls && v != u
      ensures Compatible(s'.calls[v], s'.calls[u])
    {
    }
    if StopPc(pc) {
      assert StopPc(s'.calls[t]);
    } else if s'.state.Stopping? {
      var w :| w in s.calls && StopPc(s.calls[w]);
      assert w in s'.calls && StopPc(s'.calls[w]);
    }
  }

  lemma StartKeepsInv(s: Once, a: Action)
    requires Inv(s) && Enabled(s, a)
    requires a.CallStart? || a.LockStart? || a.ReturnStart? || a.FinishStart?
    ensures Inv(Apply(s, a))
  {
    var s' := Apply(s, a);
    MoveKeepsInv(s, s', a.t, s'.calls[a.t]);
  }

  lemma StopKeepsInv(s: Once, a: Action)
    requires Inv(s) && Enabled(s, a)
    requires a.CallStop? || a.LockStop? || a.CheckStop? || a.LoadStop?
    ensures Inv(Apply(s, a))
  {
    var s' := Apply(s, a);
    MoveKeepsInv(s, s', a.t, s'.calls[a.t]);
  }

  lemma StoppedKeepsInv(s: Once, a: Action)
    requires Inv(s) && Enabled(s, a)
    requires a.ReturnStop? || a.FinishStop?
    ensures Inv(Apply(s, a))
  {
    var s' := Apply(s, a);
    MoveKeepsInv(s, s', a.t, s'.calls[a.t]);
  }

  lemma IfKeepsInv(s: Once, a: Action)
    requires Inv(s) && Enabled(s, a)
    requires a.CallIf? || a.LockIf? || a.CheckIf? || a.ReturnIf?
    ensures Inv(Apply(s, a))
  {
    var s' := Apply(s, a);
    MoveKeepsInv(s, s', a.t, s'.calls[a.t]);
  }

  lemma StepKeepsInv(s: Once, a: Action)
    requires Inv(s) && Enabled(s, a)
    ensures Inv(Apply(s, a))
  {
    match a
    case CallStart(_) => StartKeepsInv(s, a);
    case LockStart(_) => StartKeepsInv(s, a);
    case ReturnStart(_, _) => StartKeepsInv(s, a);
    case FinishStart(_) => StartKeepsInv(s, a);
    case CallStop(_) => StopKeepsInv(s, a);
    case LockStop(_) => StopKeepsInv(s, a);
    case CheckStop(_) => StopKeepsInv(s, a);
    case LoadStop(_) => StopKeepsInv(s, a);
    case ReturnStop(_, _) => StoppedKeepsInv(s, a);
    case FinishStop(_) => StoppedKeepsInv(s, a);
    case CallIf(_) => IfKeepsInv(s, a);
    case LockIf(_) => IfKeepsInv(s, a);
    case CheckIf(_) => IfKeepsInv(s, a);
    case ReturnIf(_) => IfKeepsInv(s, a);
  }

  // ----------------------------------------------------------------- theorems

  /** The only courses a service can take: never more than one start, a stop only after
      a start that returned nil, and never more than one stop. */
  predicate Lifecycle(log: seq<Happening>) {
    || log <= [StartBegan, StartReturned(false)]
    || log <= UP + [StopBegan, StopReturned(true)]
    || log <= UP + [StopBegan, StopReturned(false)]
  }

  /** Main theorem: over every interleaving of any number of calls the functions follow
      one of these courses, neither panic is reached, and while the body of an
      IfStarted call runs the state is Started: the start has succeeded and no stop
      has begun. */
  lemma {:induction false} EveryRunIsSafe(states: seq<Once>, actions: seq<Action>, n: nat)
    requires IsRun(states, actions) && n < |states|
    ensures Inv(states[n])
    ensures Lifecycle(states[n].log) && !states[n].panicked
    ensures forall t :: At(states[n], t, IfRunning) ==> states[n].state == Started && states[n].log == UP
  {
    if n > 0 {
      EveryRunIsSafe(states, actions, n - 1);
      StepKeepsInv(states[n - 1], actions[n - 1]);
      assert states[n - 1 + 1] == Apply(states[n - 1], actions[n - 1]);
    }
  }

  /** A stop that takes the lock between the start's compare-and-swap and its lock is
      turned away, and the start can go on as if it had never been there. */
  lemma StopOvertakesStart(s: Once, t: nat, u: nat)
    requires Inv(s) && At(s, t, StartWaiting) && At(s, u, StopWaiting) && CanLock(s)
    ensures var checking := Apply(s, LockStop(u));
            var loading := Apply(checking, CheckStop(u));
            var after := Apply(loading, LoadStop(u));
            && Enabled(s, LockStop(u)) && Enabled(checking, CheckStop(u)) && Enabled(loading, LoadStop(u))
            && At(after, u, Done(CannotStop(Starting))) && At(after, t, StartWaiting)
            && after.state == s.state && after.log == s.log && Enabled(after, LockStart(t))
  {
    assert Local(s.state, s.log, s.calls[t]);
  }

  /** Nobody is turned away for nothing: a start of an unstarted service, and a stop or an
      IfStarted body of a started one, go through. And only those whose function ran hear
      how it ended. */
  lemma GoesThroughWhenDue(s: Once, a: Action)
    requires Inv(s) && Enabled(s, a)
    ensures a.CallStart? ==> (Apply(s, a).calls[a.t].StartWaiting? <==> s.state.Unstarted?)
    ensures a.CheckStop? ==> (Apply(s, a).calls[a.t].StopRunning? <==> s.state.Started?)
    ensures a.CheckIf? ==> (Apply(s, a).calls[a.t].IfRunning? <==> s.state.Started?)
    ensures a.ReturnIf? ==> Apply(s, a).calls[a.t] == Done(Ran)
    ensures var pc := Apply(s, a).calls[a.t];
      pc.Done? ==> && (pc.outcome.Succeeded? || pc.outcome.FnFailed? <==> a.FinishStart? || a.FinishStop?)
                   && (pc.outcome.Ran? <==> a.ReturnIf?)
  {
  }

  /** A start or stop that ran its function tells the caller how that ended, and so does the
      state: the last compare-and-swap never fails. */
  lemma TellsHowItEnded(s: Once, a: Action)
    requires Inv(s) && Enabled(s, a) && (a.FinishStart? || a.FinishStop?)
    ensures var ok, s' := s.calls[a.t].ok, Apply(s, a);
      && s'.calls[a.t] == Done(if ok then Succeeded else FnFailed)
      && s'.log == s.log && s.log[|s.log| - 1] == (if a.FinishStart? then StartReturned(ok) else StopReturned(ok))
      && s'.state == if a.FinishStart? then (if ok then Started else StartFailed) else (if ok then Stopped else StopFailed)
  {
  }

  // ------------------------------------------------------------- EnsureClosed

  /** EnsureClosed turns away the errors of a service that was never up or is down already. */
  predicate EnsureClosedFails(outcome: Outcome) {
    !outcome.Succeeded? && !outcome.AlreadyStopped? && !outcome.CannotStopUnstarted?
  }

  /** Once the compare-and-swap of a stop has failed, EnsureClosed reports an error exactly
      when the load finds a service that is on its way up or failed to start or stop. */
  lemma EnsureClosedFailsIff(s: Once, t: nat)
    requires Inv(s) && At(s, t, StopLoading)
    ensures var s' := Apply(s, LoadStop(t));
            && s'.calls[t].Done?
            && (EnsureClosedFails(s'.calls[t].outcome) <==> s.state.StartFailed? || s.state.StopFailed? || s.state.Starting?)
    ensures s.state.Unstarted? || s.state.Starting? || s.state.StartFailed? || s.state.Stopped? || s.state.StopFailed?
  {
  }

  /** The load is a second look: a start that slips in between turns a close of an
      unstarted service, which would have been fine, into an error. */
  lemma StartSlipsIn(s: Once, t: nat, u: nat)
    requires Inv(s) && At(s, u, StopChecking) && s.state.Unstarted? && t !in s.calls
    ensures var loading := Apply(s, CheckStop(u));
            var starting := Apply(loading, CallStart(t));
            && Enabled(s, CheckStop(u)) && Enabled(loading, CallStart(t)) && Enabled(starting, LoadStop(u))
            && Apply(loading, LoadStop(u)).calls[u] == Done(CannotStopUnstarted)
            && Apply(starting, LoadStop(u)).calls[u] == Done(CannotStop(Starting))
            && EnsureClosedFails(CannotStop(Starting)) && !EnsureClosedFails(CannotStopUnstarted)
  {
  }
}
