/** The run loop of the transaction manager (common/txmgr/txmgr.go) with everything
    that runs beside it: callers of Reset and OnNewLongestChain, Close, the two
    goroutines that restart the Broadcaster and the Confirmer after a reset, and
    the goroutines that those two own.

    A run begins when the loop has started inside Start, which still holds the
    lock of StartStopOnce, and Start is assumed to return nil. Every step is one
    action of one of them, in any order; select statements and timeouts choose
    arbitrarily. What the loop does on a trigger changes nothing modelled here. */
module TxmLoop {
  import opened Options
  import Once = StartStopOnce

  type Addr = int

  // -------------------------------------------------------------------- state

  /** A goroutine of the Broadcaster or the Confirmer, by the start that launched it. */
  datatype Worker = Worker(addr: Addr, epoch: nat)

  /** Broadcaster and Confirmer alike: the StartStopOnce around them, the flag that
      startInternal and closeInternal keep, whether the workers of the last start
      were told to stop, and the workers still alive. */
  datatype Component = Component(once: Once.State, isStarted: bool, epoch: nat, stopping: bool, workers: set<Worker>)

  /** A call inside IfStarted; `ResetWaiting` is blocked on the done channel. */
  datatype CallerPc = ResetSending | ResetWaiting | ResetAnswered(ok: bool) | HeadSending | HeadDone

  datatype CloserPc = NotCalled | Holding | Waiting | Released

  datatype StarterPc = Trying | Finished

  datatype LoopPc =
    | Select
    | Refusing(t: nat)
    | ClosingBroadcaster(r: Option<nat>) | AwaitingBroadcaster(r: Option<nat>)
    | ClosingConfirmer(r: Option<nat>) | AwaitingConfirmer(r: Option<nat>)
    | Callback(t: nat) | Answering(t: nat)
    | Restarting
    | ExitBroadcaster | ExitAwaitingBroadcaster | ExitConfirmer | ExitAwaitingConfirmer
    | Exited

  /** Calls are numbered, and `calls` are all that ever got in. `ran` is history: the
      calls whose callback was run, in that order. */
  datatype Txm = Txm(
    state: Once.State, starting: bool, inside: map<nat, CallerPc>, closer: CloserPc, chStop: bool, stopped: bool,
    loop: LoopPc, bStarter: StarterPc, cStarter: StarterPc, broadcaster: Component, confirmer: Component, panicked: bool,
    calls: set<nat>, ran: seq<nat>)

  // ---------------------------------------------------------------- components

  ghost predicate WorkersGone(c: Component) { forall w :: w in c.workers ==> w.epoch != c.epoch }

  /** startInternal when nothing in it fails. */
  function Start(c: Component, addrs: set<Addr>): Component {
    c.(isStarted := true, epoch := c.epoch + 1, stopping := false,
       workers := c.workers + set a | a in addrs :: Worker(a, c.epoch + 1))
  }

  /** StopOnce lets EnsureClosed through unless the service is in some other state. */
  predicate CanEnsureClosed(c: Component) { c.once.Started? || c.once.Stopped? || c.once.Unstarted? }

  // -------------------------------------------------------------------- steps

  datatype Which = TheBroadcaster | TheConfirmer

  datatype Action =
    | FinishStart
    | EnterReset(t: nat) | EnterHead(t: nat) | GiveUpHead(t: nat) | Leave(t: nat)
    | TakeReset(t: nat) | TakeHead(t: nat) | KeysChanged(reloads: bool)
    | LoopStep
    | TryStart(which: Which, succeeds: bool, addrs: set<Addr>) | StarterSeesStop(which: Which)
    | WorkerExits(which: Which, w: Worker)
    | CloseBegins | CloseChannel | CloseFails | CloseReturns

  predicate LockHeldForWriting(s: Txm) { s.starting || s.closer.Holding? || s.closer.Waiting? }

  ghost predicate LoopCanStep(s: Txm) {
    match s.loop
    case Select => s.chStop
    case AwaitingBroadcaster(_) => WorkersGone(s.broadcaster)
    case ExitAwaitingBroadcaster => WorkersGone(s.broadcaster)
    case AwaitingConfirmer(_) => WorkersGone(s.confirmer)
    case ExitAwaitingConfirmer => WorkersGone(s.confirmer)
    case Restarting => s.bStarter.Finished? && s.cStarter.Finished?
    case Exited => false
    case _ => true
  }

  predicate CallerAt(s: Txm, t: nat, pc: CallerPc) { t in s.inside && s.inside[t] == pc }

  ghost predicate Enabled(s: Txm, a: Action) {
    match a
    case FinishStart => s.starting
    case EnterReset(t) => t !in s.calls && !LockHeldForWriting(s)
    case EnterHead(t) => t !in s.calls && !LockHeldForWriting(s)
    case GiveUpHead(t) => CallerAt(s, t, HeadSending)
    case Leave(t) => t in s.inside && (s.inside[t].ResetAnswered? || s.inside[t].HeadDone?)
    case TakeReset(t) => s.loop.Select? && CallerAt(s, t, ResetSending)
    case TakeHead(t) => s.loop.Select? && CallerAt(s, t, HeadSending)
    case KeysChanged(_) => s.loop.Select?
    case LoopStep => LoopCanStep(s)
    case TryStart(which, _, _) => s.loop.Restarting? && (if which.TheBroadcaster? then s.bStarter else s.cStarter).Trying?
    case StarterSeesStop(which) =>
      s.loop.Restarting? && s.chStop && (if which.TheBroadcaster? then s.bStarter else s.cStarter).Trying?
    case WorkerExits(which, w) =>
      var c := if which.TheBroadcaster? then s.broadcaster else s.confirmer;
      w in c.workers && (c.stopping || w.epoch != c.epoch)
    case CloseBegins => s.closer.NotCalled? && !LockHeldForWriting(s) && s.inside == map[] && s.state.Started?
    case CloseChannel => s.closer.Holding?
    case CloseFails => s.closer.Waiting?
    case CloseReturns => s.closer.Waiting? && s.loop.Exited?
  }

  function Answer(s: Txm, t: nat, ok: bool): Txm { s.(inside := s.inside[t := ResetAnswered(ok)]) }

  /** The first half of execReset: an error of closeInternal is a Panicw. */
  function BeginClose(s: Txm, which: Which, next: LoopPc): Txm {
    var c := if which.TheBroadcaster? then s.broadcaster else s.confirmer;
    if !c.isStarted then s.(panicked := true)
    else if which.TheBroadcaster? then s.(broadcaster := c.(stopping := true), loop := next)
    else s.(confirmer := c.(stopping := true), loop := next)
  }

  /** EnsureClosed on the way out: StopOnce around closeInternal. */
  function BeginExit(s: Txm, which: Which, wait: LoopPc, next: LoopPc): Txm {
    var c := if which.TheBroadcaster? then s.broadcaster else s.confirmer;
    var c' := if !c.once.Started? then c
              else if c.isStarted then c.(once := Once.Stopping, stopping := true)
              else c.(once := Once.StopFailed);
    var s' := if which.TheBroadcaster? then s.(broadcaster := c') else s.(confirmer := c');
    if !CanEnsureClosed(c) then s'.(panicked := true)
    else s'.(loop := if c.once.Started? && c.isStarted then wait else next)
  }

  function Step(s: Txm): Txm {
    match s.loop
    case Select => s.(loop := ExitBroadcaster)
    case Refusing(t) => Answer(s, t, false).(loop := Select)
    case ClosingBroadcaster(r) => BeginClose(s, TheBroadcaster, AwaitingBroadcaster(r))
    case AwaitingBroadcaster(r) => s.(broadcaster := s.broadcaster.(isStarted := false), loop := ClosingConfirmer(r))
    case ClosingConfirmer(r) => BeginClose(s, TheConfirmer, AwaitingConfirmer(r))
    case AwaitingConfirmer(r) =>
      var closed := s.(confirmer := s.confirmer.(isStarted := false));
      if r.Some? then closed.(loop := Callback(r.value)) else closed.(loop := Restarting, bStarter := Trying, cStarter := Trying)
    case Callback(t) => s.(loop := Answering(t), ran := s.ran + [t])
    case Answering(t) => Answer(s, t, true).(loop := Restarting, bStarter := Trying, cStarter := Trying)
    case Restarting => s.(loop := Select)
    case ExitBroadcaster => BeginExit(s, TheBroadcaster, ExitAwaitingBroadcaster, ExitConfirmer)
    case ExitAwaitingBroadcaster => s.(broadcaster := s.broadcaster.(isStarted := false, once := Once.Stopped), loop := ExitConfirmer)
    case ExitConfirmer => BeginExit(s, TheConfirmer, ExitAwaitingConfirmer, Exited)
    case ExitAwaitingConfirmer => s.(confirmer := s.confirmer.(isStarted := false, once := Once.Stopped), loop := Exited)
    case Exited => s
  }

  function Apply(s: Txm, a: Action): Txm {
    match a
    case FinishStart => s.(starting := false, state := Once.Started)
    case EnterReset(t) => if s.state.Started? then s.(inside := s.inside[t := ResetSending], calls := s.calls + {t}) else s
    case EnterHead(t) => if s.state.Started? then s.(inside := s.inside[t := HeadSending], calls := s.calls + {t}) else s
    case GiveUpHead(t) => s.(inside := s.inside[t := HeadDone])
    case Leave(t) => s.(inside := s.inside - {t})
    case TakeReset(t) =>
      s.(inside := s.inside[t := ResetWaiting], loop := if s.stopped then Refusing(t) else ClosingBroadcaster(Some(t)))
    case TakeHead(t) => s.(inside := s.inside[t := HeadDone])
    case KeysChanged(reloads) => if s.stopped || !reloads then s else s.(loop := ClosingBroadcaster(None))
    case LoopStep => Step(s)
    case TryStart(which, succeeds, addrs) =>
      if which.TheBroadcaster? then
        if succeeds && !s.broadcaster.isStarted then s.(broadcaster := Start(s.broadcaster, addrs), bStarter := Finished) else s
      else
        if succeeds && !s.confirmer.isStarted then s.(confirmer := Start(s.confirmer, {0}), cStarter := Finished) else s
    case StarterSeesStop(which) =>
      if which.TheBroadcaster? then s.(stopped := true, bStarter := Finished) else s.(stopped := true, cStarter := Finished)
    case WorkerExits(which, w) =>
      if which.TheBroadcaster? then s.(broadcaster := s.broadcaster.(workers := s.broadcaster.workers - {w}))
      else s.(confirmer := s.confirmer.(workers := s.confirmer.workers - {w}))
    case CloseBegins => s.(closer := Holding, state := Once.Stopping)
    case CloseChannel => s.(closer := Waiting, chStop := true)
    case CloseFails => s.(closer := Released, state := Once.StopFailed)
    case CloseReturns => s.(closer := Released, state := Once.Stopped)
  }

  function Initial(addrs: set<Addr>): Txm {
    Txm(Once.Starting, true, map[], NotCalled, false, false, Select, Finished, Finished,
        Component(Once.Started, true, 0, false, set a | a in addrs :: Worker(a, 0)),
        Component(Once.Started, true, 0, false, {Worker(0, 0)}), false, {}, [])
  }

  ghost predicate IsRun(states: seq<Txm>, actions: seq<Action>) {
    && |states| == |actions| + 1
    && (exists addrs :: states[0] == Initial(addrs))
    && forall i :: 0 <= i < |actions| ==> Enabled(states[i], actions[i]) && states[i + 1] == Apply(states[i], actions[i])
  }

  // ---------------------------------------------------------------- invariant

  /** Who is inside, and where Start and Close are. */
  ghost predicate LockInv(s: Txm) {
    && (s.starting <==> s.state.Starting?)
    && (s.closer.NotCalled? <==> s.starting || s.state.Started?)
    && (forall t :: t in s.inside ==> s.state.Started?)
    && (s.chStop <==> s.closer.Waiting? || s.closer.Released?)
    && (s.stopped ==> s.chStop)
    && (s.state.Stopped? ==> s.loop.Exited?)
  }

  predicate Serves(loop: LoopPc, t: nat) {
    || loop == ClosingBroadcaster(Some(t)) || loop == AwaitingBroadcaster(Some(t))
    || loop == ClosingConfirmer(Some(t)) || loop == AwaitingConfirmer(Some(t))
    || loop == Callback(t) || loop == Answering(t)
  }

  /** A caller waits for its answer exactly while the loop is busy with its reset. */
  ghost predicate ServesInv(s: Txm) {
    && (forall t :: CallerAt(s, t, ResetWaiting) <==> Serves(s.loop, t))
    && !s.loop.Refusing?
  }

  ghost predicate ComponentInv(c: Component) {
    && (forall w :: w in c.workers ==> w.epoch == c.epoch)
    && (!c.isStarted ==> c.workers == {})
  }

  predicate Exiting(loop: LoopPc) {
    loop.ExitBroadcaster? || loop.ExitAwaitingBroadcaster? || loop.ExitConfirmer? || loop.ExitAwaitingConfirmer? || loop.Exited?
  }

  predicate PhaseInv(s: Txm) {
    var b, c := s.broadcaster, s.confirmer;
    match s.loop
    case Select => !s.stopped ==> b.isStarted && c.isStarted
    case Refusing(_) => true
    case ClosingBroadcaster(_) => b.isStarted && c.isStarted
    case AwaitingBroadcaster(_) => b.isStarted && c.isStarted
    case ClosingConfirmer(_) => !b.isStarted && c.isStarted
    case AwaitingConfirmer(_) => !b.isStarted && c.isStarted
    case Callback(_) => !b.isStarted && !c.isStarted
    case Answering(_) => !b.isStarted && !c.isStarted
    case Restarting =>
      && (if s.bStarter.Trying? then !b.isStarted else b.isStarted || s.stopped)
      && (if s.cStarter.Trying? then !c.isStarted else c.isStarted || s.stopped)
    case _ => s.chStop
  }

  predicate OnceInv(s: Txm) {
    && (!Exiting(s.loop) || s.loop.ExitBroadcaster? ==> s.broadcaster.once.Started?)
    && (!Exiting(s.loop) || s.loop.ExitBroadcaster? || s.loop.ExitAwaitingBroadcaster? || s.loop.ExitConfirmer? ==> s.confirmer.once.Started?)
  }

  /** Who waits for workers has told them to stop. */
  predicate StoppingInv(s: Txm) {
    && (s.loop.AwaitingBroadcaster? || s.loop.ExitAwaitingBroadcaster? ==> s.broadcaster.stopping)
    && (s.loop.AwaitingConfirmer? || s.loop.ExitAwaitingConfirmer? ==> s.confirmer.stopping)
  }

  /** No callback runs twice, and of the calls that are inside it ran for exactly those
      that were told so, and for the one that is just being told. */
  ghost predicate RanInv(s: Txm) {
    && (forall t :: t in s.inside || t in s.ran ==> t in s.calls)
    && (forall i, j :: 0 <= i < j < |s.ran| ==> s.ran[i] != s.ran[j])
    && (forall t :: t in s.inside ==> (t in s.ran <==> s.inside[t] == ResetAnswered(true) || s.loop == Answering(t)))
  }

  ghost predicate Inv(s: Txm) {
    && !s.panicked
    && LockInv(s) && ServesInv(s) && RanInv(s) && PhaseInv(s) && OnceInv(s) && StoppingInv(s)
    && ComponentInv(s.broadcaster) && ComponentInv(s.confirmer)
  }

  lemma CallersKeepInv(s: Txm, a: Action)
    requires Inv(s) && Enabled(s, a)
    requires a.EnterReset? || a.EnterHead? || a.GiveUpHead? || a.Leave? || a.TakeHead? || a.TakeReset? || a.KeysChanged?
    ensures Inv(Apply(s, a))
  {
    if a.TakeReset? {
      assert s.state.Started? && !s.stopped;
    }
    var s' := Apply(s, a);
    forall t
      ensures CallerAt(s', t, ResetWaiting) <==> Serves(s'.loop, t)
      ensures t in s'.inside ==> (t in s'.ran <==> s'.inside[t] == ResetAnswered(true) || s'.loop == Answering(t))
    {
      assert CallerAt(s, t, ResetWaiting) <==> Serves(s.loop, t);
      assert t in s.inside ==> (t in s.ran <==> s.inside[t] == ResetAnswered(true) || s.loop == Answering(t));
    }
  }

  lemma LoopServes(s: Txm)
    requires Inv(s) && LoopCanStep(s)
    ensures ServesInv(Step(s))
  {
    var s' := Step(s);
    forall t
      ensures CallerAt(s', t, ResetWaiting) <==> Serves(s'.loop, t)
    {
      assert CallerAt(s, t, ResetWaiting) <==> Serves(s.loop, t);
    }
  }

  lemma LoopKeepsRan(s: Txm)
    requires Inv(s) && LoopCanStep(s)
    ensures RanInv(Step(s))
  {
    if s.loop.Callback? || s.loop.Answering? {
      var t, s' := s.loop.t, Step(s);
      assert CallerAt(s, t, ResetWaiting);
      assert s.loop.Callback? ==> t in s'.ran && s'.ran[|s.ran|] == t;
    }
  }

  lemma LoopKeepsPhase(s: Txm)
    requires Inv(s) && LoopCanStep(s)
    ensures !Step(s).panicked && PhaseInv(Step(s)) && OnceInv(Step(s)) && StoppingInv(Step(s))
  {
    match s.loop
    case ClosingBroadcaster(r) =>
    case ClosingConfirmer(r) =>
    case AwaitingConfirmer(r) =>
    case ExitBroadcaster =>
    case ExitConfirmer =>
    case _ =>
  }

  lemma LoopKeepsLock(s: Txm)
    requires Inv(s) && LoopCanStep(s)
    ensures LockInv(Step(s)) && ComponentInv(Step(s).broadcaster) && ComponentInv(Step(s).confirmer)
  {
    if s.loop.Callback? || s.loop.Answering? {
      assert CallerAt(s, s.loop.t, ResetWaiting);
    }
  }

  lemma LoopKeepsInv(s: Txm)
    requires Inv(s) && LoopCanStep(s)
    ensures Inv(Step(s))
  {
    LoopServes(s);
    LoopKeepsRan(s);
    LoopKeepsPhase(s);
    LoopKeepsLock(s);
  }

  lemma ServicesKeepInv(s: Txm, a: Action)
    requires Inv(s) && Enabled(s, a) && (a.TryStart? || a.StarterSeesStop? || a.WorkerExits?)
    ensures Inv(Apply(s, a))
  {
  }

  lemma OwnerKeepsInv(s: Txm, a: Action)
    requires Inv(s) && Enabled(s, a)
    requires a.FinishStart? || a.CloseBegins? || a.CloseChannel? || a.CloseFails? || a.CloseReturns?
    ensures Inv(Apply(s, a))
  {
  }

  lemma StepKeepsInv(s: Txm, a: Action)
    requires Inv(s) && Enabled(s, a)
    ensures Inv(Apply(s, a))
  {
    match a
    case EnterReset(_) => CallersKeepInv(s, a);
    case EnterHead(_) => CallersKeepInv(s, a);
    case GiveUpHead(_) => CallersKeepInv(s, a);
    case Leave(_) => CallersKeepInv(s, a);
    case TakeHead(_) => CallersKeepInv(s, a);
    case TakeReset(_) => CallersKeepInv(s, a);
    case KeysChanged(_) => CallersKeepInv(s, a);
    case LoopStep => LoopKeepsInv(s);
    case TryStart(_, _, _) => ServicesKeepInv(s, a);
    case StarterSeesStop(_) => ServicesKeepInv(s, a);
    case WorkerExits(_, _) => ServicesKeepInv(s, a);
    case _ => OwnerKeepsInv(s, a);
  }

  // ----------------------------------------------------------------- theorems

  ghost predicate Guarantee(s: Txm) {
    // At the head of the loop both are up unless it is about to stop.
    && (s.loop.Select? && !s.stopped ==> s.broadcaster.isStarted && s.confirmer.isStarted)
    // A reset callback runs alone: both are down and none of their goroutines is alive.
    && (s.loop.Callback? || s.loop.Answering? ==>
          CallerAt(s, s.loop.t, ResetWaiting) && !s.broadcaster.isStarted && !s.confirmer.isStarted
          && s.broadcaster.workers == {} && s.confirmer.workers == {})
    // Whoever is told that the reset is done has had its callback run, and once.
    && (forall t :: CallerAt(s, t, ResetAnswered(true)) ==> exists k :: 0 <= k < |s.ran| && s.ran[k] == t)
    && (forall t :: CallerAt(s, t, ResetSending) || CallerAt(s, t, ResetAnswered(false)) ==> t !in s.ran)
    && (forall i, j :: 0 <= i < j < |s.ran| ==> s.ran[i] != s.ran[j])
    // Never two monitors of one address, nor two run loops of the Confirmer.
    && (forall v, w :: v in s.broadcaster.workers && w in s.broadcaster.workers && v.addr == w.addr ==> v == w)
    && (forall v, w :: v in s.confirmer.workers && w in s.confirmer.workers && v.addr == w.addr ==> v == w)
    // None of the Panicw branches is reached, and no reset is ever refused.
    && !s.panicked
    && !s.loop.Refusing?
    // Once the stop channel is closed nobody is inside Reset or OnNewLongestChain.
    && (s.chStop ==> s.inside == map[])
    // Close returns nil only when the loop is gone.
    && (s.state.Stopped? ==> s.loop.Exited?)
    // In particular nobody is left waiting when the loop is gone.
    && (s.loop.Exited? ==> forall t :: !CallerAt(s, t, ResetSending) && !CallerAt(s, t, ResetWaiting))
  }

  lemma InvGivesGuarantee(s: Txm)
    requires Inv(s)
    ensures Guarantee(s)
  {
  }

  /** Main theorem: every state of every run, for any keys, callers and failures. */
  lemma {:induction false} EveryRunIsSafe(states: seq<Txm>, actions: seq<Action>, n: nat)
    requires IsRun(states, actions) && n < |states|
    ensures Inv(states[n]) && Guarantee(states[n])
  {
    if n > 0 {
      EveryRunIsSafe(states, actions, n - 1);
      StepKeepsInv(states[n - 1], actions[n - 1]);
      assert states[n - 1 + 1] == Apply(states[n - 1], actions[n - 1]);
    }
    InvGivesGuarantee(states[n]);
  }

  // ---------------------------------------------------------------- what resets achieve

  /** The callbacks that the loop ran in the first n steps. */
  function CallbacksRun(states: seq<Txm>, actions: seq<Action>, n: nat): seq<nat>
    requires |states| == |actions| + 1 && n < |states|
  {
    if n == 0 then []
    else CallbacksRun(states, actions, n - 1)
         + if actions[n - 1].LoopStep? && states[n - 1].loop.Callback? then [states[n - 1].loop.t] else []
  }

  lemma OnlyCallbacksAreLogged(s: Txm, a: Action)
    ensures Apply(s, a).ran == s.ran + if a.LoopStep? && s.loop.Callback? then [s.loop.t] else []
  {
    if a.LoopStep? {
      match s.loop
      case Callback(t) =>
      case ClosingBroadcaster(r) =>
      case ClosingConfirmer(r) =>
      case AwaitingConfirmer(r) =>
      case ExitBroadcaster =>
      case ExitConfirmer =>
      case _ =>
    }
  }

  /** A call of Reset that is told to be done had its callback run in exactly one step, and
      one that waits to be taken or was refused has not: by EveryRunIsSafe the log of the
      callbacks says so, and this is what was logged. */
  lemma {:induction false} LogIsTrue(states: seq<Txm>, actions: seq<Action>, n: nat)
    requires IsRun(states, actions) && n < |states|
    ensures states[n].ran == CallbacksRun(states, actions, n)
  {
    if n > 0 {
      LogIsTrue(states, actions, n - 1);
      OnlyCallbacksAreLogged(states[n - 1], actions[n - 1]);
      assert states[n - 1 + 1] == Apply(states[n - 1], actions[n - 1]);
    }
  }

  predicate Restarts(s: Txm, a: Action) { !s.stopped && (a.TakeReset? || (a.KeysChanged? && a.reloads)) }

  /** How many resets and reloads the loop took up in the first n steps. */
  function Served(states: seq<Txm>, actions: seq<Action>, n: nat): nat
    requires |states| == |actions| + 1 && n < |states|
  {
    if n == 0 then 0 else Served(states, actions, n - 1) + if Restarts(states[n - 1], actions[n - 1]) then 1 else 0
  }

  /** The addresses that the Broadcaster was last started for, and at first by Start. */
  function Loaded(first: set<Addr>, states: seq<Txm>, actions: seq<Action>, n: nat): set<Addr>
    requires |states| == |actions| + 1 && n < |states|
  {
    if n == 0 then first
    else
      var a := actions[n - 1];
      if a.TryStart? && a.which.TheBroadcaster? && a.succeeds && !states[n - 1].broadcaster.isStarted then a.addrs
      else Loaded(first, states, actions, n - 1)
  }

  function WorkersOf(addrs: set<Addr>, epoch: nat): set<Worker> { set a | a in addrs :: Worker(a, epoch) }

  ghost predicate UpFor(c: Component, addrs: set<Addr>) {
    c.isStarted && !c.stopping ==> c.workers == WorkersOf(addrs, c.epoch)
  }

  predicate BetweenResets(loop: LoopPc) { loop.Select? || loop.Refusing? || loop.Restarting? }

  /** So many restarts were begun, the last with these addresses: both services have been
      started once for each that is finished. */
  ghost predicate Restarted(s: Txm, served: int, addrs: set<Addr>) {
    var b, c := s.broadcaster, s.confirmer;
    && UpFor(b, addrs) && UpFor(c, {0})
    && (BetweenResets(s.loop) ==>
          && b.epoch == (if b.isStarted then served else served - 1) && (b.isStarted ==> !b.stopping)
          && c.epoch == (if c.isStarted then served else served - 1) && (c.isStarted ==> !c.stopping))
    && (!BetweenResets(s.loop) && !Exiting(s.loop) ==> b.epoch == c.epoch == served - 1)
  }

  lemma LoopStepRestarts(s: Txm, served: int, addrs: set<Addr>)
    requires Inv(s) && LoopCanStep(s) && Restarted(s, served, addrs)
    ensures Restarted(Step(s), served, addrs)
  {
    match s.loop
    case ClosingBroadcaster(r) =>
    case ClosingConfirmer(r) =>
    case AwaitingConfirmer(r) =>
    case ExitBroadcaster =>
    case ExitConfirmer =>
    case _ =>
  }

  lemma StartRestarts(s: Txm, a: Action, served: int, addrs: set<Addr>)
    requires Inv(s) && Enabled(s, a) && Restarted(s, served, addrs) && a.TryStart?
    ensures Restarted(Apply(s, a), served, if a.which.TheBroadcaster? && a.succeeds && !s.broadcaster.isStarted then a.addrs else addrs)
  {
  }

  lemma StepRestarts(s: Txm, a: Action, served: int, addrs: set<Addr>)
    requires Inv(s) && Enabled(s, a) && Restarted(s, served, addrs)
    ensures Restarted(Apply(s, a), served + if Restarts(s, a) then 1 else 0,
                      if a.TryStart? && a.which.TheBroadcaster? && a.succeeds && !s.broadcaster.isStarted then a.addrs else addrs)
  {
    match a
    case LoopStep => LoopStepRestarts(s, served, addrs);
    case TryStart(_, _, _) => StartRestarts(s, a, served, addrs);
    case _ =>
  }

  lemma OneMoreRestarted(s: Txm, a: Action, s': Txm, served: int, addrs: set<Addr>, served': int, addrs': set<Addr>)
    requires Inv(s) && Enabled(s, a) && s' == Apply(s, a) && Restarted(s, served, addrs)
    requires served' == served + if Restarts(s, a) then 1 else 0
    requires addrs' == if a.TryStart? && a.which.TheBroadcaster? && a.succeeds && !s.broadcaster.isStarted then a.addrs else addrs
    ensures Restarted(s', served', addrs')
  {
    StepRestarts(s, a, served, addrs);
  }

  /** Every reset and every change of keys that the loop takes up ends in one start of each
      service: whenever the loop is back at its head and not about to stop, both are up, with
      as many starts behind them, with a goroutine for each of the addresses that were read
      last and for no other. */
  lemma {:induction false} EveryResetRestarts(first: set<Addr>, states: seq<Txm>, actions: seq<Action>, n: nat)
    requires IsRun(states, actions) && n < |states| && states[0] == Initial(first)
    ensures Restarted(states[n], Served(states, actions, n), Loaded(first, states, actions, n))
    ensures var s, epoch := states[n], Served(states, actions, n);
            s.loop.Select? && !s.stopped ==>
              && s.broadcaster.workers == WorkersOf(Loaded(first, states, actions, n), epoch)
              && s.confirmer.workers == {Worker(0, epoch)}
  {
    if n > 0 {
      EveryResetRestarts(first, states, actions, n - 1);
      EveryRunIsSafe(states, actions, n - 1);
      assert states[n - 1 + 1] == Apply(states[n - 1], actions[n - 1]);
      OneMoreRestarted(states[n - 1], actions[n - 1], states[n], Served(states, actions, n - 1), Loaded(first, states, actions, n - 1),
                       Served(states, actions, n), Loaded(first, states, actions, n));
    }
    EveryRunIsSafe(states, actions, n);
    BothAreUp(states[n], Served(states, actions, n), Loaded(first, states, actions, n));
  }

  lemma BothAreUp(s: Txm, served: int, addrs: set<Addr>)
    requires Inv(s) && Restarted(s, served, addrs)
    ensures s.loop.Select? && !s.stopped ==>
              s.broadcaster.workers == WorkersOf(addrs, served) && s.confirmer.workers == {Worker(0, served)}
  {
  }

  /** A call of Reset gets in while the service is started, and once it is in the loop can take
      it up whenever it is at its head, unless Close was first. */
  lemma ResetIsTakenUp(s: Txm, t: nat)
    requires Inv(s)
    ensures Enabled(s, EnterReset(t)) && s.state.Started? ==> CallerAt(Apply(s, EnterReset(t)), t, ResetSending)
    ensures s.loop.Select? && CallerAt(s, t, ResetSending) ==>
              && Enabled(s, TakeReset(t)) && !s.chStop
              && CallerAt(Apply(s, TakeReset(t)), t, ResetWaiting) && Apply(s, TakeReset(t)).loop == ClosingBroadcaster(Some(t))
  {
  }

  // ------------------------------------------------------------- getting to the exit

  /** What the loop, its workers and its starters do by themselves once told to stop. */
  predicate OwnAction(a: Action) { a.LoopStep? || a.WorkerExits? || a.StarterSeesStop? }

  function Phase(loop: LoopPc): nat {
    match loop
    case ClosingBroadcaster(_) => 13
    case AwaitingBroadcaster(_) => 12
    case ClosingConfirmer(_) => 11
    case AwaitingConfirmer(_) => 10
    case Callback(_) => 9
    case Answering(_) => 8
    case Restarting => 7
    case Refusing(_) => 6
    case Select => 5
    case ExitBroadcaster => 4
    case ExitAwaitingBroadcaster => 3
    case ExitConfirmer => 2
    case ExitAwaitingConfirmer => 1
    case Exited => 0
  }

  function Alive(s: Txm): nat { |s.broadcaster.workers| + |s.confirmer.workers| }

  function StillTrying(s: Txm): nat { (if s.bStarter.Trying? then 1 else 0) + if s.cStarter.Trying? then 1 else 0 }

  predicate Closer(s: Txm, s': Txm) {
    || Phase(s'.loop) < Phase(s.loop)
    || (s'.loop == s.loop && Alive(s') < Alive(s))
    || (s'.loop == s.loop && Alive(s') == Alive(s) && StillTrying(s') < StillTrying(s))
  }

  lemma WorkerLeaves(s: Txm, which: Which)
    requires Inv(s) && !WorkersGone(if which.TheBroadcaster? then s.broadcaster else s.confirmer)
    requires (if which.TheBroadcaster? then s.broadcaster else s.confirmer).stopping
    ensures exists w :: Enabled(s, WorkerExits(which, w)) && Closer(s, Apply(s, WorkerExits(which, w)))
  {
    var c := if which.TheBroadcaster? then s.broadcaster else s.confirmer;
    var w :| w in c.workers && w.epoch == c.epoch;
    assert |c.workers - {w}| == |c.workers| - 1;
    assert Enabled(s, WorkerExits(which, w)) && Closer(s, Apply(s, WorkerExits(which, w)));
  }

  /** Nothing that the loop waits for while it is busy with a reset, or once the stop channel
      is closed, can fail to come: the loop itself, a worker it waits for, or a starter that
      looks at the stop channel can take a step, and one that brings the end of the reset,
      or the exit, closer. */
  lemma AlwaysCloser(s: Txm) returns (a: Action)
    requires Inv(s) && ((s.chStop && !s.loop.Exited?) || !(BetweenResets(s.loop) || Exiting(s.loop)))
    ensures OwnAction(a) && Enabled(s, a) && Closer(s, Apply(s, a))
  {
    if LoopCanStep(s) {
      a := LoopStep;
      assert Inv(Step(s)) by { LoopKeepsInv(s); }
    } else if s.loop.Restarting? {
      a := StarterSeesStop(if s.bStarter.Trying? then TheBroadcaster else TheConfirmer);
    } else {
      var which := if s.loop.AwaitingBroadcaster? || s.loop.ExitAwaitingBroadcaster? then TheBroadcaster else TheConfirmer;
      WorkerLeaves(s, which);
      var w :| Enabled(s, WorkerExits(which, w)) && Closer(s, Apply(s, WorkerExits(which, w)));
      a := WorkerExits(which, w);
    }
  }

  ghost predicate OwnStep(a: Action, s: Txm, s': Txm) { OwnAction(a) && Enabled(s, a) && s' == Apply(s, a) }

  ghost predicate Leads(states: seq<Txm>, actions: seq<Action>) {
    |states| == |actions| + 1 && forall i :: 0 <= i < |actions| ==> OwnStep(actions[i], states[i], states[i + 1])
  }

  lemma OneStepMore(s: Txm, a: Action, states: seq<Txm>, actions: seq<Action>)
    requires Leads(states, actions) && OwnStep(a, s, states[0])
    ensures Leads([s] + states, [a] + actions)
  {
  }

  /** From every state of every run in which the stop channel is closed, these steps alone
      lead to the end of the loop, whatever Close did meanwhile. */
  lemma {:induction false} ExitIsReachable(s: Txm) returns (states: seq<Txm>, actions: seq<Action>)
    requires Inv(s) && s.chStop
    ensures Leads(states, actions) && states[0] == s && states[|states| - 1].loop.Exited?
    decreases Phase(s.loop), Alive(s), StillTrying(s)
  {
    if s.loop.Exited? {
      return [s], [];
    }
    var a := AlwaysCloser(s);
    StepKeepsInv(s, a);
    StaysClosed(s, a);
    var rest, more := ExitIsReachable(Apply(s, a));
    OneStepMore(s, a, rest, more);
    states, actions := [s] + rest, [a] + more;
  }

  /** A call of Reset that was taken up can always be answered, by these steps alone. */
  lemma {:induction false} AnswerIsReachable(s: Txm, t: nat) returns (states: seq<Txm>, actions: seq<Action>)
    requires Inv(s) && CallerAt(s, t, ResetWaiting)
    ensures Leads(states, actions) && states[0] == s && CallerAt(states[|states| - 1], t, ResetAnswered(true))
    decreases Phase(s.loop), Alive(s), StillTrying(s)
  {
    assert Serves(s.loop, t);
    var a := AlwaysCloser(s);
    StepKeepsInv(s, a);
    WaitsUntilAnswered(s, a, t);
    var rest, more := [Apply(s, a)], [];
    if CallerAt(Apply(s, a), t, ResetWaiting) {
      rest, more := AnswerIsReachable(Apply(s, a), t);
    }
    OneStepMore(s, a, rest, more);
    states, actions := [s] + rest, [a] + more;
  }

  lemma WaitsUntilAnswered(s: Txm, a: Action, t: nat)
    requires Inv(s) && OwnAction(a) && Enabled(s, a) && CallerAt(s, t, ResetWaiting)
    ensures CallerAt(Apply(s, a), t, ResetWaiting) || CallerAt(Apply(s, a), t, ResetAnswered(true))
  {
  }

  lemma StaysClosed(s: Txm, a: Action)
    requires s.chStop && OwnAction(a) && Enabled(s, a)
    ensures Apply(s, a).chStop
  {
    match a
    case LoopStep => StepKeepsChStop(s);
    case WorkerExits(_, _) =>
    case StarterSeesStop(_) =>
  }

  lemma StepKeepsChStop(s: Txm)
    ensures Step(s).chStop == s.chStop
  {
    match s.loop
    case Select =>
    case Refusing(t) =>
    case ClosingBroadcaster(r) =>
    case AwaitingBroadcaster(r) =>
    case ClosingConfirmer(r) =>
    case AwaitingConfirmer(r) =>
    case _ =>
  }
}
