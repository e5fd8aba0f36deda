/** What holds in every reachable state of the batch processor. */
module BatchRuns {
  import opened BatchProcessor
  import opened BatchFlow
  import opened BatchCalls
  import opened BatchResults
  import opened BatchWaiters

  ghost predicate Sound(cfg: Config, s: State) {
    && Control(cfg, s) && Flow(cfg, s.intake) && Delivery(s.intake.sent, s.crew)
    && Accounted(cfg, s) && LedgerOk(cfg, s) && WaitingOk(cfg, s)
  }

  lemma InitialDelivery(workers: seq<Worker>)
    requires forall w :: 0 <= w < |workers| ==> workers[w].Unborn?
    ensures Delivery([], Crew([], false, workers, []))
  {
    NobodyHolds(workers);
  }

  lemma InitiallySound(cfg: Config)
    ensures Sound(cfg, Initial(cfg))
  {
    var s := Initial(cfg);
    InitialDelivery(s.crew.workers);
    assert LedgerOk(cfg, s);
    assert Control(cfg, s);
  }

  lemma StepKeepsSound(cfg: Config, s: State, a: Action)
    requires cfg.Valid() && Sound(cfg, s) && Next(cfg, s, a).Moves?
    ensures Sound(cfg, Next(cfg, s, a).next)
  {
    ControlStep(cfg, s, a);
    FlowStep(cfg, s, a);
    DeliveryStep(cfg, s, a);
    AccountedStep(cfg, s, a);
    LedgerStep(cfg, s, a);
    WaitingStep(cfg, s, a);
  }

  lemma {:induction false} RunsAreSound(cfg: Config, states: seq<State>, actions: seq<Action>, i: nat)
    requires cfg.Valid() && IsRun(cfg, states, actions) && i <= |actions|
    ensures Sound(cfg, states[i])
  {
    if i == 0 {
      InitiallySound(cfg);
    } else {
      var j := i - 1;
      RunsAreSound(cfg, states, actions, j);
      assert Next(cfg, states[j], actions[j]) == Moves(states[j + 1]);
      StepKeepsSound(cfg, states[j], actions[j]);
    }
  }

  lemma ReachableIsSound(cfg: Config, s: State)
    requires cfg.Valid() && Reachable(cfg, s)
    ensures Sound(cfg, s)
  {
    var states: seq<State>, actions: seq<Action> :| IsRun(cfg, states, actions) && states[|actions|] == s;
    RunsAreSound(cfg, states, actions, |actions|);
  }

  lemma ReachableIsControlled(cfg: Config, s: State)
    requires cfg.Valid() && Reachable(cfg, s)
    ensures Control(cfg, s)
  {
    hide Flow, Delivery, Accounted, LedgerOk, WaitingOk, Control;
    ReachableIsSound(cfg, s);
  }

  lemma InitialIsReachable(cfg: Config)
    ensures Reachable(cfg, Initial(cfg))
  {
    assert IsRun(cfg, [Initial(cfg)], []);
  }

  lemma ReachableStep(cfg: Config, s: State, a: Action)
    requires Reachable(cfg, s) && Next(cfg, s, a).Moves?
    ensures Reachable(cfg, Next(cfg, s, a).next)
  {
    var states: seq<State>, actions: seq<Action> :| IsRun(cfg, states, actions) && states[|actions|] == s;
    var states', actions' := states + [Next(cfg, s, a).next], actions + [a];
    forall i | 0 <= i < |actions'| ensures Next(cfg, states'[i], actions'[i]) == Moves(states'[i + 1]) {
      if i < |actions| {
        assert Next(cfg, states[i], actions[i]) == Moves(states[i + 1]);
      }
    }
    assert IsRun(cfg, states', actions');
  }

  // ----- No panic, and no worker waits for a waiter -----

  lemma HolderMoves(cfg: Config, s: State, w: nat, ok: bool)
    requires LedgerOk(cfg, s) && w < |s.crew.workers| && s.crew.workers[w].HasParcel()
    ensures StepWorker(cfg, s, w, ok).Moves?
  {
    var worker := s.crew.workers[w];
    assert WorkerOk(cfg.sync, s.answers, worker);
    if cfg.sync && worker.Signalling? && worker.k < |worker.parcel.items| {
      assert SlotOk(s.answers.channels, worker, worker.k);
    }
  }

  /** A worker with a batch can always go on: no result channel is ever full, whoever gave up waiting. */
  lemma WorkerNeverBlocks(cfg: Config, s: State, w: nat, ok: bool)
    requires cfg.Valid() && Reachable(cfg, s) && w < |s.crew.workers| && s.crew.workers[w].HasParcel()
    ensures Next(cfg, s, WorkerStep(w, ok)).Moves?
  {
    ReachableIsSound(cfg, s);
    HolderMoves(cfg, s, w, ok);
  }

  /** No interleaving sends on a closed channel or closes one twice. */
  lemma NoPanic(cfg: Config, s: State, a: Action)
    requires cfg.Valid() && Reachable(cfg, s)
    ensures !Next(cfg, s, a).Panics?
  {
    ReachableIsSound(cfg, s);
    match a {
      case WorkerStep(w, ok) =>
        if w < |s.crew.workers| && s.crew.workers[w].HasParcel() {
          HolderMoves(cfg, s, w, ok);
        }
      case _ =>
    }
  }
}
