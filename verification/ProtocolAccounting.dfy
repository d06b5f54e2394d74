/** Conservation of created objects, and termination of every worker. */
module ProtocolAccounting {
  import opened Kubernetes
  import opened Protocol
  import opened ProtocolInvariants

  // How many create calls answered True in incarnation `id`, over all workers.
  function TrueAnswers(workers: seq<Worker>, id: nat): nat {
    if workers == [] then 0
    else TrueAnswers(workers[..|workers| - 1], id) + workers[|workers| - 1].won[id]
  }

  lemma {:induction false} TrueAnswersUpdate(workers: seq<Worker>, w: nat, k: Worker, id: nat)
    requires w < |workers|
    ensures TrueAnswers(workers[w := k], id) == TrueAnswers(workers, id) - workers[w].won[id] + k.won[id]
  {
    var last := |workers| - 1;
    var workers' := workers[w := k];
    if w == last {
      assert workers'[..last] == workers[..last];
    } else {
      assert workers'[..last] == workers[..last][w := k];
      TrueAnswersUpdate(workers[..last], w, k, id);
    }
  }

  lemma {:induction false} NoAnswersYet(workers: seq<Worker>, id: nat)
    requires forall w :: 0 <= w < |workers| ==> id !in workers[w].won
    ensures TrueAnswers(workers, id) == 0
  {
    if workers != [] {
      NoAnswersYet(workers[..|workers| - 1], id);
    }
  }

  ghost predicate Conserved(s: State) {
    IsActive(s.ns) ==>
      TrueAnswers(s.workers, s.ns.value.id) + s.ns.value.unacknowledged == |s.ns.value.objects|
  }

  // What a create call does to the three quantities of the balance.
  lemma CreateBalance(cfg: Config, s: State, w: nat, outcome: Outcome)
    requires w < |s.workers| && s.workers[w].pc < |cfg.steps| && IsActive(s.ns)
    ensures var s' := CreateCall(cfg, s, w, outcome);
      && IsActive(s'.ns)
      && s'.workers == s.workers[w := s'.workers[w]]
      && |s'.ns.value.objects| - |s.ns.value.objects|
         == (s'.ns.value.unacknowledged - s.ns.value.unacknowledged)
            + (s'.workers[w].won[s.ns.value.id] - s.workers[w].won[s.ns.value.id])
  {
  }

  lemma ConservedByWork(cfg: Config, s: State, a: Action)
    requires WellFormed(cfg) && IdsInv(cfg, s) && Conserved(s) && a.Work?
    ensures Conserved(Next(cfg, s, a))
  {
    var s' := Next(cfg, s, a);
    NextMoves(cfg, s, a);
    ActiveOnlyGrows(cfg, s, s', a);
    if IsActive(s'.ns) && a.worker < |s.workers| {
      var k := s.workers[a.worker];
      TrueAnswersUpdate(s.workers, a.worker, s'.workers[a.worker], s.ns.value.id);
      if k.mode.Working? && k.pc < |cfg.steps| {
        CreateBalance(cfg, s, a.worker, a.outcome);
      } else if s' != s {
        assert AnnotateEffect(s, s', a.worker, map[cfg.errorKey := None])
               || exists text :: AnnotateEffect(s, s', a.worker, map[cfg.errorKey := Some(text)]);
      }
    }
  }

  lemma ConservedByRequest(cfg: Config, s: State, s': State)
    requires IdsInv(cfg, s) && Conserved(s) && RequestEffect(cfg, s, s')
    ensures Conserved(s')
  {
    if IsActive(s'.ns) {
      var objects' := s'.ns.value.objects;
      assert |objects'| == |objects'.Keys|;
      if s.ns.None? {
        NoAnswersYet(s'.workers, s.minted);
      } else {
        assert |s.ns.value.objects| == |s.ns.value.objects.Keys|;
        assert s'.workers == s.workers || s'.workers[..|s'.workers| - 1] == s.workers;
      }
    }
  }

  lemma ConservedKept(cfg: Config, s: State, a: Action)
    requires WellFormed(cfg) && IdsInv(cfg, s) && Conserved(s)
    ensures Conserved(Next(cfg, s, a))
  {
    if a.Work? {
      ConservedByWork(cfg, s, a);
    } else {
      RequestHasEffect(cfg, s, a);
      ConservedByRequest(cfg, s, Next(cfg, s, a));
    }
  }

  /** Over all workers, the creates that answered True and those whose answer was lost account for every
      object of an active incarnation; none is counted twice. */
  lemma {:induction false} CreatesAreConserved(cfg: Config, acts: seq<Action>)
    requires WellFormed(cfg)
    ensures Conserved(Reached(cfg, acts))
  {
    if acts != [] {
      CreatesAreConserved(cfg, acts[..|acts| - 1]);
      ReachedInv(cfg, acts[..|acts| - 1]);
      ConservedKept(cfg, Reached(cfg, acts[..|acts| - 1]), acts[|acts| - 1]);
    }
  }

  // ---- Termination ----

  // The most calls that a worker can still make: its steps, the clearing and the recording.
  function CallsLeft(cfg: Config, k: Worker): nat {
    match k.mode
    case Working => if k.pc <= |cfg.steps| then |cfg.steps| - k.pc + 2 else 2
    case Failing(_, _) => 1
    case _ => 0
  }

  function AllCallsLeft(cfg: Config, workers: seq<Worker>): nat {
    if workers == [] then 0
    else AllCallsLeft(cfg, workers[..|workers| - 1]) + CallsLeft(cfg, workers[|workers| - 1])
  }

  lemma {:induction false} CallsLeftUpdate(cfg: Config, workers: seq<Worker>, w: nat, k: Worker)
    requires w < |workers|
    ensures AllCallsLeft(cfg, workers[w := k])
         == AllCallsLeft(cfg, workers) - CallsLeft(cfg, workers[w]) + CallsLeft(cfg, k)
  {
    var last := |workers| - 1;
    var workers' := workers[w := k];
    if w == last {
      assert workers'[..last] == workers[..last];
    } else {
      assert workers'[..last] == workers[..last][w := k];
      CallsLeftUpdate(cfg, workers[..last], w, k);
    }
  }

  // An action of a worker that has not ended.
  predicate IsCall(s: State, a: Action) {
    a.Work? && a.worker < |s.workers| && Live(s.workers[a.worker])
  }

  lemma CallsDecrease(cfg: Config, s: State, a: Action)
    requires WellFormed(cfg) && IdsInv(cfg, s)
    requires !a.Reserve? && !a.Retry?
    ensures var s' := Next(cfg, s, a);
      AllCallsLeft(cfg, s'.workers) + (if IsCall(s, a) then 1 else 0) <= AllCallsLeft(cfg, s.workers)
  {
    var s' := Next(cfg, s, a);
    if a.Work? && a.worker < |s.workers| {
      NextMoves(cfg, s, a);
      CallsLeftUpdate(cfg, s.workers, a.worker, s'.workers[a.worker]);
    }
  }

  function CallsMade(cfg: Config, s: State, acts: seq<Action>): nat {
    if acts == [] then 0
    else
      CallsMade(cfg, s, acts[..|acts| - 1])
      + if IsCall(Exec(cfg, s, acts[..|acts| - 1]), acts[|acts| - 1]) then 1 else 0
  }

  /** However the workers interleave and fail, a run without new requests contains at most
      `AllCallsLeft` worker calls: every worker ends after finitely many of its own moves. */
  lemma {:induction false} WorkersTerminate(cfg: Config, s: State, acts: seq<Action>)
    requires WellFormed(cfg) && Inv(cfg, s)
    requires forall i :: 0 <= i < |acts| ==> !acts[i].Reserve? && !acts[i].Retry?
    ensures CallsMade(cfg, s, acts) + AllCallsLeft(cfg, Exec(cfg, s, acts).workers) <= AllCallsLeft(cfg, s.workers)
  {
    if acts != [] {
      var before := acts[..|acts| - 1];
      WorkersTerminate(cfg, s, before);
      InvAlong(cfg, s, before);
      CallsDecrease(cfg, Exec(cfg, s, before), acts[|acts| - 1]);
    }
  }
}
