/** The provisioning code itself, step by step over a mutable cluster. Every cluster call is shown to be one
    action of the protocol, with whatever other requests and workers do between the calls. */
module Provisioning {
  import opened Kubernetes
  import opened Protocol
  import opened ProtocolInvariants
  import opened ProtocolProgress
  import opened Catalog

  // How a create request ends: accepted with a started worker, the 409, or another exception.
  datatype Reservation = Accepted | Exists | Failed(reason: string)

  // What create_if_absent returns, or the reason of the exception it raises.
  datatype Answer = Returned(created: bool) | Raised(reason: string)

  // One turn of a worker: what others do first, and what then becomes of its call.
  datatype Turn = Turn(others: seq<Action>, outcome: Outcome)

  predicate NotBy(w: nat, acts: seq<Action>) {
    forall i :: 0 <= i < |acts| ==> !(acts[i].Work? && acts[i].worker == w)
  }

  // Enough turns for a whole run of worker `w`, whose own process keeps running.
  ghost predicate Schedule(turns: seq<Turn>, w: nat, calls: nat) {
    && |turns| >= calls
    && forall i :: 0 <= i < |turns| ==> NotBy(w, turns[i].others) && !turns[i].outcome.Crash?
  }

  // The run of the protocol in which `w` makes one call per turn.
  function Woven(turns: seq<Turn>, w: nat): seq<Action> {
    if turns == [] then []
    else
      var last := turns[|turns| - 1];
      Woven(turns[..|turns| - 1], w) + last.others + [Work(w, last.outcome)]
  }

  lemma WovenOneMore(cfg: Config, s: State, turns: seq<Turn>, w: nat, calls: nat)
    requires calls < |turns|
    ensures Exec(cfg, s, Woven(turns[..calls + 1], w)) ==
            Next(cfg, Exec(cfg, Exec(cfg, s, Woven(turns[..calls], w)), turns[calls].others),
                 Work(w, turns[calls].outcome))
  {
    var more := turns[..calls + 1];
    assert more[..|more| - 1] == turns[..calls];
    var last := turns[calls];
    ExecComposes(cfg, s, Woven(turns[..calls], w), last.others);
    var acts := Woven(turns[..calls], w) + last.others;
    assert (acts + [Work(w, last.outcome)])[..|acts|] == acts;
  }

  ghost predicate Quiet(turns: seq<Turn>) {
    forall i :: 0 <= i < |turns| ==> turns[i] == Turn([], Answered)
  }

  // A worker without faults and interference runs alone.
  lemma {:induction false} QuietIsSolo(turns: seq<Turn>, w: nat)
    requires Quiet(turns)
    ensures Woven(turns, w) == Solo(w, |turns|)
  {
    if turns != [] {
      QuietIsSolo(turns[..|turns| - 1], w);
    }
  }

  // An undisturbed worker that has ended has made all its calls, and they have succeeded.
  lemma QuietRunSucceeds(cfg: Config, s: State, turns: seq<Turn>, w: nat, calls: nat)
    requires WellFormed(cfg) && IsActive(s.ns)
    requires w < |s.workers| && s.workers[w].mode.Working? && s.workers[w].pc == 0
    requires Quiet(turns) && calls <= |turns| && calls <= RunLength(cfg) + 1
    requires var k := Exec(cfg, s, Woven(turns[..calls], w)); w < |k.workers| && !Live(k.workers[w])
    requires var k := Exec(cfg, s, Woven(turns[..calls], w)); k.workers[w].mode.Done? ==> calls == RunLength(cfg)
    ensures calls == RunLength(cfg)
    ensures Provisioned(cfg, s, Exec(cfg, s, Woven(turns[..calls], w)), w)
  {
    var n := RunLength(cfg);
    QuietIsSolo(turns[..calls], w);
    if calls < n {
      SoloProgress(cfg, s, w, calls);
    } else {
      SoloRun(cfg, s, w);
      assert Solo(w, n + 1)[..n] == Solo(w, n);
    }
  }

  lemma QuietKafka(prefix: string, s: State, turns: seq<Turn>, w: nat, calls: nat)
    requires var cfg := KafkaConfig(prefix);
      && w < |s.workers| && s.workers[w].mode.Working? && s.workers[w].pc == 0
      && calls <= |turns| && calls <= RunLength(cfg) + 1
      && var k := Exec(cfg, s, Woven(turns[..calls], w));
      && w < |k.workers| && !Live(k.workers[w])
      && (k.workers[w].mode.Done? ==> calls == RunLength(cfg))
    ensures var cfg := KafkaConfig(prefix);
      IsActive(s.ns) && Quiet(turns) ==>
        calls == RunLength(cfg) && Provisioned(cfg, s, Exec(cfg, s, Woven(turns[..calls], w)), w)
  {
    if IsActive(s.ns) && Quiet(turns) {
      KafkaWellFormed(prefix);
      QuietRunSucceeds(KafkaConfig(prefix), s, turns, w, calls);
    }
  }

  lemma QuietEnvironment(prefix: string, t: DeploymentType, s: State, turns: seq<Turn>, w: nat, calls: nat)
    requires var cfg := EnvironmentConfig(prefix, t);
      && w < |s.workers| && s.workers[w].mode.Working? && s.workers[w].pc == 0
      && calls <= |turns| && calls <= RunLength(cfg) + 1
      && var k := Exec(cfg, s, Woven(turns[..calls], w));
      && w < |k.workers| && !Live(k.workers[w])
      && (k.workers[w].mode.Done? ==> calls == RunLength(cfg))
    ensures var cfg := EnvironmentConfig(prefix, t);
      IsActive(s.ns) && Quiet(turns) ==>
        var s' := Exec(cfg, s, Woven(turns[..calls], w));
        && calls == RunLength(cfg) && Provisioned(cfg, s, s', w)
        && forall name :: Key(VolumeClaim, name) in s'.ns.value.objects <==>
             || Key(VolumeClaim, name) in s.ns.value.objects
             || name == "hub-db-dir" || (t == Ids && name == "ids-data-shared")
  {
    if IsActive(s.ns) && Quiet(turns) {
      EnvironmentWellFormed(prefix, t);
      QuietRunSucceeds(EnvironmentConfig(prefix, t), s, turns, w, calls);
      forall name ensures Key(VolumeClaim, name) in StepKeys(EnvironmentConfig(prefix, t)) <==>
                          name == "hub-db-dir" || (t == Ids && name == "ids-data-shared")
      {
        ClaimsOf(t, name);
        assert StepKeys(EnvironmentConfig(prefix, t)) == StepKeys(EnvironmentConfig("", t));
      }
    }
  }

  lemma {:induction false} OthersLeaveWorker(cfg: Config, s: State, acts: seq<Action>, w: nat)
    requires NotBy(w, acts) && w < |s.workers|
    ensures var s' := Exec(cfg, s, acts); w < |s'.workers| && s'.workers[w] == s.workers[w]
  {
    if acts != [] {
      var before := acts[..|acts| - 1];
      OthersLeaveWorker(cfg, s, before, w);
      NextMoves(cfg, Exec(cfg, s, before), acts[|acts| - 1]);
    }
  }

  class KubeClient {
    const cfg: Config
    var ns: Option<Namespace>
    var minted: nat
    var workers: seq<Worker>
    var deletes: seq<DeleteRequest>

    constructor (cfg: Config)
      ensures this.cfg == cfg && Now() == INIT
    {
      this.cfg := cfg;
      ns, minted, workers, deletes := None, 0, [], [];
    }

    // The protocol state that the fields represent.
    ghost function Now(): State
      reads this
    {
      State(ns, minted, workers, deletes)
    }

    // ---- Requests ----

    /** create_environment and create_kafka: reserve the namespace, then start a worker. When the call raises
        anything but a 409, no worker is started, although the namespace may exist: to the protocol that is a
        worker that crashes at once. */
    method ReserveNamespace(owner: string, gen: Generated, outcome: Outcome) returns (r: Reservation)
      requires !outcome.Crash? && 0 < |cfg.steps|
      modifies this
      ensures Now() == if outcome.Answered? then Next(cfg, old(Now()), Reserve(owner, gen))
                       else if outcome.applied && old(ns).None?
                         then Next(cfg, Next(cfg, old(Now()), Reserve(owner, gen)), Work(|old(workers)|, Crash(false)))
                       else old(Now())
      ensures r.Accepted? <==> outcome.Answered? && old(ns).None?
      ensures r.Exists? <==> outcome.Answered? && old(ns).Some?
      ensures r.Accepted? ==>
                && minted == old(minted) + 1 && IsActive(ns)
                && workers[|workers| - 1] == NewWorker(gen, ns.value.id, User(owner, false))
      ensures r.Failed? ==> outcome.Lost? && r.reason == outcome.reason
      ensures r.Failed? && ns != old(ns) ==> IsActive(ns) && !Live(workers[|workers| - 1])
    {
      if outcome.Answered? && ns.Some? {
        return Exists;
      }
      if ns.None? && (outcome.Answered? || outcome.applied) {
        var annotations := map[cfg.ownerKey := owner];
        ns := Some(Namespace(minted, Active, annotations, map[], None, 0, false, false, false));
        var started := NewWorker(gen, minted, User(owner, false));
        var worker := started;
        if outcome.Lost? {
          worker := worker.(joined := JoinedAt(worker, ns), mode := Crashed);
        }
        assert (workers + [started])[|workers| := worker] == workers + [worker];
        workers := workers + [worker];
        minted := minted + 1;
      }
      r := if outcome.Answered? then Accepted else Failed(outcome.reason);
    }

    // retry_environment. False is the 404 of a missing namespace or the 403 of the permission check.
    method RetryEnvironment(user: User, gen: Generated) returns (accepted: bool)
      requires cfg.retryable
      modifies this`workers
      ensures Now() == Next(cfg, old(Now()), Retry(user, gen))
      ensures accepted <==> ns.Some? && CanManage(cfg, user, ns.value)
    {
      match ns
      case None => accepted := false;
      case Some(namespace) =>
        accepted := CanManage(cfg, user, namespace);
        if accepted {
          workers := workers + [NewWorker(gen, namespace.id, user)];
        }
    }

    // ---- Calls of a worker ----

    // create_namespaced_*: one request to the API server.
    method CreateNamespaced(key: Key, body: Body, who: Caller) returns (answer: Response)
      modifies this`ns
      ensures (ns, answer) == ApiCreate(old(ns), key, body, who)
    {
      match ns
      case None => answer := Refused("Not Found");
      case Some(namespace) =>
        if namespace.phase == Terminating {
          answer := Refused("Forbidden");
        } else if key in namespace.objects {
          answer := Conflict;
        } else {
          var stored := Stored(body, 0, who.worker);
          ns := Some(MarkedByCreate(namespace, who).(objects := namespace.objects[key := stored]));
          answer := Succeeded;
        }
    }

    // A lost call raises, whether or not the server has applied it.
    method CreateIfAbsent(w: nat, key: Key, outcome: Outcome) returns (r: Answer)
      requires w < |workers| && workers[w].mode.Working? && !outcome.Crash?
      requires workers[w].pc < |cfg.steps| && cfg.steps[workers[w].pc].key == key
      modifies this`ns, this`workers
      ensures Now() == Next(cfg, old(Now()), Work(w, outcome))
      ensures workers[w].mode == if r.Returned? then Advanced(cfg, old(workers[w])).mode
                                 else Failing(old(workers[w]).pc, r.reason)
      ensures workers[w].pc == old(workers[w]).pc + if r.Returned? then 1 else 0
      ensures r.Returned? ==> r.created == (key !in old(ns).value.objects) && key in ns.value.objects
      ensures r.Raised? <==> outcome.Lost? || !IsActive(old(ns))
      ensures r.Raised? ==> r.reason == if outcome.Lost? then outcome.reason
                                        else if old(ns).None? then "Not Found" else "Forbidden"
    {
      var k := workers[w].(joined := JoinedAt(workers[w], ns));
      var body := BodyOf(k.gen, key);
      if outcome.Lost? {
        if outcome.applied {
          var answer := CreateNamespaced(key, body, CallerOf(w, k));
          ns := Unacknowledged(ns, answer);
        }
        workers := workers[w := k.(mode := Failing(k.pc, outcome.reason))];
        return Raised(outcome.reason);
      }
      var answer := CreateNamespaced(key, body, CallerOf(w, k));
      match answer
      case Succeeded =>
        workers := workers[w := Advanced(cfg, k).(won := k.won + multiset{ns.value.id})];
        r := Returned(true);
      case Conflict =>
        workers := workers[w := Advanced(cfg, k)];
        r := Returned(false);
      case Refused(reason) =>
        workers := workers[w := k.(mode := Failing(k.pc, reason))];
        r := Raised(reason);
    }

    // annotate_namespace: a None removes its key.
    method AnnotateNamespace(w: nat, annotations: map<string, Option<string>>, outcome: Outcome) returns (r: Answer)
      requires w < |workers| && !outcome.Crash?
      modifies this`ns
      ensures var patched := ApiAnnotate(old(ns), annotations, CallerOf(w, workers[w]));
        && ns == (if outcome.Answered? || outcome.applied then patched.0 else old(ns))
        && r == match outcome
                case Lost(_, reason) => Raised(reason)
                case _ => if patched.1.Refused? then Raised(patched.1.reason) else Returned(true)
    {
      var missing := ns.None?;
      if ns.Some? && (outcome.Answered? || outcome.applied) {
        var marked := MarkedByPatch(ns.value, CallerOf(w, workers[w]));
        ns := Some(marked.(annotations := MergePatch(marked.annotations, annotations)));
      }
      if outcome.Lost? {
        r := Raised(outcome.reason);
      } else {
        r := if missing then Raised("Not Found") else Returned(true);
      }
    }

    // The requests and workers that run beside this one.
    method Elapse(others: seq<Action>)
      modifies this
      ensures Now() == Exec(cfg, old(Now()), others)
    {
      var s := State(ns, minted, workers, deletes);
      for i := 0 to |others|
        invariant s == Exec(cfg, old(Now()), others[..i])
      {
        s := Next(cfg, s, others[i]);
        assert others[..i + 1][..i] == others[..i];
      }
      assert others[..|others|] == others;
      ns, minted, workers, deletes := s.ns, s.minted, s.workers, s.deletes;
    }

    // The call of `steps[i]` in one turn: others move, then the create is made.
    method StepTurn(w: nat, key: Key, turn: Turn) returns (r: Answer)
      requires w < |workers| && workers[w].mode.Working? && NotBy(w, turn.others) && !turn.outcome.Crash?
      requires workers[w].pc < |cfg.steps| && cfg.steps[workers[w].pc].key == key
      modifies this
      ensures Now() == Next(cfg, Exec(cfg, old(Now()), turn.others), Work(w, turn.outcome))
      ensures w < |workers|
      ensures workers[w].mode == if r.Returned? then Advanced(cfg, old(workers[w])).mode
                                 else Failing(old(workers[w]).pc, r.reason)
      ensures workers[w].pc == old(workers[w]).pc + if r.Returned? then 1 else 0
    {
      OthersLeaveWorker(cfg, Now(), turn.others, w);
      Elapse(turn.others);
      r := CreateIfAbsent(w, key, turn.outcome);
    }

    // annotate_namespace(ns, {error: None}) in one turn.
    method ClearTurn(w: nat, turn: Turn) returns (r: Answer)
      requires w < |workers| && NotBy(w, turn.others) && !turn.outcome.Crash?
      requires workers[w].mode.Working? && workers[w].pc == |cfg.steps| > 0
      modifies this
      ensures Now() == Next(cfg, Exec(cfg, old(Now()), turn.others), Work(w, turn.outcome))
      ensures w < |workers|
      ensures workers[w].mode == if r.Returned? then Done else Failing(|cfg.steps| - 1, r.reason)
    {
      OthersLeaveWorker(cfg, Now(), turn.others, w);
      Elapse(turn.others);
      r := AnnotateNamespace(w, map[cfg.errorKey := None], turn.outcome);
      var mode := if r.Returned? then Done else Failing(|cfg.steps| - 1, r.reason);
      workers := workers[w := workers[w].(mode := mode)];
    }

    // The except branch: record the failure; a second failure is only logged.
    method RecordTurn(w: nat, text: string, turn: Turn)
      requires w < |workers| && NotBy(w, turn.others) && !turn.outcome.Crash?
      requires workers[w].mode.Failing? && workers[w].mode.at < |cfg.steps|
      requires text == ErrorText(cfg.steps[workers[w].mode.at].name, workers[w].mode.reason)
      modifies this
      ensures Now() == Next(cfg, Exec(cfg, old(Now()), turn.others), Work(w, turn.outcome))
      ensures w < |workers| && workers[w].mode in {Recorded, Unrecorded}
    {
      OthersLeaveWorker(cfg, Now(), turn.others, w);
      Elapse(turn.others);
      var found := ns.Some?;
      var _ := AnnotateNamespace(w, map[cfg.errorKey := Some(text)], turn.outcome);
      var recorded := found && (turn.outcome.Answered? || turn.outcome.applied);
      workers := workers[w := workers[w].(mode := if recorded then Recorded else Unrecorded)];
    }

    /** The loop of both provisioners: create each object in order until a call raises. `step` is the name
        that is left in the loop variable. */
    method CreateInOrder(w: nat, steps: seq<ProvisionStep>, turns: seq<Turn>)
      returns (step: string, failure: Option<string>, calls: nat)
      requires steps == cfg.steps && 0 < |steps|
      requires w < |workers| && workers[w].mode.Working? && workers[w].pc == 0
      requires Schedule(turns, w, |steps|)
      modifies this
      ensures calls <= |steps|
      ensures Now() == Exec(cfg, old(Now()), Woven(turns[..calls], w))
      ensures w < |workers|
      ensures failure.None? ==>
                && calls == |steps| && step == steps[|steps| - 1].name
                && workers[w].pc == |steps| && workers[w].mode == if cfg.clears then Working else Done
      ensures failure.Some? ==>
                && calls > 0 && step == steps[calls - 1].name
                && workers[w].mode == Failing(calls - 1, failure.value)
    {
      step := "starting";
      failure := None;
      var i := 0;
      calls := 0;
      while i < |steps| && failure.None?
        invariant 0 <= i <= |steps| && i <= calls <= |steps|
        invariant Now() == Exec(cfg, old(Now()), Woven(turns[..calls], w))
        invariant w < |workers| && workers[w].pc == i
        invariant i > 0 || failure.Some? ==> calls > 0 && step == steps[calls - 1].name
        invariant failure.None? ==>
                    calls == i && workers[w].mode == if i < |steps| || cfg.clears then Working else Done
        invariant failure.Some? ==> calls == i + 1 && workers[w].mode == Failing(i, failure.value)
        decreases |steps| - i, failure.None?
      {
        step := steps[i].name;
        WovenOneMore(cfg, old(Now()), turns, w, calls);
        var r := StepTurn(w, steps[i].key, turns[calls]);
        calls := calls + 1;
        assert Now() == Exec(cfg, old(Now()), Woven(turns[..calls], w));
        match r
        case Returned(created) => i := i + 1;
        case Raised(reason) => failure := Some(reason);
      }
    }

    // The step list of provision_environment, built as the code builds it.
    method StepList(t: DeploymentType) returns (steps: seq<ProvisionStep>)
      ensures steps == EnvironmentSteps(t)
      ensures |steps| == (if t == Ids then 13 else 12) && WellOrdered(steps)
      ensures if t == Ids
              then steps[6].key == Key(VolumeClaim, "ids-data-shared") && steps[..6] + steps[7..] == CommonSteps(t)
              else steps == CommonSteps(t)
    {
      StepListShape(t);
      steps := CommonSteps(t);
      if SharedStorage(t) {
        steps := Insert(steps, 6, ProvisionStep("shared pvc", SharedClaim(t), {}));
      }
    }

    // The except branch, when there is a failure to report.
    method ReportFailure(
      w: nat, step: string, failure: Option<string>, turns: seq<Turn>, made: nat, ghost start: State)
      returns (calls: nat)
      requires w < |workers| && made < |turns| && Schedule(turns, w, made + 1)
      requires Now() == Exec(cfg, start, Woven(turns[..made], w))
      requires failure.None? ==> workers[w].mode.Done?
      requires failure.Some? ==>
                 && workers[w].mode.Failing? && workers[w].mode.at < |cfg.steps|
                 && step == cfg.steps[workers[w].mode.at].name && failure.value == workers[w].mode.reason
      modifies this
      ensures calls == made + if failure.Some? then 1 else 0
      ensures Now() == Exec(cfg, start, Woven(turns[..calls], w))
      ensures w < |workers|
      ensures if failure.Some? then workers[w].mode in {Recorded, Unrecorded} else workers[w].mode.Done?
    {
      calls := made;
      if failure.Some? {
        WovenOneMore(cfg, start, turns, w, calls);
        RecordTurn(w, ErrorText(step, failure.value), turns[calls]);
        calls := calls + 1;
      }
    }

    /** The try block of provision_environment and its except branch: all steps, then the clearing; the first
        call that raises is recorded under the name of the step that was current. */
    method TrySteps(w: nat, steps: seq<ProvisionStep>, turns: seq<Turn>) returns (calls: nat)
      requires steps == cfg.steps && 0 < |steps| && cfg.clears
      requires w < |workers| && workers[w].mode.Working? && workers[w].pc == 0
      requires Schedule(turns, w, |steps| + 2)
      modifies this
      ensures calls <= |steps| + 2 && calls <= |turns|
      ensures Now() == Exec(cfg, old(Now()), Woven(turns[..calls], w))
      ensures w < |workers| && workers[w].mode in {Done, Recorded, Unrecorded}
      ensures workers[w].mode.Done? ==> calls == |steps| + 1
    {
      ghost var start := Now();
      var step, failure;
      step, failure, calls := CreateInOrder(w, steps, turns);
      if failure.None? {
        WovenOneMore(cfg, start, turns, w, calls);
        var r := ClearTurn(w, turns[calls]);
        calls := calls + 1;
        if r.Raised? {
          failure := Some(r.reason);
        }
      }
      calls := ReportFailure(w, step, failure, turns, calls, start);
    }

    /** provision_environment, run by worker `w`. It makes one protocol action per turn, at most one for each
        step, one to clear the error and one to record a failure, and it always ends. */
    method ProvisionEnvironment(w: nat, prefix: string, t: DeploymentType, turns: seq<Turn>) returns (calls: nat)
      requires cfg == EnvironmentConfig(prefix, t)
      requires w < |workers| && workers[w].mode.Working? && workers[w].pc == 0
      requires Schedule(turns, w, |cfg.steps| + 2)
      modifies this
      ensures calls <= |cfg.steps| + 2 && calls <= |turns|
      ensures Now() == Exec(cfg, old(Now()), Woven(turns[..calls], w))
      ensures w < |workers| && workers[w].mode in {Done, Recorded, Unrecorded}
      ensures workers[w].mode.Done? ==> calls == |cfg.steps| + 1
      ensures IsActive(old(ns)) && Quiet(turns) ==>
                && calls == |cfg.steps| + 1 && Provisioned(cfg, old(Now()), Now(), w)
                && forall name :: Key(VolumeClaim, name) in ns.value.objects <==>
                     || Key(VolumeClaim, name) in old(ns).value.objects
                     || name == "hub-db-dir" || (t == Ids && name == "ids-data-shared")
    {
      ghost var start := Now();
      var steps := StepList(t);
      calls := TrySteps(w, steps, turns);
      QuietEnvironment(prefix, t, start, turns, w, calls);
    }

    // provision_kafka: the same loop over its own steps, with nothing to clear at the end.
    method ProvisionKafka(w: nat, prefix: string, turns: seq<Turn>) returns (calls: nat)
      requires cfg == KafkaConfig(prefix)
      requires w < |workers| && workers[w].mode.Working? && workers[w].pc == 0
      requires Schedule(turns, w, |cfg.steps| + 1)
      modifies this
      ensures calls <= |cfg.steps| + 1 && calls <= |turns|
      ensures Now() == Exec(cfg, old(Now()), Woven(turns[..calls], w))
      ensures w < |workers| && workers[w].mode in {Done, Recorded, Unrecorded}
      ensures workers[w].mode.Done? ==> calls == |cfg.steps|
      ensures IsActive(old(ns)) && Quiet(turns) ==>
                calls == |cfg.steps| && Provisioned(cfg, old(Now()), Now(), w)
    {
      ghost var start := Now();
      var step, failure;
      step, failure, calls := CreateInOrder(w, KAFKA_STEPS, turns);
      calls := ReportFailure(w, step, failure, turns, calls, start);
      QuietKafka(prefix, start, turns, w, calls);
    }
  }
}
