/** The Kafka cluster: the same protocol with neither retries nor a clearing call. */
module ProtocolKafka {
  import opened Kubernetes
  import opened Protocol
  import opened ProtocolInvariants
  import opened ErrorTexts
  import opened ProtocolSafety
  import opened Catalog

  // The worker of incarnation `i` is worker `i`; there is no other.
  ghost predicate OneEach(s: State) {
    && |s.workers| == s.minted
    && forall i :: 0 <= i < |s.workers| ==> s.workers[i].home == i
  }

  ghost predicate SettledError(cfg: Config, s: State) {
    s.ns.Some? && !s.ns.value.strayed && cfg.errorKey in s.ns.value.annotations ==>
      s.ns.value.id < |s.workers| && !Live(s.workers[s.ns.value.id])
  }

  ghost predicate KafkaInv(cfg: Config, s: State) {
    && Inv(cfg, s)
    && OneEach(s)
    && SettledError(cfg, s)
    && (s.ns.Some? && (s.ns.value.straddled || s.ns.value.misannotated) ==> s.ns.value.strayed)
  }

  lemma KafkaStep(cfg: Config, s: State, a: Action)
    requires WellFormed(cfg) && !cfg.retryable && !cfg.clears
    requires IdsInv(cfg, s) && OneEach(s) && SettledError(cfg, s)
    ensures OneEach(Next(cfg, s, a)) && SettledError(cfg, Next(cfg, s, a))
  {
    NextMoves(cfg, s, a);
    if !a.Work? {
      RequestsKeepOne(cfg, s, a);
    }
  }

  lemma RequestsKeepOne(cfg: Config, s: State, a: Action)
    requires WellFormed(cfg) && !cfg.retryable && !a.Work?
    requires IdsInv(cfg, s) && OneEach(s) && SettledError(cfg, s)
    ensures OneEach(Next(cfg, s, a)) && SettledError(cfg, Next(cfg, s, a))
  {
  }

  lemma {:induction false} KafkaInvReached(cfg: Config, acts: seq<Action>)
    requires WellFormed(cfg) && !cfg.retryable && !cfg.clears
    ensures KafkaInv(cfg, Reached(cfg, acts))
  {
    ReachedInv(cfg, acts);
    HomeJoins(cfg, acts);
    if acts != [] {
      KafkaInvReached(cfg, acts[..|acts| - 1]);
      KafkaStep(cfg, Reached(cfg, acts[..|acts| - 1]), acts[|acts| - 1]);
    }
  }

  // Every incarnation has exactly one provisioner, and while only it has acted, it made every object.
  lemma OneProvisioner(prefix: string, acts: seq<Action>)
    requires Reached(KafkaConfig(prefix), acts).ns.Some?
    ensures var s := Reached(KafkaConfig(prefix), acts);
      && s.ns.value.id < |s.workers|
      && (forall w :: 0 <= w < |s.workers| ==> (s.workers[w].home == s.ns.value.id <==> w == s.ns.value.id))
      && (!s.ns.value.strayed ==>
            forall key :: key in s.ns.value.objects ==> s.ns.value.objects[key].creator == s.ns.value.id)
  {
    KafkaWellFormed(prefix);
    KafkaInvReached(KafkaConfig(prefix), acts);
  }

  // What create_kafka hands to its provisioner; `password` is what it returns to the caller.
  function KafkaGenerated(adminPassword: string, password: string, replicas: nat): Generated {
    Generated(map["admin-password" := adminPassword, "client-password" := password], replicas)
  }

  function PasswordOf(gen: Generated): Option<string> {
    if "client-password" in gen.data then Some(gen.data["client-password"]) else None
  }

  // What clients of the cluster authenticate with.
  function StoredPassword(ns: Namespace): Option<string> {
    if && KAFKA_SECRET in ns.objects && ns.objects[KAFKA_SECRET].body.SecretData?
       && "client-password" in ns.objects[KAFKA_SECRET].body.data
    then Some(ns.objects[KAFKA_SECRET].body.data["client-password"]) else None
  }

  // The replicas that a read of the stateful set finds, zero when there is none.
  function SetReplicas(ns: Option<Namespace>): nat {
    if ns.Some? && KAFKA_SET in ns.value.objects && ns.value.objects[KAFKA_SET].body.Replicated?
    then ns.value.objects[KAFKA_SET].body.replicas else 0
  }

  function SetReady(ns: Option<Namespace>): nat {
    if ns.Some? && KAFKA_SET in ns.value.objects then ns.value.objects[KAFKA_SET].ready else 0
  }

  /** After a successful create request, the password that it returned and the size that it asked for are the
      stored ones exactly when the workers that stored the objects generated the same; while only its own
      provisioner has changed the incarnation, that is certain. */
  lemma RequestIsHonoured(
    prefix: string, before: seq<Action>,
    subject: string, admin: string, password: string, replicas: nat, later: seq<Action>)
    requires
      var cfg := KafkaConfig(prefix);
      var s0 := Reached(cfg, before);
      var s1 := Next(cfg, s0, Reserve(subject, KafkaGenerated(admin, password, replicas)));
      var s2 := Exec(cfg, s1, later);
      && s0.ns.None?
      && s2.ns.Some? && s2.ns.value.id == s0.minted
    ensures
      var cfg := KafkaConfig(prefix);
      var s1 := Next(cfg, Reached(cfg, before), Reserve(subject, KafkaGenerated(admin, password, replicas)));
      var s2 := Exec(cfg, s1, later);
      var ns := s2.ns.value;
      && (KAFKA_SECRET in ns.objects ==>
            && ns.objects[KAFKA_SECRET].creator < |s2.workers|
            && (StoredPassword(ns) == Some(password) <==>
                PasswordOf(s2.workers[ns.objects[KAFKA_SECRET].creator].gen) == Some(password))
            && (!ns.strayed ==>
                  && StoredPassword(ns) == Some(password)
                  && ns.objects[KAFKA_SECRET].body ==
                     SecretData(map["admin-password" := admin, "client-password" := password])))
      && (KAFKA_SET in ns.objects ==>
            && ns.objects[KAFKA_SET].creator < |s2.workers|
            && (ns.objects[KAFKA_SET].body == Replicated(replicas) <==>
                s2.workers[ns.objects[KAFKA_SET].creator].gen.replicas == replicas)
            && (!ns.strayed ==> ns.objects[KAFKA_SET].body == Replicated(replicas)))
  {
    var cfg := KafkaConfig(prefix);
    var request := Reserve(subject, KafkaGenerated(admin, password, replicas));
    var s0 := Reached(cfg, before);
    var s1 := Next(cfg, s0, request);
    KafkaWellFormed(prefix);
    KafkaInvReached(cfg, before);
    assert (before + [request])[..|before|] == before;
    assert Reached(cfg, before + [request]) == s1;
    ExecComposes(cfg, INIT, before + [request], later);
    KafkaInvReached(cfg, before + [request]);
    KafkaInvReached(cfg, before + [request] + later);
    GrowsAlong(cfg, s1, later);
    OneProvisioner(prefix, before + [request] + later);
    assert s1.workers[s0.minted].gen == KafkaGenerated(admin, password, replicas);
  }

  /** Where that is decided: a create call for the secret or the stateful set leaves what the creator of the
      incarnation was promised exactly when it was already stored, or nothing was and the calling worker is the
      creator's own or was started with the same value. */
  lemma CreateHonoursRequestIff(prefix: string, acts: seq<Action>, w: nat, outcome: Outcome)
    requires var s := Reached(KafkaConfig(prefix), acts);
      IsActive(s.ns) && w < |s.workers| && s.workers[w].mode.Working? && Applied(outcome)
    ensures
      var cfg := KafkaConfig(prefix);
      var s := Reached(cfg, acts);
      var ns, ns', k := s.ns.value, Next(cfg, s, Work(w, outcome)).ns, s.workers[w];
      && ns'.Some? && ns.id < |s.workers| && k.pc < |cfg.steps|
      && var promised := s.workers[ns.id].gen;
      && (cfg.steps[k.pc].key == KAFKA_SECRET ==>
            (StoredPassword(ns'.value) == PasswordOf(promised) <==>
             if KAFKA_SECRET in ns.objects then StoredPassword(ns) == PasswordOf(promised)
             else k.home == ns.id || PasswordOf(k.gen) == PasswordOf(promised)))
      && (cfg.steps[k.pc].key == KAFKA_SET ==>
            (SetReplicas(ns') == promised.replicas <==>
             if KAFKA_SET in ns.objects then SetReplicas(s.ns) == promised.replicas
             else k.home == ns.id || k.gen.replicas == promised.replicas))
  {
    var cfg := KafkaConfig(prefix);
    KafkaWellFormed(prefix);
    KafkaInvReached(cfg, acts);
    var s := Reached(cfg, acts);
    assert WorkerInv(cfg, s.workers[w], s.minted);
    CreateStoresBody(cfg, s, w, outcome);
  }

  // A create that reaches an active namespace leaves the stored body, or that of the calling worker.
  lemma CreateStoresBody(cfg: Config, s: State, w: nat, outcome: Outcome)
    requires IsActive(s.ns) && Applied(outcome)
    requires w < |s.workers| && s.workers[w].mode.Working? && s.workers[w].pc < |cfg.steps|
    ensures var ns, ns', k := s.ns.value, Next(cfg, s, Work(w, outcome)).ns, s.workers[w];
      var key := cfg.steps[k.pc].key;
      && ns'.Some?
      && ns'.value.objects ==
         if key in ns.objects then ns.objects else ns.objects[key := Stored(BodyOf(k.gen, key), 0, w)]
  {
  }

  // ---- How far the provisioner came ----

  /** While only its own provisioner has changed an incarnation, its objects are those of the steps that the
      provisioner has passed, and that of the current step if a create was applied and its answer lost. */
  ghost predicate SoleInv(cfg: Config, s: State) {
    IsActive(s.ns) && !s.ns.value.strayed && s.ns.value.id < |s.workers| ==>
      var ns, k := s.ns.value, s.workers[s.ns.value.id];
      && ns.unacknowledged <= 1
      && (k.mode.Working? || k.mode.Done? ==> ns.unacknowledged == 0)
      && (k.mode.Failing? ==> k.mode.at == k.pc)
      && (forall j :: 0 <= j < |cfg.steps| ==>
            (Has(ns, cfg, j) <==> j < k.pc || (j == k.pc && ns.unacknowledged == 1)))
      && (cfg.errorKey in ns.annotations ==>
            && k.mode in {Recorded, Unrecorded, Crashed} && k.pc < |cfg.steps|
            && exists reason :: ns.annotations[cfg.errorKey] == ErrorText(cfg.steps[k.pc].name, reason))
  }

  lemma SoleCreateKept(cfg: Config, s: State, w: nat, outcome: Outcome)
    requires WellFormed(cfg) && !cfg.clears && IdsInv(cfg, s) && SoleInv(cfg, s)
    requires s.ns.Some? && w == s.ns.value.id && w < |s.workers|
    requires s.workers[w].mode.Working? && s.workers[w].pc < |cfg.steps|
    ensures SoleInv(cfg, CreateCall(cfg, s, w, outcome))
  {
    if IsActive(s.ns) && !s.ns.value.strayed {
      var ns, ns', pc := s.ns.value, CreateCall(cfg, s, w, outcome).ns.value, s.workers[w].pc;
      assert !Has(ns, cfg, pc);
      forall j | 0 <= j < |cfg.steps| && j != pc ensures Has(ns, cfg, j) <==> Has(ns', cfg, j) {
        assert cfg.steps[j].key != cfg.steps[pc].key;
      }
    }
  }

  lemma SoleRecordKept(cfg: Config, s: State, w: nat, outcome: Outcome)
    requires WellFormed(cfg) && IdsInv(cfg, s) && SoleInv(cfg, s)
    requires s.ns.Some? && w == s.ns.value.id && w < |s.workers|
    requires s.workers[w].mode.Failing? && s.workers[w].mode.at < |cfg.steps|
    ensures SoleInv(cfg, RecordCall(cfg, s, w, outcome))
  {
    var s' := RecordCall(cfg, s, w, outcome);
    if IsActive(s.ns) {
      assert forall j :: 0 <= j < |cfg.steps| ==> (Has(s.ns.value, cfg, j) <==> Has(s'.ns.value, cfg, j));
    }
  }

  // A worker of another incarnation leaves this one alone or strays into it.
  lemma SoleOthersKept(cfg: Config, s: State, a: Action)
    requires WellFormed(cfg) && IdsInv(cfg, s) && OneEach(s) && SoleInv(cfg, s)
    requires a.Work? && s.ns.Some? && a.worker != s.ns.value.id
    ensures SoleInv(cfg, Next(cfg, s, a))
  {
    var s' := Next(cfg, s, a);
    OthersStray(cfg, s, a);
    if s'.ns == s.ns {
      assert s'.workers[s.ns.value.id] == s.workers[s.ns.value.id];
    }
  }

  lemma OthersStray(cfg: Config, s: State, a: Action)
    requires WellFormed(cfg) && OneEach(s) && a.Work? && s.ns.Some? && a.worker != s.ns.value.id
    requires s.ns.value.id < |s.workers|
    ensures var s' := Next(cfg, s, a);
      && |s'.workers| == |s.workers| && s'.workers[s.ns.value.id] == s.workers[s.ns.value.id]
      && (s'.ns == s.ns || (s'.ns.Some? && s'.ns.value.id == s.ns.value.id && s'.ns.value.strayed))
  {
    NextMoves(cfg, s, a);
  }

  lemma SoleRequestsKept(cfg: Config, s: State, a: Action)
    requires WellFormed(cfg) && !cfg.retryable && IdsInv(cfg, s) && OneEach(s) && SoleInv(cfg, s) && !a.Work?
    ensures SoleInv(cfg, Next(cfg, s, a))
  {
    RequestHasEffect(cfg, s, a);
    var s' := Next(cfg, s, a);
    if IsActive(s'.ns) && s.ns.Some? {
      assert s'.workers == s.workers;
      assert forall j :: 0 <= j < |cfg.steps| ==> (Has(s.ns.value, cfg, j) <==> Has(s'.ns.value, cfg, j));
    }
  }

  lemma SoleKept(cfg: Config, s: State, a: Action)
    requires WellFormed(cfg) && !cfg.retryable && !cfg.clears
    requires IdsInv(cfg, s) && OneEach(s) && SoleInv(cfg, s)
    ensures SoleInv(cfg, Next(cfg, s, a))
  {
    if !a.Work? {
      SoleRequestsKept(cfg, s, a);
    } else if s.ns.Some? && a.worker != s.ns.value.id {
      SoleOthersKept(cfg, s, a);
    } else if s.ns.Some? && a.worker < |s.workers| {
      assert WorkerInv(cfg, s.workers[a.worker], s.minted);
      if s.workers[a.worker].mode.Working? {
        SoleCreateKept(cfg, s, a.worker, a.outcome);
      } else if s.workers[a.worker].mode.Failing? {
        SoleRecordKept(cfg, s, a.worker, a.outcome);
      }
    } else {
      NextMoves(cfg, s, a);
    }
  }

  lemma {:induction false} SoleProgress(cfg: Config, acts: seq<Action>)
    requires WellFormed(cfg) && !cfg.retryable && !cfg.clears
    ensures SoleInv(cfg, Reached(cfg, acts))
  {
    if acts != [] {
      SoleProgress(cfg, acts[..|acts| - 1]);
      KafkaInvReached(cfg, acts[..|acts| - 1]);
      SoleKept(cfg, Reached(cfg, acts[..|acts| - 1]), acts[|acts| - 1]);
    }
  }

  /** With a single provisioner an error is exact, up to one lost answer: the step that it names is the first
      one that was not acknowledged, nothing after it exists, and its own object exists exactly when its create
      was applied and the answer lost. */
  lemma KafkaErrorIsExact(prefix: string, acts: seq<Action>) returns (i: nat)
    requires var s := Reached(KafkaConfig(prefix), acts);
      IsActive(s.ns) && !s.ns.value.strayed && KafkaConfig(prefix).errorKey in s.ns.value.annotations
    ensures var cfg, ns := KafkaConfig(prefix), Reached(KafkaConfig(prefix), acts).ns.value;
      && i < |cfg.steps|
      && cfg.steps[i].name == StepNameOf(ns.annotations[cfg.errorKey])
      && ns.unacknowledged <= 1
      && (forall j :: 0 <= j < |cfg.steps| ==> (Has(ns, cfg, j) <==> j < i || (j == i && ns.unacknowledged == 1)))
  {
    var cfg := KafkaConfig(prefix);
    KafkaWellFormed(prefix);
    KafkaNamesReadable(prefix);
    KafkaInvReached(cfg, acts);
    SoleProgress(cfg, acts);
    var s := Reached(cfg, acts);
    i := s.workers[s.ns.value.id].pc;
    var reason :| s.ns.value.annotations[cfg.errorKey] == ErrorText(cfg.steps[i].name, reason);
    StepNameRecovered(cfg.steps[i].name, reason);
  }

  // Nothing removes a recorded error before its incarnation is gone.
  lemma {:induction false} ErrorStays(cfg: Config, s: State, acts: seq<Action>)
    requires WellFormed(cfg) && !cfg.retryable && !cfg.clears && KafkaInv(cfg, s)
    requires s.ns.Some? && cfg.errorKey in s.ns.value.annotations
    requires var s' := Exec(cfg, s, acts); s'.ns.Some? && s'.ns.value.id == s.ns.value.id
    ensures var s' := Exec(cfg, s, acts);
      && cfg.errorKey in s'.ns.value.annotations
      && (!s'.ns.value.strayed ==>
            && s'.ns.value.annotations[cfg.errorKey] == s.ns.value.annotations[cfg.errorKey]
            && !s.ns.value.strayed)
  {
    if acts != [] {
      var before := acts[..|acts| - 1];
      var mid, a := Exec(cfg, s, before), acts[|acts| - 1];
      GrowsAlong(cfg, s, before);
      SettledAlong(cfg, s, before);
      NextMoves(cfg, mid, a);
      ActiveOnlyGrows(cfg, mid, Next(cfg, mid, a), a);
      ErrorStays(cfg, s, before);
      ErrorStaysOneStep(cfg, mid, a);
    }
  }

  lemma {:induction false} SettledAlong(cfg: Config, s: State, acts: seq<Action>)
    requires WellFormed(cfg) && !cfg.retryable && !cfg.clears
    requires Inv(cfg, s) && OneEach(s) && SettledError(cfg, s)
    ensures var s' := Exec(cfg, s, acts); Inv(cfg, s') && OneEach(s') && SettledError(cfg, s')
  {
    InvAlong(cfg, s, acts);
    if acts != [] {
      SettledAlong(cfg, s, acts[..|acts| - 1]);
      KafkaStep(cfg, Exec(cfg, s, acts[..|acts| - 1]), acts[|acts| - 1]);
    }
  }

  lemma ErrorStaysOneStep(cfg: Config, s: State, a: Action)
    requires WellFormed(cfg) && !cfg.retryable && !cfg.clears
    requires IdsInv(cfg, s) && OneEach(s) && SettledError(cfg, s)
    requires s.ns.Some? && cfg.errorKey in s.ns.value.annotations
    requires Next(cfg, s, a).ns.Some?
    ensures var ns' := Next(cfg, s, a).ns.value;
      && cfg.errorKey in ns'.annotations
      && (!ns'.strayed ==>
            !s.ns.value.strayed && ns'.annotations[cfg.errorKey] == s.ns.value.annotations[cfg.errorKey])
  {
    NextMoves(cfg, s, a);
  }

  // describe_kafka.
  function KafkaVerdict(errorKey: string, namespace: Namespace, setRead: Option<Namespace>): EnvironmentStatus {
    if namespace.phase == Terminating then Deleting
    else if errorKey in namespace.annotations && namespace.annotations[errorKey] != "" then Failed
    else if SetReplicas(setRead) != 0 && SetReady(setRead) >= SetReplicas(setRead) then Ready
    else Provisioning
  }

  // What each status says about the fields that were read.
  lemma KafkaVerdictMeans(errorKey: string, namespace: Namespace, setRead: Option<Namespace>)
    ensures var verdict := KafkaVerdict(errorKey, namespace, setRead);
      var failed := errorKey in namespace.annotations && namespace.annotations[errorKey] != "";
      var key := Key(StatefulSet, "kafka");
      && (verdict == Deleting <==> namespace.phase == Terminating)
      && (verdict == Failed <==> namespace.phase == Active && failed)
      && (verdict == Ready <==>
            && namespace.phase == Active && !failed
            && setRead.Some? && key in setRead.value.objects
            && var stored := setRead.value.objects[key];
            && stored.body.Replicated? && 0 < stored.body.replicas <= stored.ready)
      && (if setRead.Some? && key in setRead.value.objects
          then SetReady(setRead) == setRead.value.objects[key].ready
          else SetReady(setRead) == SetReplicas(setRead) == 0)
  {
  }

  // The stateful set never exists without what its pods need.
  lemma KafkaReferencesClosed(prefix: string, acts: seq<Action>)
    requires var s := Reached(KafkaConfig(prefix), acts); IsActive(s.ns) && !s.ns.value.straddled
    ensures var objects := Reached(KafkaConfig(prefix), acts).ns.value.objects;
      Key(StatefulSet, "kafka") in objects ==>
        {Key(Secret, "kafka-credentials"), Key(ServiceAccount, "kafka"), Key(Service, "kafka-headless")} <= objects.Keys
  {
    var cfg := KafkaConfig(prefix);
    KafkaWellFormed(prefix);
    KafkaStepsTable();
    ReferencesClosed(cfg, acts);
    if Key(StatefulSet, "kafka") in Reached(cfg, acts).ns.value.objects {
      assert Has(Reached(cfg, acts).ns.value, cfg, 4);
    }
  }

  /** `Ready` built from two reads at different moments: if the same incarnation is still active, all five
      objects exist, and the reported size is the one that the creator of the stateful set was started with. */
  lemma KafkaReadyMeansProvisioned(prefix: string, before: seq<Action>, gap: seq<Action>, after: seq<Action>)
    requires
      var cfg := KafkaConfig(prefix);
      var s0 := Reached(cfg, before);
      var s1 := Exec(cfg, s0, gap);
      var s2 := Exec(cfg, s1, after);
      && s0.ns.Some?
      && KafkaVerdict(cfg.errorKey, s0.ns.value, s1.ns) == Ready
      && s1.ns.Some? && !s1.ns.value.straddled
      && IsActive(s2.ns) && s2.ns.value.id == s0.ns.value.id
    ensures
      var cfg := KafkaConfig(prefix);
      var s1 := Exec(cfg, Reached(cfg, before), gap);
      var s2 := Exec(cfg, s1, after);
      && s1.ns.Some? && Complete(s2.ns.value, cfg)
      && Key(StatefulSet, "kafka") in s1.ns.value.objects
      && SetReplicas(s1.ns) <= s1.ns.value.objects[Key(StatefulSet, "kafka")].ready
      && s2.ns.value.objects.Keys == {KAFKA_SECRET, KAFKA_ACCOUNT, KAFKA_HEADLESS, KAFKA_EXTERNAL, KAFKA_SET}
      && var creator := s2.ns.value.objects[KAFKA_SET].creator;
      && creator < |s2.workers|
      && s2.workers[creator].gen.replicas == SetReplicas(s1.ns)
      && (!s1.ns.value.strayed ==> creator == s2.ns.value.id)
  {
    var cfg := KafkaConfig(prefix);
    KafkaWellFormed(prefix);
    var s0 := Reached(cfg, before);
    var s1 := Exec(cfg, s0, gap);
    ReachedInv(cfg, before);
    GrowsAlong(cfg, s0, gap);
    GrowsAlong(cfg, s1, after);
    ExecComposes(cfg, INIT, before, gap);
    ExecComposes(cfg, INIT, before + gap, after);
    SetStands(prefix, before + gap);
    CreatedAreSteps(cfg, before + gap + after);
    KafkaKept(prefix, s1.ns.value, Exec(cfg, s1, after).ns.value);
  }

  // What the stateful set tells about the state in which it is read.
  lemma SetStands(prefix: string, acts: seq<Action>)
    requires var s := Reached(KafkaConfig(prefix), acts);
      IsActive(s.ns) && !s.ns.value.straddled && KAFKA_SET in s.ns.value.objects
    ensures var s := Reached(KafkaConfig(prefix), acts);
      var stored := s.ns.value.objects[KAFKA_SET];
      && Complete(s.ns.value, KafkaConfig(prefix))
      && stored.creator < |s.workers| && stored.body == Replicated(s.workers[stored.creator].gen.replicas)
      && (!s.ns.value.strayed ==> stored.creator == s.ns.value.id)
  {
    var cfg := KafkaConfig(prefix);
    KafkaWellFormed(prefix);
    KafkaInvReached(cfg, acts);
    KafkaSetIsLast(prefix, Reached(cfg, acts).ns.value);
  }

  lemma CreatedAreSteps(cfg: Config, acts: seq<Action>)
    requires WellFormed(cfg) && Reached(cfg, acts).ns.Some?
    ensures Reached(cfg, acts).ns.value.objects.Keys <= StepKeys(cfg)
  {
    ReachedInv(cfg, acts);
  }

  lemma KafkaKept(prefix: string, ns: Namespace, ns': Namespace)
    requires var cfg := KafkaConfig(prefix); Complete(ns, cfg) && ns'.objects.Keys <= StepKeys(cfg)
    requires ns.objects.Keys <= ns'.objects.Keys
    ensures Complete(ns', KafkaConfig(prefix))
    ensures ns'.objects.Keys == {KAFKA_SECRET, KAFKA_ACCOUNT, KAFKA_HEADLESS, KAFKA_EXTERNAL, KAFKA_SET}
  {
    var cfg := KafkaConfig(prefix);
    forall i | 0 <= i < |cfg.steps| ensures Has(ns', cfg, i) {
      assert Has(ns, cfg, i);
    }
    assert PrefixClosed(ns', cfg);
    assert cfg.steps[4].key == KAFKA_SET && Has(ns', cfg, 4);
    KafkaSetIsLast(prefix, ns');
  }

  lemma KafkaSetIsLast(prefix: string, ns: Namespace)
    requires var cfg := KafkaConfig(prefix);
      PrefixClosed(ns, cfg) && KAFKA_SET in ns.objects && ns.objects.Keys <= StepKeys(cfg)
    ensures Complete(ns, KafkaConfig(prefix))
    ensures ns.objects.Keys == {KAFKA_SECRET, KAFKA_ACCOUNT, KAFKA_HEADLESS, KAFKA_EXTERNAL, KAFKA_SET}
  {
    var cfg := KafkaConfig(prefix);
    assert cfg.steps[4].key == KAFKA_SET && Has(ns, cfg, 4);
    assert Has(ns, cfg, 0) && Has(ns, cfg, 1) && Has(ns, cfg, 2) && Has(ns, cfg, 3);
    assert cfg.steps[0].key == KAFKA_SECRET && cfg.steps[1].key == KAFKA_ACCOUNT;
    assert cfg.steps[2].key == KAFKA_HEADLESS && cfg.steps[3].key == KAFKA_EXTERNAL;
  }
}
