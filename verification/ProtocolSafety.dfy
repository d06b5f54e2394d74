/** Safety of provisioning over every run: order, references, error reports, verdicts and credentials. */
module ProtocolSafety {
  import opened Kubernetes
  import opened Protocol
  import opened ProtocolInvariants
  import opened ErrorTexts
  import opened Catalog

  // ---- Order of creation ----

  // With no assumption on workers: all objects before a worker's position exist where it started.
  lemma WorkerLeavesNoGap(cfg: Config, acts: seq<Action>, w: nat)
    requires WellFormed(cfg)
    requires var s := Reached(cfg, acts);
      IsActive(s.ns) && w < |s.workers| && s.workers[w].joined == Some(s.ns.value.id)
    ensures var s := Reached(cfg, acts); HasFirst(s.ns.value, cfg, s.workers[w].pc)
  {
    ReachedInv(cfg, acts);
  }

  // The objects of an active incarnation form a prefix of the step list.
  lemma CreatedObjectsArePrefix(cfg: Config, acts: seq<Action>)
    requires WellFormed(cfg)
    requires var s := Reached(cfg, acts); IsActive(s.ns) && !s.ns.value.straddled
    ensures var ns := Reached(cfg, acts).ns.value;
      PrefixClosed(ns, cfg) && ns.objects.Keys <= StepKeys(cfg)
  {
    ReachedInv(cfg, acts);
  }

  ghost predicate ReferencesPresent(ns: Namespace, cfg: Config) {
    forall i, ref :: 0 <= i < |cfg.steps| && Has(ns, cfg, i) && ref in cfg.steps[i].refs ==> ref in ns.objects
  }

  // Whatever an existing object refers to exists as well.
  lemma ReferencesClosed(cfg: Config, acts: seq<Action>)
    requires WellFormed(cfg) && Topological(cfg)
    requires var s := Reached(cfg, acts); IsActive(s.ns) && !s.ns.value.straddled
    ensures ReferencesPresent(Reached(cfg, acts).ns.value, cfg)
  {
    CreatedObjectsArePrefix(cfg, acts);
    var ns := Reached(cfg, acts).ns.value;
    forall i, ref | 0 <= i < |cfg.steps| && Has(ns, cfg, i) && ref in cfg.steps[i].refs
      ensures ref in ns.objects
    {
      assert Earlier(cfg, i, ref);
      var j :| 0 <= j < i && cfg.steps[j].key == ref;
      assert Has(ns, cfg, j);
    }
  }

  lemma EnvironmentReferencesClosed(prefix: string, t: DeploymentType, acts: seq<Action>)
    requires var s := Reached(EnvironmentConfig(prefix, t), acts); IsActive(s.ns) && !s.ns.value.straddled
    ensures var objects := Reached(EnvironmentConfig(prefix, t), acts).ns.value.objects;
      && (Key(RoleBinding, "hub") in objects ==> {Key(Role, "hub"), Key(ServiceAccount, "hub")} <= objects.Keys)
      && (Key(Deployment, "proxy") in objects ==>
            {Key(Secret, "hub-secret"), Key(Service, "hub")} <= objects.Keys)
      && (Key(Deployment, "hub") in objects ==>
            && {Key(ServiceAccount, "hub"), Key(Secret, "hub-secret"), Key(ConfigMap, "hub")} <= objects.Keys
            && {Key(Service, "proxy-api"), Key(Service, "proxy-public"), Key(Service, "hub")} <= objects.Keys
            && Key(VolumeClaim, "hub-db-dir") in objects
            && (t == Ids ==> Key(VolumeClaim, "ids-data-shared") in objects))
      && (Key(Ingress, "jupyterhub") in objects ==> Key(Service, "proxy-public") in objects)
  {
    var cfg := EnvironmentConfig(prefix, t);
    EnvironmentWellFormed(prefix, t);
    EnvironmentTopological(prefix, t);
    ReferencesClosed(cfg, acts);
    var ns := Reached(cfg, acts).ns.value;
    CommonNeedsPresent(prefix, t, ns, 3);
    CommonNeedsPresent(prefix, t, ns, 9);
    CommonNeedsPresent(prefix, t, ns, 10);
    CommonNeedsPresent(prefix, t, ns, 11);
    NeedsOf(t);
    IdsSteps();
    assert SharedClaim(Ids) == Key(VolumeClaim, "ids-data-shared");
  }

  lemma NeedsOf(t: DeploymentType)
    ensures CommonSteps(t)[3].key == HUB_BINDING && CommonSteps(t)[3].refs == {HUB_ROLE, HUB_ACCOUNT}
    ensures CommonSteps(t)[9].key == PROXY_DEPLOYMENT && CommonSteps(t)[9].refs == {HUB_SECRET, HUB_SERVICE}
    ensures CommonSteps(t)[10].key == HUB_DEPLOYMENT && CommonSteps(t)[10].refs == HubNeeds(t)
    ensures CommonSteps(t)[11].key == HUB_INGRESS && CommonSteps(t)[11].refs == {PROXY_PUBLIC}
  {
  }

  lemma CommonNeedsPresent(prefix: string, t: DeploymentType, ns: Namespace, i: nat)
    requires i < 12 && ReferencesPresent(ns, EnvironmentConfig(prefix, t))
    ensures CommonSteps(t)[i].key in ns.objects ==> CommonSteps(t)[i].refs <= ns.objects.Keys
  {
    var cfg := EnvironmentConfig(prefix, t);
    var j := Position(t, i);
    StepAt(t, 0);
    StepAt(t, j);
    assert cfg.steps[j] == CommonSteps(t)[i];
    if CommonSteps(t)[i].key in ns.objects {
      assert Has(ns, cfg, j);
    }
  }

  // The call reached the cluster, whatever became of its answer.
  predicate Applied(outcome: Outcome) {
    outcome.Answered? || outcome.applied
  }

  // A create that reaches the cluster keeps the prefix exactly when the object of the step before is there.
  lemma CreateKeepsPrefixIff(cfg: Config, s: State, w: nat, outcome: Outcome)
    requires WellFormed(cfg) && IsActive(s.ns) && PrefixClosed(s.ns.value, cfg)
    requires w < |s.workers| && s.workers[w].mode.Working? && s.workers[w].pc < |cfg.steps|
    ensures var pc := s.workers[w].pc;
      PrefixClosed(Next(cfg, s, Work(w, outcome)).ns.value, cfg)
      <==> !Applied(outcome) || pc == 0 || Has(s.ns.value, cfg, pc - 1)
  {
    var pc := s.workers[w].pc;
    var ns, ns' := s.ns.value, Next(cfg, s, Work(w, outcome)).ns.value;
    if Applied(outcome) {
      CreateStoresOne(cfg, s, w, outcome);
      if pc > 0 && Has(ns, cfg, pc - 1) {
        assert HasFirst(ns, cfg, pc - 1);
      }
      if pc > 0 && PrefixClosed(ns', cfg) {
        assert Has(ns', cfg, pc - 1);
      }
    }
  }

  lemma CreateStoresOne(cfg: Config, s: State, w: nat, outcome: Outcome)
    requires WellFormed(cfg) && IsActive(s.ns) && Applied(outcome)
    requires w < |s.workers| && s.workers[w].mode.Working? && s.workers[w].pc < |cfg.steps|
    ensures var ns, ns', pc := s.ns.value, Next(cfg, s, Work(w, outcome)).ns, s.workers[w].pc;
      && ns'.Some? && Has(ns'.value, cfg, pc)
      && forall i :: 0 <= i < |cfg.steps| && i != pc ==> (Has(ns, cfg, i) <==> Has(ns'.value, cfg, i))
  {
  }

  // It keeps the references closed exactly when what its own object refers to is there.
  lemma CreateKeepsReferencesIff(cfg: Config, s: State, w: nat, outcome: Outcome)
    requires WellFormed(cfg) && IsActive(s.ns) && ReferencesPresent(s.ns.value, cfg)
    requires w < |s.workers| && s.workers[w].mode.Working? && s.workers[w].pc < |cfg.steps|
    ensures var step := cfg.steps[s.workers[w].pc];
      ReferencesPresent(Next(cfg, s, Work(w, outcome)).ns.value, cfg)
      <==> !Applied(outcome) || step.refs <= s.ns.value.objects.Keys + {step.key}
  {
    var pc := s.workers[w].pc;
    var ns, ns' := s.ns.value, Next(cfg, s, Work(w, outcome)).ns.value;
    if Applied(outcome) {
      CreateStoresOne(cfg, s, w, outcome);
      assert ns'.objects.Keys == ns.objects.Keys + {cfg.steps[pc].key};
      assert Has(ns', cfg, pc);
    }
  }

  // ---- Error reports ----

  /** A recorded error names a step, and nothing is missing before that step. Creates by straddling workers do
      no harm here. */
  lemma RecordedErrorIsSound(cfg: Config, acts: seq<Action>) returns (i: nat)
    requires WellFormed(cfg) && Readable(cfg)
    requires var s := Reached(cfg, acts);
      IsActive(s.ns) && !s.ns.value.misannotated && cfg.errorKey in s.ns.value.annotations
    ensures var ns := Reached(cfg, acts).ns.value;
      && i < |cfg.steps|
      && cfg.steps[i].name == StepNameOf(ns.annotations[cfg.errorKey])
      && (forall j :: 0 <= j < |cfg.steps| && j != i ==> cfg.steps[j].name != cfg.steps[i].name)
      && HasFirst(ns, cfg, i)
  {
    ReachedInv(cfg, acts);
    var ns := Reached(cfg, acts).ns.value;
    var k: nat, reason :| ErrorNames(cfg, ns, k, reason);
    StepNameRecovered(cfg.steps[k].name, reason);
    i := k;
  }

  ghost predicate ErrorTextOf(cfg: Config, ns: Namespace, i: nat, reason: string) {
    && i < |cfg.steps|
    && cfg.errorKey in ns.annotations
    && ns.annotations[cfg.errorKey] == ErrorText(cfg.steps[i].name, reason)
  }

  ghost predicate ErrorIsText(cfg: Config, s: State) {
    s.ns.Some? && cfg.errorKey in s.ns.value.annotations ==>
      exists i: nat, reason :: ErrorTextOf(cfg, s.ns.value, i, reason)
  }

  // Whoever wrote it, the annotation is the text of some step.
  lemma {:induction false} ErrorIsAlwaysText(cfg: Config, acts: seq<Action>)
    requires WellFormed(cfg)
    ensures ErrorIsText(cfg, Reached(cfg, acts))
  {
    if acts != [] {
      var s, a := Reached(cfg, acts[..|acts| - 1]), acts[|acts| - 1];
      ErrorIsAlwaysText(cfg, acts[..|acts| - 1]);
      NextMoves(cfg, s, a);
      ErrorTextKept(cfg, s, Next(cfg, s, a), a);
    }
  }

  lemma ErrorTextKept(cfg: Config, s: State, s': State, a: Action)
    requires WellFormed(cfg) && Moves(cfg, s, s', a) && ErrorIsText(cfg, s)
    ensures ErrorIsText(cfg, s')
  {
    if s'.ns.Some? && cfg.errorKey in s'.ns.value.annotations {
      if s.ns.Some? && s'.ns.value.annotations == s.ns.value.annotations {
        var i: nat, reason :| ErrorTextOf(cfg, s.ns.value, i, reason);
        assert ErrorTextOf(cfg, s'.ns.value, i, reason);
      } else {
        var k := s.workers[a.worker];
        assert ErrorTextOf(cfg, s'.ns.value, k.mode.at, k.mode.reason);
      }
    }
  }

  // The recorded error names step `i`, and exactly the steps before it have been carried out.
  ghost predicate ErrorPointsAt(cfg: Config, ns: Namespace, i: nat) {
    && i < |cfg.steps|
    && cfg.errorKey in ns.annotations
    && cfg.steps[i].name == StepNameOf(ns.annotations[cfg.errorKey])
    && (forall j :: 0 <= j < |cfg.steps| ==> (Has(ns, cfg, j) <==> j < i))
  }

  ghost predicate ErrorIsExact(cfg: Config, ns: Namespace) {
    exists i: nat :: ErrorPointsAt(cfg, ns, i)
  }

  /** In every reachable state with an error, reading at most two objects decides what it is worth: nothing
      before the named step is missing when the object of the step before exists, and the error is exact when
      also that of the named step is missing. The former is certain as long as no straddling worker has changed
      the annotations. */
  lemma ErrorIsExactIff(cfg: Config, acts: seq<Action>) returns (i: nat)
    requires WellFormed(cfg) && Readable(cfg)
    requires var s := Reached(cfg, acts);
      IsActive(s.ns) && !s.ns.value.straddled && cfg.errorKey in s.ns.value.annotations
    ensures var ns := Reached(cfg, acts).ns.value;
      && i < |cfg.steps|
      && cfg.steps[i].name == StepNameOf(ns.annotations[cfg.errorKey])
      && (ErrorIsExact(cfg, ns) <==> !Has(ns, cfg, i) && (i == 0 || Has(ns, cfg, i - 1)))
      && (HasFirst(ns, cfg, i) <==> i == 0 || Has(ns, cfg, i - 1))
      && (!ns.misannotated ==> i == 0 || Has(ns, cfg, i - 1))
  {
    ErrorIsAlwaysText(cfg, acts);
    CreatedObjectsArePrefix(cfg, acts);
    var ns := Reached(cfg, acts).ns.value;
    var k: nat, reason :| ErrorTextOf(cfg, ns, k, reason);
    ExactWhenMissing(cfg, ns, k, reason);
    StepNameRecovered(cfg.steps[k].name, reason);
    i := k;
    if i > 0 && Has(ns, cfg, i - 1) {
      assert HasFirst(ns, cfg, i - 1);
    }
    if !ns.misannotated {
      var j := RecordedErrorIsSound(cfg, acts);
      assert cfg.steps[j].name == cfg.steps[k].name;
    }
  }

  /** A recording that reaches the cluster leaves an exact error exactly when the object of the step it names is
      still missing and that of the step before is there; the latter is certain unless the worker straddles. */
  lemma RecordIsExactIff(cfg: Config, acts: seq<Action>, w: nat, outcome: Outcome)
    requires WellFormed(cfg) && Readable(cfg) && Applied(outcome)
    requires var s := Reached(cfg, acts);
      && IsActive(s.ns) && !s.ns.value.straddled
      && w < |s.workers| && s.workers[w].mode.Failing?
    ensures var s := Reached(cfg, acts);
      var ns, ns', k := s.ns.value, Next(cfg, s, Work(w, outcome)).ns, s.workers[w];
      && ns'.Some? && k.mode.at < |cfg.steps|
      && (ErrorIsExact(cfg, ns'.value) <==>
          !Has(ns, cfg, k.mode.at) && (k.mode.at == 0 || Has(ns, cfg, k.mode.at - 1)))
      && (k.joined in {None, Some(ns.id)} ==> k.mode.at == 0 || Has(ns, cfg, k.mode.at - 1))
  {
    var s := Reached(cfg, acts);
    var ns, k := s.ns.value, s.workers[w];
    FailingPosition(cfg, acts, w);
    CreatedObjectsArePrefix(cfg, acts);
    if k.joined == Some(ns.id) {
      WorkerLeavesNoGap(cfg, acts, w);
    }
    RecordedText(cfg, s, w, outcome);
    var ns' := Next(cfg, s, Work(w, outcome)).ns.value;
    SameObjects(cfg, ns, ns');
    ExactWhenMissing(cfg, ns', k.mode.at, k.mode.reason);
  }

  lemma SameObjects(cfg: Config, ns: Namespace, ns': Namespace)
    requires ns'.objects == ns.objects
    ensures forall j :: 0 <= j < |cfg.steps| ==> (Has(ns, cfg, j) <==> Has(ns', cfg, j))
    ensures PrefixClosed(ns, cfg) <==> PrefixClosed(ns', cfg)
    ensures Complete(ns, cfg) <==> Complete(ns', cfg)
  {
    assert forall j :: 0 <= j < |cfg.steps| ==> (Has(ns, cfg, j) <==> Has(ns', cfg, j));
    assert forall j :: 0 <= j <= |cfg.steps| ==> (HasFirst(ns, cfg, j) <==> HasFirst(ns', cfg, j));
  }

  lemma FailingPosition(cfg: Config, acts: seq<Action>, w: nat)
    requires WellFormed(cfg)
    requires var s := Reached(cfg, acts); w < |s.workers| && s.workers[w].mode.Failing?
    ensures var k := Reached(cfg, acts).workers[w];
      k.mode.at < |cfg.steps| && k.mode.at <= k.pc && (k.pc > 0 ==> k.joined.Some?)
  {
    ReachedInv(cfg, acts);
    var s := Reached(cfg, acts);
    assert WorkerInv(cfg, s.workers[w], s.minted);
  }

  lemma ExactWhenMissing(cfg: Config, ns: Namespace, at: nat, reason: string)
    requires Readable(cfg) && PrefixClosed(ns, cfg) && ErrorTextOf(cfg, ns, at, reason)
    ensures ErrorIsExact(cfg, ns) <==> !Has(ns, cfg, at) && (at == 0 || Has(ns, cfg, at - 1))
  {
    StepNameRecovered(cfg.steps[at].name, reason);
    if i: nat :| ErrorPointsAt(cfg, ns, i) {
      assert i == at;
    }
    if !Has(ns, cfg, at) && (at == 0 || Has(ns, cfg, at - 1)) {
      forall j | 0 <= j < |cfg.steps| ensures Has(ns, cfg, j) <==> j < at {
        if Has(ns, cfg, j) { assert HasFirst(ns, cfg, j); }
        if at > 0 { assert HasFirst(ns, cfg, at - 1); }
      }
      assert ErrorPointsAt(cfg, ns, at);
    }
  }

  lemma RecordedText(cfg: Config, s: State, w: nat, outcome: Outcome)
    requires w < |s.workers| && s.workers[w].mode.Failing? && s.workers[w].mode.at < |cfg.steps|
    requires s.ns.Some? && Applied(outcome)
    ensures var ns, ns', k := s.ns.value, Next(cfg, s, Work(w, outcome)).ns, s.workers[w];
      && ns'.Some? && ns'.value.objects == ns.objects
      && ErrorTextOf(cfg, ns'.value, k.mode.at, k.mode.reason)
  {
  }

  /** A create call that raises leads, if the next call is answered, to an annotation that says at which step and
      why: the reason of the fault, or that the namespace is terminating. */
  lemma FailureIsReported(cfg: Config, s: State, w: nat, outcome: Outcome)
    requires s.ns.Some? && w < |s.workers| && s.workers[w].mode.Working? && s.workers[w].pc < |cfg.steps|
    requires outcome.Lost? || (outcome.Answered? && s.ns.value.phase == Terminating)
    ensures var s' := Next(cfg, Next(cfg, s, Work(w, outcome)), Work(w, Answered));
      var why := if outcome.Lost? then outcome.reason else "Forbidden";
      && s'.ns.Some? && s'.workers[w].mode == Recorded
      && cfg.errorKey in s'.ns.value.annotations
      && s'.ns.value.annotations[cfg.errorKey] == cfg.steps[s.workers[w].pc].name + ": " + why
  {
  }

  // In a prefix, the last object stands for all of them.
  lemma LastMeansComplete(cfg: Config, ns: Namespace)
    requires |cfg.steps| > 0 && PrefixClosed(ns, cfg)
    ensures Complete(ns, cfg) <==> Has(ns, cfg, |cfg.steps| - 1)
  {
    var last := |cfg.steps| - 1;
    if Has(ns, cfg, last) {
      assert HasFirst(ns, cfg, last);
    }
  }

  /** The final call of a worker leaves no error, and that is right exactly when the environment was complete
      before it: for workers that made their first create in this incarnation always, and for others, unless
      straddling workers have stored objects, exactly when the object of the last step exists. */
  lemma ClearIsSoundIff(cfg: Config, acts: seq<Action>, w: nat, outcome: Outcome)
    requires WellFormed(cfg) && Applied(outcome)
    requires var s := Reached(cfg, acts);
      IsActive(s.ns) && w < |s.workers| && s.workers[w].mode.Working? && s.workers[w].pc == |cfg.steps|
    ensures var s := Reached(cfg, acts);
      var ns, ns', k := s.ns.value, Next(cfg, s, Work(w, outcome)).ns, s.workers[w];
      && ns'.Some? && cfg.errorKey !in ns'.value.annotations
      && (Complete(ns'.value, cfg) <==> Complete(ns, cfg))
      && (k.joined == Some(ns.id) ==> Complete(ns, cfg))
      && (!ns.straddled ==> (Complete(ns, cfg) <==> Has(ns, cfg, |cfg.steps| - 1)))
  {
    var s := Reached(cfg, acts);
    var ns, k := s.ns.value, s.workers[w];
    if k.joined == Some(ns.id) {
      WorkerLeavesNoGap(cfg, acts, w);
    }
    ClearedText(cfg, s, w, outcome);
    SameObjects(cfg, ns, Next(cfg, s, Work(w, outcome)).ns.value);
    if !ns.straddled {
      CreatedObjectsArePrefix(cfg, acts);
      LastMeansComplete(cfg, ns);
    }
  }

  lemma ClearedText(cfg: Config, s: State, w: nat, outcome: Outcome)
    requires w < |s.workers| && s.workers[w].mode.Working? && s.workers[w].pc == |cfg.steps| > 0
    requires s.ns.Some? && Applied(outcome)
    ensures var ns' := Next(cfg, s, Work(w, outcome)).ns;
      && ns'.Some? && ns'.value.objects == s.ns.value.objects
      && cfg.errorKey !in ns'.value.annotations
  {
  }

  ghost predicate HomeWorker(s: State, w: nat)
    requires s.ns.Some?
  {
    w < |s.workers| && s.workers[w].home == s.ns.value.id
  }

  // Some worker started for this incarnation has ended and reported how; others may have crashed or go on.
  ghost predicate Reported(s: State)
    requires s.ns.Some?
  {
    exists w: nat :: HomeWorker(s, w) && s.workers[w].mode in {Done, Recorded}
  }

  // All of them have ended, and each has reported.
  ghost predicate Quiescent(s: State)
    requires s.ns.Some?
  {
    && (exists w: nat :: HomeWorker(s, w))
    && (forall w: nat :: HomeWorker(s, w) ==> s.workers[w].mode in {Done, Recorded})
  }

  // As soon as one of its workers has reported, an incarnation without an error has everything.
  lemma NoErrorMeansComplete(cfg: Config, acts: seq<Action>)
    requires WellFormed(cfg)
    requires var s := Reached(cfg, acts);
      IsActive(s.ns) && !s.ns.value.misannotated && Reported(s) && cfg.errorKey !in s.ns.value.annotations
    ensures Complete(Reached(cfg, acts).ns.value, cfg)
  {
    ReachedInv(cfg, acts);
    HomeJoins(cfg, acts);
    var s := Reached(cfg, acts);
    var w: nat :| HomeWorker(s, w) && s.workers[w].mode in {Done, Recorded};
    if s.workers[w].mode.Done? {
      assert s.workers[w].joined == Some(s.ns.value.id);
    } else {
      assert s.workers[w].mode.Recorded?;
    }
  }

  // A worker cannot have started before the incarnation it was started for; so only a worker started for
  // an earlier incarnation can straddle into this one.
  lemma {:induction false} HomeJoins(cfg: Config, acts: seq<Action>)
    requires WellFormed(cfg)
    ensures var s := Reached(cfg, acts);
      && (forall w :: 0 <= w < |s.workers| && s.workers[w].joined.Some? ==>
            s.workers[w].home <= s.workers[w].joined.value)
      && (s.ns.Some? && (s.ns.value.straddled || s.ns.value.misannotated) ==> s.ns.value.strayed)
  {
    if acts != [] {
      HomeJoins(cfg, acts[..|acts| - 1]);
      ReachedInv(cfg, acts[..|acts| - 1]);
      HomeJoinsKept(cfg, Reached(cfg, acts[..|acts| - 1]), acts[|acts| - 1]);
    }
  }

  lemma HomeJoinsKept(cfg: Config, s: State, a: Action)
    requires WellFormed(cfg) && IdsInv(cfg, s)
    requires forall w :: 0 <= w < |s.workers| && s.workers[w].joined.Some? ==>
               s.workers[w].home <= s.workers[w].joined.value
    requires s.ns.Some? && (s.ns.value.straddled || s.ns.value.misannotated) ==> s.ns.value.strayed
    ensures var s' := Next(cfg, s, a);
      && (forall w :: 0 <= w < |s'.workers| && s'.workers[w].joined.Some? ==>
            s'.workers[w].home <= s'.workers[w].joined.value)
      && (s'.ns.Some? && (s'.ns.value.straddled || s'.ns.value.misannotated) ==> s'.ns.value.strayed)
  {
    var s' := Next(cfg, s, a);
    NextMoves(cfg, s, a);
    if a.Reserve? && s.ns.None? {
      assert !s'.ns.value.straddled && !s'.ns.value.misannotated;
    }
  }

  // ---- Verdicts ----

  datatype EnvironmentStatus = Provisioning | Ready | Failed | Deleting

  predicate DeploymentReady(ns: Option<Namespace>, key: Key) {
    ns.Some? && key in ns.value.objects && ns.value.objects[key].ready >= 1
  }

  /** The status reported from a read of the namespace and, only when they are needed, later reads of the
      hub deployment (in `hubRead`) and of the proxy deployment (in `proxyRead`). */
  function EnvironmentVerdict(
    errorKey: string, namespace: Namespace, hubRead: Option<Namespace>, proxyRead: Option<Namespace>
  ): EnvironmentStatus {
    if namespace.phase == Terminating then Deleting
    else if errorKey in namespace.annotations && namespace.annotations[errorKey] != "" then Failed
    else if DeploymentReady(hubRead, HUB_DEPLOYMENT) && DeploymentReady(proxyRead, PROXY_DEPLOYMENT) then Ready
    else Provisioning
  }

  /** What each status says about the fields that were read. The two reads of deployments matter only for an
      active namespace without an error. */
  lemma VerdictMeans(
    errorKey: string, namespace: Namespace, hubRead: Option<Namespace>, proxyRead: Option<Namespace>)
    ensures var verdict := EnvironmentVerdict(errorKey, namespace, hubRead, proxyRead);
      var failed := errorKey in namespace.annotations && namespace.annotations[errorKey] != "";
      var hub, proxy := Key(Deployment, "hub"), Key(Deployment, "proxy");
      && (verdict == Deleting <==> namespace.phase == Terminating)
      && (verdict == Failed <==> namespace.phase == Active && failed)
      && (verdict == Ready <==>
            && namespace.phase == Active && !failed
            && hubRead.Some? && hub in hubRead.value.objects && hubRead.value.objects[hub].ready > 0
            && proxyRead.Some? && proxy in proxyRead.value.objects && proxyRead.value.objects[proxy].ready > 0)
  {
  }

  /** As soon as one worker of the incarnation has reported, the verdict can be trusted, whatever the others do
      or have suffered: if anything is missing it is `Failed`; without a failure nothing is missing. */
  lemma ReportedVerdict(
    prefix: string, t: DeploymentType, acts: seq<Action>, hubRead: Option<Namespace>, proxyRead: Option<Namespace>)
    requires var s := Reached(EnvironmentConfig(prefix, t), acts);
      IsActive(s.ns) && !s.ns.value.misannotated && Reported(s)
    ensures var cfg := EnvironmentConfig(prefix, t);
      var ns := Reached(cfg, acts).ns.value;
      var verdict := EnvironmentVerdict(cfg.errorKey, ns, hubRead, proxyRead);
      && (!Complete(ns, cfg) ==> verdict == Failed)
      && (verdict in {Ready, Provisioning} ==> cfg.errorKey !in ns.annotations && Complete(ns, cfg))
  {
    var cfg := EnvironmentConfig(prefix, t);
    EnvironmentWellFormed(prefix, t);
    var ns := Reached(cfg, acts).ns.value;
    if cfg.errorKey !in ns.annotations {
      NoErrorMeansComplete(cfg, acts);
    } else {
      ReachedInv(cfg, acts);
      var i: nat, reason :| ErrorNames(cfg, ns, i, reason);
    }
  }

  /** `Ready` built from three reads at different moments: if the incarnation that was read is still active
      afterwards, every object up to and including the hub deployment exists, wherever that is in the list.
      What straddling workers do after the hub deployment was read does not matter. */
  lemma ReadyMeansProvisioned(
    cfg: Config, hub: nat, before: seq<Action>, hubGap: seq<Action>, proxyGap: seq<Action>, after: seq<Action>)
    requires WellFormed(cfg) && hub < |cfg.steps| && cfg.steps[hub].key == HUB_DEPLOYMENT
    requires
      var s0 := Reached(cfg, before);
      var s1 := Exec(cfg, s0, hubGap);
      var s2 := Exec(cfg, s1, proxyGap);
      var s3 := Exec(cfg, s2, after);
      && s0.ns.Some?
      && EnvironmentVerdict(cfg.errorKey, s0.ns.value, s1.ns, s2.ns) == Ready
      && s1.ns.Some? && !s1.ns.value.straddled
      && IsActive(s3.ns) && s3.ns.value.id == s0.ns.value.id
    ensures
      var s1 := Exec(cfg, Reached(cfg, before), hubGap);
      var s2 := Exec(cfg, s1, proxyGap);
      var s3 := Exec(cfg, s2, after);
      var hubKey, proxyKey := Key(Deployment, "hub"), Key(Deployment, "proxy");
      && HasFirst(s3.ns.value, cfg, hub + 1)
      && s2.ns.Some? && s1.ns.value.id == s2.ns.value.id == s3.ns.value.id
      && hubKey in s1.ns.value.objects && s1.ns.value.objects[hubKey].ready > 0
      && proxyKey in s2.ns.value.objects && s2.ns.value.objects[proxyKey].ready > 0
  {
    var s0 := Reached(cfg, before);
    var s1 := Exec(cfg, s0, hubGap);
    var s2 := Exec(cfg, s1, proxyGap);
    var s3 := Exec(cfg, s2, after);
    ReachedInv(cfg, before);
    InvAlong(cfg, s0, hubGap);
    InvAlong(cfg, s1, proxyGap);
    InvAlong(cfg, s2, after);
    GrowsAlong(cfg, s0, hubGap);
    GrowsAlong(cfg, s1, proxyGap);
    GrowsAlong(cfg, s2, after);
    var ns1, ns3 := s1.ns.value, s3.ns.value;
    assert Has(ns1, cfg, hub) && HasFirst(ns1, cfg, hub);
    forall i | 0 <= i < hub + 1 ensures Has(ns3, cfg, i) {
      assert Has(ns1, cfg, i);
    }
  }

  /** For every deployment type that leaves nothing but the ingress. */
  lemma ReadyMissesOnlyIngress(
    prefix: string, t: DeploymentType,
    before: seq<Action>, hubGap: seq<Action>, proxyGap: seq<Action>, after: seq<Action>)
    requires
      var cfg := EnvironmentConfig(prefix, t);
      var s0 := Reached(cfg, before);
      var s1 := Exec(cfg, s0, hubGap);
      var s2 := Exec(cfg, s1, proxyGap);
      var s3 := Exec(cfg, s2, after);
      && s0.ns.Some?
      && EnvironmentVerdict(cfg.errorKey, s0.ns.value, s1.ns, s2.ns) == Ready
      && s1.ns.Some? && !s1.ns.value.straddled
      && IsActive(s3.ns) && s3.ns.value.id == s0.ns.value.id
    ensures
      var cfg := EnvironmentConfig(prefix, t);
      var s3 := Exec(cfg, Exec(cfg, Exec(cfg, Reached(cfg, before), hubGap), proxyGap), after);
      && HasFirst(s3.ns.value, cfg, |cfg.steps| - 1)
      && cfg.steps[|cfg.steps| - 1].key == HUB_INGRESS
      && StepKeys(cfg) - {HUB_INGRESS} <= s3.ns.value.objects.Keys
  {
    var cfg := EnvironmentConfig(prefix, t);
    EnvironmentWellFormed(prefix, t);
    StepAt(t, Position(t, 10));
    ReadyMeansProvisioned(cfg, Position(t, 10), before, hubGap, proxyGap, after);
    var s3 := Exec(cfg, Exec(cfg, Exec(cfg, Reached(cfg, before), hubGap), proxyGap), after);
    IngressIsLast(prefix, t, s3.ns.value);
  }

  lemma IngressIsLast(prefix: string, t: DeploymentType, ns: Namespace)
    requires HasFirst(ns, EnvironmentConfig(prefix, t), Position(t, 10) + 1)
    ensures var cfg := EnvironmentConfig(prefix, t);
      && HasFirst(ns, cfg, |cfg.steps| - 1)
      && cfg.steps[|cfg.steps| - 1].key == HUB_INGRESS
      && StepKeys(cfg) - {HUB_INGRESS} <= ns.objects.Keys
  {
    var cfg := EnvironmentConfig(prefix, t);
    var h := Position(t, 10);
    StepAt(t, h + 1);
    assert h + 2 == |cfg.steps|;
    forall key | key in StepKeys(cfg) - {HUB_INGRESS} ensures key in ns.objects {
      var i :| 0 <= i < |cfg.steps| && cfg.steps[i].key == key;
      assert i < |cfg.steps| - 1 && Has(ns, cfg, i);
    }
  }

  // ---- Credentials ----

  // get_hub_api_token, with tokens as opaque strings: the namespace's own token, else the configured one.
  function HubApiToken(ns: Option<Namespace>, fallback: Option<string>): Option<string> {
    if && ns.Some? && HUB_SECRET in ns.value.objects
       && ns.value.objects[HUB_SECRET].body.SecretData?
       && var data := ns.value.objects[HUB_SECRET].body.data;
       "api-token" in data && data["api-token"] != ""
    then Some(ns.value.objects[HUB_SECRET].body.data["api-token"])
    else if fallback.Some? && fallback.value != "" then fallback
    else None
  }

  // The token is the namespace's own, or the fallback where there is no own; an empty one counts as none.
  lemma TokenMeans(ns: Option<Namespace>, fallback: Option<string>)
    ensures var token, key := HubApiToken(ns, fallback), Key(Secret, "hub-secret");
      var own :=
        if ns.Some? && key in ns.value.objects && ns.value.objects[key].body.SecretData?
           && "api-token" in ns.value.objects[key].body.data
        then ns.value.objects[key].body.data["api-token"] else "";
      && (own != "" ==> token == Some(own))
      && (own == "" && fallback !in {None, Some("")} ==> token == fallback)
      && (own == "" && fallback in {None, Some("")} ==> token == None)
  {
  }

  /** From the moment the secret exists until the namespace terminates, every read answers the same token:
      the one that the worker whose create stored the secret generated for itself. */
  lemma TokenIsWriteOnce(cfg: Config, before: seq<Action>, later: seq<Action>, fallback: Option<string>)
    requires WellFormed(cfg)
    requires var s, s' := Reached(cfg, before), Exec(cfg, Reached(cfg, before), later);
      && s.ns.Some? && HUB_SECRET in s.ns.value.objects
      && IsActive(s'.ns) && s'.ns.value.id == s.ns.value.id
    ensures var s, s' := Reached(cfg, before), Exec(cfg, Reached(cfg, before), later);
      && HubApiToken(s'.ns, fallback) == HubApiToken(s.ns, fallback)
      && var creator := s.ns.value.objects[HUB_SECRET].creator;
      && creator < |s.workers|
      && ("api-token" in s.workers[creator].gen.data && s.workers[creator].gen.data["api-token"] != "" ==>
            HubApiToken(s'.ns, fallback) == Some(s.workers[creator].gen.data["api-token"]))
  {
    ReachedInv(cfg, before);
    GrowsAlong(cfg, Reached(cfg, before), later);
  }

  // What a worker generates itself, and what it takes from the settings of its process.
  datatype Tokens = Tokens(proxy: string, cookie: string, api: string)
  datatype HubSettings = HubSettings(oauthSecrets: map<string, string>, dummyPassword: Option<string>)

  // A setting that is not given or empty counts as not configured.
  predicate Given(setting: Option<string>) {
    setting.Some? && setting.value != ""
  }

  // The setting for one type, by its name.
  function OAuthSecret(t: DeploymentType, settings: HubSettings): Option<string> {
    if TypeName(t) in settings.oauthSecrets then Some(settings.oauthSecrets[TypeName(t)]) else None
  }

  function OptionalEntry(name: string, setting: Option<string>): map<string, string> {
    if Given(setting) then map[name := setting.value] else map[]
  }

  // build_hub_secret.
  function HubSecretData(t: DeploymentType, tokens: Tokens, settings: HubSettings): map<string, string> {
    map["proxy-token" := tokens.proxy, "cookie-secret" := tokens.cookie, "api-token" := tokens.api]
    + OptionalEntry("oauth-client-secret", OAuthSecret(t, settings))
    + OptionalEntry("dummy-password", settings.dummyPassword)
  }

  /** The entries without which the hub does not start: those that its manifest does not declare optional,
      and those that the configuration of the type reads from the environment without a default. */
  function RequiredEntries(t: DeploymentType): set<string> {
    {"proxy-token", "cookie-secret", "api-token"}
    + match t
      case Ids => {"oauth-client-secret"}
      case Climate => {"oauth-client-secret"}
      case Dummy => {"dummy-password"}
      case _ => {}
  }

  // The settings that a type needs, which nothing checks when it is deployed.
  predicate Configured(t: DeploymentType, settings: HubSettings) {
    match t
    case Ids => Given(OAuthSecret(t, settings))
    case Climate => Given(OAuthSecret(t, settings))
    case Dummy => Given(settings.dummyPassword)
    case _ => true
  }

  lemma EntryNamesDiffer()
    ensures "oauth-client-secret" !in {"proxy-token", "cookie-secret", "api-token", "dummy-password"}
    ensures "dummy-password" !in {"proxy-token", "cookie-secret", "api-token"}
    ensures "api-token" !in {"proxy-token", "cookie-secret"} && "proxy-token" != "cookie-secret"
  {
    assert |"oauth-client-secret"| == 19 && |"dummy-password"| == 14 && |"cookie-secret"| == 13;
    assert |"proxy-token"| == 11 && |"api-token"| == 9;
  }

  // What that means for the data of a secret, entry by entry.
  lemma RequiredMeans(t: DeploymentType, data: map<string, string>)
    ensures RequiredEntries(t) <= data.Keys <==>
            && "proxy-token" in data && "cookie-secret" in data && "api-token" in data
            && (t in {Ids, Climate} ==> "oauth-client-secret" in data)
            && (t == Dummy ==> "dummy-password" in data)
  {
  }

  /** The generated secret is enough for a hub of type `t` exactly when the settings of `t` are given. */
  lemma HubSecretIsUsable(t: DeploymentType, tokens: Tokens, settings: HubSettings)
    ensures var data := HubSecretData(t, tokens, settings);
      var oauth := if TypeName(t) in settings.oauthSecrets then settings.oauthSecrets[TypeName(t)] else "";
      var dummy := if settings.dummyPassword.Some? then settings.dummyPassword.value else "";
      && (RequiredEntries(t) <= data.Keys <==>
            (t in {Ids, Climate} ==> oauth != "") && (t == Dummy ==> dummy != ""))
      && (RequiredEntries(t) <= data.Keys <==> Configured(t, settings))
      && "api-token" in data && data["api-token"] == tokens.api
      && "proxy-token" in data && data["proxy-token"] == tokens.proxy
      && "cookie-secret" in data && data["cookie-secret"] == tokens.cookie
      && ("oauth-client-secret" in data <==> oauth != "")
      && (oauth != "" ==> data["oauth-client-secret"] == oauth)
      && ("dummy-password" in data <==> dummy != "")
      && (dummy != "" ==> data["dummy-password"] == dummy)
  {
    EntryNamesDiffer();
  }

  // The secret of worker `w` was generated with `settings[w]`, for every worker.
  ghost predicate GeneratedWith(t: DeploymentType, workers: seq<Worker>, settings: seq<HubSettings>) {
    && |settings| == |workers|
    && forall w :: 0 <= w < |workers| ==>
         exists tokens: Tokens :: tokens.api != "" && workers[w].gen.data == HubSecretData(t, tokens, settings[w])
  }

  /** In every reachable state, the stored secret has what the type needs exactly when the worker whose
      create stored it ran with the settings of the type; and the API finds a token of its own in it. */
  lemma StoredSecretIsUsableIff(
    cfg: Config, t: DeploymentType, acts: seq<Action>, settings: seq<HubSettings>, fallback: Option<string>)
    requires WellFormed(cfg)
    requires var s := Reached(cfg, acts);
      s.ns.Some? && HUB_SECRET in s.ns.value.objects && GeneratedWith(t, s.workers, settings)
    ensures var s := Reached(cfg, acts);
      var stored := s.ns.value.objects[HUB_SECRET];
      && stored.creator < |settings|
      && stored.body == SecretData(s.workers[stored.creator].gen.data)
      && (RequiredEntries(t) <= stored.body.data.Keys <==> Configured(t, settings[stored.creator]))
      && "api-token" in stored.body.data && stored.body.data["api-token"] != ""
      && HubApiToken(s.ns, fallback) == Some(stored.body.data["api-token"])
  {
    ReachedInv(cfg, acts);
    var s := Reached(cfg, acts);
    var creator := s.ns.value.objects[HUB_SECRET].creator;
    var tokens: Tokens :|
      tokens.api != "" && s.workers[creator].gen.data == HubSecretData(t, tokens, settings[creator]);
    HubSecretIsUsable(t, tokens, settings[creator]);
  }

  /** Whenever the hub or the proxy deployment exists, so does the secret, and it is usable exactly when its
      creator was configured for the type. */
  lemma DeploymentsFindTheirSecret(
    prefix: string, t: DeploymentType, acts: seq<Action>, settings: seq<HubSettings>, fallback: Option<string>)
    requires var s := Reached(EnvironmentConfig(prefix, t), acts);
      && IsActive(s.ns) && !s.ns.value.straddled
      && (HUB_DEPLOYMENT in s.ns.value.objects || PROXY_DEPLOYMENT in s.ns.value.objects)
      && GeneratedWith(t, s.workers, settings)
    ensures var s := Reached(EnvironmentConfig(prefix, t), acts);
      && HUB_SECRET in s.ns.value.objects
      && var stored := s.ns.value.objects[HUB_SECRET];
      && stored.creator < |settings|
      && stored.body == SecretData(s.workers[stored.creator].gen.data)
      && (RequiredEntries(t) <= stored.body.data.Keys <==> Configured(t, settings[stored.creator]))
      && "api-token" in stored.body.data
      && HubApiToken(s.ns, fallback) == Some(stored.body.data["api-token"])
  {
    EnvironmentWellFormed(prefix, t);
    EnvironmentReferencesClosed(prefix, t, acts);
    StoredSecretIsUsableIff(EnvironmentConfig(prefix, t), t, acts, settings, fallback);
  }

  /** No later worker can add an entry: as long as the incarnation is active, the secret has exactly the
      entries that it was stored with. */
  lemma SecretEntriesAreFinal(cfg: Config, before: seq<Action>, later: seq<Action>)
    requires WellFormed(cfg)
    requires var s, s' := Reached(cfg, before), Exec(cfg, Reached(cfg, before), later);
      && s.ns.Some? && HUB_SECRET in s.ns.value.objects
      && IsActive(s'.ns) && s'.ns.value.id == s.ns.value.id
    ensures var s, s' := Reached(cfg, before), Exec(cfg, Reached(cfg, before), later);
      && HUB_SECRET in s'.ns.value.objects
      && s.ns.value.objects[HUB_SECRET].body.SecretData?
      && s'.ns.value.objects[HUB_SECRET].body == s.ns.value.objects[HUB_SECRET].body
  {
    ReachedInv(cfg, before);
    GrowsAlong(cfg, Reached(cfg, before), later);
  }
}
