/** Runs that show where the guarantees end: what straddling workers break, which error reports are not exact,
    what late deletions and late provisioners do, and what a missing setting leaves behind. */
module ProtocolLimits {
  import opened Kubernetes
  import opened Protocol
  import opened ProtocolInvariants
  import opened ProtocolSafety
  import opened ProtocolProgress
  import opened ProtocolOwnership
  import opened ProtocolKafka
  import opened Catalog

  const ADMIN := User("", true)
  const OWNER := User("x", false)

  lemma Append(cfg: Config, acts: seq<Action>, a: Action) returns (longer: seq<Action>)
    ensures longer == acts + [a]
    ensures Reached(cfg, longer) == Next(cfg, Reached(cfg, acts), a)
  {
    longer := acts + [a];
    assert longer[..|longer| - 1] == acts;
  }

  // In the first incarnation nobody can come from another one.
  lemma {:induction false} FirstIncarnationIsPure(cfg: Config, acts: seq<Action>)
    requires WellFormed(cfg)
    ensures var s := Reached(cfg, acts);
      s.minted <= 1 && s.ns.Some? ==> !s.ns.value.straddled && !s.ns.value.misannotated && !s.ns.value.strayed
  {
    if acts != [] {
      var s, a := Reached(cfg, acts[..|acts| - 1]), acts[|acts| - 1];
      FirstIncarnationIsPure(cfg, acts[..|acts| - 1]);
      ReachedInv(cfg, acts[..|acts| - 1]);
      PurityKept(cfg, s, a);
    }
  }

  lemma PurityKept(cfg: Config, s: State, a: Action)
    requires WellFormed(cfg) && IdsInv(cfg, s)
    requires s.minted <= 1 && s.ns.Some? ==> !s.ns.value.straddled && !s.ns.value.misannotated && !s.ns.value.strayed
    ensures var s' := Next(cfg, s, a);
      s'.minted <= 1 && s'.ns.Some? ==>
        !s'.ns.value.straddled && !s'.ns.value.misannotated && !s'.ns.value.strayed
  {
    if a.Work? {
      NextMoves(cfg, s, a);
    }
  }

  // The first worker has made its first `j` calls undisturbed.
  ghost predicate WorkedAlone(cfg: Config, s: State, j: nat) {
    && IsActive(s.ns) && s.minted == 1 && s.ns.value.id == 0 && s.deletes == []
    && s.ns.value.annotations == map[cfg.ownerKey := "x"]
    && HasFirst(s.ns.value, cfg, j)
    && (forall key :: key in s.ns.value.objects ==>
          exists i :: 0 <= i < j && i < |cfg.steps| && cfg.steps[i].key == key)
    && |s.workers| == 1 && s.workers[0].pc == j && s.workers[0].mode.Working?
    && s.workers[0].joined == Some(0) && s.workers[0].home == 0
  }

  lemma FirstWorkerAlone(cfg: Config, gen: Generated, j: nat) returns (acts: seq<Action>)
    requires WellFormed(cfg) && cfg.clears && 0 < j <= |cfg.steps|
    ensures WorkedAlone(cfg, Reached(cfg, acts), j)
  {
    var request := Append(cfg, [], Reserve("x", gen));
    var s := Reached(cfg, request);
    FreshlyReserved(cfg, s, gen);
    ExecComposes(cfg, INIT, request, Solo(0, j));
    acts := request + Solo(0, j);
    SoloProgress(cfg, s, 0, j);
    SoloOnlyWorks(cfg, s, 0, j);
    ReachedInv(cfg, acts);
    MovedAlone(cfg, s, Reached(cfg, acts), j);
  }

  ghost predicate JustReserved(cfg: Config, s: State) {
    && s.ns == Some(Namespace(0, Active, map[cfg.ownerKey := "x"], map[], None, 0, false, false, false))
    && s.minted == 1 && s.deletes == []
    && |s.workers| == 1 && s.workers[0] == NewWorker(s.workers[0].gen, 0, OWNER)
  }

  lemma FreshlyReserved(cfg: Config, s: State, gen: Generated)
    requires s == Next(cfg, INIT, Reserve("x", gen))
    ensures JustReserved(cfg, s)
  {
  }

  lemma MovedAlone(cfg: Config, s: State, s': State, j: nat)
    requires WellFormed(cfg) && cfg.clears && 0 < j <= |cfg.steps|
    requires JustReserved(cfg, s) && SoloMoved(cfg, s, s', 0, j)
    requires s'.minted == 1 && s'.deletes == [] && IdsInv(cfg, s')
    ensures WorkedAlone(cfg, s', j)
  {
    assert WorkerInv(cfg, s'.workers[0], 1);
  }

  lemma {:induction false} SoloOnlyWorks(cfg: Config, s: State, w: nat, n: nat)
    ensures var s' := Exec(cfg, s, Solo(w, n)); s'.minted == s.minted && s'.deletes == s.deletes
  {
    if n > 0 {
      var acts := Solo(w, n);
      assert acts[..|acts| - 1] == Solo(w, n - 1);
      SoloOnlyWorks(cfg, s, w, n - 1);
      NextMoves(cfg, Exec(cfg, s, Solo(w, n - 1)), Work(w, Answered));
    }
  }

  // ---- The next incarnation ----

  // The collector removes the objects of the first `n` steps from a terminating namespace.
  function Collecting(cfg: Config, n: nat): seq<Action>
    requires n <= |cfg.steps|
  {
    if n == 0 then [] else Collecting(cfg, n - 1) + [Collect(cfg.steps[n - 1].key)]
  }

  lemma {:induction false} Collected(cfg: Config, s: State, n: nat)
    requires n <= |cfg.steps| && s.ns.Some? && s.ns.value.phase == Terminating
    ensures var s' := Exec(cfg, s, Collecting(cfg, n));
      && s'.ns.Some? && s' == s.(ns := Some(s.ns.value.(objects := s'.ns.value.objects)))
      && s'.ns.value.objects.Keys <= s.ns.value.objects.Keys
      && forall i :: 0 <= i < n ==> cfg.steps[i].key !in s'.ns.value.objects
  {
    if n > 0 {
      Collected(cfg, s, n - 1);
      var acts := Collecting(cfg, n);
      assert acts[..|acts| - 1] == Collecting(cfg, n - 1);
    }
  }

  lemma EverythingCollected(cfg: Config, ns: Namespace)
    requires ns.objects.Keys <= StepKeys(cfg)
    requires forall i :: 0 <= i < |cfg.steps| ==> cfg.steps[i].key !in ns.objects
    ensures ns.objects == map[]
  {
    forall key ensures key !in ns.objects {
      if key in StepKeys(cfg) {
        var i :| 0 <= i < |cfg.steps| && cfg.steps[i].key == key;
      }
    }
  }

  // The namespace is deleted with everything in it, and reserved again.
  lemma DeletedAndReserved(cfg: Config, acts: seq<Action>, b: Generated) returns (more: seq<Action>)
    requires WellFormed(cfg)
    requires var s := Reached(cfg, acts); IsActive(s.ns) && s.deletes == []
    ensures var s := Reached(cfg, acts);
      Reached(cfg, more) ==
      State(Some(Namespace(s.minted, Active, map[cfg.ownerKey := "x"], map[], None, 0, false, false, false)),
            s.minted + 1, s.workers + [NewWorker(b, s.minted, OWNER)], [])
  {
    ReachedInv(cfg, acts);
    more := Append(cfg, acts, RequestDelete(ADMIN));
    more := Append(cfg, more, ApplyDelete(0));
    var s := Reached(cfg, more);
    Collected(cfg, s, |cfg.steps|);
    ExecComposes(cfg, INIT, more, Collecting(cfg, |cfg.steps|));
    more := more + Collecting(cfg, |cfg.steps|);
    EverythingCollected(cfg, Reached(cfg, more).ns.value);
    more := Append(cfg, more, Finalise);
    more := Append(cfg, more, Reserve("x", b));
  }

  // ---- Workers that straddle two incarnations ----

  // The state in which a worker that has made its first create stands before a new, empty incarnation.
  ghost predicate Straddling(cfg: Config, a: Generated, b: Generated, s: State) {
    && s.ns == Some(Namespace(1, Active, map[cfg.ownerKey := "x"], map[], None, 0, false, false, false))
    && |s.workers| == 2
    && s.workers[0].pc == 1 && s.workers[0].joined == Some(0) && s.workers[0].mode.Working?
    && s.workers[0].gen == a && s.workers[0].home == 0
    && s.workers[1] == NewWorker(b, 1, OWNER)
  }

  lemma StraddlerStarts(cfg: Config, a: Generated, b: Generated) returns (acts: seq<Action>)
    requires WellFormed(cfg) && |cfg.steps| >= 2
    ensures Straddling(cfg, a, b, Reached(cfg, acts))
  {
    acts := Append(cfg, [], Reserve("x", a));
    acts := Append(cfg, acts, Work(0, Answered));
    acts := DeletedAndReserved(cfg, acts, b);
  }

  // It goes on for `j` steps in the new incarnation, which then holds exactly the objects of those steps.
  lemma StraddlerContinues(cfg: Config, a: Generated, b: Generated, j: nat) returns (acts: seq<Action>)
    requires WellFormed(cfg) && |cfg.steps| >= 2 && 1 + j <= |cfg.steps|
    ensures var s := Reached(cfg, acts);
      && IsActive(s.ns) && s.ns.value.id == 1 && |s.workers| == 2
      && s.ns.value.annotations == map[cfg.ownerKey := "x"]
      && !Has(s.ns.value, cfg, 0)
      && (forall i :: 1 <= i < 1 + j ==> Has(s.ns.value, cfg, i))
      && s.workers[0].pc == 1 + j && s.workers[0].home == 0
      && (1 + j < |cfg.steps| || cfg.clears ==> s.workers[0].mode.Working?)
      && s.workers[1] == NewWorker(b, 1, OWNER)
      && (j > 0 ==> s.ns.value.straddled)
  {
    acts := StraddlerStarts(cfg, a, b);
    var s := Reached(cfg, acts);
    SoloProgress(cfg, s, 0, j);
    ExecComposes(cfg, INIT, acts, Solo(0, j));
    acts := acts + Solo(0, j);
    var ns := Reached(cfg, acts).ns.value;
    assert !Has(ns, cfg, 0) && (j > 0 ==> Has(ns, cfg, 1) && !HasFirst(ns, cfg, 1));
    if !ns.straddled {
      CreatedObjectsArePrefix(cfg, acts);
    }
  }

  /** A worker that is between two creates while its namespace is deleted and reserved again continues in
      the new incarnation, and leaves a gap there. */
  lemma StraddlerLeavesGap(cfg: Config, a: Generated, b: Generated) returns (acts: seq<Action>)
    requires WellFormed(cfg) && |cfg.steps| >= 2
    ensures var s := Reached(cfg, acts);
      && IsActive(s.ns) && s.ns.value.straddled
      && Has(s.ns.value, cfg, 1) && !Has(s.ns.value, cfg, 0)
      && !PrefixClosed(s.ns.value, cfg)
  {
    acts := StraddlerContinues(cfg, a, b, 1);
    var ns := Reached(cfg, acts).ns.value;
    assert Has(ns, cfg, 1) && !HasFirst(ns, cfg, 1);
  }

  /** What such a worker does to an environment: the deployments exist without the secret that they refer to,
      and once they report, the environment is described as ready. */
  lemma StraddlerBreaksReferences(prefix: string, t: DeploymentType, a: Generated, b: Generated)
    returns (acts: seq<Action>)
    ensures var cfg, s := EnvironmentConfig(prefix, t), Reached(EnvironmentConfig(prefix, t), acts);
      && IsActive(s.ns) && s.ns.value.straddled
      && PROXY_DEPLOYMENT in s.ns.value.objects && HUB_DEPLOYMENT in s.ns.value.objects
      && HUB_SECRET !in s.ns.value.objects
      && !ReferencesPresent(s.ns.value, cfg)
      && EnvironmentVerdict(cfg.errorKey, s.ns.value, s.ns, s.ns) == Ready
  {
    var cfg := EnvironmentConfig(prefix, t);
    EnvironmentWellFormed(prefix, t);
    var n := |cfg.steps|;
    SecretIsFirst(prefix, t);
    acts := StraddlerContinues(cfg, a, b, n - 1);
    var s := Reached(cfg, acts);
    AllButFirst(prefix, t, s.ns.value);
    ReportsMakeReady(cfg, s);
    acts := Append(cfg, acts, Report(HUB_DEPLOYMENT, 1));
    acts := Append(cfg, acts, Report(PROXY_DEPLOYMENT, 1));
    MissingSecretIsReferred(prefix, t, Reached(cfg, acts).ns.value);
  }

  lemma SecretIsFirst(prefix: string, t: DeploymentType)
    ensures var steps := EnvironmentConfig(prefix, t).steps; |steps| >= 12 && steps[0].key == HUB_SECRET
  {
    StepAt(t, 0);
  }

  lemma AllButFirst(prefix: string, t: DeploymentType, ns: Namespace)
    requires var cfg := EnvironmentConfig(prefix, t);
      |cfg.steps| > 0 && !Has(ns, cfg, 0) && forall i :: 1 <= i < |cfg.steps| ==> Has(ns, cfg, i)
    ensures PROXY_DEPLOYMENT in ns.objects && HUB_DEPLOYMENT in ns.objects && HUB_SECRET !in ns.objects
  {
    var cfg := EnvironmentConfig(prefix, t);
    StepAt(t, 0);
    StepAt(t, Position(t, 9));
    StepAt(t, Position(t, 10));
    assert Has(ns, cfg, Position(t, 9)) && Has(ns, cfg, Position(t, 10));
  }

  lemma MissingSecretIsReferred(prefix: string, t: DeploymentType, ns: Namespace)
    requires PROXY_DEPLOYMENT in ns.objects && HUB_SECRET !in ns.objects
    ensures !ReferencesPresent(ns, EnvironmentConfig(prefix, t))
  {
    if ReferencesPresent(ns, EnvironmentConfig(prefix, t)) {
      CommonNeedsPresent(prefix, t, ns, 9);
      NeedsOf(t);
      assert false;
    }
  }

  /** It also spoils the error reports. Clearing "its" error at the end, it removes the one that the worker of
      the new incarnation has recorded: all workers of that incarnation have ended and reported, no error is
      left, and the object of the first step is missing. */
  lemma StraddlerHidesFailure(cfg: Config, a: Generated, b: Generated) returns (acts: seq<Action>)
    requires WellFormed(cfg) && |cfg.steps| >= 2 && cfg.clears
    ensures var s := Reached(cfg, acts);
      && IsActive(s.ns) && s.ns.value.straddled && Quiescent(s)
      && cfg.errorKey !in s.ns.value.annotations
      && !Complete(s.ns.value, cfg)
  {
    acts := StraddlerContinues(cfg, a, b, |cfg.steps| - 1);
    acts := Append(cfg, acts, Work(1, Lost(false, "Timeout")));
    acts := Append(cfg, acts, Work(1, Answered));
    assert var s := Reached(cfg, acts); |s.workers| == 2 && s.workers[1].mode.Recorded? && s.workers[1].home == 1;
    var s := Reached(cfg, acts);
    assert IsActive(s.ns) && s.ns.value.straddled && !Has(s.ns.value, cfg, 0) && s.ns.value.id == 1;
    ClearAlone(cfg, s, 0);
    ClearKeepsHistory(cfg, s, 0);
    acts := Append(cfg, acts, Work(0, Answered));
    assert HomeWorker(Reached(cfg, acts), 1);
    assert !Has(Reached(cfg, acts).ns.value, cfg, 0);
  }

  lemma ClearKeepsHistory(cfg: Config, s: State, w: nat)
    requires WellFormed(cfg) && IsActive(s.ns)
    requires w < |s.workers| && s.workers[w].mode.Working? && s.workers[w].pc == |cfg.steps|
    ensures var s' := Next(cfg, s, Work(w, Answered));
      && s'.ns.Some? && (s.ns.value.straddled ==> s'.ns.value.straddled)
      && |s'.workers| == |s.workers| && s'.workers[w].home == s.workers[w].home
  {
  }

  // An error that it records names a step before which an object is missing.
  lemma StraddlerMisreports(cfg: Config, a: Generated, b: Generated) returns (acts: seq<Action>)
    requires WellFormed(cfg) && |cfg.steps| >= 2
    ensures var s := Reached(cfg, acts);
      && IsActive(s.ns) && s.ns.value.misannotated && !s.ns.value.straddled
      && cfg.errorKey in s.ns.value.annotations
      && s.ns.value.annotations[cfg.errorKey] == ErrorText(cfg.steps[1].name, "Timeout")
      && !Has(s.ns.value, cfg, 0)
  {
    acts := StraddlerStarts(cfg, a, b);
    acts := Append(cfg, acts, Work(0, Lost(false, "Timeout")));
    acts := Append(cfg, acts, Work(0, Answered));
  }

  // The worker of the first incarnation has made all its creates there, and has only the clearing left when
  // the second one is reserved.
  lemma ClearerStarts(cfg: Config, a: Generated, b: Generated) returns (acts: seq<Action>)
    requires WellFormed(cfg) && cfg.clears
    ensures var s := Reached(cfg, acts);
      && s.ns == Some(Namespace(1, Active, map[cfg.ownerKey := "x"], map[], None, 0, false, false, false))
      && |s.workers| == 2
      && s.workers[0].pc == |cfg.steps| && s.workers[0].mode.Working?
      && s.workers[0].joined == Some(0) && s.workers[0].home == 0
      && s.workers[1] == NewWorker(b, 1, OWNER)
  {
    acts := FirstWorkerAlone(cfg, a, |cfg.steps|);
    acts := DeletedAndReserved(cfg, acts, b);
  }

  /** Clearing alone is enough: no create of a straddling worker has reached the new incarnation, its own
      worker has failed and recorded it, and the late clearing call of the old worker removes that error from
      an empty environment. */
  lemma LateClearHidesFailure(cfg: Config, a: Generated, b: Generated) returns (acts: seq<Action>)
    requires WellFormed(cfg) && cfg.clears
    ensures var s := Reached(cfg, acts);
      && IsActive(s.ns) && !s.ns.value.straddled && s.ns.value.misannotated && Quiescent(s)
      && cfg.errorKey !in s.ns.value.annotations
      && s.ns.value.objects == map[] && !Complete(s.ns.value, cfg)
  {
    acts := ClearerStarts(cfg, a, b);
    acts := Append(cfg, acts, Work(1, Lost(false, "Timeout")));
    acts := Append(cfg, acts, Work(1, Answered));
    assert var s := Reached(cfg, acts);
      && |s.workers| == 2 && s.workers[1].mode.Recorded? && s.workers[1].home == 1
      && IsActive(s.ns) && s.ns.value.id == 1 && s.ns.value.objects == map[]
      && !s.ns.value.straddled;
    var s := Reached(cfg, acts);
    ClearAlone(cfg, s, 0);
    ClearMarks(cfg, s, 0);
    acts := Append(cfg, acts, Work(0, Answered));
    assert HomeWorker(Reached(cfg, acts), 1);
    assert !Has(Reached(cfg, acts).ns.value, cfg, 0);
  }

  lemma ClearMarks(cfg: Config, s: State, w: nat)
    requires WellFormed(cfg) && IsActive(s.ns)
    requires w < |s.workers| && s.workers[w].mode.Working? && s.workers[w].pc == |cfg.steps|
    requires s.workers[w].joined.Some? && s.workers[w].joined.value != s.ns.value.id
    ensures var s' := Next(cfg, s, Work(w, Answered));
      && s'.ns.Some? && s'.ns.value.straddled == s.ns.value.straddled && s'.ns.value.misannotated
      && |s'.workers| == |s.workers| && s'.workers[w].home == s.workers[w].home
  {
  }

  // ---- Errors that are not exact ----

  // A worker that fails and cannot record it leaves an empty namespace without any error.
  lemma UnrecordedFailureIsSilent(cfg: Config, gen: Generated) returns (acts: seq<Action>)
    requires WellFormed(cfg)
    ensures var s := Reached(cfg, acts);
      && IsActive(s.ns) && !s.ns.value.straddled
      && |s.workers| == 1 && s.workers[0].mode == Unrecorded
      && cfg.errorKey !in s.ns.value.annotations
      && s.ns.value.objects == map[]
  {
    acts := Append(cfg, [], Reserve("x", gen));
    acts := Append(cfg, acts, Work(0, Lost(false, "Timeout")));
    acts := Append(cfg, acts, Work(0, Lost(false, "Timeout")));
  }

  /** A worker whose first call fails, and that records it only after a retry has done everything, leaves an
      error on a complete environment: it is described as failed although nothing is missing. */
  lemma LateRecordIsStale(cfg: Config, gen: Generated, retried: Generated) returns (acts: seq<Action>)
    requires WellFormed(cfg) && cfg.clears && cfg.retryable
    ensures var s := Reached(cfg, acts);
      && IsActive(s.ns) && !s.ns.value.straddled && Quiescent(s)
      && Complete(s.ns.value, cfg)
      && EnvironmentVerdict(cfg.errorKey, s.ns.value, s.ns, s.ns) == Failed
      && !ErrorIsExact(cfg, s.ns.value)
  {
    acts := Append(cfg, [], Reserve("x", gen));
    acts := Append(cfg, acts, Work(0, Lost(false, "Timeout")));
    acts := Append(cfg, acts, Retry(ADMIN, retried));
    var s := Reached(cfg, acts);
    assert |s.workers| == 2 && s.workers[0].mode == Failing(0, "Timeout");
    assert s.workers[1] == NewWorker(retried, 0, ADMIN);
    SoloRun(cfg, s, 1);
    ExecComposes(cfg, INIT, acts, Solo(1, RunLength(cfg)));
    acts := acts + Solo(1, RunLength(cfg));
    var done := Reached(cfg, acts);
    RecordedText(cfg, done, 0, Answered);
    RecordingEnds(cfg, done, 0);
    ReachedInv(cfg, acts);
    acts := Append(cfg, acts, Work(0, Answered));
    FirstIncarnationIsPure(cfg, acts);
    CompleteIsNotExact(cfg, done.ns.value, Reached(cfg, acts).ns.value);
    HomesOfTwo(cfg, acts);
  }

  lemma RecordingEnds(cfg: Config, s: State, w: nat)
    requires w < |s.workers| && s.workers[w].mode.Failing? && s.workers[w].mode.at < |cfg.steps| && IsActive(s.ns)
    ensures var s' := Next(cfg, s, Work(w, Answered));
      && IsActive(s'.ns) && s'.ns.value.id == s.ns.value.id && s'.minted == s.minted
      && s'.workers == s.workers[w := s.workers[w].(mode := Recorded)]
  {
  }

  lemma HomesOfTwo(cfg: Config, acts: seq<Action>)
    requires WellFormed(cfg)
    requires var s := Reached(cfg, acts);
      && s.ns.Some? && s.minted == 1 && |s.workers| == 2
      && s.workers[0].mode in {Done, Recorded} && s.workers[1].mode in {Done, Recorded}
    ensures Quiescent(Reached(cfg, acts))
  {
    ReachedInv(cfg, acts);
    var s := Reached(cfg, acts);
    assert WorkerInv(cfg, s.workers[0], s.minted);
    assert HomeWorker(s, 0);
  }

  lemma CompleteIsNotExact(cfg: Config, before: Namespace, ns: Namespace)
    requires |cfg.steps| > 0 && Complete(before, cfg) && ns.objects == before.objects
    ensures Complete(ns, cfg) && !ErrorIsExact(cfg, ns)
  {
    forall i | 0 <= i < |cfg.steps| ensures Has(ns, cfg, i) {
      assert Has(before, cfg, i);
    }
    forall i: nat ensures !ErrorPointsAt(cfg, ns, i) {
      if i < |cfg.steps| { assert Has(ns, cfg, i); }
    }
  }

  /** An error that was exact when it was recorded goes stale when a retry creates everything and dies before it
      clears it. */
  lemma CrashBeforeClearIsStale(cfg: Config, gen: Generated, retried: Generated) returns (acts: seq<Action>)
    requires WellFormed(cfg) && cfg.clears && cfg.retryable
    ensures var s := Reached(cfg, acts);
      && IsActive(s.ns) && !s.ns.value.straddled && !s.ns.value.misannotated
      && (forall w :: 0 <= w < |s.workers| ==> !Live(s.workers[w]))
      && Complete(s.ns.value, cfg)
      && EnvironmentVerdict(cfg.errorKey, s.ns.value, s.ns, s.ns) == Failed
      && !ErrorIsExact(cfg, s.ns.value)
  {
    var n := |cfg.steps|;
    acts := Append(cfg, [], Reserve("x", gen));
    acts := Append(cfg, acts, Work(0, Lost(false, "Timeout")));
    acts := Append(cfg, acts, Work(0, Answered));
    acts := Append(cfg, acts, Retry(ADMIN, retried));
    var s := Reached(cfg, acts);
    assert |s.workers| == 2 && s.workers[0].mode == Recorded && s.workers[1] == NewWorker(retried, 0, ADMIN);
    assert ErrorTextOf(cfg, s.ns.value, 0, "Timeout");
    SoloProgress(cfg, s, 1, n);
    ExecComposes(cfg, INIT, acts, Solo(1, n));
    acts := acts + Solo(1, n);
    var created := Reached(cfg, acts);
    AllStepsAdded(cfg, 1, retried, s.ns.value, created.ns.value);
    ReachedInv(cfg, acts);
    CrashedClear(cfg, created, 1);
    acts := Append(cfg, acts, Work(1, Crash(false)));
    FirstIncarnationIsPure(cfg, acts);
    CompleteIsNotExact(cfg, created.ns.value, Reached(cfg, acts).ns.value);
  }

  lemma CrashedClear(cfg: Config, s: State, w: nat)
    requires w < |s.workers| && s.workers[w].mode.Working? && s.workers[w].pc == |cfg.steps| > 0
    ensures Next(cfg, s, Work(w, Crash(false))) ==
            s.(workers := s.workers[w := s.workers[w].(mode := Crashed)])
  {
  }

  /** When only the last call fails, the one that clears the error, the failure is recorded under the name of
      the last step, whose object exists. */
  lemma ClearFailureIsMisnamed(cfg: Config, gen: Generated) returns (acts: seq<Action>)
    requires WellFormed(cfg) && cfg.clears
    ensures var s := Reached(cfg, acts);
      && IsActive(s.ns) && !s.ns.value.straddled
      && Complete(s.ns.value, cfg)
      && cfg.errorKey in s.ns.value.annotations
      && s.ns.value.annotations[cfg.errorKey] == ErrorText(cfg.steps[|cfg.steps| - 1].name, "Timeout")
      && !ErrorIsExact(cfg, s.ns.value)
  {
    acts := FirstWorkerAlone(cfg, gen, |cfg.steps|);
    var created := Reached(cfg, acts);
    LostClear(cfg, created, 0);
    acts := Append(cfg, acts, Work(0, Lost(false, "Timeout")));
    var lost := Reached(cfg, acts);
    RecordedText(cfg, lost, 0, Answered);
    RecordingEnds(cfg, lost, 0);
    acts := Append(cfg, acts, Work(0, Answered));
    FirstIncarnationIsPure(cfg, acts);
    CompleteIsNotExact(cfg, created.ns.value, Reached(cfg, acts).ns.value);
  }

  lemma LostClear(cfg: Config, s: State, w: nat)
    requires w < |s.workers| && s.workers[w].mode.Working? && s.workers[w].pc == |cfg.steps| > 0
    ensures Next(cfg, s, Work(w, Lost(false, "Timeout"))) ==
            s.(workers := s.workers[w := s.workers[w].(mode := Failing(|cfg.steps| - 1, "Timeout"))])
  {
  }

  // ---- Deletion ----

  /** A delete request that was checked against one incarnation can delete the next one, which belongs to
      somebody else. */
  lemma FormerOwnerDeletes(cfg: Config, a: Generated, b: Generated, alice: string, bob: string)
    returns (acts: seq<Action>)
    requires WellFormed(cfg) && alice != bob
    ensures var s, user := Reached(cfg, acts), User(alice, false);
      && s.ns.Some? && s.ns.value.phase == Terminating && s.ns.value.id == 1
      && s.ns.value.deletedBy == Some(DeleteRequest(user, 0))
      && |Reservations(cfg, acts)| == 2 && Reservations(cfg, acts)[1] == bob
      && !Manages(user, Reservations(cfg, acts), 1)
      && !CanManage(cfg, user, s.ns.value)
  {
    var user := User(alice, false);
    acts := Append(cfg, [], Reserve(alice, a));
    acts := Append(cfg, acts, RequestDelete(user));
    acts := Append(cfg, acts, RequestDelete(user));
    assert Reached(cfg, acts).deletes == [DeleteRequest(user, 0), DeleteRequest(user, 0)];
    acts := Append(cfg, acts, ApplyDelete(0));
    assert Reached(cfg, acts).deletes == [DeleteRequest(user, 0)];
    acts := Append(cfg, acts, Finalise);
    acts := Append(cfg, acts, Reserve(bob, b));
    acts := Append(cfg, acts, ApplyDelete(0));
    OwnershipIsStable(cfg, acts);
  }

  // ---- Workers that start late ----

  // The worker of the first incarnation has not started when somebody else reserves the second one.
  lemma LateStart(cfg: Config, alice: string, a: Generated, bob: string, b: Generated) returns (acts: seq<Action>)
    requires WellFormed(cfg)
    ensures var s := Reached(cfg, acts);
      && s.ns == Some(Namespace(1, Active, map[cfg.ownerKey := bob], map[], None, 0, false, false, false))
      && s.workers == [NewWorker(a, 0, User(alice, false)), NewWorker(b, 1, User(bob, false))]
    ensures Reservations(cfg, acts) == [alice, bob]
  {
    acts := Append(cfg, [], Reserve(alice, a));
    acts := AppendOther(cfg, acts, RequestDelete(ADMIN));
    acts := AppendOther(cfg, acts, ApplyDelete(0));
    acts := AppendOther(cfg, acts, Finalise);
    acts := Append(cfg, acts, Reserve(bob, b));
  }

  lemma AppendOther(cfg: Config, acts: seq<Action>, a: Action) returns (longer: seq<Action>)
    requires !a.Reserve?
    ensures longer == acts + [a]
    ensures Reached(cfg, longer) == Next(cfg, Reached(cfg, acts), a)
    ensures Reservations(cfg, longer) == Reservations(cfg, acts)
  {
    longer := Append(cfg, acts, a);
    assert longer[..|longer| - 1] == acts;
  }

  // Its first create then stores its own body, and makes it stray without straddling.
  lemma LateCreate(cfg: Config, s: State)
    requires WellFormed(cfg) && IsActive(s.ns) && s.ns.value.id == 1 && s.ns.value.objects == map[]
    requires !s.ns.value.straddled && |s.workers| == 2
    requires s.workers[0] == NewWorker(s.workers[0].gen, 0, s.workers[0].starter)
    ensures var s', key := Next(cfg, s, Work(0, Answered)), cfg.steps[0].key;
      && IsActive(s'.ns) && s'.ns.value.id == 1 && s'.ns.value.strayed && !s'.ns.value.straddled
      && s'.ns.value.objects == map[key := Stored(BodyOf(s.workers[0].gen, key), 0, 0)]
      && s'.ns.value.annotations == s.ns.value.annotations
      && |s'.workers| == 2 && s'.workers[1] == s.workers[1]
      && s'.workers[0].starter == s.workers[0].starter
  {
  }

  /** The background task of one Kafka cluster makes its first create after the cluster was deleted and
      requested again. It does not straddle, and yet the stored password is not the one that the second
      request returned. */
  lemma StrayProvisionerStoresOldPassword(
    prefix: string, admin: string, replicas: nat, oldPassword: string, newPassword: string)
    returns (acts: seq<Action>)
    ensures var s := Reached(KafkaConfig(prefix), acts);
      && IsActive(s.ns) && s.ns.value.id == 1 && s.ns.value.strayed && !s.ns.value.straddled
      && |s.workers| == 2 && PasswordOf(s.workers[1].gen) == Some(newPassword)
      && StoredPassword(s.ns.value) == Some(oldPassword)
  {
    var cfg := KafkaConfig(prefix);
    KafkaWellFormed(prefix);
    var first, second := KafkaGenerated(admin, oldPassword, replicas), KafkaGenerated(admin, newPassword, replicas);
    acts := LateStart(cfg, "x", first, "x", second);
    LateCreate(cfg, Reached(cfg, acts));
    acts := Append(cfg, acts, Work(0, Answered));
    assert cfg.steps[0].key == KAFKA_SECRET;
  }

  // Likewise a worker of a former owner stores its objects in the namespace of the next one.
  lemma FormerOwnerProvisions(cfg: Config, a: Generated, b: Generated, alice: string, bob: string)
    returns (acts: seq<Action>)
    requires WellFormed(cfg) && alice != bob
    ensures var s, key := Reached(cfg, acts), cfg.steps[0].key;
      && IsActive(s.ns) && s.ns.value.id == 1
      && key in s.ns.value.objects && s.ns.value.objects[key].creator == 0
      && |s.workers| == 2 && s.workers[0].starter == User(alice, false)
      && Reservations(cfg, acts) == [alice, bob]
      && !Manages(s.workers[0].starter, Reservations(cfg, acts), 1)
      && !CanManage(cfg, s.workers[0].starter, s.ns.value)
  {
    acts := LateStart(cfg, alice, a, bob, b);
    LateCreate(cfg, Reached(cfg, acts));
    acts := AppendOther(cfg, acts, Work(0, Answered));
  }

  // ---- Settings ----

  /** Deploying a type without its setting succeeds in every respect that the API reports, and leaves a hub
      that cannot start. */
  lemma UnconfiguredTypeIsComplete(prefix: string, t: DeploymentType, tokens: Tokens) returns (acts: seq<Action>)
    requires t in {Ids, Climate, Dummy}
    ensures var cfg, s := EnvironmentConfig(prefix, t), Reached(EnvironmentConfig(prefix, t), acts);
      && IsActive(s.ns) && Complete(s.ns.value, cfg)
      && cfg.errorKey !in s.ns.value.annotations
      && HUB_SECRET in s.ns.value.objects
      && var body := s.ns.value.objects[HUB_SECRET].body;
      && body == SecretData(HubSecretData(t, tokens, HubSettings(map[], None)))
      && !(RequiredEntries(t) <= body.data.Keys)
  {
    var cfg := EnvironmentConfig(prefix, t);
    var gen := Generated(HubSecretData(t, tokens, HubSettings(map[], None)), 0);
    EnvironmentWellFormed(prefix, t);
    SecretIsFirst(prefix, t);
    acts := Append(cfg, [], Reserve("x", gen));
    var s := Reached(cfg, acts);
    SoloRun(cfg, s, 0);
    ExecComposes(cfg, INIT, acts, Solo(0, RunLength(cfg)));
    acts := acts + Solo(0, RunLength(cfg));
    assert Has(Reached(cfg, acts).ns.value, cfg, 0);
    assert HUB_SECRET in StepKeys(cfg);
    HubSecretIsUsable(t, tokens, HubSettings(map[], None));
  }

  /** From every such state, after whatever else has happened, a retry cannot repair it, however it is
      configured itself: undisturbed it completes the environment and removes the error, and the secret still
      lacks what the hub needs. */
  lemma RetryCannotRepairSecret(prefix: string, t: DeploymentType, acts: seq<Action>, user: User, gen: Generated)
    requires var cfg := EnvironmentConfig(prefix, t);
      var s := Reached(cfg, acts);
      && IsActive(s.ns) && CanManage(cfg, user, s.ns.value)
      && HUB_SECRET in s.ns.value.objects
      && s.ns.value.objects[HUB_SECRET].body.SecretData?
      && !(RequiredEntries(t) <= s.ns.value.objects[HUB_SECRET].body.data.Keys)
    ensures var cfg := EnvironmentConfig(prefix, t);
      var s := Reached(cfg, acts);
      var s' := Exec(cfg, Next(cfg, s, Retry(user, gen)), Solo(|s.workers|, RunLength(cfg)));
      && IsActive(s'.ns) && Complete(s'.ns.value, cfg)
      && cfg.errorKey !in s'.ns.value.annotations
      && HUB_SECRET in s'.ns.value.objects
      && s'.ns.value.objects[HUB_SECRET].body.SecretData?
      && !(RequiredEntries(t) <= s'.ns.value.objects[HUB_SECRET].body.data.Keys)
  {
    EnvironmentWellFormed(prefix, t);
    RetryRecovers(EnvironmentConfig(prefix, t), Reached(EnvironmentConfig(prefix, t), acts), user, gen);
  }

  // ---- Readiness ----

  // `Ready` is reported although the ingress, the last step, does not exist yet.
  lemma ReadyBeforeIngress(prefix: string, t: DeploymentType, gen: Generated) returns (acts: seq<Action>)
    ensures var cfg, s := EnvironmentConfig(prefix, t), Reached(EnvironmentConfig(prefix, t), acts);
      && IsActive(s.ns) && !s.ns.value.straddled
      && EnvironmentVerdict(cfg.errorKey, s.ns.value, s.ns, s.ns) == Ready
      && HUB_INGRESS !in s.ns.value.objects
  {
    var cfg := EnvironmentConfig(prefix, t);
    EnvironmentWellFormed(prefix, t);
    StepAt(t, 0);
    acts := FirstWorkerAlone(cfg, gen, |cfg.steps| - 1);
    var s2 := Reached(cfg, acts);
    HubIsBeforeLast(prefix, t, s2.ns.value);
    ReportsMakeReady(cfg, s2);
    acts := Append(cfg, acts, Report(HUB_DEPLOYMENT, 1));
    acts := Append(cfg, acts, Report(PROXY_DEPLOYMENT, 1));
    FirstIncarnationIsPure(cfg, acts);
  }

  lemma ReportsMakeReady(cfg: Config, s: State)
    requires IsActive(s.ns) && HUB_DEPLOYMENT in s.ns.value.objects && PROXY_DEPLOYMENT in s.ns.value.objects
    requires cfg.errorKey !in s.ns.value.annotations
    ensures var s' := Next(cfg, Next(cfg, s, Report(HUB_DEPLOYMENT, 1)), Report(PROXY_DEPLOYMENT, 1));
      && IsActive(s'.ns) && s'.minted == s.minted
      && s'.ns.value.straddled == s.ns.value.straddled
      && s'.ns.value.objects.Keys == s.ns.value.objects.Keys
      && EnvironmentVerdict(cfg.errorKey, s'.ns.value, s'.ns, s'.ns) == Ready
  {
  }

  lemma HubIsBeforeLast(prefix: string, t: DeploymentType, ns: Namespace)
    requires var cfg := EnvironmentConfig(prefix, t);
      && HasFirst(ns, cfg, |cfg.steps| - 1)
      && (forall key :: key in ns.objects ==>
            exists i :: 0 <= i < |cfg.steps| - 1 && cfg.steps[i].key == key)
    ensures HUB_DEPLOYMENT in ns.objects && PROXY_DEPLOYMENT in ns.objects && HUB_INGRESS !in ns.objects
  {
    var cfg := EnvironmentConfig(prefix, t);
    EnvironmentWellFormed(prefix, t);
    StepAt(t, Position(t, 9));
    StepAt(t, Position(t, 10));
    StepAt(t, Position(t, 11));
    assert Has(ns, cfg, Position(t, 9)) && Has(ns, cfg, Position(t, 10));
    assert cfg.steps[Position(t, 11)].key == HUB_INGRESS && Position(t, 11) == |cfg.steps| - 1;
  }
}
