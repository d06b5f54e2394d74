/** What provisioning achieves: interleaved workers refine "add what is missing", and a retry that meets
    no faults repairs whatever earlier failures left behind. */
module ProtocolProgress {
  import opened Kubernetes
  import opened Protocol
  import opened ProtocolInvariants

  // ---- Interleaved workers without faults ----

  ghost predicate FaultFree(acts: seq<Action>) {
    forall i :: 0 <= i < |acts| ==> acts[i].Work? && acts[i].outcome.Answered?
  }

  // The worker that `a` moves is about to make the create call of step `i`.
  predicate IsAt(cfg: Config, s: State, a: Action, i: nat) {
    a.Work? && a.worker < |s.workers| && s.workers[a.worker].mode.Working? && s.workers[a.worker].pc == i
  }

  // The worker that first makes the create call of step `i`.
  function FirstAt(cfg: Config, s: State, acts: seq<Action>, i: nat): Option<nat> {
    if acts == [] then None
    else
      var earlier := FirstAt(cfg, s, acts[..|acts| - 1], i);
      var mid, last := Exec(cfg, s, acts[..|acts| - 1]), acts[|acts| - 1];
      if earlier.Some? then earlier else if IsAt(cfg, mid, last, i) then Some(last.worker) else None
  }

  // The specification: keep what is there, and add the missing object of each step that was reached,
  // with the body of the worker that got there first.
  ghost predicate AddsMissing(cfg: Config, s: State, acts: seq<Action>, objects: map<Key, Stored>)
    requires s.ns.Some?
  {
    var initial := s.ns.value.objects;
    && (forall key :: key in initial ==> key in objects && objects[key] == initial[key])
    && (forall key :: key in objects ==> key in initial || key in StepKeys(cfg))
    && (forall i :: 0 <= i < |cfg.steps| && cfg.steps[i].key !in initial ==>
          var key, first := cfg.steps[i].key, FirstAt(cfg, s, acts, i);
          && (key in objects <==> first.Some?)
          && (first.Some? ==>
                && first.value < |s.workers|
                && objects[key] == Stored(BodyOf(s.workers[first.value].gen, key), 0, first.value)))
  }

  lemma {:induction false} InterleavingAddsMissing(cfg: Config, s: State, acts: seq<Action>)
    requires WellFormed(cfg) && Inv(cfg, s) && IsActive(s.ns) && FaultFree(acts)
    ensures var s' := Exec(cfg, s, acts);
      && IsActive(s'.ns) && s'.ns.value.id == s.ns.value.id
      && |s'.workers| == |s.workers|
      && AddsMissing(cfg, s, acts, s'.ns.value.objects)
  {
    if acts != [] {
      var before := acts[..|acts| - 1];
      var mid, a := Exec(cfg, s, before), acts[|acts| - 1];
      InterleavingAddsMissing(cfg, s, before);
      GrowsAlong(cfg, s, before);
      OneMoreStep(cfg, s, before, a);
      AnsweredCallStores(cfg, mid, a);
      assert before + [a] == acts;
    }
  }

  lemma AnsweredCallStores(cfg: Config, s: State, a: Action)
    requires WellFormed(cfg) && IsActive(s.ns) && a.Work? && a.outcome.Answered?
    ensures var s' := Next(cfg, s, a);
      && IsActive(s'.ns) && s'.ns.value.id == s.ns.value.id
      && |s'.workers| == |s.workers|
      && if exists i: nat :: IsAt(cfg, s, a, i) && i < |cfg.steps| then
           var k := s.workers[a.worker];
           var key := cfg.steps[k.pc].key;
           s'.ns.value.objects ==
           if key in s.ns.value.objects then s.ns.value.objects
           else s.ns.value.objects[key := Stored(BodyOf(k.gen, key), 0, a.worker)]
         else s'.ns.value.objects == s.ns.value.objects
  {
    if a.worker < |s.workers| && s.workers[a.worker].mode.Working? && s.workers[a.worker].pc < |cfg.steps| {
      assert IsAt(cfg, s, a, s.workers[a.worker].pc);
    }
  }

  lemma FirstAtExtends(cfg: Config, s: State, before: seq<Action>, a: Action, i: nat)
    ensures FirstAt(cfg, s, before + [a], i) ==
            if FirstAt(cfg, s, before, i).Some? then FirstAt(cfg, s, before, i)
            else if IsAt(cfg, Exec(cfg, s, before), a, i) then Some(a.worker) else None
  {
    var acts := before + [a];
    assert acts[..|acts| - 1] == before;
  }

  lemma OneMoreStep(cfg: Config, s: State, before: seq<Action>, a: Action)
    requires WellFormed(cfg) && IsActive(s.ns) && a.Work? && a.outcome.Answered?
    requires var mid := Exec(cfg, s, before);
      && IsActive(mid.ns)
      && |mid.workers| == |s.workers| && SameWorkersButProgress(s, mid)
      && AddsMissing(cfg, s, before, mid.ns.value.objects)
    ensures var s' := Next(cfg, Exec(cfg, s, before), a);
      s'.ns.Some? && AddsMissing(cfg, s, before + [a], s'.ns.value.objects)
  {
    var mid := Exec(cfg, s, before);
    AnsweredCallStores(cfg, mid, a);
    var initial, objects, objects' := s.ns.value.objects, mid.ns.value.objects, Next(cfg, mid, a).ns.value.objects;
    forall i | 0 <= i < |cfg.steps| && cfg.steps[i].key !in initial
      ensures
        var key, first := cfg.steps[i].key, FirstAt(cfg, s, before + [a], i);
        && (key in objects' <==> first.Some?)
        && (first.Some? ==>
              && first.value < |s.workers|
              && objects'[key] == Stored(BodyOf(s.workers[first.value].gen, key), 0, first.value))
    {
      FirstAtExtends(cfg, s, before, a, i);
      if j: nat :| IsAt(cfg, mid, a, j) && j < |cfg.steps| {
        assert j == i || cfg.steps[j].key != cfg.steps[i].key;
      }
    }
  }

  // ---- A worker on its own ----

  function Solo(w: nat, n: nat): seq<Action> {
    seq(n, i => Work(w, Answered))
  }

  // One undisturbed create call.
  lemma SoloCall(cfg: Config, s: State, w: nat)
    requires WellFormed(cfg) && IsActive(s.ns)
    requires w < |s.workers| && s.workers[w].mode.Working? && s.workers[w].pc < |cfg.steps|
    ensures var s', k := Next(cfg, s, Work(w, Answered)), s.workers[w];
      var key := cfg.steps[k.pc].key;
      && IsActive(s'.ns) && s'.ns.value.id == s.ns.value.id
      && |s'.workers| == |s.workers|
      && (forall v :: 0 <= v < |s.workers| && v != w ==> s'.workers[v] == s.workers[v])
      && s'.workers[w].pc == k.pc + 1 && s'.workers[w].gen == k.gen && s'.workers[w].home == k.home
      && s'.workers[w].mode == Advanced(cfg, k).mode
      && s'.ns.value.annotations == s.ns.value.annotations
      && s'.ns.value.objects ==
         if key in s.ns.value.objects then s.ns.value.objects
         else s.ns.value.objects[key := Stored(BodyOf(k.gen, key), 0, w)]
  {
  }

  // The objects of the steps from `p` to `q` have been added as `w` generates them, and nothing else changed.
  ghost predicate AddedSteps(cfg: Config, w: nat, gen: Generated, before: Namespace, after: Namespace, p: nat, q: nat) {
    && after.id == before.id
    && after.annotations == before.annotations
    && (forall i :: p <= i < q && i < |cfg.steps| ==> Has(after, cfg, i))
    && (forall key :: key in before.objects ==> key in after.objects && after.objects[key] == before.objects[key])
    && (forall key :: key in after.objects && key !in before.objects ==>
          && after.objects[key] == Stored(BodyOf(gen, key), 0, w)
          && exists i :: p <= i < q && i < |cfg.steps| && cfg.steps[i].key == key)
  }

  // Worker `w` has moved from step `p` to step `p + j`, and has added what was missing there.
  ghost predicate SoloMoved(cfg: Config, s: State, s': State, w: nat, j: nat)
    requires s.ns.Some? && w < |s.workers|
  {
    var p := s.workers[w].pc;
    && IsActive(s'.ns)
    && |s'.workers| == |s.workers|
    && (forall v :: 0 <= v < |s.workers| && v != w ==> s'.workers[v] == s.workers[v])
    && s'.workers[w].pc == p + j && s'.workers[w].gen == s.workers[w].gen && s'.workers[w].home == s.workers[w].home
    && s'.workers[w].mode == (if j > 0 && p + j == |cfg.steps| && !cfg.clears then Done else Working)
    && AddedSteps(cfg, w, s.workers[w].gen, s.ns.value, s'.ns.value, p, p + j)
  }

  lemma SoloMovesOn(cfg: Config, s: State, mid: State, w: nat, j: nat)
    requires WellFormed(cfg) && IsActive(s.ns)
    requires w < |s.workers| && s.workers[w].pc + j < |cfg.steps|
    requires SoloMoved(cfg, s, mid, w, j)
    ensures SoloMoved(cfg, s, Next(cfg, mid, Work(w, Answered)), w, j + 1)
  {
    SoloCall(cfg, mid, w);
    var k, s' := s.workers[w], Next(cfg, mid, Work(w, Answered));
    AddedOneMore(cfg, w, k.gen, s.ns.value, mid.ns.value, s'.ns.value, k.pc, k.pc + j);
  }

  // `j` undisturbed create calls.
  lemma {:induction false} SoloProgress(cfg: Config, s: State, w: nat, j: nat)
    requires WellFormed(cfg) && IsActive(s.ns)
    requires w < |s.workers| && s.workers[w].mode.Working? && s.workers[w].pc + j <= |cfg.steps|
    ensures SoloMoved(cfg, s, Exec(cfg, s, Solo(w, j)), w, j)
  {
    if j > 0 {
      SoloProgress(cfg, s, w, j - 1);
      var acts := Solo(w, j);
      assert acts[..|acts| - 1] == Solo(w, j - 1);
      SoloMovesOn(cfg, s, Exec(cfg, s, Solo(w, j - 1)), w, j - 1);
    }
  }

  lemma AddedOneMore(
    cfg: Config, w: nat, gen: Generated, before: Namespace, mid: Namespace, after: Namespace, p: nat, q: nat)
    requires q < |cfg.steps| && p <= q && AddedSteps(cfg, w, gen, before, mid, p, q)
    requires after.id == mid.id && after.annotations == mid.annotations
    requires var key := cfg.steps[q].key;
      after.objects == if key in mid.objects then mid.objects else mid.objects[key := Stored(BodyOf(gen, key), 0, w)]
    ensures AddedSteps(cfg, w, gen, before, after, p, q + 1)
  {
    forall i | p <= i < q + 1 ensures Has(after, cfg, i) {
      if i < q { assert Has(mid, cfg, i); }
    }
    forall key | key in after.objects && key !in before.objects
      ensures after.objects[key] == Stored(BodyOf(gen, key), 0, w)
      ensures exists i :: p <= i < q + 1 && i < |cfg.steps| && cfg.steps[i].key == key
    {
      if key in mid.objects {
        var i :| p <= i < q && i < |cfg.steps| && cfg.steps[i].key == key;
        assert p <= i < q + 1;
      } else {
        assert cfg.steps[q].key == key;
      }
    }
  }

  lemma ClearAlone(cfg: Config, s: State, w: nat)
    requires WellFormed(cfg) && IsActive(s.ns)
    requires w < |s.workers| && s.workers[w].mode.Working? && s.workers[w].pc == |cfg.steps|
    ensures var s' := Next(cfg, s, Work(w, Answered));
      && |s'.workers| == |s.workers|
      && IsActive(s'.ns) && s'.ns.value.id == s.ns.value.id
      && s'.ns.value.objects == s.ns.value.objects
      && s'.ns.value.annotations == s.ns.value.annotations - {cfg.errorKey}
      && s'.workers == s.workers[w := s'.workers[w]] && s'.workers[w].mode == Done
  {
    assert Next(cfg, s, Work(w, Answered)) == ClearCall(cfg, s, w, Answered);
  }

  // The calls of a worker that meets no fault: its steps, and the clearing where there is one.
  function RunLength(cfg: Config): nat {
    |cfg.steps| + if cfg.clears then 1 else 0
  }

  // What a successful run leaves: the missing objects added as `w` generated them, nothing replaced, and
  // no error where a run clears it.
  ghost predicate Provisioned(cfg: Config, s: State, s': State, w: nat)
    requires s.ns.Some? && w < |s.workers|
  {
    && IsActive(s'.ns) && s'.ns.value.id == s.ns.value.id
    && Complete(s'.ns.value, cfg)
    && s'.ns.value.objects.Keys == s.ns.value.objects.Keys + StepKeys(cfg)
    && (forall key :: key in s.ns.value.objects ==> s'.ns.value.objects[key] == s.ns.value.objects[key])
    && (forall key :: key in StepKeys(cfg) - s.ns.value.objects.Keys ==>
          s'.ns.value.objects[key] == Stored(BodyOf(s.workers[w].gen, key), 0, w))
    && s'.ns.value.annotations == s.ns.value.annotations - (if cfg.clears then {cfg.errorKey} else {})
  }

  // The whole run of a new worker that meets neither faults nor interference.
  lemma SoloRun(cfg: Config, s: State, w: nat)
    requires WellFormed(cfg) && IsActive(s.ns)
    requires w < |s.workers| && s.workers[w].mode.Working? && s.workers[w].pc == 0
    ensures var s' := Exec(cfg, s, Solo(w, RunLength(cfg)));
      && Provisioned(cfg, s, s', w)
      && |s'.workers| == |s.workers| && s'.workers[w].mode == Done
      && (forall v :: 0 <= v < |s.workers| && v != w ==> s'.workers[v] == s.workers[v])
  {
    var n := |cfg.steps|;
    SoloProgress(cfg, s, w, n);
    var mid := Exec(cfg, s, Solo(w, n));
    AllStepsAdded(cfg, w, s.workers[w].gen, s.ns.value, mid.ns.value);
    if cfg.clears {
      var acts := Solo(w, n + 1);
      assert acts[..|acts| - 1] == Solo(w, n);
      ClearEndsRun(cfg, s, mid, w);
    }
  }

  lemma ClearEndsRun(cfg: Config, s: State, mid: State, w: nat)
    requires WellFormed(cfg) && cfg.clears && IsActive(s.ns) && w < |s.workers| && s.workers[w].pc == 0
    requires SoloMoved(cfg, s, mid, w, |cfg.steps|)
    ensures var s' := Next(cfg, mid, Work(w, Answered));
      && Provisioned(cfg, s, s', w)
      && |s'.workers| == |s.workers| && s'.workers[w].mode == Done
      && (forall v :: 0 <= v < |s.workers| && v != w ==> s'.workers[v] == s.workers[v])
  {
    ClearAlone(cfg, mid, w);
    AllStepsAdded(cfg, w, s.workers[w].gen, s.ns.value, mid.ns.value);
    var ns' := Next(cfg, mid, Work(w, Answered)).ns.value;
    forall i | 0 <= i < |cfg.steps| ensures Has(ns', cfg, i) {
      assert Has(mid.ns.value, cfg, i);
    }
  }

  lemma AllStepsAdded(cfg: Config, w: nat, gen: Generated, before: Namespace, after: Namespace)
    requires AddedSteps(cfg, w, gen, before, after, 0, |cfg.steps|)
    ensures Complete(after, cfg)
    ensures after.objects.Keys == before.objects.Keys + StepKeys(cfg)
  {
    forall key | key in StepKeys(cfg) ensures key in after.objects {
      var i :| 0 <= i < |cfg.steps| && cfg.steps[i].key == key;
      assert Has(after, cfg, i);
    }
  }

  /** Recovery: from any active state, one retry worker that meets neither faults nor interference ends
      after `|steps| + 1` calls with every object present, nothing that existed replaced, and no error left. */
  lemma RetryRecovers(cfg: Config, s: State, user: User, gen: Generated)
    requires WellFormed(cfg) && cfg.clears && cfg.retryable
    requires IsActive(s.ns) && CanManage(cfg, user, s.ns.value)
    ensures var w := |s.workers|;
      var s' := Exec(cfg, Next(cfg, s, Retry(user, gen)), Solo(w, RunLength(cfg)));
      && IsActive(s'.ns) && s'.ns.value.id == s.ns.value.id
      && w < |s'.workers| && s'.workers[w].mode == Done
      && Complete(s'.ns.value, cfg)
      && s'.ns.value.objects.Keys == s.ns.value.objects.Keys + StepKeys(cfg)
      && (forall key :: key in s.ns.value.objects ==> s'.ns.value.objects[key] == s.ns.value.objects[key])
      && (forall key :: key in StepKeys(cfg) - s.ns.value.objects.Keys ==>
            s'.ns.value.objects[key] == Stored(BodyOf(gen, key), 0, w))
      && s'.ns.value.annotations == s.ns.value.annotations - {cfg.errorKey}
  {
    SoloRun(cfg, Next(cfg, s, Retry(user, gen)), |s.workers|);
  }

  /** Once a worker that joined this incarnation is done, a fault-free interleaving has stored the same keys
      as one retry running alone from the same start. */
  lemma InterleavingMatchesSoloRun(cfg: Config, s: State, acts: seq<Action>, w: nat, user: User, gen: Generated)
    requires WellFormed(cfg) && cfg.clears && cfg.retryable
    requires Inv(cfg, s) && IsActive(s.ns) && FaultFree(acts) && CanManage(cfg, user, s.ns.value)
    requires var s' := Exec(cfg, s, acts);
      w < |s'.workers| && s'.workers[w].mode.Done? && s'.workers[w].joined == Some(s.ns.value.id)
    ensures var solo := Exec(cfg, Next(cfg, s, Retry(user, gen)), Solo(|s.workers|, RunLength(cfg)));
      && Exec(cfg, s, acts).ns.Some? && solo.ns.Some?
      && Exec(cfg, s, acts).ns.value.objects.Keys == solo.ns.value.objects.Keys
  {
    var s' := Exec(cfg, s, acts);
    InterleavingAddsMissing(cfg, s, acts);
    InvAlong(cfg, s, acts);
    RetryRecovers(cfg, s, user, gen);
    assert HasFirst(s'.ns.value, cfg, |cfg.steps|);
    forall key | key in s.ns.value.objects.Keys + StepKeys(cfg) ensures key in s'.ns.value.objects {
      if key in StepKeys(cfg) {
        var i :| 0 <= i < |cfg.steps| && cfg.steps[i].key == key;
        assert Has(s'.ns.value, cfg, i);
      }
    }
  }
}
