/** What every action of the provisioning protocol keeps, with any number of workers that interleave,
    fail, lose answers and crash. */
module ProtocolInvariants {
  import opened Kubernetes
  import opened Protocol

  // ---- The invariant, clause by clause ----

  ghost predicate WorkerInv(cfg: Config, k: Worker, minted: nat) {
    && k.home < minted
    && (k.joined.Some? ==> k.joined.value < minted)
    && (k.pc > 0 ==> k.joined.Some?)
    && k.pc <= |cfg.steps|
    && (k.mode.Failing? ==>
          k.mode.at < |cfg.steps| && k.mode.at <= k.pc)
    && (k.mode.Working? && !cfg.clears ==> k.pc < |cfg.steps|)
    && (k.mode.Done? ==> k.pc == |cfg.steps|)
    && (forall id :: id in k.won ==> id < minted)
  }

  ghost predicate IdsInv(cfg: Config, s: State) {
    && (s.ns.Some? ==> s.ns.value.id + 1 == s.minted)
    && (forall w :: 0 <= w < |s.workers| ==> WorkerInv(cfg, s.workers[w], s.minted))
  }

  // Without any assumption: every object before a worker's position exists in the incarnation it joined.
  ghost predicate PositionInv(cfg: Config, s: State) {
    IsActive(s.ns) ==>
      forall w :: 0 <= w < |s.workers| && s.workers[w].joined == Some(s.ns.value.id) ==>
        HasFirst(s.ns.value, cfg, s.workers[w].pc)
  }

  ghost predicate PrefixInv(cfg: Config, s: State) {
    IsActive(s.ns) && !s.ns.value.straddled ==> PrefixClosed(s.ns.value, cfg)
  }

  // Every stored object is the step's body as one worker generated it.
  ghost predicate OriginInv(cfg: Config, s: State) {
    s.ns.Some? ==>
      && s.ns.value.objects.Keys <= StepKeys(cfg)
      && forall key :: key in s.ns.value.objects ==>
           var o := s.ns.value.objects[key];
           && o.creator < |s.workers|
           && o.body == BodyOf(s.workers[o.creator].gen, key)
           && (s.ns.value.strayed || s.workers[o.creator].home == s.ns.value.id)
  }

  ghost predicate ErrorNames(cfg: Config, ns: Namespace, i: nat, reason: string) {
    && i < |cfg.steps|
    && cfg.errorKey in ns.annotations
    && ns.annotations[cfg.errorKey] == ErrorText(cfg.steps[i].name, reason)
    && HasFirst(ns, cfg, i)
  }

  // A recorded error names a step before which nothing is missing; and while none is recorded,
  // a worker of this incarnation that did record one has been followed by a complete run.
  ghost predicate ErrorInv(cfg: Config, s: State)
  {
    IsActive(s.ns) && !s.ns.value.misannotated ==>
      var ns := s.ns.value;
      && (cfg.errorKey in ns.annotations ==> exists i: nat, reason :: ErrorNames(cfg, ns, i, reason))
      && (cfg.errorKey !in ns.annotations
          && (exists w :: 0 <= w < |s.workers| && s.workers[w].home == ns.id && s.workers[w].mode.Recorded?)
          ==> Complete(ns, cfg))
  }

  ghost predicate Inv(cfg: Config, s: State) {
    IdsInv(cfg, s) && PositionInv(cfg, s) && PrefixInv(cfg, s) && OriginInv(cfg, s) && ErrorInv(cfg, s)
  }

  // ---- How one action changes the state ----

  // `ns'` is a later state of the same incarnation: what is stored stays, and stays the same.
  ghost predicate Grown(ns: Namespace, ns': Namespace) {
    && ns.id == ns'.id
    && ns.phase == Active
    && (forall key :: key in ns.objects ==>
          && key in ns'.objects
          && ns'.objects[key].body == ns.objects[key].body
          && ns'.objects[key].creator == ns.objects[key].creator)
    && (ns.straddled ==> ns'.straddled)
    && (ns.misannotated ==> ns'.misannotated)
    && (ns.strayed ==> ns'.strayed)
  }

  ghost predicate OnlyWorker(s: State, s': State, w: nat) {
    && w < |s.workers| == |s'.workers|
    && s'.minted == s.minted
    && s'.deletes == s.deletes
    && s'.workers == s.workers[w := s'.workers[w]]
    && s'.workers[w].gen == s.workers[w].gen
    && s'.workers[w].home == s.workers[w].home
    && s'.workers[w].starter == s.workers[w].starter
  }

  // A create call stores the object of its step or changes nothing, and moves on only if it is there.
  ghost predicate CreateEffect(cfg: Config, s: State, s': State, w: nat)
    requires w < |s.workers| && s.workers[w].pc < |cfg.steps|
  {
    && OnlyWorker(s, s', w)
    && var k, k' := s.workers[w], s'.workers[w];
    var key := cfg.steps[k.pc].key;
    && k'.joined == JoinedAt(k, s.ns)
    && (s'.ns == s.ns
        || (&& IsActive(s.ns) && IsActive(s'.ns)
            && var n, n' := s.ns.value, s'.ns.value;
            && key !in n.objects
            && n' == MarkedByCreate(n, Caller(w, k.home, k'.joined)).(
               objects := n.objects[key := Stored(BodyOf(k.gen, key), 0, w)],
               unacknowledged := n'.unacknowledged)))
    && (if k'.pc == k.pc
        then (k'.mode.Crashed? || (k'.mode.Failing? && k'.mode.at == k.pc))
        else
          && IsActive(s'.ns)
          && key in s'.ns.value.objects
          && k'.pc == k.pc + 1
          && k'.mode == Advanced(cfg, k).mode)
    && (k'.won == k.won || (s.ns.Some? && k'.won == k.won + multiset{s.ns.value.id}))
  }

  lemma CreateHasEffect(cfg: Config, s: State, w: nat, outcome: Outcome)
    requires w < |s.workers| && s.workers[w].pc < |cfg.steps|
    ensures CreateEffect(cfg, s, CreateCall(cfg, s, w, outcome), w)
  {
  }

  // An annotation call of `w` patches the annotations or leaves the namespace as it is.
  ghost predicate AnnotateEffect(s: State, s': State, w: nat, patch: map<string, Option<string>>) {
    && OnlyWorker(s, s', w)
    && (s'.ns == s.ns
        || (s.ns.Some? &&
            s'.ns == Some(MarkedByPatch(s.ns.value, CallerOf(w, s.workers[w])).(
                          annotations := MergePatch(s.ns.value.annotations, patch)))))
    && s'.workers[w] == s.workers[w].(mode := s'.workers[w].mode)
  }

  lemma ClearHasEffect(cfg: Config, s: State, w: nat, outcome: Outcome)
    requires w < |s.workers| && |cfg.steps| > 0
    ensures var s' := ClearCall(cfg, s, w, outcome);
      && AnnotateEffect(s, s', w, map[cfg.errorKey := None])
      && (s'.workers[w].mode in {Done, Crashed}
          || (s'.workers[w].mode.Failing? && s'.workers[w].mode.at == |cfg.steps| - 1))
  {
  }

  lemma RecordHasEffect(cfg: Config, s: State, w: nat, outcome: Outcome)
    requires w < |s.workers| && s.workers[w].mode.Failing? && s.workers[w].mode.at < |cfg.steps|
    ensures
      var s' := RecordCall(cfg, s, w, outcome);
      var k := s.workers[w];
      var text := ErrorText(cfg.steps[k.mode.at].name, k.mode.reason);
      && AnnotateEffect(s, s', w, map[cfg.errorKey := Some(text)])
      && s'.workers[w].mode in {Recorded, Unrecorded, Crashed}
      && (s'.workers[w].mode.Recorded? && s.ns.Some? ==>
            s'.ns.value.annotations == s.ns.value.annotations[cfg.errorKey := text])
  {
  }

  // The other actions, seen from the workers and the stored objects.
  ghost predicate RequestEffect(cfg: Config, s: State, s': State) {
    && s.minted <= s'.minted
    && (s'.workers == s.workers
        || (s'.ns.Some? && exists gen, user :: s'.workers == s.workers + [NewWorker(gen, s'.ns.value.id, user)]))
    && match (s.ns, s'.ns)
       case (None, None) => s'.minted == s.minted
       case (Some(_), None) => s'.minted == s.minted
       case (None, Some(n')) =>
         && n'.id == s.minted
         && s'.minted == s.minted + 1
         && n'.objects == map[]
         && n'.unacknowledged == 0
         && n'.annotations.Keys == {cfg.ownerKey}
       case (Some(n), Some(n')) =>
         && s'.minted == s.minted
         && n' == n.(phase := n'.phase, objects := n'.objects, deletedBy := n'.deletedBy)
         && n'.objects.Keys <= n.objects.Keys
         && (forall key :: key in n'.objects ==>
               n'.objects[key] == n.objects[key].(ready := n'.objects[key].ready))
         && (n'.phase == Active ==> n.phase == Active && n'.objects.Keys == n.objects.Keys)
  }

  lemma RequestHasEffect(cfg: Config, s: State, a: Action)
    requires !a.Work?
    ensures RequestEffect(cfg, s, Next(cfg, s, a))
  {
    match a
    case Reserve(subject, gen) =>
      if s.ns.None? {
        assert Next(cfg, s, a).workers == s.workers + [NewWorker(gen, s.minted, User(subject, false))];
      }
    case Retry(user, gen) =>
      if s.ns.Some? {
        var s' := Next(cfg, s, a);
        assert s' == s || s'.workers == s.workers + [NewWorker(gen, s.ns.value.id, user)];
      }
    case _ =>
  }

  ghost predicate SameWorkersButProgress(s: State, s': State) {
    && |s.workers| <= |s'.workers|
    && (forall w :: 0 <= w < |s.workers| ==>
          && s'.workers[w].gen == s.workers[w].gen
          && s'.workers[w].home == s.workers[w].home)
  }

  ghost predicate WorkEffect(cfg: Config, s: State, s': State, w: nat)
    requires w < |s.workers|
  {
    var k := s.workers[w];
    if k.mode.Working? && k.pc < |cfg.steps| then CreateEffect(cfg, s, s', w)
    else if k.mode.Working? && |cfg.steps| > 0 then
      && AnnotateEffect(s, s', w, map[cfg.errorKey := None])
      && var k' := s'.workers[w];
      && (k'.mode in {Done, Crashed} || (k'.mode.Failing? && k'.mode.at == |cfg.steps| - 1))
    else if k.mode.Failing? && k.mode.at < |cfg.steps| then
      var text := ErrorText(cfg.steps[k.mode.at].name, k.mode.reason);
      && AnnotateEffect(s, s', w, map[cfg.errorKey := Some(text)])
      && var k' := s'.workers[w];
      && k'.mode in {Recorded, Unrecorded, Crashed}
      && (k'.mode.Recorded? && s.ns.Some? ==>
            s'.ns.value.annotations == s.ns.value.annotations[cfg.errorKey := text])
    else s' == s
  }

  // One action, without the details that no invariant needs.
  ghost predicate Moves(cfg: Config, s: State, s': State, a: Action) {
    if a.Work? then if a.worker < |s.workers| then WorkEffect(cfg, s, s', a.worker) else s' == s
    else RequestEffect(cfg, s, s')
  }

  lemma NextMoves(cfg: Config, s: State, a: Action)
    ensures Moves(cfg, s, Next(cfg, s, a), a)
  {
    if !a.Work? {
      RequestHasEffect(cfg, s, a);
    } else if a.worker < |s.workers| {
      var k := s.workers[a.worker];
      if k.mode.Working? && k.pc < |cfg.steps| {
        CreateHasEffect(cfg, s, a.worker, a.outcome);
      } else if k.mode.Working? && |cfg.steps| > 0 {
        ClearHasEffect(cfg, s, a.worker, a.outcome);
      } else if k.mode.Failing? && k.mode.at < |cfg.steps| {
        RecordHasEffect(cfg, s, a.worker, a.outcome);
      }
    }
  }

  // ---- The invariant is kept ----

  // An incarnation that is still active has only gained objects; a new one starts from nothing.
  lemma ActiveOnlyGrows(cfg: Config, s: State, s': State, a: Action)
    requires Moves(cfg, s, s', a)
    ensures SameWorkersButProgress(s, s')
    ensures s.minted <= s'.minted
    ensures s'.ns.Some? && s.ns.Some? ==> s'.ns.value.id == s.ns.value.id
    ensures IsActive(s'.ns) ==>
              if s.ns.Some? then Grown(s.ns.value, s'.ns.value)
              else s'.ns.value.id == s.minted && s'.minted == s.minted + 1
  {
  }

  lemma IdsKept(cfg: Config, s: State, s': State, a: Action)
    requires WellFormed(cfg) && Moves(cfg, s, s', a)
    requires IdsInv(cfg, s)
    ensures IdsInv(cfg, s')
  {
  }

  lemma PositionKept(cfg: Config, s: State, s': State, a: Action)
    requires WellFormed(cfg) && Moves(cfg, s, s', a)
    requires IdsInv(cfg, s) && PositionInv(cfg, s)
    ensures PositionInv(cfg, s')
  {
    ActiveOnlyGrows(cfg, s, s', a);
    if IsActive(s'.ns) && s.ns.Some? {
      var ns, ns' := s.ns.value, s'.ns.value;
      forall w | 0 <= w < |s'.workers| && s'.workers[w].joined == Some(ns'.id)
        ensures HasFirst(ns', cfg, s'.workers[w].pc)
      {
        if w < |s.workers| && s.workers[w].joined == Some(ns.id) {
          assert HasFirst(ns, cfg, s.workers[w].pc);
          assert forall i :: 0 <= i < |cfg.steps| && Has(ns, cfg, i) ==> Has(ns', cfg, i);
        }
      }
    }
  }

  lemma PrefixKept(cfg: Config, s: State, s': State, a: Action)
    requires WellFormed(cfg) && Moves(cfg, s, s', a)
    requires IdsInv(cfg, s) && PositionInv(cfg, s) && PrefixInv(cfg, s)
    ensures PrefixInv(cfg, s')
  {
    ActiveOnlyGrows(cfg, s, s', a);
    if IsActive(s'.ns) && !s'.ns.value.straddled && s.ns.Some? {
      var ns, ns' := s.ns.value, s'.ns.value;
      assert forall i :: 0 <= i < |cfg.steps| && Has(ns, cfg, i) ==> Has(ns', cfg, i);
      forall i | 0 <= i < |cfg.steps| && Has(ns', cfg, i)
        ensures HasFirst(ns', cfg, i)
      {
        if Has(ns, cfg, i) {
          assert HasFirst(ns, cfg, i);
        } else {
          // Only the create of step `i` itself can have stored it.
          assert a.Work? && s.workers[a.worker].pc == i;
          assert i == 0 || HasFirst(ns, cfg, i);
        }
      }
    }
  }

  lemma OriginKept(cfg: Config, s: State, s': State, a: Action)
    requires WellFormed(cfg) && Moves(cfg, s, s', a)
    requires IdsInv(cfg, s) && OriginInv(cfg, s)
    ensures OriginInv(cfg, s')
  {
    ActiveOnlyGrows(cfg, s, s', a);
    if a.Work? && a.worker < |s.workers| {
      var k := s.workers[a.worker];
      if k.mode.Working? && k.pc < |cfg.steps| {
        OriginKeptByCreate(cfg, s, s', a.worker);
      }
    }
  }

  lemma OriginKeptByCreate(cfg: Config, s: State, s': State, w: nat)
    requires w < |s.workers| && s.workers[w].pc < |cfg.steps| && CreateEffect(cfg, s, s', w)
    requires OriginInv(cfg, s)
    ensures OriginInv(cfg, s')
  {
  }

  lemma ErrorKept(cfg: Config, s: State, s': State, a: Action)
    requires WellFormed(cfg) && Moves(cfg, s, s', a)
    requires IdsInv(cfg, s) && PositionInv(cfg, s) && ErrorInv(cfg, s)
    ensures ErrorInv(cfg, s')
  {
    ActiveOnlyGrows(cfg, s, s', a);
    if IsActive(s'.ns) && !s'.ns.value.misannotated && s.ns.Some? {
      var ns, ns' := s.ns.value, s'.ns.value;
      assert forall i :: 0 <= i < |cfg.steps| && Has(ns, cfg, i) ==> Has(ns', cfg, i);
      if ns'.annotations == ns.annotations {
        QuietErrorKept(cfg, s, s', a);
      } else {
        AnnotatedErrorKept(cfg, s, s', a);
      }
    }
  }

  lemma QuietErrorKept(cfg: Config, s: State, s': State, a: Action)
    requires WellFormed(cfg) && Moves(cfg, s, s', a) && ErrorInv(cfg, s)
    requires IsActive(s'.ns) && !s'.ns.value.misannotated && s.ns.Some?
    requires Grown(s.ns.value, s'.ns.value)
    requires s'.ns.value.annotations == s.ns.value.annotations
    requires SameWorkersButProgress(s, s')
    ensures ErrorInv(cfg, s')
  {
    var ns, ns' := s.ns.value, s'.ns.value;
    assert forall i :: 0 <= i < |cfg.steps| && Has(ns, cfg, i) ==> Has(ns', cfg, i);
    if i: nat, reason :| ErrorNames(cfg, ns, i, reason) {
      assert ErrorNames(cfg, ns', i, reason);
    }
    if w :| 0 <= w < |s'.workers| && s'.workers[w].home == ns.id && s'.workers[w].mode.Recorded?
            && cfg.errorKey !in ns'.annotations {
      assert w < |s.workers| && s.workers[w].mode.Recorded?;
      assert Complete(ns, cfg);
    }
  }

  lemma AnnotatedErrorKept(cfg: Config, s: State, s': State, a: Action)
    requires WellFormed(cfg) && Moves(cfg, s, s', a)
    requires IdsInv(cfg, s) && PositionInv(cfg, s)
    requires IsActive(s.ns) && IsActive(s'.ns) && !s'.ns.value.misannotated
    requires s'.ns.value.annotations != s.ns.value.annotations
    ensures ErrorInv(cfg, s')
  {
    var k := s.workers[a.worker];
    var ns, ns' := s.ns.value, s'.ns.value;
    assert forall i :: 0 <= i < |cfg.steps| ==> (Has(ns, cfg, i) <==> Has(ns', cfg, i));
    assert k.joined.Some? ==> k.joined == Some(ns.id) && HasFirst(ns, cfg, k.pc);
    if k.mode.Failing? {
      assert ErrorNames(cfg, ns', k.mode.at, k.mode.reason);
    } else {
      assert Complete(ns', cfg);
    }
  }

  lemma InvKept(cfg: Config, s: State, a: Action)
    requires WellFormed(cfg) && Inv(cfg, s)
    ensures Inv(cfg, Next(cfg, s, a))
  {
    var s' := Next(cfg, s, a);
    NextMoves(cfg, s, a);
    IdsKept(cfg, s, s', a);
    PositionKept(cfg, s, s', a);
    PrefixKept(cfg, s, s', a);
    OriginKept(cfg, s, s', a);
    ErrorKept(cfg, s, s', a);
  }

  lemma {:induction false} InvAlong(cfg: Config, s: State, acts: seq<Action>)
    requires WellFormed(cfg) && Inv(cfg, s)
    ensures Inv(cfg, Exec(cfg, s, acts))
  {
    if acts != [] {
      InvAlong(cfg, s, acts[..|acts| - 1]);
      InvKept(cfg, Exec(cfg, s, acts[..|acts| - 1]), acts[|acts| - 1]);
    }
  }

  lemma ReachedInv(cfg: Config, acts: seq<Action>)
    requires WellFormed(cfg)
    ensures Inv(cfg, Reached(cfg, acts))
  {
    InvAlong(cfg, INIT, acts);
  }

  // Two moments of a run that see the same incarnation, the later one active: nothing was lost between.
  lemma {:induction false} GrowsAlong(cfg: Config, s: State, acts: seq<Action>)
    requires WellFormed(cfg) && IdsInv(cfg, s)
    ensures var s' := Exec(cfg, s, acts);
      && IdsInv(cfg, s')
      && SameWorkersButProgress(s, s')
      && s.minted <= s'.minted
      && (s'.minted == s.minted && s.ns.None? ==> s'.ns.None?)
      && (s.ns.Some? && s'.ns.Some? ==> s.ns.value.id <= s'.ns.value.id)
      && (s.ns.Some? && IsActive(s'.ns) && s.ns.value.id == s'.ns.value.id ==> Grown(s.ns.value, s'.ns.value))
  {
    if acts != [] {
      var mid := Exec(cfg, s, acts[..|acts| - 1]);
      var a := acts[|acts| - 1];
      GrowsAlong(cfg, s, acts[..|acts| - 1]);
      NextMoves(cfg, mid, a);
      IdsKept(cfg, mid, Next(cfg, mid, a), a);
      ActiveOnlyGrows(cfg, mid, Next(cfg, mid, a), a);
    }
  }
}
