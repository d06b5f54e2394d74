/** Who owns an incarnation of the namespace, over every run. */
module ProtocolOwnership {
  import opened Kubernetes
  import opened Protocol
  import opened ProtocolInvariants

  // The subjects of the reserve requests that succeeded, in order. Incarnation `k` is made by entry `k`.
  function Reservations(cfg: Config, acts: seq<Action>): seq<string> {
    if acts == [] then []
    else
      var earlier := Reservations(cfg, acts[..|acts| - 1]);
      var last := acts[|acts| - 1];
      if last.Reserve? && Reached(cfg, acts[..|acts| - 1]).ns.None? then earlier + [last.subject] else earlier
  }

  // The request was allowed by the incarnation it was checked against.
  ghost predicate Authorised(d: DeleteRequest, owners: seq<string>) {
    d.checked < |owners| && (d.user.admin || d.user.subject == owners[d.checked])
  }

  // The user created incarnation `id`, or is an administrator.
  ghost predicate Manages(user: User, owners: seq<string>, id: nat)
    requires id < |owners|
  {
    user.admin || user.subject == owners[id]
  }

  // The worker was started by somebody entitled to change the incarnation it was started for.
  ghost predicate StartedByManager(k: Worker, owners: seq<string>) {
    k.home < |owners| && Manages(k.starter, owners, k.home)
  }

  ghost predicate OwnersInv(cfg: Config, s: State, owners: seq<string>) {
    && s.minted == |owners|
    && (s.ns.Some? ==>
          && s.ns.value.id + 1 == |owners|
          && cfg.ownerKey in s.ns.value.annotations
          && s.ns.value.annotations[cfg.ownerKey] == owners[s.ns.value.id]
          && (s.ns.value.phase == Active <==> s.ns.value.deletedBy.None?)
          && (s.ns.value.deletedBy.Some? ==> Authorised(s.ns.value.deletedBy.value, owners)))
    && (forall i :: 0 <= i < |s.deletes| ==> Authorised(s.deletes[i], owners))
    && (forall w :: 0 <= w < |s.workers| ==> StartedByManager(s.workers[w], owners))
  }

  lemma AnnotateKeepsOwner(cfg: Config, s: State, s': State, w: nat, owners: seq<string>, value: Option<string>)
    requires cfg.ownerKey != cfg.errorKey
    requires AnnotateEffect(s, s', w, map[cfg.errorKey := value])
    requires OwnersInv(cfg, s, owners)
    ensures OwnersInv(cfg, s', owners)
  {
  }

  lemma RequestKeepsOwners(cfg: Config, s: State, a: Action, owners: seq<string>)
    requires !a.Work? && OwnersInv(cfg, s, owners)
    ensures OwnersInv(cfg, Next(cfg, s, a),
                      if a.Reserve? && s.ns.None? then owners + [a.subject] else owners)
  {
  }

  /** One reserve succeeds per incarnation, and its subject is the recorded owner in every later state.
      A namespace terminates only for a request that passed its check; the creator or an administrator
      made it whenever check and deletion saw the same incarnation. */
  lemma {:induction false} OwnershipIsStable(cfg: Config, acts: seq<Action>)
    requires WellFormed(cfg)
    ensures OwnersInv(cfg, Reached(cfg, acts), Reservations(cfg, acts))
  {
    if acts != [] {
      var s, a := Reached(cfg, acts[..|acts| - 1]), acts[|acts| - 1];
      var owners := Reservations(cfg, acts[..|acts| - 1]);
      OwnershipIsStable(cfg, acts[..|acts| - 1]);
      if !a.Work? {
        RequestKeepsOwners(cfg, s, a, owners);
      } else if a.worker < |s.workers| {
        var s', k := Next(cfg, s, a), s.workers[a.worker];
        NextMoves(cfg, s, a);
        if k.mode.Working? && k.pc < |cfg.steps| {
          assert CreateEffect(cfg, s, s', a.worker);
        } else if k.mode.Working? && |cfg.steps| > 0 {
          AnnotateKeepsOwner(cfg, s, s', a.worker, owners, None);
        } else if k.mode.Failing? && k.mode.at < |cfg.steps| {
          var text := ErrorText(cfg.steps[k.mode.at].name, k.mode.reason);
          AnnotateKeepsOwner(cfg, s, s', a.worker, owners, Some(text));
        }
      }
    }
  }

  /** The handlers check one read of the namespace and then delete by its name. The deletion is one that its
      user was entitled to exactly when the same check would succeed at that moment, that is when the user is
      an administrator or the incarnation that was checked and the deleted one have the same creator. */
  lemma DeletionIsAllowedIff(cfg: Config, acts: seq<Action>, i: nat)
    requires WellFormed(cfg)
    requires var s := Reached(cfg, acts); IsActive(s.ns) && i < |s.deletes|
    ensures var s, owners := Reached(cfg, acts), Reservations(cfg, acts);
      var d, ns' := s.deletes[i], Next(cfg, s, ApplyDelete(i)).ns;
      && ns'.Some? && ns'.value.phase == Terminating && ns'.value.deletedBy == Some(d)
      && d.checked < |owners| && s.ns.value.id < |owners|
      && (Manages(d.user, owners, s.ns.value.id) <==> CanManage(cfg, d.user, s.ns.value))
      && (CanManage(cfg, d.user, s.ns.value) <==> d.user.admin || owners[d.checked] == owners[s.ns.value.id])
      && (d.checked == s.ns.value.id ==> CanManage(cfg, d.user, s.ns.value))
  {
    OwnershipIsStable(cfg, acts);
    var s := Reached(cfg, acts);
    assert Authorised(s.deletes[i], Reservations(cfg, acts));
  }

  // Who made a terminating incarnation terminate, over every run.
  lemma DeletedByManager(cfg: Config, acts: seq<Action>)
    requires WellFormed(cfg)
    requires var ns := Reached(cfg, acts).ns; ns.Some? && ns.value.phase == Terminating
    ensures var ns, owners := Reached(cfg, acts).ns.value, Reservations(cfg, acts);
      && ns.deletedBy.Some?
      && ns.id < |owners| && ns.deletedBy.value.checked < |owners|
      && var d := ns.deletedBy.value;
      && (Manages(d.user, owners, ns.id) <==> d.user.admin || owners[d.checked] == owners[ns.id])
      && (d.checked == ns.id ==> Manages(d.user, owners, ns.id))
  {
    OwnershipIsStable(cfg, acts);
  }

  /** A worker carries on with the name that it was given. What it does is something that its starter was
      entitled to exactly when the check of the request would succeed for the incarnation that it meets, that is
      for administrators and when that incarnation has the creator of the one it was started for. */
  lemma WorkIsAllowedIff(cfg: Config, acts: seq<Action>, w: nat)
    requires WellFormed(cfg)
    requires var s := Reached(cfg, acts); s.ns.Some? && w < |s.workers|
    ensures var s, owners := Reached(cfg, acts), Reservations(cfg, acts);
      var k, ns := s.workers[w], s.ns.value;
      && k.home < |owners| && ns.id < |owners|
      && (Manages(k.starter, owners, ns.id) <==> CanManage(cfg, k.starter, ns))
      && (CanManage(cfg, k.starter, ns) <==> k.starter.admin || owners[k.home] == owners[ns.id])
      && (k.home == ns.id ==> CanManage(cfg, k.starter, ns))
  {
    OwnershipIsStable(cfg, acts);
    assert StartedByManager(Reached(cfg, acts).workers[w], Reservations(cfg, acts));
  }

  /** Over every run: a stored object comes from a request of the creator of its incarnation or of an
      administrator under the same condition, and always as long as no stray worker has acted. */
  lemma StoredByManagerIff(cfg: Config, acts: seq<Action>, key: Key)
    requires WellFormed(cfg)
    requires var s := Reached(cfg, acts); s.ns.Some? && key in s.ns.value.objects
    ensures var s, owners := Reached(cfg, acts), Reservations(cfg, acts);
      var ns, creator := s.ns.value, s.ns.value.objects[key].creator;
      && creator < |s.workers| && ns.id < |owners|
      && var k := s.workers[creator];
      && k.home < |owners|
      && (Manages(k.starter, owners, ns.id) <==> k.starter.admin || owners[k.home] == owners[ns.id])
      && (!ns.strayed ==> Manages(k.starter, owners, ns.id))
  {
    ReachedInv(cfg, acts);
    WorkIsAllowedIff(cfg, acts, Reached(cfg, acts).ns.value.objects[key].creator);
  }

  // The subject of a token, which is what the owner annotation holds.
  function Subject(provider: string, sub: string): string {
    provider + ":" + sub
  }

  // Equal subjects come from the same provider and the same account there.
  lemma {:induction false} SubjectsAreInjective(p: string, sub: string, p': string, sub': string)
    requires ':' !in p && ':' !in p'
    ensures Subject(p, sub) == Subject(p', sub') <==> p == p' && sub == sub'
  {
    if Subject(p, sub) == Subject(p', sub') {
      assert Subject(p, sub)[|p|] == ':' && Subject(p', sub')[|p'|] == ':';
      assert forall i :: 0 <= i < |p| ==> Subject(p, sub)[i] == p[i];
      assert forall i :: 0 <= i < |p'| ==> Subject(p', sub')[i] == p'[i];
      assert p == Subject(p, sub)[..|p|] && p' == Subject(p', sub')[..|p'|];
      assert sub == Subject(p, sub)[|p| + 1..] && sub' == Subject(p', sub')[|p'| + 1..];
    }
  }

  // Provider and account can be read back: they are what is before and after the first colon.
  lemma SubjectReadsBack(p: string, sub: string)
    requires ':' !in p
    ensures var text := Subject(p, sub);
      && |text| == |p| + 1 + |sub| && text[|p|] == ':'
      && (forall i :: 0 <= i < |p| ==> text[i] == p[i] != ':')
      && text[|p| + 1..] == sub
  {
  }

  // The providers that issue tokens.
  lemma ProvidersAreDistinguished(sub: string, sub': string)
    ensures Subject("github", sub) != Subject("keycloak", sub')
    ensures Subject("github", sub) == Subject("github", sub') ==> sub == sub'
    ensures Subject("keycloak", sub) == Subject("keycloak", sub') ==> sub == sub'
  {
    assert |"github"| != |"keycloak"|;
    SubjectsAreInjective("github", sub, "keycloak", sub');
    SubjectsAreInjective("github", sub, "github", sub');
    SubjectsAreInjective("keycloak", sub, "keycloak", sub');
  }
}
