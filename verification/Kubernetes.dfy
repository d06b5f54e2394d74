/** The part of the Kubernetes API that the provisioning code relies on, for one namespace name.

    Rules of the API server that this model assumes:
    - creating a key that is already stored answers 409 and leaves the stored object alone;
    - creating in a missing namespace answers 404, and in a terminating one 403;
    - objects disappear only while their namespace is terminating;
    - a null in an annotation patch removes the key (RFC 7396, section 2).
 */
module Kubernetes {

  datatype Option<+T> = None | Some(value: T)

  datatype Kind = Secret | ServiceAccount | Role | RoleBinding | ConfigMap | VolumeClaim
                | Service | Deployment | StatefulSet | Ingress

  datatype Key = Key(kind: Kind, name: string)

  // What of an object's manifest matters here: the data of a secret and the size of a stateful set.
  datatype Body = SecretData(data: map<string, string>) | Replicated(replicas: nat) | Manifest

  // `ready` is reported by the cluster; `creator` remembers which worker's body was stored.
  datatype Stored = Stored(body: Body, ready: nat, creator: nat)

  datatype Phase = Active | Terminating

  datatype User = User(subject: string, admin: bool)

  // A delete request that passed its permission check against incarnation `checked`.
  datatype DeleteRequest = DeleteRequest(user: User, checked: nat)

  /** One incarnation of the namespace. The last five fields are history: no rule reads them.
      - `deletedBy`: the request that made it terminate;
      - `unacknowledged`: objects stored by a call whose answer was lost;
      - `straddled`: a worker whose first create was in another incarnation has stored an object;
      - `misannotated`: such a worker has changed the annotations;
      - `strayed`: a worker that was started for another incarnation has done either. */
  datatype Namespace = Namespace(
    id: nat, phase: Phase, annotations: map<string, string>, objects: map<Key, Stored>,
    deletedBy: Option<DeleteRequest>, unacknowledged: nat, straddled: bool, misannotated: bool, strayed: bool)

  // Who calls: the worker, the incarnation it was started for and that of its first create.
  datatype Caller = Caller(worker: nat, home: nat, joined: Option<nat>)

  datatype Response = Succeeded | Conflict | Refused(reason: string)

  ghost predicate IsActive(ns: Option<Namespace>) {
    ns.Some? && ns.value.phase == Active
  }

  // The first create of the caller was in another incarnation.
  predicate Straddles(ns: Namespace, who: Caller) {
    who.joined.Some? && who.joined.value != ns.id
  }

  function MarkedByCreate(ns: Namespace, who: Caller): Namespace {
    ns.(straddled := ns.straddled || Straddles(ns, who), strayed := ns.strayed || who.home != ns.id)
  }

  function MarkedByPatch(ns: Namespace, who: Caller): Namespace {
    ns.(misannotated := ns.misannotated || Straddles(ns, who), strayed := ns.strayed || who.home != ns.id)
  }

  function ApiCreate(ns: Option<Namespace>, key: Key, body: Body, who: Caller): (Option<Namespace>, Response) {
    match ns
    case None => (ns, Refused("Not Found"))
    case Some(n) =>
      if n.phase == Terminating then (ns, Refused("Forbidden"))
      else if key in n.objects then (ns, Conflict)
      else
        (Some(MarkedByCreate(n, who).(objects := n.objects[key := Stored(body, 0, who.worker)])), Succeeded)
  }

  // RFC 7396 on a flat mapping: a null removes the key, any other value replaces it.
  function MergePatch(target: map<string, string>, patch: map<string, Option<string>>): map<string, string> {
    map k | k in target.Keys + patch.Keys && (k in patch ==> patch[k].Some?) ::
      if k in patch then patch[k].value else target[k]
  }

  function ApiAnnotate(ns: Option<Namespace>, patch: map<string, Option<string>>, who: Caller)
    : (Option<Namespace>, Response)
  {
    match ns
    case None => (ns, Refused("Not Found"))
    case Some(n) => (Some(MarkedByPatch(n, who).(annotations := MergePatch(n.annotations, patch))), Succeeded)
  }

  // The effect of a create whose answer never reached the caller.
  function Unacknowledged(ns: Option<Namespace>, answer: Response): Option<Namespace> {
    if ns.Some? && answer.Succeeded? then Some(ns.value.(unacknowledged := ns.value.unacknowledged + 1)) else ns
  }

  // ---- The assumed rules ----

  // A create is accepted exactly in an active namespace that lacks the key, and only adds that key.
  lemma CreateRules(ns: Option<Namespace>, key: Key, body: Body, who: Caller)
    ensures var (after, answer) := ApiCreate(ns, key, body, who);
      && (answer == Succeeded <==> IsActive(ns) && key !in ns.value.objects)
      && (answer == Conflict <==> IsActive(ns) && key in ns.value.objects)
      && (answer == Refused("Forbidden") <==> ns.Some? && ns.value.phase == Terminating)
      && (answer == Refused("Not Found") <==> ns == None)
      && (answer != Succeeded ==> after == ns)
      && (answer == Succeeded ==>
            && after.Some? && after.value.id == ns.value.id && after.value.phase == ns.value.phase
            && after.value.annotations == ns.value.annotations
            && after.value.objects.Keys == ns.value.objects.Keys + {key}
            && after.value.objects[key].body == body && after.value.objects[key].creator == who.worker
            && after.value.objects[key].ready == 0
            && forall other :: other in ns.value.objects ==> after.value.objects[other] == ns.value.objects[other])
  {
    assert "Forbidden"[0] != "Not Found"[0];
  }

  // A patch removes the keys that it sets to null, stores its other values, leaves the rest, and can be repeated.
  lemma PatchRules(target: map<string, string>, patch: map<string, Option<string>>, key: string)
    ensures var patched := MergePatch(target, patch);
      && (key in patch && patch[key] == None ==> key !in patched)
      && (key in patch && patch[key] != None ==> key in patched && Some(patched[key]) == patch[key])
      && (key !in patch ==> (key in patched <==> key in target))
      && (key !in patch && key in target ==> patched[key] == target[key])
      && MergePatch(patched, patch) == patched
  {
  }
}
