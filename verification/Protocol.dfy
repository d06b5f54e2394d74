/** The provisioning protocol: requests that reserve, retry and delete a namespace, and background
    workers that create its objects step by step. Everything that can go differently (which worker moves,
    whether a call is answered, applied or lost) is in the action, so a run is a sequence of actions.
    An action that the code refuses (409, 403, 404) or that has nobody to perform it leaves the state as it is. */
module Protocol {
  import opened Kubernetes

  // `refs` are the objects that the manifest of the step names and needs.
  datatype ProvisionStep = ProvisionStep(name: string, key: Key, refs: set<Key>)

  // `clears`: a worker ends by removing the error annotation. `retryable`: retry requests exist.
  datatype Config = Config(
    steps: seq<ProvisionStep>, ownerKey: string, errorKey: string, clears: bool, retryable: bool)

  ghost predicate WellFormed(cfg: Config) {
    && |cfg.steps| > 0
    && cfg.ownerKey != cfg.errorKey
    && (forall i, j :: 0 <= i < j < |cfg.steps| ==> cfg.steps[i].key != cfg.steps[j].key)
  }

  // What a worker generated for itself: the data of its secret and the replicas it was asked for.
  datatype Generated = Generated(data: map<string, string>, replicas: nat)

  function BodyOf(gen: Generated, key: Key): Body {
    match key.kind
    case Secret => SecretData(gen.data)
    case StatefulSet => Replicated(gen.replicas)
    case _ => Manifest
  }

  /** - Working: about to make the call of step `pc` (or to clear the error once all steps are done);
      - Failing: a call raised at step `at`; about to record it;
      - Done, Recorded, Unrecorded, Crashed: ended. */
  datatype Mode = Working | Failing(at: nat, reason: string) | Done | Recorded | Unrecorded | Crashed

  // `starter` and `won` are history: whose request started this worker, and the incarnations in which a
  // create of it answered True.
  datatype Worker = Worker(
    gen: Generated, home: nat, joined: Option<nat>, pc: nat, mode: Mode, starter: User, won: multiset<nat>)

  // `minted` counts the incarnations so far; `deletes` are checked requests not yet carried out.
  datatype State = State(
    ns: Option<Namespace>, minted: nat, workers: seq<Worker>, deletes: seq<DeleteRequest>)

  // Lost: the call raised, and may or may not have been applied. Crash: so did the process.
  datatype Outcome = Answered | Lost(applied: bool, reason: string) | Crash(applied: bool)

  datatype Action =
    | Reserve(subject: string, gen: Generated)
    | Retry(user: User, gen: Generated)
    | RequestDelete(user: User)
    | ApplyDelete(request: nat)
    | Collect(key: Key)
    | Finalise
    | Report(key: Key, ready: nat)
    | Work(worker: nat, outcome: Outcome)

  const INIT := State(None, 0, [], [])

  function ErrorText(step: string, reason: string): string {
    step + ": " + reason
  }

  // ensure_can_manage: the creator of the namespace or an administrator.
  predicate CanManage(cfg: Config, user: User, ns: Namespace) {
    user.admin || (cfg.ownerKey in ns.annotations && ns.annotations[cfg.ownerKey] == user.subject)
  }

  function NewWorker(gen: Generated, home: nat, starter: User): Worker {
    Worker(gen, home, None, 0, Working, starter, multiset{})
  }

  // A worker belongs to the incarnation that its first create meets.
  function JoinedAt(k: Worker, ns: Option<Namespace>): Option<nat> {
    if k.pc == 0 && ns.Some? then Some(ns.value.id) else k.joined
  }

  function Advanced(cfg: Config, k: Worker): Worker {
    k.(pc := k.pc + 1, mode := if k.pc + 1 >= |cfg.steps| && !cfg.clears then Done else Working)
  }

  function CallerOf(w: nat, k: Worker): Caller {
    Caller(w, k.home, k.joined)
  }

  function CreateCall(cfg: Config, s: State, w: nat, outcome: Outcome): State
    requires w < |s.workers| && s.workers[w].pc < |cfg.steps|
  {
    var k := s.workers[w].(joined := JoinedAt(s.workers[w], s.ns));
    var key := cfg.steps[k.pc].key;
    var (ns, answer) := ApiCreate(s.ns, key, BodyOf(k.gen, key), CallerOf(w, k));
    match outcome
    case Answered =>
      var k' := match answer
        case Succeeded => Advanced(cfg, k).(won := k.won + multiset{if ns.Some? then ns.value.id else 0})
        case Conflict => Advanced(cfg, k)
        case Refused(reason) => k.(mode := Failing(k.pc, reason));
      s.(ns := ns, workers := s.workers[w := k'])
    case Lost(applied, reason) =>
      s.(ns := if applied then Unacknowledged(ns, answer) else s.ns,
      workers := s.workers[w := k.(mode := Failing(k.pc, reason))])
    case Crash(applied) =>
      s.(ns := if applied then Unacknowledged(ns, answer) else s.ns,
      workers := s.workers[w := k.(mode := Crashed)])
  }

  // The last call of a successful run; a failure here is reported under the last step's name.
  function ClearCall(cfg: Config, s: State, w: nat, outcome: Outcome): State
    requires w < |s.workers| && |cfg.steps| > 0
  {
    var k := s.workers[w];
    var (ns, answer) := ApiAnnotate(s.ns, map[cfg.errorKey := None], CallerOf(w, k));
    match outcome
    case Answered =>
      var mode := match answer
        case Refused(reason) => Failing(|cfg.steps| - 1, reason)
        case _ => Done;
      s.(ns := ns, workers := s.workers[w := k.(mode := mode)])
    case Lost(applied, reason) =>
      s.(ns := if applied then ns else s.ns,
      workers := s.workers[w := k.(mode := Failing(|cfg.steps| - 1, reason))])
    case Crash(applied) =>
      s.(ns := if applied then ns else s.ns, workers := s.workers[w := k.(mode := Crashed)])
  }

  function RecordCall(cfg: Config, s: State, w: nat, outcome: Outcome): State
    requires w < |s.workers| && s.workers[w].mode.Failing? && s.workers[w].mode.at < |cfg.steps|
  {
    var k := s.workers[w];
    var text := ErrorText(cfg.steps[k.mode.at].name, k.mode.reason);
    var (ns, answer) := ApiAnnotate(s.ns, map[cfg.errorKey := Some(text)], CallerOf(w, k));
    match outcome
    case Answered =>
      s.(ns := ns, workers := s.workers[w := k.(mode := if answer.Succeeded? then Recorded else Unrecorded)])
    case Lost(applied, _) =>
      s.(ns := if applied then ns else s.ns,
      workers := s.workers[w := k.(mode := if applied && answer.Succeeded? then Recorded else Unrecorded)])
    case Crash(applied) =>
      s.(ns := if applied then ns else s.ns, workers := s.workers[w := k.(mode := Crashed)])
  }

  // The next cluster call of worker `w`.
  function WorkerCall(cfg: Config, s: State, w: nat, outcome: Outcome): State
    requires w < |s.workers|
  {
    match s.workers[w].mode
    case Working =>
      if s.workers[w].pc < |cfg.steps| then CreateCall(cfg, s, w, outcome)
      else if |cfg.steps| > 0 then ClearCall(cfg, s, w, outcome)
      else s
    case Failing(at, _) => if at < |cfg.steps| then RecordCall(cfg, s, w, outcome) else s
    case _ => s
  }

  function Next(cfg: Config, s: State, a: Action): State {
    match a
    case Reserve(subject, gen) =>
      if s.ns.Some? then s
      else
        State(
          Some(Namespace(s.minted, Active, map[cfg.ownerKey := subject], map[], None, 0, false, false, false)),
          s.minted + 1, s.workers + [NewWorker(gen, s.minted, User(subject, false))], s.deletes)
    case Retry(user, gen) =>
      if cfg.retryable && s.ns.Some? && CanManage(cfg, user, s.ns.value)
      then s.(workers := s.workers + [NewWorker(gen, s.ns.value.id, user)]) else s
    case RequestDelete(user) =>
      if s.ns.Some? && CanManage(cfg, user, s.ns.value)
      then s.(deletes := s.deletes + [DeleteRequest(user, s.ns.value.id)]) else s
    case ApplyDelete(i) =>
      if i >= |s.deletes| then s
      else
        var s' := s.(deletes := s.deletes[..i] + s.deletes[i + 1..]);
        if s.ns.Some? && s.ns.value.phase == Active
        then s'.(ns := Some(s.ns.value.(phase := Terminating, deletedBy := Some(s.deletes[i])))) else s'
    case Collect(key) =>
      if s.ns.Some? && s.ns.value.phase == Terminating
      then s.(ns := Some(s.ns.value.(objects := s.ns.value.objects - {key}))) else s
    case Finalise =>
      if s.ns.Some? && s.ns.value.phase == Terminating && s.ns.value.objects == map[]
      then s.(ns := None) else s
    case Report(key, ready) =>
      if s.ns.Some? && key in s.ns.value.objects
      then
        var reported := s.ns.value.objects[key].(ready := ready);
        s.(ns := Some(s.ns.value.(objects := s.ns.value.objects[key := reported])))
      else s
    case Work(w, outcome) =>
      if w < |s.workers| then WorkerCall(cfg, s, w, outcome) else s
  }

  function Exec(cfg: Config, s: State, acts: seq<Action>): State {
    if acts == [] then s
    else Next(cfg, Exec(cfg, s, acts[..|acts| - 1]), acts[|acts| - 1])
  }

  // The state after a run from the empty cluster.
  function Reached(cfg: Config, acts: seq<Action>): State {
    Exec(cfg, INIT, acts)
  }

  lemma LastSplitsOff<T>(first: seq<T>, rest: seq<T>)
    requires rest != []
    ensures var shorter, last := rest[..|rest| - 1], rest[|rest| - 1];
      first + rest == first + shorter + [last] && rest == shorter + [last]
  {
  }

  lemma ExecLast(cfg: Config, s: State, acts: seq<Action>, last: Action)
    ensures Exec(cfg, s, acts + [last]) == Next(cfg, Exec(cfg, s, acts), last)
  {
    assert (acts + [last])[..|acts|] == acts;
  }

  lemma {:induction false} ExecComposes(cfg: Config, s: State, first: seq<Action>, rest: seq<Action>)
    ensures Exec(cfg, s, first + rest) == Exec(cfg, Exec(cfg, s, first), rest)
    decreases |rest|
  {
    if rest == [] {
      assert first + rest == first;
    } else {
      var shorter, last := rest[..|rest| - 1], rest[|rest| - 1];
      ExecComposes(cfg, s, first, shorter);
      ExecLast(cfg, s, first + shorter, last);
      ExecLast(cfg, Exec(cfg, s, first), shorter, last);
      LastSplitsOff(first, rest);
    }
  }

  // ---- Vocabulary of the theorems ----

  ghost predicate Has(ns: Namespace, cfg: Config, i: nat)
    requires i < |cfg.steps|
  {
    cfg.steps[i].key in ns.objects
  }

  // Every object of the first `n` steps exists.
  ghost predicate HasFirst(ns: Namespace, cfg: Config, n: nat) {
    forall i :: 0 <= i < n && i < |cfg.steps| ==> Has(ns, cfg, i)
  }

  ghost predicate Complete(ns: Namespace, cfg: Config) {
    HasFirst(ns, cfg, |cfg.steps|)
  }

  ghost predicate PrefixClosed(ns: Namespace, cfg: Config) {
    forall i :: 0 <= i < |cfg.steps| && Has(ns, cfg, i) ==> HasFirst(ns, cfg, i)
  }

  function StepKeys(cfg: Config): set<Key> {
    set i | 0 <= i < |cfg.steps| :: cfg.steps[i].key
  }

  // Still has calls to make.
  predicate Live(k: Worker) {
    k.mode.Working? || k.mode.Failing?
  }
}
