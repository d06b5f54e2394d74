/** Starting and stopping one user's server through the hub, with any number of calls in flight.

    The hub accepts a start exactly when the server is stopped (400 otherwise), answers 404 for an unknown
    user and 409 when a user to be created exists; a stop of a stopped server answers 400. */
module HubServers {

  datatype Server = Stopped | Pending | Running

  datatype Kind = Start | Stop

  // What a call does next, or how it ended.
  datatype Stage = Look | AddUser | Post | Delete
                 | Returned(running: bool) | RaisedConflict | RaisedMissing | RaisedOther

  // `changed` is history: how often this call started (or stopped) the server.
  datatype Call = Call(kind: Kind, stage: Stage, changed: nat)

  // `starts` and `stops` count the changes of the server between stopped and active; `ended` those of the
  // stops that the server made by itself.
  datatype HubState = HubState(
    known: bool, server: Server, calls: seq<Call>, starts: nat, stops: nat, ended: nat)

  // `choice`: a started server is ready at once; a pending one may be stopped. Faulty: no usable answer.
  datatype Outcome = Answered(choice: bool) | Faulty(applied: bool)

  datatype Event = Launch(kind: Kind) | Move(call: nat, outcome: Outcome) | BecomesReady | EndsItself | Forget

  function NewCall(kind: Kind): Call {
    Call(kind, if kind == Start then Look else Delete, 0)
  }

  predicate Ended(c: Call) {
    c.stage.Returned? || c.stage.RaisedConflict? || c.stage.RaisedMissing? || c.stage.RaisedOther?
  }

  predicate Active(server: Server) {
    server != Stopped
  }

  datatype Request = GetUser | PostUser | PostServer | DeleteServer

  // What the client gets: nothing usable, or a status with the server model of a GET.
  datatype Reply = NoReply | Reply(status: nat, server: Server)

  function StatusOf(s: HubState, request: Request, choice: bool): nat {
    match request
    case GetUser => if s.known then 200 else 404
    case PostUser => if s.known then 409 else 201
    case PostServer =>
      if !s.known then 404 else if Active(s.server) then 400 else if choice then 201 else 202
    case DeleteServer =>
      if !s.known then 404 else if s.server == Running || (s.server == Pending && choice) then 204 else 400
  }

  // The assumed answers of the hub, by status.
  lemma HubRules(s: HubState, choice: bool)
    ensures StatusOf(s, GetUser, choice) == if s.known then 200 else 404
    ensures StatusOf(s, PostUser, choice) == if s.known then 409 else 201
    ensures !s.known ==> StatusOf(s, PostServer, choice) == StatusOf(s, DeleteServer, choice) == 404
    ensures s.known && s.server == Stopped ==>
              StatusOf(s, PostServer, choice) in {201, 202} && StatusOf(s, DeleteServer, choice) == 400
    ensures s.known && s.server == Running ==>
              StatusOf(s, PostServer, choice) == 400 && StatusOf(s, DeleteServer, choice) == 204
    ensures s.known && s.server == Pending ==>
              StatusOf(s, PostServer, choice) == 400 && StatusOf(s, DeleteServer, choice) in {204, 400}
  {
  }

  predicate Success(status: nat) {
    200 <= status < 300
  }

  // The effect of a request that reached the hub, made by call `c`.
  function Effect(s: HubState, c: nat, request: Request, choice: bool): HubState
    requires c < |s.calls|
  {
    if !Success(StatusOf(s, request, choice)) then s
    else
      var counted := s.calls[c := s.calls[c].(changed := s.calls[c].changed + 1)];
      match request
      case GetUser => s
      case PostUser => s.(known := true)
      case PostServer => s.(server := if choice then Running else Pending, starts := s.starts + 1, calls := counted)
      case DeleteServer => s.(server := Stopped, stops := s.stops + 1, calls := counted)
  }

  function ServerSide(s: HubState, c: nat, request: Request, outcome: Outcome): (HubState, Reply)
    requires c < |s.calls|
  {
    match outcome
    case Answered(choice) => (Effect(s, c, request, choice), Reply(StatusOf(s, request, choice), s.server))
    case Faulty(applied) => (if applied then Effect(s, c, request, false) else s, NoReply)
  }

  function RequestAt(stage: Stage): Request {
    match stage
    case Look => GetUser
    case AddUser => PostUser
    case Post => PostServer
    case _ => DeleteServer
  }

  // How the client goes on after a reply.
  function Decide(stage: Stage, reply: Reply): Stage {
    if reply.NoReply? then RaisedOther
    else
      match stage
      case Look =>
        if reply.status == 404 then AddUser
        else if Success(reply.status) then (if Active(reply.server) then RaisedConflict else Post)
        else RaisedOther
      case AddUser => if reply.status == 409 || Success(reply.status) then Post else RaisedOther
      case Post =>
        if reply.status == 400 then RaisedConflict
        else if Success(reply.status) then Returned(reply.status == 201) else RaisedOther
      case Delete =>
        if reply.status == 404 then RaisedMissing
        else if reply.status == 400 then RaisedConflict
        else if Success(reply.status) then Returned(false) else RaisedOther
      case _ => stage
  }

  function WithStage(s: HubState, c: nat, stage: Stage): HubState
    requires c < |s.calls|
  {
    s.(calls := s.calls[c := s.calls[c].(stage := stage)])
  }

  // The next request of call `c`, and the decision it leads to.
  function MoveCall(s: HubState, c: nat, outcome: Outcome): HubState
    requires c < |s.calls|
  {
    var stage := s.calls[c].stage;
    if Ended(s.calls[c]) then s
    else
      var (s', reply) := ServerSide(s, c, RequestAt(stage), outcome);
      WithStage(s', c, Decide(stage, reply))
  }

  function HubNext(s: HubState, e: Event): HubState {
    match e
    case Launch(kind) => s.(calls := s.calls + [NewCall(kind)])
    case Move(c, outcome) => if c < |s.calls| then MoveCall(s, c, outcome) else s
    case BecomesReady => if s.server == Pending then s.(server := Running) else s
    case EndsItself =>
      if Active(s.server) then s.(server := Stopped, stops := s.stops + 1, ended := s.ended + 1) else s
    case Forget => if s.server == Stopped then s.(known := false) else s
  }

  /** What the hub's answers come to, request by request: how the call goes on or ends, and what it has done to
      the server. A start that returns says correctly whether the server is running already. */
  lemma AnswersMean(s: HubState, c: nat, choice: bool)
    requires c < |s.calls| && !Ended(s.calls[c])
    ensures var s' := HubNext(s, Move(c, Answered(choice)));
      var before, after := s.calls[c].stage, s'.calls[c].stage;
      && |s'.calls| == |s.calls|
      && (before == Look ==>
            && s'.known == s.known && s'.server == s.server
            && after == if !s.known then AddUser else if s.server == Stopped then Post else RaisedConflict)
      && (before == AddUser ==> after == Post && s'.known && s'.server == s.server)
      && (before == Post ==>
            && s'.known == s.known
            && if !s.known then after == RaisedOther && s'.server == s.server
               else if s.server != Stopped then after == RaisedConflict && s'.server == s.server
               else after.Returned? && s'.server == (if after.running then Running else Pending)
                    && after.running == choice)
      && (before == Delete ==>
            && s'.known == s.known
            && if !s.known then after == RaisedMissing && s'.server == s.server
               else if s.server == Stopped then after == RaisedConflict && s'.server == Stopped
               else if s.server == Running || choice then after.Returned? && s'.server == Stopped
               else after == RaisedConflict && s'.server == s.server)
  {
  }

  // Without a usable answer the call ends, whatever the request has done.
  lemma FaultsEndCalls(s: HubState, c: nat, applied: bool)
    requires c < |s.calls| && !Ended(s.calls[c])
    ensures var s' := HubNext(s, Move(c, Faulty(applied)));
      && |s'.calls| == |s.calls| && s'.calls[c].stage == RaisedOther
      && (!applied ==> s'.server == s.server && s'.known == s.known)
  {
  }

  /** The decisions for every status that a hub can answer. A start returns exactly for a success, and is running
      exactly for a 201; a 400 is a conflict; a stop also tells a missing user apart. */
  lemma DecisionsMean(status: nat, server: Server)
    ensures var reply := Reply(status, server);
      && (Decide(Look, reply) == AddUser <==> status == 404)
      && (Decide(Look, reply) == Post <==> 200 <= status < 300 && server == Stopped)
      && (Decide(Look, reply) == RaisedConflict <==> 200 <= status < 300 && server != Stopped)
      && (Decide(AddUser, reply) == Post <==> 200 <= status < 300 || status == 409)
      && (Decide(Post, reply).Returned? <==> 200 <= status < 300)
      && (Decide(Post, reply) == Returned(true) <==> status == 201)
      && (Decide(Post, reply) == RaisedConflict <==> status == 400)
      && (Decide(Delete, reply).Returned? <==> 200 <= status < 300)
      && (Decide(Delete, reply) == RaisedMissing <==> status == 404)
      && (Decide(Delete, reply) == RaisedConflict <==> status == 400)
      && (Decide(Look, reply) == RaisedOther <==> !(200 <= status < 300 || status == 404))
      && (Decide(AddUser, reply) == RaisedOther <==> !(200 <= status < 300 || status == 409))
      && (Decide(Post, reply) == RaisedOther <==> !(200 <= status < 300 || status == 400))
      && (Decide(Delete, reply) == RaisedOther <==> !(200 <= status < 300 || status in {400, 404}))
  {
  }

  function HubExec(s: HubState, events: seq<Event>): HubState {
    if events == [] then s else HubNext(HubExec(s, events[..|events| - 1]), events[|events| - 1])
  }

  lemma {:induction false} HubExecComposes(s: HubState, first: seq<Event>, second: seq<Event>)
    ensures HubExec(s, first + second) == HubExec(HubExec(s, first), second)
    decreases |second|
  {
    if second == [] {
      assert first + second == first;
    } else {
      var all := first + second;
      assert all[..|all| - 1] == first + second[..|second| - 1];
      HubExecComposes(s, first, second[..|second| - 1]);
    }
  }

  // ---- Who changed the server ----

  function ChangedBy(calls: seq<Call>, kind: Kind): nat {
    if calls == [] then 0
    else
      ChangedBy(calls[..|calls| - 1], kind)
      + if calls[|calls| - 1].kind == kind then calls[|calls| - 1].changed else 0
  }

  lemma {:induction false} ChangedByUpdate(calls: seq<Call>, c: nat, call: Call, kind: Kind)
    requires c < |calls| && call.kind == calls[c].kind
    ensures ChangedBy(calls[c := call], kind) ==
            ChangedBy(calls, kind) + if call.kind == kind then call.changed - calls[c].changed else 0
  {
    var last := |calls| - 1;
    if c == last {
      assert calls[c := call][..last] == calls[..last];
    } else {
      assert calls[c := call][..last] == calls[..last][c := call];
      ChangedByUpdate(calls[..last], c, call, kind);
    }
  }

  // A call that returned changed the server once; one that raised a conflict, or still runs, never did.
  ghost predicate CallInv(c: Call) {
    && (c.stage.Returned? ==> c.changed == 1)
    && (c.stage.RaisedOther? ==> c.changed <= 1)
    && (!c.stage.Returned? && !c.stage.RaisedOther? ==> c.changed == 0)
    && (c.kind == Start ==> c.stage != Delete)
    && (c.kind == Stop ==> c.stage in {Delete} || Ended(c))
  }

  ghost predicate HubInv(s: HubState) {
    && (forall c :: 0 <= c < |s.calls| ==> CallInv(s.calls[c]))
    && ChangedBy(s.calls, Start) == s.starts
    && ChangedBy(s.calls, Stop) + s.ended == s.stops
    && s.starts == s.stops + (if Active(s.server) then 1 else 0)
    && (Active(s.server) ==> s.known)
  }

  lemma MoveKeepsCall(s: HubState, c: nat, outcome: Outcome)
    requires c < |s.calls| && CallInv(s.calls[c])
    ensures var s' := MoveCall(s, c, outcome);
      && |s'.calls| == |s.calls| && s'.calls == s.calls[c := s'.calls[c]]
      && CallInv(s'.calls[c]) && s'.calls[c].kind == s.calls[c].kind
      && s'.ended == s.ended
      && s'.calls[c].changed - s.calls[c].changed == (s'.starts - s.starts) + (s'.stops - s.stops)
      && (s'.calls[c].kind == Start ==> s'.stops == s.stops)
      && (s'.calls[c].kind == Stop ==> s'.starts == s.starts)
      && s'.starts - s.starts - (s'.stops - s.stops)
         == (if Active(s'.server) then 1 else 0) - (if Active(s.server) then 1 else 0)
      && (s.known ==> s'.known) && (Active(s'.server) ==> Active(s.server) || s'.known)
  {
    if !Ended(s.calls[c]) {
      assert s.calls[c].stage in {Look, AddUser, Post, Delete};
    }
  }

  lemma HubStepKeeps(s: HubState, e: Event)
    requires HubInv(s)
    ensures HubInv(HubNext(s, e))
  {
    var s' := HubNext(s, e);
    if e.Move? {
      if e.call < |s.calls| {
        MoveKeepsCall(s, e.call, e.outcome);
        ChangedByUpdate(s.calls, e.call, s'.calls[e.call], Start);
        ChangedByUpdate(s.calls, e.call, s'.calls[e.call], Stop);
      }
    } else if e.Launch? {
      assert s'.calls[..|s'.calls| - 1] == s.calls;
    }
  }

  function Idle(known: bool): HubState {
    HubState(known, Stopped, [], 0, 0, 0)
  }

  /** Over every interleaving: each start that returns normally owns exactly one change from stopped to
      active, each stop that returns one change back, and no change is owned twice. */
  lemma {:induction false} StartsOwnTheirChange(known: bool, events: seq<Event>)
    ensures HubInv(HubExec(Idle(known), events))
  {
    if events != [] {
      StartsOwnTheirChange(known, events[..|events| - 1]);
      HubStepKeeps(HubExec(Idle(known), events[..|events| - 1]), events[|events| - 1]);
    }
  }

  function ReturnedCalls(calls: seq<Call>, kind: Kind): nat {
    if calls == [] then 0
    else
      ReturnedCalls(calls[..|calls| - 1], kind)
      + if calls[|calls| - 1].kind == kind && calls[|calls| - 1].stage.Returned? then 1 else 0
  }

  lemma {:induction false} ReturnedWereChanges(calls: seq<Call>, kind: Kind)
    requires forall c :: 0 <= c < |calls| ==> CallInv(calls[c])
    ensures ReturnedCalls(calls, kind) <= ChangedBy(calls, kind)
    ensures (forall c :: 0 <= c < |calls| ==> !calls[c].stage.RaisedOther?) ==>
              ReturnedCalls(calls, kind) == ChangedBy(calls, kind)
  {
    if calls != [] {
      ReturnedWereChanges(calls[..|calls| - 1], kind);
    }
  }

  // Two starts can both succeed only if the server stopped in between.
  lemma StartsNeedStops(known: bool, events: seq<Event>)
    ensures var s := HubExec(Idle(known), events);
      ReturnedCalls(s.calls, Start) <= s.stops + (if Active(s.server) then 1 else 0)
  {
    StartsOwnTheirChange(known, events);
    ReturnedWereChanges(HubExec(Idle(known), events).calls, Start);
  }

  // ---- A race of starts ----

  predicate RaceEvent(e: Event) {
    e == Launch(Start) || (e.Move? && e.outcome.Answered?) || e == BecomesReady
  }

  ghost predicate RaceInv(s: HubState) {
    && HubInv(s)
    && s.stops == 0
    && (Active(s.server) ==> s.known)
    && forall c :: 0 <= c < |s.calls| ==>
         && s.calls[c].kind == Start
         && !s.calls[c].stage.RaisedOther?
         && !s.calls[c].stage.RaisedMissing?
         && s.calls[c].stage != Delete
         && (s.calls[c].stage == Post ==> s.known)
         && (Ended(s.calls[c]) ==> Active(s.server))
  }

  lemma RaceStepKeeps(s: HubState, e: Event)
    requires RaceInv(s) && RaceEvent(e)
    ensures RaceInv(HubNext(s, e))
  {
    HubStepKeeps(s, e);
  }

  lemma {:induction false} RaceInvAlong(known: bool, events: seq<Event>)
    requires forall i :: 0 <= i < |events| ==> RaceEvent(events[i])
    ensures RaceInv(HubExec(Idle(known), events))
  {
    if events != [] {
      RaceInvAlong(known, events[..|events| - 1]);
      RaceStepKeeps(HubExec(Idle(known), events[..|events| - 1]), events[|events| - 1]);
    }
  }

  /** Any number of starts racing for a stopped server, whether or not the user exists yet: when all have
      ended, exactly one has returned, the others raised a conflict, and the server was started once. */
  lemma RaceHasOneWinner(known: bool, events: seq<Event>)
    requires forall i :: 0 <= i < |events| ==> RaceEvent(events[i])
    requires var s := HubExec(Idle(known), events);
      s.calls != [] && forall c :: 0 <= c < |s.calls| ==> Ended(s.calls[c])
    ensures var s := HubExec(Idle(known), events);
      && ReturnedCalls(s.calls, Start) == 1
      && s.starts == 1 && Active(s.server) && s.known
      && forall c :: 0 <= c < |s.calls| ==> s.calls[c].stage.Returned? || s.calls[c].stage == RaisedConflict
  {
    RaceInvAlong(known, events);
    var s := HubExec(Idle(known), events);
    assert Ended(s.calls[0]);
    ReturnedWereChanges(s.calls, Start);
  }

  // ---- The client ----

  // What others do before a request of the call, and what becomes of the request.
  datatype Turn = Turn(others: seq<Event>, outcome: Outcome)

  predicate NotOf(c: nat, events: seq<Event>) {
    forall i :: 0 <= i < |events| ==> !(events[i].Move? && events[i].call == c)
  }

  function Woven(turns: seq<Turn>, c: nat): seq<Event> {
    if turns == [] then []
    else
      var last := turns[|turns| - 1];
      Woven(turns[..|turns| - 1], c) + last.others + [Move(c, last.outcome)]
  }

  lemma WovenOneMore(s: HubState, turns: seq<Turn>, c: nat, made: nat)
    requires made < |turns|
    ensures HubExec(s, Woven(turns[..made + 1], c)) ==
            HubNext(HubExec(HubExec(s, Woven(turns[..made], c)), turns[made].others), Move(c, turns[made].outcome))
  {
    var more := turns[..made + 1];
    assert more[..|more| - 1] == turns[..made];
    var last := turns[made];
    HubExecComposes(s, Woven(turns[..made], c), last.others);
    var events := Woven(turns[..made], c) + last.others;
    assert (events + [Move(c, last.outcome)])[..|events|] == events;
  }

  lemma {:induction false} OthersLeaveCall(s: HubState, events: seq<Event>, c: nat)
    requires NotOf(c, events) && c < |s.calls|
    ensures var s' := HubExec(s, events); c < |s'.calls| && s'.calls[c] == s.calls[c]
  {
    if events != [] {
      OthersLeaveCall(s, events[..|events| - 1], c);
    }
  }

  class HubClient {
    var hub: HubState

    constructor (known: bool)
      ensures hub == Idle(known)
    {
      hub := Idle(known);
    }

    method Elapse(others: seq<Event>)
      modifies this
      ensures hub == HubExec(old(hub), others)
    {
      for i := 0 to |others|
        invariant hub == HubExec(old(hub), others[..i])
      {
        hub := HubNext(hub, others[i]);
        assert others[..i + 1][..i] == others[..i];
      }
      assert others[..|others|] == others;
    }

    // One HTTP request of call `c`, after what others do first.
    method Send(c: nat, request: Request, turn: Turn) returns (reply: Reply)
      requires c < |hub.calls| && NotOf(c, turn.others)
      modifies this
      ensures c < |HubExec(old(hub), turn.others).calls|
      ensures (hub, reply) == ServerSide(HubExec(old(hub), turn.others), c, request, turn.outcome)
      ensures c < |hub.calls| && hub.calls[c].stage == old(hub).calls[c].stage
    {
      OthersLeaveCall(hub, turn.others, c);
      Elapse(turn.others);
      match turn.outcome
      case Faulty(applied) =>
        if applied {
          hub := Effect(hub, c, request, false);
        }
        reply := NoReply;
      case Answered(choice) =>
        reply := Reply(StatusOf(hub, request, choice), hub.server);
        hub := Effect(hub, c, request, choice);
    }

    // GET of the user: missing, or known with a server that is stopped or not.
    method LookUp(c: nat, turn: Turn) returns (stage: Stage)
      requires c < |hub.calls| && hub.calls[c].stage == Look && NotOf(c, turn.others)
      modifies this
      ensures hub == HubNext(HubExec(old(hub), turn.others), Move(c, turn.outcome))
      ensures c < |hub.calls| && stage == hub.calls[c].stage
      ensures stage in {AddUser, Post} || Ended(hub.calls[c])
    {
      OthersLeaveCall(hub, turn.others, c);
      var response := Send(c, GetUser, turn);
      if response.NoReply? {
        stage := RaisedOther;
      } else if response.status == 404 {
        stage := AddUser;
      } else if Success(response.status) {
        stage := if Active(response.server) then RaisedConflict else Post;
      } else {
        stage := RaisedOther;
      }
      hub := WithStage(hub, c, stage);
    }

    // POST of the user; losing a race for it (409) is as good as creating it.
    method CreateUser(c: nat, turn: Turn) returns (stage: Stage)
      requires c < |hub.calls| && hub.calls[c].stage == AddUser && NotOf(c, turn.others)
      modifies this
      ensures hub == HubNext(HubExec(old(hub), turn.others), Move(c, turn.outcome))
      ensures c < |hub.calls| && stage == hub.calls[c].stage
      ensures stage == Post || Ended(hub.calls[c])
    {
      OthersLeaveCall(hub, turn.others, c);
      var created := Send(c, PostUser, turn);
      var accepted := created.Reply? && (Success(created.status) || created.status == 409);
      stage := if accepted then Post else RaisedOther;
      hub := WithStage(hub, c, stage);
    }

    // POST of the server; 400 means that a spawn is already in progress.
    method Spawn(c: nat, turn: Turn) returns (stage: Stage)
      requires c < |hub.calls| && hub.calls[c].stage == Post && NotOf(c, turn.others)
      modifies this
      ensures hub == HubNext(HubExec(old(hub), turn.others), Move(c, turn.outcome))
      ensures c < |hub.calls| && stage == hub.calls[c].stage && Ended(hub.calls[c])
    {
      OthersLeaveCall(hub, turn.others, c);
      var started := Send(c, PostServer, turn);
      if started.NoReply? {
        stage := RaisedOther;
      } else if started.status == 400 {
        stage := RaisedConflict;
      } else if Success(started.status) {
        stage := Returned(started.status == 201);
      } else {
        stage := RaisedOther;
      }
      hub := WithStage(hub, c, stage);
    }

    /** start_server: look the user up, create it if missing, then ask for the server. At most three requests,
        each of them one event of the protocol. */
    method StartServer(c: nat, turns: seq<Turn>) returns (result: Stage, made: nat)
      requires c < |hub.calls| && hub.calls[c].stage == Look
      requires |turns| >= 3 && forall i :: 0 <= i < |turns| ==> NotOf(c, turns[i].others)
      modifies this
      ensures made <= 3
      ensures hub == HubExec(old(hub), Woven(turns[..made], c))
      ensures c < |hub.calls| && result == hub.calls[c].stage && Ended(hub.calls[c])
    {
      ghost var start := hub;
      WovenOneMore(start, turns, c, 0);
      result := LookUp(c, turns[0]);
      result, made := CreateIfMissing(c, result, turns, start);
      if result == Post {
        WovenOneMore(start, turns, c, made);
        result := Spawn(c, turns[made]);
        made := made + 1;
      }
    }

    method CreateIfMissing(c: nat, found: Stage, turns: seq<Turn>, ghost start: HubState)
      returns (stage: Stage, made: nat)
      requires c < |hub.calls| && found == hub.calls[c].stage && (found in {AddUser, Post} || Ended(hub.calls[c]))
      requires |turns| >= 2 && NotOf(c, turns[1].others)
      requires hub == HubExec(start, Woven(turns[..1], c))
      modifies this
      ensures made <= 2
      ensures hub == HubExec(start, Woven(turns[..made], c))
      ensures c < |hub.calls| && stage == hub.calls[c].stage && (stage == Post || Ended(hub.calls[c]))
    {
      stage, made := found, 1;
      if found == AddUser {
        WovenOneMore(start, turns, c, made);
        stage := CreateUser(c, turns[made]);
        made := 2;
      }
    }

    // stop_server
    method StopServer(c: nat, turn: Turn) returns (result: Stage)
      requires c < |hub.calls| && hub.calls[c].stage == Delete && NotOf(c, turn.others)
      modifies this
      ensures hub == HubNext(HubExec(old(hub), turn.others), Move(c, turn.outcome))
      ensures c < |hub.calls| && result == hub.calls[c].stage && Ended(hub.calls[c])
    {
      OthersLeaveCall(hub, turn.others, c);
      var response := Send(c, DeleteServer, turn);
      if response.NoReply? {
        result := RaisedOther;
      } else if response.status == 404 {
        result := RaisedMissing;
      } else if response.status == 400 {
        result := RaisedConflict;
      } else if Success(response.status) {
        result := Returned(false);
      } else {
        result := RaisedOther;
      }
      hub := WithStage(hub, c, result);
    }
  }
}
