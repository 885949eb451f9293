/**
 The daemon as a whole, from socket to store: the skeleton of a user hands a request over to
 the user's chain of agents, and the answer of the chain goes back through the socket.

 A consultation of the chain is one step here, since a skeleton serves one request after the
 other. The chain keeps the answer even if the connection has broken meanwhile. What the chain
 of a user has been through is kept as a log of events; the state of the chain, its store
 included, is the run of that log.
 */
module SocketChain {
  import opened TrustTypes
  import SqliteStore
  import opened CachedAgent
  import opened AppIdFormatting
  import opened AgentChain
  import Socket = SocketProtocol
  import Progress = SocketProgress
  import Runs

  datatype Daemon = Daemon(sockets: Socket.System, logs: map<uint32, seq<Event>>, disabled: bool)

  /** A protocol step, a consultation of the user's chain, or maintenance of the user's store. */
  datatype Label =
    | Move(step: Socket.Label)
    | Consult(session: nat, description: string, reply: Option<Answer>, now: int64)
    | Upkeep(uid: uint32, op: SqliteStore.StoreOp)

  function LogOf(d: Daemon, uid: uint32): seq<Event> {
    if uid in d.logs then d.logs[uid] else []
  }

  function WorldOf(d: Daemon, uid: uint32): World {
    RunChain(NEW_WORLD, LogOf(d, uid), d.disabled)
  }

  function MemoOf(d: Daemon, uid: uint32): Memo {
    MemoRun(NEW_MEMO, Passed(LogOf(d, uid), d.disabled))
  }

  function Logged(d: Daemon, uid: uint32, e: Event): Daemon {
    d.(logs := d.logs[uid := LogOf(d, uid) + [e]])
  }

  /** What the skeleton asks the chain. */
  function Question(request: Socket.Wire, process: Socket.Process, l: Label): Event
    requires l.Consult?
  {
    Authenticate(RequestParameters(request.uid, request.pid, process.app, request.feature, l.description),
                 l.reply, l.now)
  }

  function Next(d: Daemon, l: Label): Option<Daemon> {
    match l
    case Upkeep(uid, op) => Some(Logged(d, uid, Maintain(op)))
    case Move(step) =>
      var t := Socket.NextDisciplined(d.sockets, step);
      if step.Decide? || t.None? then None else Some(d.(sockets := t.value))
    case Consult(n, _, _, _) =>
      if n !in d.sockets.sessions || !d.sockets.sessions[n].service.Prompting? then None
      else
        var session := d.sockets.sessions[n];
        var e := Question(session.service.request, session.service.process, l);
        var answer := ReactChain(WorldOf(d, session.uid), e, d.disabled).answer;
        var t := Socket.NextDisciplined(d.sockets, Socket.Decide(n, answer));
        if t.None? then None else Some(Logged(d, session.uid, e).(sockets := t.value))
  }

  function StartOf(disabled: bool): Daemon {
    Daemon(Socket.START, map[], disabled)
  }

  /** Applications have names, and features survive the store. */
  predicate RegularLabel(l: Label) {
    match l
    case Move(Spawn(_, _, app)) => app != ""
    case Move(BeginSend(_, _, _, feature)) => SignExtended(feature)
    case Upkeep(_, op) => Regular(Maintain(op))
    case _ => true
  }

  predicate SparesKey(l: Label, uid: uint32, id: string, feature: uint64) {
    l.Upkeep? && l.uid == uid ==> Spares(Maintain(l.op), id, feature)
  }

  /******* The daemon keeps the protocol *******/

  /** A request about a storable feature, by the user at the other end of the session. */
  predicate RequestOk(uid: uint32, wire: Socket.Wire) {
    SignExtended(wire.feature) && wire.uid == uid
  }

  ghost predicate RequestsOk(session: Socket.Session) {
    && (forall wire :: wire in session.toSkeleton ==> RequestOk(session.uid, wire))
    && (session.service != Socket.Idle ==> RequestOk(session.uid, session.service.request))
    && (session.service.Prompting? ==> session.service.process.app != "")
  }

  ghost predicate NamesOk(s: Socket.System) {
    && (forall pid :: pid in s.processes ==> s.processes[pid].app != "")
    && (forall c :: c in s.sends ==> SignExtended(s.sends[c].feature))
    && (forall n :: n in s.sessions ==> RequestsOk(s.sessions[n]))
  }

  ghost predicate LogsOk(d: Daemon) {
    forall uid :: AllRegular(LogOf(d, uid))
  }

  ghost predicate DaemonInv(d: Daemon) {
    Socket.Inv(d.sockets) && NamesOk(d.sockets) && LogsOk(d)
  }

  /** Every step of the daemon is a step of the protocol, or leaves the sockets alone. */
  lemma StepProjects(d: Daemon, l: Label) returns (step: Option<Socket.Label>)
    requires Next(d, l).Some?
    ensures step.None? ==> Next(d, l).value.sockets == d.sockets
    ensures step.Some? ==> Socket.NextDisciplined(d.sockets, step.value) == Some(Next(d, l).value.sockets)
    ensures step.Some? && RegularLabel(l) ==> RegularLabel(Move(step.value))
  {
    match l
    case Upkeep(_, _) => step := None;
    case Move(m) => step := Some(m);
    case Consult(n, _, _, _) =>
      var session := d.sockets.sessions[n];
      var e := Question(session.service.request, session.service.process, l);
      step := Some(Socket.Decide(n, ReactChain(WorldOf(d, session.uid), e, d.disabled).answer));
  }

  lemma ServiceNamesOk(s: Socket.System, step: Socket.Label)
    requires NamesOk(s) && (step.ReadRequest? || step.VerifyStart? || step.ResolveApp? || step.Decide?)
    requires Socket.NextService(s, step).Some?
    ensures NamesOk(Socket.NextService(s, step).value)
  {
    var t := Socket.NextService(s, step).value;
    var session := s.sessions[step.session];
    assert t == Socket.SetSession(s, step.session, t.sessions[step.session]);
    assert RequestsOk(session);
    assert step.ReadRequest? ==> session.toSkeleton[0] in session.toSkeleton;
    forall wire | wire in t.sessions[step.session].toSkeleton ensures RequestOk(session.uid, wire) {
      assert wire in session.toSkeleton;
    }
    assert RequestsOk(t.sessions[step.session]);
  }

  lemma SendNamesOk(s: Socket.System, step: Socket.Label)
    requires Socket.Inv(s) && NamesOk(s) && RegularLabel(Move(step))
    requires !(step.Spawn? || step.Exit? || step.Connect? || step.Disconnect?)
    requires !(step.ReadRequest? || step.VerifyStart? || step.ResolveApp? || step.Decide?)
    requires Socket.NextSend(s, step).Some?
    ensures NamesOk(Socket.NextSend(s, step).value)
  {
    var t := Socket.NextSend(s, step).value;
    assert step.send in s.sends ==> Socket.SendOk(s, step.send);
    forall n | n in t.sessions ensures RequestsOk(t.sessions[n]) { assert RequestsOk(s.sessions[n]); }
  }

  lemma StepNamesOk(s: Socket.System, step: Socket.Label)
    requires Socket.Inv(s) && NamesOk(s) && Socket.NextDisciplined(s, step).Some? && RegularLabel(Move(step))
    ensures NamesOk(Socket.NextDisciplined(s, step).value)
  {
    var t := Socket.NextDisciplined(s, step).value;
    if step.Spawn? || step.Exit? {
      assert t.sessions == s.sessions && t.sends == s.sends;
    } else if step.Connect? || step.Disconnect? {
      forall n | n in t.sessions ensures RequestsOk(t.sessions[n]) {
        assert n in s.sessions ==> RequestsOk(s.sessions[n]);
      }
    } else if step.ReadRequest? || step.VerifyStart? || step.ResolveApp? || step.Decide? {
      ServiceNamesOk(s, step);
    } else {
      SendNamesOk(s, step);
    }
  }

  /** A request in front of a user's chain is one of this user, about a feature and a process that were sent. */
  lemma QuestionRegular(d: Daemon, l: Label)
    requires DaemonInv(d) && l.Consult? && Next(d, l).Some?
    ensures var session := d.sockets.sessions[l.session];
            && Regular(Question(session.service.request, session.service.process, l))
            && session.service.request.uid == session.uid
  {
    assert RequestsOk(d.sockets.sessions[l.session]);
  }

  lemma LoggedOk(d: Daemon, uid: uint32, e: Event)
    requires LogsOk(d) && Regular(e)
    ensures LogsOk(Logged(d, uid, e))
  {
    forall u ensures AllRegular(LogOf(Logged(d, uid, e), u)) {
      assert AllRegular(LogOf(d, u));
    }
  }

  lemma StepLogsOk(d: Daemon, l: Label)
    requires DaemonInv(d) && RegularLabel(l) && Next(d, l).Some?
    ensures LogsOk(Next(d, l).value)
  {
    match l
    case Move(_) => forall uid ensures AllRegular(LogOf(Next(d, l).value, uid)) { assert AllRegular(LogOf(d, uid)); }
    case Upkeep(uid, op) => LoggedOk(d, uid, Maintain(op));
    case Consult(n, _, _, _) =>
      var session := d.sockets.sessions[n];
      QuestionRegular(d, l);
      var e := Question(session.service.request, session.service.process, l);
      LoggedOk(d, session.uid, e);
      assert Next(d, l).value.logs == Logged(d, session.uid, e).logs;
      forall uid ensures AllRegular(LogOf(Next(d, l).value, uid)) {
        assert AllRegular(LogOf(Logged(d, session.uid, e), uid));
      }
  }

  lemma StepKeepsDaemonInv(d: Daemon, l: Label)
    requires DaemonInv(d) && RegularLabel(l) && Next(d, l).Some?
    ensures DaemonInv(Next(d, l).value)
  {
    StepLogsOk(d, l);
    var step := StepProjects(d, l);
    if step.Some? {
      Socket.StepKeepsInv(d.sockets, step.value);
      StepNamesOk(d.sockets, step.value);
    }
  }

  /******* Answers over the socket *******/

  /** A decision that is on its way back, or has arrived. */
  ghost predicate Held(s: Socket.System, decision: Socket.Decision) {
    || (exists n :: n in s.sessions && decision in s.sessions[n].toStub)
    || (exists c :: c in s.sends && (s.sends[c].stage.Answered? || s.sends[c].stage.Returned?)
                    && s.sends[c].stage.decision == decision)
  }

  predicate OnKey(decision: Socket.Decision, uid: uint32, id: string, feature: uint64) {
    decision.request.uid == uid && decision.request.feature == feature && Format(decision.process.app) == id
  }

  /** All decisions about the key are the standing answer of the user's chain. */
  ghost predicate KeyAgrees(d: Daemon, uid: uint32, id: string, feature: uint64) {
    forall decision :: Held(d.sockets, decision) && OnKey(decision, uid, id, feature) ==>
      ChainAnswer(WorldOf(d, uid), id, feature, d.disabled) == Some(decision.answer)
  }

  lemma SendMovesDecision(s: Socket.System, step: Socket.Label, decision: Socket.Decision)
    requires !(step.Spawn? || step.Exit? || step.Connect? || step.Disconnect?)
    requires !(step.ReadRequest? || step.VerifyStart? || step.ResolveApp? || step.Decide?)
    requires Socket.NextSend(s, step).Some? && Held(Socket.NextSend(s, step).value, decision)
    ensures Held(s, decision)
  {
  }

  /** Decisions come from deciding, and only move on from there. */
  lemma HeldBefore(s: Socket.System, step: Socket.Label, decision: Socket.Decision)
    requires Socket.Next(s, step).Some? && Held(Socket.Next(s, step).value, decision)
    ensures || Held(s, decision)
            || (step.Decide? && step.reply.Some?
                && decision == Socket.Decision(s.sessions[step.session].service.request,
                                               s.sessions[step.session].service.process, step.reply.value))
  {
    var t := Socket.Next(s, step).value;
    if step.Spawn? || step.Exit? {
      assert t.sessions == s.sessions && t.sends == s.sends;
    } else if step.Connect? || step.Disconnect? {
      assert t.sends == s.sends;
    } else if step.ReadRequest? || step.VerifyStart? || step.ResolveApp? || step.Decide? {
      assert t == Socket.SetSession(s, step.session, t.sessions[step.session]);
    } else {
      SendMovesDecision(s, step, decision);
    }
  }

  lemma LoggedWorld(d: Daemon, uid: uint32, e: Event)
    requires DaemonInv(d)
    ensures WorldOf(Logged(d, uid, e), uid) == ReactChain(WorldOf(d, uid), e, d.disabled).world
    ensures !WorldOf(d, uid).store.insertFailed
  {
    RunChainAppend(NEW_WORLD, LogOf(d, uid), [e], d.disabled);
    ChainAgrees(LogOf(d, uid), d.disabled);
  }

  lemma StepKeyAgrees(d: Daemon, l: Label, uid: uint32, id: string, feature: uint64)
    requires DaemonInv(d) && KeyAgrees(d, uid, id, feature) && id != "" && SignExtended(feature)
    requires RegularLabel(l) && SparesKey(l, uid, id, feature) && Next(d, l).Some?
    ensures KeyAgrees(Next(d, l).value, uid, id, feature)
  {
    var t := Next(d, l).value;
    match l
    case Move(step) =>
      forall decision | Held(t.sockets, decision) ensures Held(d.sockets, decision) {
        HeldBefore(d.sockets, step, decision);
      }
    case Upkeep(u, op) =>
      if u == uid {
        LoggedWorld(d, uid, Maintain(op));
        ChainStepOnKey(WorldOf(d, uid), Maintain(op), id, feature, d.disabled);
      }
    case Consult(n, _, _, _) => ConsultKeyAgrees(d, l, uid, id, feature);
  }

  lemma ConsultKeyAgrees(d: Daemon, l: Label, uid: uint32, id: string, feature: uint64)
    requires DaemonInv(d) && KeyAgrees(d, uid, id, feature) && id != "" && SignExtended(feature)
    requires l.Consult? && Next(d, l).Some?
    ensures KeyAgrees(Next(d, l).value, uid, id, feature)
  {
    var t := Next(d, l).value;
    var session := d.sockets.sessions[l.session];
    var e := Question(session.service.request, session.service.process, l);
    QuestionRegular(d, l);
    var answer := ReactChain(WorldOf(d, session.uid), e, d.disabled).answer;
    if session.uid == uid {
      LoggedWorld(d, uid, e);
      ChainStepOnKey(WorldOf(d, uid), e, id, feature, d.disabled);
    }
    forall decision | Held(t.sockets, decision) && OnKey(decision, uid, id, feature)
      ensures ChainAnswer(WorldOf(t, uid), id, feature, d.disabled) == Some(decision.answer)
    {
      HeldBefore(d.sockets, Socket.Decide(l.session, answer), decision);
    }
  }

  ghost predicate Orderly(ls: seq<Label>, uid: uint32, id: string, feature: uint64) {
    forall i :: 0 <= i < |ls| ==> RegularLabel(ls[i]) && SparesKey(ls[i], uid, id, feature)
  }

  lemma {:induction false} RunKeyAgrees(d: Daemon, ls: seq<Label>, uid: uint32, id: string, feature: uint64)
    requires DaemonInv(d) && KeyAgrees(d, uid, id, feature) && id != "" && SignExtended(feature)
    requires Orderly(ls, uid, id, feature) && Runs.Run(Next, d, ls).Some?
    ensures DaemonInv(Runs.Run(Next, d, ls).value) && KeyAgrees(Runs.Run(Next, d, ls).value, uid, id, feature)
    decreases |ls|
  {
    if ls != [] {
      assert RegularLabel(ls[0]) && SparesKey(ls[0], uid, id, feature);
      StepKeepsDaemonInv(d, ls[0]);
      StepKeyAgrees(d, ls[0], uid, id, feature);
      RunKeyAgrees(Next(d, ls[0]).value, ls[1..], uid, id, feature);
    }
  }

  /** The send has returned an answer about the key. */
  ghost predicate ReturnedOnKey(s: Socket.System, c: nat, uid: uint32, id: string, feature: uint64) {
    && c in s.sends && s.sends[c].stage.Returned? && s.sends[c].uid == uid && s.sends[c].feature == feature
    && Format(s.sends[c].first.app) == id
  }

  /**
   Over every run of the daemon that spares the key in the user's store: what a send returns is
   the answer of the user's memo table for the formatted id of the application that asked, or
   a grant if that id is white-listed.
   */
  lemma SocketReturnsMemoAnswer(disabled: bool, ls: seq<Label>, c: nat, uid: uint32, id: string, feature: uint64)
    requires Runs.Run(Next, StartOf(disabled), ls).Some? && Orderly(ls, uid, id, feature)
    requires ReturnedOnKey(Runs.Run(Next, StartOf(disabled), ls).value.sockets, c, uid, id, feature)
    requires id != "" && SignExtended(feature)
    ensures var d := Runs.Run(Next, StartOf(disabled), ls).value;
            Some(d.sockets.sends[c].stage.decision.answer)
            == if WhiteListed(id, d.disabled) then Some(Granted) else AnswerOf(Find(MemoOf(d, uid), id, feature))
  {
    RunKeyAgrees(StartOf(disabled), ls, uid, id, feature);
    var d := Runs.Run(Next, StartOf(disabled), ls).value;
    assert Socket.SendOk(d.sockets, c);
    var decision := d.sockets.sends[c].stage.decision;
    assert Held(d.sockets, decision) && OnKey(decision, uid, id, feature);
    ChainAgrees(LogOf(d, uid), d.disabled);
    LookupAgrees(WorldOf(d, uid), MemoOf(d, uid), id, feature);
  }

  /** So two versions of one application never get different answers for a feature over the socket. */
  lemma VersionsAgreeOverSocket(
    disabled: bool, ls: seq<Label>, b: nat, c: nat, uid: uint32, id: string, feature: uint64)
    requires Runs.Run(Next, StartOf(disabled), ls).Some? && Orderly(ls, uid, id, feature)
    requires ReturnedOnKey(Runs.Run(Next, StartOf(disabled), ls).value.sockets, b, uid, id, feature)
    requires ReturnedOnKey(Runs.Run(Next, StartOf(disabled), ls).value.sockets, c, uid, id, feature)
    requires id != "" && SignExtended(feature)
    ensures var sends := Runs.Run(Next, StartOf(disabled), ls).value.sockets.sends;
            sends[b].stage.decision.answer == sends[c].stage.decision.answer
  {
    SocketReturnsMemoAnswer(disabled, ls, b, uid, id, feature);
    SocketReturnsMemoAnswer(disabled, ls, c, uid, id, feature);
  }

  /**
   What a step does to a user's world: only consultations for this user and upkeep of this user's
   store change it, the first as the chain reacts to the request that was sent, the second as the
   store operation does.
   */
  lemma StepOnWorld(d: Daemon, l: Label, uid: uint32)
    requires DaemonInv(d) && Next(d, l).Some?
    ensures var before, after := WorldOf(d, uid), WorldOf(Next(d, l).value, uid);
            match l
            case Move(_) => after == before
            case Upkeep(u, op) =>
              after == if u == uid then before.(store := SqliteStore.ApplyStore(before.store, op).state) else before
            case Consult(n, description, reply, now) =>
              var session := d.sockets.sessions[n];
              var request := session.service.request;
              var params := RequestParameters(request.uid, request.pid, session.service.process.app, request.feature,
                                              description);
              after == if session.uid == uid
                       then ReactChain(before, Authenticate(params, reply, now), d.disabled).world else before
  {
    match l
    case Move(_) =>
    case Upkeep(u, op) => LoggedWorld(d, u, Maintain(op));
    case Consult(n, _, _, _) =>
      var session := d.sockets.sessions[n];
      LoggedWorld(d, session.uid, Question(session.service.request, session.service.process, l));
  }

  /******* Every answer was the memo's *******/

  /** The memo table's answer after some events, or a grant for a white-listed id. */
  function MemoAnswer(log: seq<Event>, disabled: bool, id: string, feature: uint64): Option<Answer> {
    if WhiteListed(id, disabled) then Some(Granted)
    else AnswerOf(Find(MemoRun(NEW_MEMO, Passed(log, disabled)), id, feature))
  }

  /** The event is the consultation that led to the decision. */
  predicate Asks(e: Event, decision: Socket.Decision) {
    && e.Authenticate? && e.params.uid == decision.request.uid && e.params.pid == decision.request.pid
    && e.params.id == decision.process.app && e.params.feature == decision.request.feature
  }

  /** The decision is what the memo table said right after the consultation that led to it. */
  ghost predicate Recorded(log: seq<Event>, disabled: bool, decision: Socket.Decision) {
    exists k :: && 0 <= k < |log| && Asks(log[k], decision)
                && MemoAnswer(log[..k + 1], disabled, Format(decision.process.app), decision.request.feature)
                   == Some(decision.answer)
  }

  ghost predicate AllRecorded(d: Daemon) {
    forall decision :: Held(d.sockets, decision) ==> Recorded(LogOf(d, decision.request.uid), d.disabled, decision)
  }

  lemma RecordedStays(log: seq<Event>, more: seq<Event>, disabled: bool, decision: Socket.Decision)
    requires Recorded(log, disabled, decision)
    ensures Recorded(log + more, disabled, decision)
  {
    var k :| && 0 <= k < |log| && Asks(log[k], decision)
             && MemoAnswer(log[..k + 1], disabled, Format(decision.process.app), decision.request.feature)
                == Some(decision.answer);
    assert (log + more)[..k + 1] == log[..k + 1] && (log + more)[k] == log[k];
  }

  /** The standing answer of a chain is the memo table's. */
  lemma ChainIsMemo(log: seq<Event>, disabled: bool, id: string, feature: uint64)
    requires AllRegular(log) && id != "" && SignExtended(feature)
    ensures ChainAnswer(RunChain(NEW_WORLD, log, disabled), id, feature, disabled)
            == MemoAnswer(log, disabled, id, feature)
  {
    ChainAgrees(log, disabled);
    LookupAgrees(RunChain(NEW_WORLD, log, disabled), MemoRun(NEW_MEMO, Passed(log, disabled)), id, feature);
  }

  /** A consultation records what it answers. */
  lemma ConsultRecords(d: Daemon, uid: uint32, e: Event, decision: Socket.Decision)
    requires DaemonInv(d) && Regular(e) && Asks(e, decision)
    requires ReactChain(WorldOf(d, uid), e, d.disabled).answer == Some(decision.answer)
    ensures Recorded(LogOf(d, uid) + [e], d.disabled, decision)
  {
    var log, id, feature := LogOf(d, uid) + [e], Format(decision.process.app), decision.request.feature;
    FormatKeepsNames(decision.process.app);
    LoggedWorld(d, uid, e);
    assert LogOf(Logged(d, uid, e), uid) == log;
    ChainStepOnKey(WorldOf(d, uid), e, id, feature, d.disabled);
    assert AllRegular(log) by { assert AllRegular(LogOf(d, uid)); }
    ChainIsMemo(log, d.disabled, id, feature);
    assert log[..|log| - 1 + 1] == log && Asks(log[|log| - 1], decision);
  }

  /** What a step adds to a user's log. */
  lemma LogGrows(d: Daemon, l: Label, uid: uint32) returns (more: seq<Event>)
    requires Next(d, l).Some?
    ensures LogOf(Next(d, l).value, uid) == LogOf(d, uid) + more
    ensures l.Consult? && d.sockets.sessions[l.session].uid == uid ==>
              var service := d.sockets.sessions[l.session].service;
              more == [Question(service.request, service.process, l)]
  {
    match l
    case Move(_) => more := [];
    case Upkeep(u, op) => more := if u == uid then [Maintain(op)] else [];
    case Consult(n, _, _, _) =>
      var session := d.sockets.sessions[n];
      more := if session.uid == uid then [Question(session.service.request, session.service.process, l)] else [];
  }

  /** A decision is held already, or a consultation has just made it. */
  lemma HeldOrConsulted(d: Daemon, l: Label, decision: Socket.Decision)
    requires Next(d, l).Some? && Held(Next(d, l).value.sockets, decision) && !Held(d.sockets, decision)
    ensures l.Consult?
    ensures var session := d.sockets.sessions[l.session];
            && decision.request == session.service.request && decision.process == session.service.process
            && Some(decision.answer)
               == ReactChain(WorldOf(d, session.uid), Question(decision.request, decision.process, l),
                             d.disabled).answer
  {
    match l
    case Upkeep(_, _) =>
    case Move(step) => HeldBefore(d.sockets, step, decision);
    case Consult(n, _, _, _) =>
      var session := d.sockets.sessions[n];
      var e := Question(session.service.request, session.service.process, l);
      HeldBefore(d.sockets, Socket.Decide(n, ReactChain(WorldOf(d, session.uid), e, d.disabled).answer), decision);
  }

  lemma StepRecorded(d: Daemon, l: Label, decision: Socket.Decision)
    requires DaemonInv(d) && AllRecorded(d) && RegularLabel(l) && Next(d, l).Some?
    requires Held(Next(d, l).value.sockets, decision)
    ensures Recorded(LogOf(Next(d, l).value, decision.request.uid), d.disabled, decision)
  {
    var uid := decision.request.uid;
    var more := LogGrows(d, l, uid);
    if Held(d.sockets, decision) {
      RecordedStays(LogOf(d, uid), more, d.disabled, decision);
    } else {
      HeldOrConsulted(d, l, decision);
      QuestionRegular(d, l);
      ConsultRecords(d, uid, Question(decision.request, decision.process, l), decision);
    }
  }

  lemma {:induction false} RunRecorded(d: Daemon, ls: seq<Label>)
    requires DaemonInv(d) && AllRecorded(d) && Runs.Run(Next, d, ls).Some?
    requires forall i :: 0 <= i < |ls| ==> RegularLabel(ls[i])
    ensures DaemonInv(Runs.Run(Next, d, ls).value) && AllRecorded(Runs.Run(Next, d, ls).value)
    decreases |ls|
  {
    if ls != [] {
      assert RegularLabel(ls[0]);
      var t := Next(d, ls[0]).value;
      StepKeepsDaemonInv(d, ls[0]);
      forall decision | Held(t.sockets, decision)
        ensures Recorded(LogOf(t, decision.request.uid), t.disabled, decision)
      {
        StepRecorded(d, ls[0], decision);
      }
      RunRecorded(t, ls[1..]);
    }
  }

  lemma StartRecorded(disabled: bool)
    ensures DaemonInv(StartOf(disabled)) && AllRecorded(StartOf(disabled))
  {
    assert forall decision :: !Held(Socket.START, decision);
  }

  lemma ReturnedRecorded(d: Daemon, c: nat)
    requires DaemonInv(d) && AllRecorded(d) && c in d.sockets.sends && d.sockets.sends[c].stage.Returned?
    ensures var send := d.sockets.sends[c];
            Recorded(LogOf(d, send.uid), d.disabled,
                     Socket.Decision(Socket.WireOf(send), send.first, send.stage.decision.answer))
  {
    assert Socket.SendOk(d.sockets, c);
    var send := d.sockets.sends[c];
    assert send.stage.decision == Socket.Decision(Socket.WireOf(send), send.first, send.stage.decision.answer);
    assert Held(d.sockets, send.stage.decision);
  }

  /**
   Over every run of the daemon, whatever is done to the stores: what a send returns is what the
   user's memo table said right after the consultation about the process, application and
   feature of this send.
   */
  lemma ReturnedWasMemoAnswer(disabled: bool, ls: seq<Label>, d: Daemon, c: nat)
    requires Runs.Run(Next, StartOf(disabled), ls) == Some(d) && forall i :: 0 <= i < |ls| ==> RegularLabel(ls[i])
    requires c in d.sockets.sends && d.sockets.sends[c].stage.Returned?
    ensures var send := d.sockets.sends[c];
            Recorded(LogOf(d, send.uid), d.disabled,
                     Socket.Decision(Socket.WireOf(send), send.first, send.stage.decision.answer))
  {
    StartRecorded(disabled);
    RunRecorded(StartOf(disabled), ls);
    ReturnedRecorded(d, c);
  }

  /******* A first answer *******/

  lemma {:induction false} MovesReach(d: Daemon, steps: seq<Socket.Label>)
    requires Runs.Run(Socket.NextDisciplined, d.sockets, steps).Some?
    requires forall i :: 0 <= i < |steps| ==> !steps[i].Decide?
    ensures Runs.Reaches(Next, d, d.(sockets := Runs.Run(Socket.NextDisciplined, d.sockets, steps).value))
    decreases |steps|
  {
    if steps == [] {
      Runs.ReachesItself(Next, d);
    } else {
      var d' := Next(d, Move(steps[0])).value;
      MovesReach(d', steps[1..]);
      Runs.ReachesAfter(Next, d, Move(steps[0]),
                        d'.(sockets := Runs.Run(Socket.NextDisciplined, d'.sockets, steps[1..]).value));
    }
  }

  /** A new chain passes on the user's first reply. */
  lemma FirstReply(e: Event, disabled: bool)
    requires e.Authenticate? && e.params.id != "" && e.reply.Some?
    ensures ReactChain(NEW_WORLD, e, disabled).answer
            == if WhiteListed(Format(e.params.id), disabled) then Some(Granted) else e.reply
  {
    var id := Format(e.params.id);
    FormatKeepsNames(e.params.id);
    EmptyStoreAgrees();
    if SignExtended(e.params.feature) {
      LookupAgrees(NEW_WORLD, NEW_MEMO, id, e.params.feature);
    } else {
      WideFeatureNeverFound([], id, e.params.feature);
    }
  }

  /** A consultation of a new chain decides with the user's reply. */
  lemma FirstConsultation(d: Daemon, n: nat, wire: Socket.Wire, process: Socket.Process, reply: Answer)
    requires d.logs == map[] && process.app != "" && n in d.sockets.sessions && !d.sockets.sessions[n].closed
    requires d.sockets.sessions[n].service == Socket.Prompting(wire, process) && d.sockets.sessions[n].toStub == []
    ensures var answer := if WhiteListed(Format(process.app), d.disabled) then Granted else reply;
            var t := Next(d, Consult(n, "", Some(reply), 0));
            && t.Some?
            && t.value.sockets
               == Socket.SetSession(d.sockets, n, d.sockets.sessions[n].(
                                    service := Socket.Idle, toStub := [Socket.Decision(wire, process, answer)]))
  {
    FirstReply(Question(wire, process, Consult(n, "", Some(reply), 0)), d.disabled);
    Progress.DecideOnce(d.sockets, n, wire, process,
                        if WhiteListed(Format(process.app), d.disabled) then Granted else reply);
    assert WorldOf(d, d.sockets.sessions[n].uid) == NEW_WORLD;
  }

  /** Some run from the start returns, and returns what the user replied, or a grant if white-listed. */
  lemma FirstAnswerReturns(disabled: bool, uid: uint32, pid: int32, start: int, app: string, feature: uint64,
                           reply: Answer) returns (d: Daemon)
    requires app != ""
    ensures Runs.Reaches(Next, StartOf(disabled), d) && ReturnedOnKey(d.sockets, 0, uid, Format(app), feature)
    ensures d.sockets.sends[0].stage.decision.answer == if WhiteListed(Format(app), disabled) then Granted else reply
  {
    var s := Progress.AskedFromStart(uid, pid, start, app, feature);
    MovesReach(StartOf(disabled),
               [Socket.Spawn(pid, start, app), Socket.Connect(0, uid, true)]
               + [Socket.BeginSend(0, uid, pid, feature), Socket.ResolveSession(0)]
               + ([Socket.WriteRequest(0), Socket.ReadRequest(0)] + [Socket.VerifyStart(0), Socket.ResolveApp(0)]));
    var asked := StartOf(disabled).(sockets := s);
    FirstConsultation(asked, 0, Socket.WireOf(s.sends[0]), s.processes[pid], reply);
    var decided := Next(asked, Consult(0, "", Some(reply), 0)).value;
    d := ReturnDecided(decided, 0, 0);
    Runs.ReachesAfter(Next, asked, Consult(0, "", Some(reply), 0), d);
    Runs.ReachesOnward(Next, StartOf(disabled), asked, d);
  }

  lemma ReturnDecided(d: Daemon, c: nat, n: nat) returns (t: Daemon)
    requires c in d.sockets.sends && n in d.sockets.sessions && d.sockets.sends[c].stage == Socket.Waiting(n)
    requires d.sockets.sessions[n].toStub != []
    requires Socket.Holds(d.sockets, d.sockets.sends[c].pid, d.sockets.sends[c].first)
    ensures Runs.Reaches(Next, d, t) && c in t.sockets.sends
    ensures t.sockets.sends[c]
            == d.sockets.sends[c].(stage := Socket.Returned(n, d.sockets.sessions[n].toStub[0]))
  {
    var finish := [Socket.ReadAnswer(c), Socket.CheckAgain(c)];
    Progress.ReadAndReturn(d.sockets, c, n);
    MovesReach(d, finish);
    t := d.(sockets := Runs.Run(Socket.NextDisciplined, d.sockets, finish).value);
  }
}
