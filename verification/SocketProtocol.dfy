/**
 The socket protocol between the stub of a trusted helper and the skeletons of its users:
 concurrent sends, a session registry that is updated behind their back, skeletons that read,
 verify, resolve and answer, and a process table in which pids are reused.

 Everything is a step of one system, so that a run is an arbitrary interleaving. The streams
 are FIFO queues. That a session serves one send at a time is what the source intends (a
 session has a `lock`) but does not enforce: no step below checks it. `owner` records the send
 that wrote last and has not read yet. `Disciplined` says what the users of the protocol have
 to see to: nobody writes while another one is waiting, and nobody gives up waiting while the
 connection stands.
 */
module SocketProtocol {
  import opened TrustTypes
  import Runs

  /**
   One incarnation of a pid. The serial number never recurs; the start time, in ticks since
   boot and not bounded here, is what can be read.
   */
  datatype Process = Process(serial: nat, start: int, app: string)

  /** The request on the wire. */
  datatype Wire = Wire(uid: uint32, pid: int32, feature: uint64, start: int)

  /** An answer, with what it was decided for. Only the answer itself travels back. */
  datatype Decision = Decision(request: Wire, process: Process, answer: Answer)

  datatype Service =
    | Idle
    | Received(request: Wire)
    | Verified(request: Wire)
    | Prompting(request: Wire, process: Process)
    | Crashed(request: Wire)

  datatype Session = Session(
    uid: uint32, verify: bool, owner: Option<nat>, closed: bool,
    toSkeleton: seq<Wire>, service: Service, toStub: seq<Decision>)

  datatype Stage =
    | Sampled
    | Resolved(session: nat)
    | Waiting(session: nat)
    | Answered(session: nat, decision: Decision)
    | Returned(session: nat, decision: Decision)
    | Threw

  /** `first` is the process that held the pid when the start time was first sampled. */
  datatype Send = Send(uid: uint32, pid: int32, feature: uint64, first: Process, stage: Stage)

  datatype System = System(
    processes: map<int32, Process>, lastStart: map<int32, int>, nextSerial: nat,
    sessions: map<nat, Session>, registry: map<uint32, nat>, sends: map<nat, Send>)

  const START := System(map[], map[], 0, map[], map[], map[])

  datatype Label =
    | Spawn(pid: int32, start: int, app: string)
    | Exit(pid: int32)
    | Connect(session: nat, uid: uint32, verify: bool)
    | Disconnect(session: nat)
    | BeginSend(send: nat, uid: uint32, pid: int32, feature: uint64)
    | ResolveSession(send: nat)
    | WriteRequest(send: nat)
    | ReadAnswer(send: nat)
    | CheckAgain(send: nat)
    | SocketError(send: nat, peerGone: bool)
    | ReadRequest(session: nat)
    | VerifyStart(session: nat)
    | ResolveApp(session: nat)
    | Decide(session: nat, reply: Option<Answer>)

  function WireOf(send: Send): Wire {
    Wire(send.uid, send.pid, send.feature, send.first.start)
  }

  function SetStage(s: System, c: nat, stage: Stage): System
    requires c in s.sends
  {
    s.(sends := s.sends[c := s.sends[c].(stage := stage)])
  }

  function SetSession(s: System, n: nat, session: Session): System {
    s.(sessions := s.sessions[n := session])
  }

  function NextProcess(s: System, l: Label): Option<System>
    requires l.Spawn? || l.Exit?
  {
    match l
    case Spawn(pid, start, app) =>
      if pid in s.processes || (pid in s.lastStart && start <= s.lastStart[pid]) then None
      else Some(s.(processes := s.processes[pid := Process(s.nextSerial, start, app)],
                   lastStart := s.lastStart[pid := start], nextSerial := s.nextSerial + 1))
    case Exit(pid) => if pid in s.processes then Some(s.(processes := s.processes - {pid})) else None
  }

  /** The accepting side: a new session replaces an older one of the same user in the registry. */
  function NextConnection(s: System, l: Label): Option<System>
    requires l.Connect? || l.Disconnect?
  {
    match l
    case Connect(n, uid, verify) =>
      if n in s.sessions then None
      else Some(SetSession(s, n, Session(uid, verify, None, false, [], Idle, [])).(registry := s.registry[uid := n]))
    case Disconnect(n) =>
      if n in s.sessions then Some(SetSession(s, n, s.sessions[n].(closed := true))) else None
  }

  function Freed(session: Session, c: nat): Session {
    if session.owner == Some(c) then session.(owner := None) else session
  }

  /**
   The body of `send`, cut at its system calls. For a pid without process it throws at once.
   The errors that mean a peer gone away come from broken connections; others, such as an
   interrupted call, also come while the connection stands.
   */
  function NextSend(s: System, l: Label): Option<System>
    requires l.BeginSend? || l.ResolveSession? || l.WriteRequest? || l.ReadAnswer? || l.CheckAgain? || l.SocketError?
  {
    var c := l.send;
    if l.BeginSend? then
      if c in s.sends || l.pid !in s.processes then None
      else Some(s.(sends := s.sends[c := Send(l.uid, l.pid, l.feature, s.processes[l.pid], Sampled)]))
    else if c !in s.sends then None
    else
      var send := s.sends[c];
      match l
      case ResolveSession(_) =>
        if send.stage != Sampled then None
        else Some(SetStage(s, c, if send.uid in s.registry then Resolved(s.registry[send.uid]) else Threw))
      case WriteRequest(_) =>
        if !send.stage.Resolved? || send.stage.session !in s.sessions then None
        else
          var n := send.stage.session;
          var session := s.sessions[n];
          if session.closed then None
          else
            var written := session.(owner := Some(c), toSkeleton := session.toSkeleton + [WireOf(send)]);
            Some(SetSession(SetStage(s, c, Waiting(n)), n, written))
      case ReadAnswer(_) =>
        if !send.stage.Waiting? || send.stage.session !in s.sessions then None
        else
          var n := send.stage.session;
          var session := s.sessions[n];
          if session.toStub == [] then None
          else
            Some(SetSession(SetStage(s, c, Answered(n, session.toStub[0])), n,
                            Freed(session, c).(toStub := session.toStub[1..])))
      case CheckAgain(_) =>
        if !send.stage.Answered? then None
        else
          var same := send.pid in s.processes && s.processes[send.pid].start == send.first.start;
          Some(SetStage(s, c, if same then Returned(send.stage.session, send.stage.decision) else Threw))
      case SocketError(_, peerGone) =>
        if !(send.stage.Resolved? || send.stage.Waiting?) || send.stage.session !in s.sessions then None
        else
          var n := send.stage.session;
          var session := s.sessions[n];
          if peerGone && !session.closed then None
          else
            Some(SetSession(SetStage(s, c, Threw), n, Freed(session, c)).(
                 registry := if peerGone then s.registry - {send.uid} else s.registry))
  }

  /**
   The skeleton behind a session, one request after the other; an exception stops it for good.
   A skeleton busy with a request notices a broken connection only when it writes the answer.
   */
  function NextService(s: System, l: Label): Option<System>
    requires l.ReadRequest? || l.VerifyStart? || l.ResolveApp? || l.Decide?
  {
    var n := l.session;
    if n !in s.sessions then None
    else
      var session := s.sessions[n];
      match l
      case ReadRequest(_) =>
        if session.closed || session.service != Idle || session.toSkeleton == [] then None
        else Some(SetSession(s, n, session.(service := Received(session.toSkeleton[0]),
                                            toSkeleton := session.toSkeleton[1..])))
      case VerifyStart(_) =>
        if !session.service.Received? then None
        else
          var request := session.service.request;
          var ok := !session.verify
                    || (request.pid in s.processes && s.processes[request.pid].start == request.start);
          Some(SetSession(s, n, session.(service := if ok then Verified(request) else Crashed(request))))
      case ResolveApp(_) =>
        if !session.service.Verified? then None
        else
          var request := session.service.request;
          Some(SetSession(s, n, session.(service :=
                 if request.pid in s.processes then Prompting(request, s.processes[request.pid])
                 else Crashed(request))))
      case Decide(_, reply) =>
        if !session.service.Prompting? then None
        else
          var request := session.service.request;
          if reply.None? || session.closed then Some(SetSession(s, n, session.(service := Crashed(request))))
          else
            var decision := Decision(request, session.service.process, reply.value);
            Some(SetSession(s, n, session.(service := Idle, toStub := session.toStub + [decision])))
  }

  function Next(s: System, l: Label): Option<System> {
    if l.Spawn? || l.Exit? then NextProcess(s, l)
    else if l.Connect? || l.Disconnect? then NextConnection(s, l)
    else if l.ReadRequest? || l.VerifyStart? || l.ResolveApp? || l.Decide? then NextService(s, l)
    else NextSend(s, l)
  }

  /** What the source intends: a request is written only to a session on which nobody waits. */
  predicate Exclusive(s: System, l: Label) {
    l.WriteRequest? && l.send in s.sends && s.sends[l.send].stage.Resolved?
      && s.sends[l.send].stage.session in s.sessions
    ==> s.sessions[s.sends[l.send].stage.session].owner == None
  }

  /** A send gives up although the connection stands and its answer is still to come. */
  predicate Abandons(s: System, l: Label) {
    && l.SocketError? && l.send in s.sends && s.sends[l.send].stage.Waiting?
    && s.sends[l.send].stage.session in s.sessions && !s.sessions[s.sends[l.send].stage.session].closed
  }

  predicate Disciplined(s: System, l: Label) {
    Exclusive(s, l) && !Abandons(s, l)
  }

  /******* The invariant *******/

  ghost predicate ProcessesOk(s: System) {
    forall pid :: pid in s.processes ==>
      && pid in s.lastStart && s.processes[pid].start == s.lastStart[pid]
      && s.processes[pid].serial < s.nextSerial
  }

  /** `p` held the pid at or after `first` did, and is `first` if it started at the same time. */
  ghost predicate Follows(s: System, pid: int32, first: Process, p: Process) {
    && pid in s.lastStart && first.start <= p.start <= s.lastStart[pid]
    && (p.start == first.start ==> p == first)
  }

  ghost predicate DecidedFor(s: System, send: Send, d: Decision) {
    d.request == WireOf(send) && Follows(s, send.pid, send.first, d.process)
  }

  ghost predicate HoldsNothing(session: Session) {
    session.toSkeleton == [] && session.service == Idle && session.toStub == []
  }

  /** Exactly one of: the unread request, the request in service, the unread answer. */
  ghost predicate HoldsOne(s: System, session: Session, send: Send) {
    || (session.toSkeleton == [WireOf(send)] && session.service == Idle && session.toStub == [])
    || (session.toSkeleton == [] && session.service != Idle && session.toStub == []
        && session.service.request == WireOf(send)
        && (session.service.Prompting? ==> Follows(s, send.pid, send.first, session.service.process)))
    || (session.toSkeleton == [] && session.service == Idle && |session.toStub| == 1
        && DecidedFor(s, send, session.toStub[0]))
  }

  ghost predicate SessionOk(s: System, n: nat)
    requires n in s.sessions
  {
    match s.sessions[n].owner
    case None => s.sessions[n].closed || HoldsNothing(s.sessions[n])
    case Some(c) => c in s.sends && s.sends[c].stage == Waiting(n) && HoldsOne(s, s.sessions[n], s.sends[c])
  }

  ghost predicate OnOwnSession(s: System, send: Send, n: nat) {
    n in s.sessions && s.sessions[n].uid == send.uid
  }

  ghost predicate SendOk(s: System, c: nat)
    requires c in s.sends
  {
    var send := s.sends[c];
    && send.pid in s.lastStart && send.first.start <= s.lastStart[send.pid]
    && (send.pid in s.processes && s.processes[send.pid].start == send.first.start
        ==> s.processes[send.pid] == send.first)
    && match send.stage
       case Sampled => true
       case Threw => true
       case Resolved(n) => OnOwnSession(s, send, n)
       case Waiting(n) => OnOwnSession(s, send, n) && s.sessions[n].owner == Some(c)
       case Answered(n, d) => OnOwnSession(s, send, n) && DecidedFor(s, send, d)
       case Returned(n, d) => OnOwnSession(s, send, n) && d.request == WireOf(send) && d.process == send.first
  }

  ghost predicate Inv(s: System) {
    && ProcessesOk(s)
    && (forall uid :: uid in s.registry ==>
          s.registry[uid] in s.sessions && s.sessions[s.registry[uid]].uid == uid)
    && (forall n :: n in s.sessions ==> SessionOk(s, n))
    && (forall c :: c in s.sends ==> SendOk(s, c))
  }

  lemma ProcessStepKeepsInv(s: System, l: Label)
    requires Inv(s) && (l.Spawn? || l.Exit?) && NextProcess(s, l).Some?
    ensures Inv(NextProcess(s, l).value)
  {
    var t := NextProcess(s, l).value;
    forall n | n in t.sessions ensures SessionOk(t, n) { assert SessionOk(s, n); }
    forall c | c in t.sends ensures SendOk(t, c) { assert SendOk(s, c); }
  }

  lemma ConnectionStepKeepsInv(s: System, l: Label)
    requires Inv(s) && (l.Connect? || l.Disconnect?) && NextConnection(s, l).Some?
    ensures Inv(NextConnection(s, l).value)
  {
    var t := NextConnection(s, l).value;
    forall n | n in t.sessions ensures SessionOk(t, n) { assert n in s.sessions ==> SessionOk(s, n); }
    forall c | c in t.sends ensures SendOk(t, c) { assert SendOk(s, c); }
  }

  /** Replacing one session, with owner and peer unchanged, concerns that session alone. */
  lemma ReplaceSession(s: System, n: nat, session: Session)
    requires Inv(s) && n in s.sessions
    requires session.uid == s.sessions[n].uid && session.owner == s.sessions[n].owner
    requires SessionOk(SetSession(s, n, session), n)
    ensures Inv(SetSession(s, n, session))
  {
    var t := SetSession(s, n, session);
    forall m | m in t.sessions ensures SessionOk(t, m) { assert SessionOk(s, m); }
    forall c | c in t.sends ensures SendOk(t, c) { assert SendOk(s, c); }
  }

  lemma ServiceStepKeepsInv(s: System, l: Label)
    requires Inv(s) && (l.ReadRequest? || l.VerifyStart? || l.ResolveApp? || l.Decide?) && NextService(s, l).Some?
    ensures Inv(NextService(s, l).value)
  {
    var t := NextService(s, l).value;
    var n := l.session;
    assert SessionOk(s, n);
    assert t == SetSession(s, n, t.sessions[n]);
    if s.sessions[n].owner.Some? {
      var c := s.sessions[n].owner.value;
      assert SendOk(s, c);
      if l.ResolveApp? { ResolveAppFollows(s, s.sends[c]); }
    }
    ReplaceSession(s, n, t.sessions[n]);
  }

  lemma ResolveAppFollows(s: System, send: Send)
    requires ProcessesOk(s) && send.pid in s.lastStart && send.first.start <= s.lastStart[send.pid]
    requires send.pid in s.processes && s.processes[send.pid].start == send.first.start
             ==> s.processes[send.pid] == send.first
    ensures send.pid in s.processes ==> Follows(s, send.pid, send.first, s.processes[send.pid])
  {
  }

  /** Moving one send that owns no session concerns that send alone. */
  lemma ReplaceStage(s: System, c: nat, stage: Stage)
    requires Inv(s) && c in s.sends && !s.sends[c].stage.Waiting?
    requires SendOk(SetStage(s, c, stage), c)
    ensures Inv(SetStage(s, c, stage))
  {
    var t := SetStage(s, c, stage);
    forall m | m in t.sessions ensures SessionOk(t, m) { assert SessionOk(s, m); }
    forall d | d in t.sends ensures SendOk(t, d) { assert SendOk(s, d); }
  }

  /** Moving a send together with the session it uses concerns those two alone. */
  lemma ReplaceBoth(s: System, c: nat, stage: Stage, n: nat, session: Session)
    requires Inv(s) && c in s.sends && n in s.sessions && session.uid == s.sessions[n].uid
    requires s.sessions[n].owner.None? || s.sessions[n].owner == Some(c)
    requires s.sends[c].stage.Waiting? ==> s.sends[c].stage.session == n
    requires SendOk(SetSession(SetStage(s, c, stage), n, session), c)
    requires SessionOk(SetSession(SetStage(s, c, stage), n, session), n)
    ensures Inv(SetSession(SetStage(s, c, stage), n, session))
  {
    var t := SetSession(SetStage(s, c, stage), n, session);
    forall m | m in t.sessions ensures SessionOk(t, m) { assert SessionOk(s, m); }
    forall d | d in t.sends ensures SendOk(t, d) { assert SendOk(s, d); }
  }

  lemma SendStepKeepsInv(s: System, l: Label)
    requires Inv(s) && !(l.Spawn? || l.Exit? || l.Connect? || l.Disconnect?)
    requires !(l.ReadRequest? || l.VerifyStart? || l.ResolveApp? || l.Decide?) && NextSend(s, l).Some?
    requires Disciplined(s, l)
    ensures Inv(NextSend(s, l).value)
  {
    match l
    case BeginSend(c, uid, pid, feature) =>
      var t := NextSend(s, l).value;
      forall n | n in t.sessions ensures SessionOk(t, n) { assert SessionOk(s, n); }
      forall d | d in t.sends ensures SendOk(t, d) { assert d in s.sends ==> SendOk(s, d); }
    case ResolveSession(c) =>
      assert SendOk(s, c);
      ReplaceStage(s, c, NextSend(s, l).value.sends[c].stage);
    case CheckAgain(c) =>
      assert SendOk(s, c);
      ReplaceStage(s, c, NextSend(s, l).value.sends[c].stage);
    case WriteRequest(c) => WriteKeepsInv(s, c);
    case ReadAnswer(c) => ReadKeepsInv(s, c);
    case SocketError(c, peerGone) => ErrorKeepsInv(s, c, peerGone);
  }

  lemma WriteKeepsInv(s: System, c: nat)
    requires Inv(s) && NextSend(s, WriteRequest(c)).Some? && Exclusive(s, WriteRequest(c))
    ensures Inv(NextSend(s, WriteRequest(c)).value)
  {
    var n := s.sends[c].stage.session;
    assert SendOk(s, c) && SessionOk(s, n);
    var written := s.sessions[n].(owner := Some(c), toSkeleton := s.sessions[n].toSkeleton + [WireOf(s.sends[c])]);
    ReplaceBoth(s, c, Waiting(n), n, written);
  }

  /** A write to a session on which another send waits displaces that send. */
  lemma WriteDisplaces(s: System, d: nat)
    requires Inv(s) && NextSend(s, WriteRequest(d)).Some? && !Exclusive(s, WriteRequest(d))
    ensures !Inv(NextSend(s, WriteRequest(d)).value)
  {
    var t := NextSend(s, WriteRequest(d)).value;
    var n := s.sends[d].stage.session;
    assert SessionOk(s, n);
    var c := s.sessions[n].owner.value;
    assert t.sends[c] == s.sends[c];
    assert !SendOk(t, c);
  }

  lemma ReadKeepsInv(s: System, c: nat)
    requires Inv(s) && NextSend(s, ReadAnswer(c)).Some?
    ensures Inv(NextSend(s, ReadAnswer(c)).value)
  {
    var n := s.sends[c].stage.session;
    assert SendOk(s, c) && SessionOk(s, n);
    var session := s.sessions[n];
    ReplaceBoth(s, c, Answered(n, session.toStub[0]), n, Freed(session, c).(toStub := session.toStub[1..]));
  }

  lemma ErrorKeepsInv(s: System, c: nat, peerGone: bool)
    requires Inv(s) && NextSend(s, SocketError(c, peerGone)).Some? && !Abandons(s, SocketError(c, peerGone))
    ensures Inv(NextSend(s, SocketError(c, peerGone)).value)
  {
    var n := s.sends[c].stage.session;
    var session := s.sessions[n];
    assert SendOk(s, c) && SessionOk(s, n);
    if session.owner == Some(c) {
      ReplaceBoth(s, c, Threw, n, Freed(session, c));
    } else {
      ReplaceStage(s, c, Threw);
      assert SetSession(SetStage(s, c, Threw), n, Freed(session, c)) == SetStage(s, c, Threw);
    }
    ForgetUser(SetSession(SetStage(s, c, Threw), n, Freed(session, c)), s.sends[c].uid);
  }

  /** A send that gives up on a standing connection leaves its request or its answer behind. */
  lemma AbandonLeavesRest(s: System, c: nat, peerGone: bool)
    requires Inv(s) && NextSend(s, SocketError(c, peerGone)).Some? && Abandons(s, SocketError(c, peerGone))
    ensures !Inv(NextSend(s, SocketError(c, peerGone)).value)
  {
    var n := s.sends[c].stage.session;
    assert SendOk(s, c) && SessionOk(s, n);
    assert !SessionOk(NextSend(s, SocketError(c, peerGone)).value, n);
  }

  lemma ForgetUser(s: System, uid: uint32)
    requires Inv(s)
    ensures Inv(s.(registry := s.registry - {uid}))
  {
    var t := s.(registry := s.registry - {uid});
    forall n | n in t.sessions ensures SessionOk(t, n) { assert SessionOk(s, n); }
    forall c | c in t.sends ensures SendOk(t, c) { assert SendOk(s, c); }
  }

  lemma StepKeepsInv(s: System, l: Label)
    requires Inv(s) && Next(s, l).Some? && Disciplined(s, l)
    ensures Inv(Next(s, l).value)
  {
    if l.Spawn? || l.Exit? { ProcessStepKeepsInv(s, l); }
    else if l.Connect? || l.Disconnect? { ConnectionStepKeepsInv(s, l); }
    else if l.ReadRequest? || l.VerifyStart? || l.ResolveApp? || l.Decide? { ServiceStepKeepsInv(s, l); }
    else { SendStepKeepsInv(s, l); }
  }

  /** The discipline is exactly what the invariant needs: any other step breaks it. */
  lemma StepKeepsInvIff(s: System, l: Label)
    requires Inv(s) && Next(s, l).Some?
    ensures Inv(Next(s, l).value) <==> Disciplined(s, l)
  {
    if Disciplined(s, l) { StepKeepsInv(s, l); }
    else if Abandons(s, l) { AbandonLeavesRest(s, l.send, l.peerGone); }
    else { WriteDisplaces(s, l.send); }
  }

  /******* Runs *******/

  /** The steps of a system that keeps the discipline. */
  function NextDisciplined(s: System, l: Label): Option<System> {
    if Disciplined(s, l) then Next(s, l) else None
  }

  /** A run from the start that keeps the discipline. */
  ghost predicate IsTrace(trace: seq<System>, ls: seq<Label>) {
    Runs.IsTrace(NextDisciplined, trace, ls) && trace[0] == START
  }

  lemma {:induction false} TraceKeepsInv(trace: seq<System>, ls: seq<Label>, i: nat)
    requires IsTrace(trace, ls) && i <= |ls|
    ensures Inv(trace[i])
  {
    if i > 0 {
      TraceKeepsInv(trace, ls, i - 1);
      assert Runs.StepsTo(NextDisciplined, trace[i - 1], ls[i - 1], trace[i - 1 + 1]);
      StepKeepsInv(trace[i - 1], ls[i - 1]);
    }
  }

  lemma ReachedKeepsInv(s: System)
    requires Inv(s)
    ensures forall t :: Runs.Reaches(NextDisciplined, s, t) ==> Inv(t)
  {
    forall u, l | Inv(u) && NextDisciplined(u, l).Some? ensures Inv(NextDisciplined(u, l).value) {
      StepKeepsInv(u, l);
    }
    Runs.ReachesKeeps(NextDisciplined, u => Inv(u), s);
    forall t | Runs.Reaches(NextDisciplined, s, t) ensures Inv(t) { assert (u => Inv(u))(t); }
  }

  /**
   In every reachable state, an open session holds exactly one of the unread request, the
   request in service and the unread answer while a send waits on it, and nothing otherwise;
   and what it holds belongs to the waiting send, whose user the session's peer is.
   */
  lemma OneMessagePerWaitingSend(trace: seq<System>, ls: seq<Label>, i: nat, n: nat)
    requires IsTrace(trace, ls) && i <= |ls| && n in trace[i].sessions
    ensures var s := trace[i];
            var session := s.sessions[n];
            && (forall c :: c in s.sends && s.sends[c].stage == Waiting(n) ==>
                  HoldsOne(s, session, s.sends[c]) && session.uid == s.sends[c].uid)
            && (forall c, d :: c in s.sends && d in s.sends ==>
                  (s.sends[c].stage == s.sends[d].stage == Waiting(n) ==> c == d))
            && (!session.closed && (forall c :: c in s.sends ==> s.sends[c].stage != Waiting(n)) ==>
                  HoldsNothing(session))
  {
    TraceKeepsInv(trace, ls, i);
    var s := trace[i];
    assert SessionOk(s, n);
    forall c | c in s.sends ensures SendOk(s, c) {}
  }

  /** An incarnation that has left the process table is not coming back. */
  ghost predicate Gone(s: System, pid: int32, serial: nat) {
    serial < s.nextSerial && !(pid in s.processes && s.processes[pid].serial == serial)
  }

  lemma StepGone(s: System, l: Label, pid: int32, serial: nat)
    requires Gone(s, pid, serial) && Next(s, l).Some?
    ensures Gone(Next(s, l).value, pid, serial)
  {
  }

  lemma {:induction false} StaysGone(trace: seq<System>, ls: seq<Label>, i: nat, j: nat, pid: int32, serial: nat)
    requires IsTrace(trace, ls) && i <= j <= |ls| && Gone(trace[i], pid, serial)
    ensures Gone(trace[j], pid, serial)
  {
    if i < j {
      StaysGone(trace, ls, i, j - 1, pid, serial);
      assert Runs.StepsTo(NextDisciplined, trace[j - 1], ls[j - 1], trace[j - 1 + 1]);
      StepGone(trace[j - 1], ls[j - 1], pid, serial);
    }
  }

  ghost predicate Holds(s: System, pid: int32, p: Process) {
    pid in s.processes && s.processes[pid] == p
  }

  lemma StepKeepsProcess(s: System, l: Label, pid: int32, p: Process)
    requires Inv(s) && Holds(s, pid, p) && Next(s, l).Some?
    ensures var t := Next(s, l).value; Holds(t, pid, p) || Gone(t, pid, p.serial)
  {
  }

  /** A process that holds its pid at two moments holds it at every moment between them. */
  lemma {:induction false} HeldBetween(
    trace: seq<System>, ls: seq<Label>, i: nat, k: nat, j: nat, pid: int32, p: Process)
    requires IsTrace(trace, ls) && i <= k <= j <= |ls|
    requires Holds(trace[i], pid, p) && Holds(trace[j], pid, p)
    ensures Holds(trace[k], pid, p)
  {
    if i < k {
      HeldBetween(trace, ls, i, k - 1, j, pid, p);
      TraceKeepsInv(trace, ls, k - 1);
      assert Runs.StepsTo(NextDisciplined, trace[k - 1], ls[k - 1], trace[k - 1 + 1]);
      StepKeepsProcess(trace[k - 1], ls[k - 1], pid, p);
      if Gone(trace[k], pid, p.serial) { StaysGone(trace, ls, k, j, pid, p.serial); }
    }
  }

  /** A send keeps its parameters and its first sample. */
  ghost predicate SameSend(s: System, t: System, c: nat) {
    c in s.sends && c in t.sends && t.sends[c] == s.sends[c].(stage := t.sends[c].stage)
  }

  lemma StepSameSend(s: System, l: Label, c: nat)
    requires c in s.sends && Next(s, l).Some?
    ensures SameSend(s, Next(s, l).value, c)
  {
  }

  lemma {:induction false} TraceSameSend(trace: seq<System>, ls: seq<Label>, i: nat, j: nat, c: nat)
    requires IsTrace(trace, ls) && i <= j <= |ls| && c in trace[i].sends
    ensures SameSend(trace[i], trace[j], c)
  {
    if i < j {
      TraceSameSend(trace, ls, i, j - 1, c);
      assert Runs.StepsTo(NextDisciplined, trace[j - 1], ls[j - 1], trace[j - 1 + 1]);
      StepSameSend(trace[j - 1], ls[j - 1], c);
    }
  }

  /**
   In every interleaving: when a send that began at step i returns at step j, one process held
   the pid all the time from the first sample to the last, and the answer was decided for this
   send's user, pid and feature and for the application of that very process, by the peer of a
   session of this user.
   */
  lemma AnswerIsForTheAskingProcess(trace: seq<System>, ls: seq<Label>, i: nat, j: nat, c: nat)
    requires IsTrace(trace, ls) && i < j < |ls|
    requires ls[i].BeginSend? && ls[i].send == c
    requires ls[j] == CheckAgain(c) && trace[j + 1].sends[c].stage.Returned?
    ensures var send := trace[j + 1].sends[c];
            var d := send.stage.decision;
            && (forall k :: i <= k <= j ==> Holds(trace[k], ls[i].pid, d.process))
            && d.request == Wire(ls[i].uid, ls[i].pid, ls[i].feature, d.process.start)
            && send.stage.session in trace[j + 1].sessions
            && trace[j + 1].sessions[send.stage.session].uid == ls[i].uid
  {
    assert Runs.StepsTo(NextDisciplined, trace[i], ls[i], trace[i + 1]);
    assert Runs.StepsTo(NextDisciplined, trace[j], ls[j], trace[j + 1]);
    TraceSameSend(trace, ls, i + 1, j, c);
    TraceKeepsInv(trace, ls, j);
    TraceKeepsInv(trace, ls, j + 1);
    var first := trace[i].processes[ls[i].pid];
    assert SendOk(trace[j], c) && SendOk(trace[j + 1], c);
    assert Holds(trace[j], ls[i].pid, first);
    forall k | i <= k <= j ensures Holds(trace[k], ls[i].pid, first) {
      HeldBetween(trace, ls, i, k, j, ls[i].pid, first);
    }
  }
}
