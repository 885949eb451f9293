/**
 What becomes of sends and sessions in the socket protocol: when a skeleton goes on with a
 request, when a waiting send can still return, what sharing a session leads to, and which
 sessions a socket error forgets.
 */
module SocketProgress {
  import opened TrustTypes
  import opened SocketProtocol
  import Runs

  /******* Verification *******/

  /**
   A skeleton that verifies start times goes on with a request exactly while the process that
   was sampled for it still holds the pid; one that does not verify always goes on.
   */
  lemma VerifiesExactlyTheSampledProcess(s: System, n: nat)
    requires Inv(s) && NextService(s, VerifyStart(n)).Some? && s.sessions[n].owner.Some?
    ensures var send := s.sends[s.sessions[n].owner.value];
            NextService(s, VerifyStart(n)).value.sessions[n].service.Verified?
            <==> !s.sessions[n].verify || Holds(s, send.pid, send.first)
  {
    assert SessionOk(s, n);
    assert SendOk(s, s.sessions[n].owner.value);
  }

  /**
   A service step stops the skeleton exactly if the verification fails, no process has the pid
   any more, the prompt throws, or the connection has broken when the answer is written;
   otherwise the request goes on to the next stage.
   */
  lemma ServiceStopsIff(s: System, l: Label)
    requires (l.VerifyStart? || l.ResolveApp? || l.Decide?) && NextService(s, l).Some?
    ensures var session, after := s.sessions[l.session], NextService(s, l).value.sessions[l.session];
            var request := session.service.request;
            var present := request.pid in s.processes;
            && (after.service.Crashed? <==>
                  || (l.VerifyStart? && session.verify
                      && !(present && s.processes[request.pid].start == request.start))
                  || (l.ResolveApp? && !present)
                  || (l.Decide? && (session.closed || l.reply == None)))
            && (!after.service.Crashed? ==>
                  match l
                  case VerifyStart(_) => after.service == Verified(request)
                  case ResolveApp(_) => after.service == Prompting(request, s.processes[request.pid])
                  case Decide(_, reply) =>
                    after.service == Idle && |after.toStub| == |session.toStub| + 1
                    && after.toStub[|session.toStub|].answer == reply.value
                  case _ => true)
  {
  }

  /** A skeleton that has not stopped always has a next step, until all requests are served. */
  lemma ServiceGoesOn(s: System, n: nat, reply: Option<Answer>)
    requires n in s.sessions
    ensures var session := s.sessions[n];
            match session.service
            case Idle => Next(s, ReadRequest(n)).Some? <==> !session.closed && session.toSkeleton != []
            case Received(_) => Next(s, VerifyStart(n)).Some?
            case Verified(_) => Next(s, ResolveApp(n)).Some?
            case Prompting(_, _) => Next(s, Decide(n, reply)).Some?
            case Crashed(_) =>
              && Next(s, ReadRequest(n)).None? && Next(s, VerifyStart(n)).None?
              && Next(s, ResolveApp(n)).None? && Next(s, Decide(n, reply)).None?
  {
  }

  /** A send that has sampled its process finds a session, or throws for want of one. */
  lemma FindsOrThrows(s: System, c: nat)
    requires c in s.sends && s.sends[c].stage == Sampled
    ensures var t := Next(s, ResolveSession(c));
            && t.Some? && c in t.value.sends
            && t.value.sends[c].stage
               == if s.sends[c].uid in s.registry then Resolved(s.registry[s.sends[c].uid]) else Threw
  {
  }

  /** Then it writes, or throws, as it does on a broken connection. */
  lemma WritesOrThrows(s: System, c: nat, n: nat)
    requires c in s.sends && s.sends[c].stage == Resolved(n) && n in s.sessions
    ensures Next(s, WriteRequest(c)).Some? <==> !s.sessions[n].closed
    ensures ErrorThrows(s, c, false) && (ErrorThrows(s, c, true) <==> s.sessions[n].closed)
  {
  }

  /** Then it reads an answer that is there, or throws. */
  lemma ReadsOrThrows(s: System, c: nat, n: nat)
    requires c in s.sends && s.sends[c].stage == Waiting(n) && n in s.sessions
    ensures Next(s, ReadAnswer(c)).Some? <==> s.sessions[n].toStub != []
    ensures ErrorThrows(s, c, false) && (ErrorThrows(s, c, true) <==> s.sessions[n].closed)
  {
  }

  /** And it returns what it has read exactly if the process that was sampled still has its pid. */
  lemma ReturnsOrThrows(s: System, c: nat)
    requires Inv(s) && c in s.sends && s.sends[c].stage.Answered?
    ensures var send, t := s.sends[c], Next(s, CheckAgain(c));
            && t.Some? && c in t.value.sends
            && t.value.sends[c].stage
               == if Holds(s, send.pid, send.first) then Returned(send.stage.session, send.stage.decision) else Threw
  {
    assert SendOk(s, c);
  }

  ghost predicate ErrorThrows(s: System, c: nat, peerGone: bool)
    requires c in s.sends
  {
    var t := Next(s, SocketError(c, peerGone));
    t.Some? && c in t.value.sends && t.value.sends[c] == s.sends[c].(stage := Threw)
  }

  /******* Connections *******/

  /** A new connection becomes the user's session, ready for a send, and concerns nobody else. */
  lemma ConnectRegisters(s: System, m: nat, uid: uint32, verify: bool)
    requires m !in s.sessions
    ensures var t := Next(s, Connect(m, uid, verify));
            && t.Some? && Reachable(t.value, uid, m)
            && t.value.sessions[m].uid == uid && t.value.sessions[m].verify == verify
            && t.value.sends == s.sends && t.value.processes == s.processes
            && (forall n :: n in s.sessions ==> n in t.value.sessions && t.value.sessions[n] == s.sessions[n])
            && (forall u :: u != uid ==> SameEntry(s, t.value, u))
  {
  }

  ghost predicate SameEntry(s: System, t: System, uid: uint32) {
    (uid in s.registry <==> uid in t.registry) && (uid in s.registry ==> s.registry[uid] == t.registry[uid])
  }

  predicate Connects(l: Label, uid: uint32) {
    l.Connect? && l.uid == uid
  }

  /** A send for the user finds the peer gone. */
  predicate FindsGone(s: System, l: Label, uid: uint32) {
    l.SocketError? && l.peerGone && l.send in s.sends && s.sends[l.send].uid == uid
  }

  lemma RegistryStep(s: System, l: Label, uid: uint32)
    requires Next(s, l).Some?
    ensures var t := Next(s, l).value;
            if Connects(l, uid) then uid in t.registry && t.registry[uid] == l.session
            else if FindsGone(s, l, uid) then uid !in t.registry
            else SameEntry(s, t, uid)
  {
  }

  /** Session `n` is that of the user's last connection before step `i`, with no peer found gone since. */
  ghost predicate LastConnection(trace: seq<System>, ls: seq<Label>, i: nat, uid: uint32, n: nat)
    requires |trace| == |ls| + 1 && i <= |ls|
  {
    exists k :: && 0 <= k < i && Connects(ls[k], uid) && ls[k].session == n
                && forall j :: k < j < i ==> !Connects(ls[j], uid) && !FindsGone(trace[j], ls[j], uid)
  }

  lemma LastConnectionStep(trace: seq<System>, ls: seq<Label>, i: nat, uid: uint32, n: nat)
    requires |trace| == |ls| + 1 && i < |ls|
    ensures LastConnection(trace, ls, i + 1, uid, n)
            <==> if Connects(ls[i], uid) then ls[i].session == n
                 else !FindsGone(trace[i], ls[i], uid) && LastConnection(trace, ls, i, uid, n)
  {
    if LastConnection(trace, ls, i, uid, n) && !Connects(ls[i], uid) && !FindsGone(trace[i], ls[i], uid) {
      var k :| && 0 <= k < i && Connects(ls[k], uid) && ls[k].session == n
               && forall j :: k < j < i ==> !Connects(ls[j], uid) && !FindsGone(trace[j], ls[j], uid);
      assert 0 <= k < i + 1 && Connects(ls[k], uid);
    }
  }

  /** In every run, disciplined or not, the registry holds exactly the users' last connections. */
  lemma {:induction false} RegistryIsLastConnection(trace: seq<System>, ls: seq<Label>, i: nat, uid: uint32, n: nat)
    requires Runs.IsTrace(Next, trace, ls) && trace[0] == START && i <= |ls|
    ensures uid in trace[i].registry && trace[i].registry[uid] == n <==> LastConnection(trace, ls, i, uid, n)
  {
    if i > 0 {
      RegistryIsLastConnection(trace, ls, i - 1, uid, n);
      assert Runs.StepsTo(Next, trace[i - 1], ls[i - 1], trace[i - 1 + 1]);
      RegistryStep(trace[i - 1], ls[i - 1], uid);
      LastConnectionStep(trace, ls, i - 1, uid, n);
    }
  }

  /** So a send goes to the session of the user's last connection, and throws if there is none. */
  lemma ResolvesLastConnection(trace: seq<System>, ls: seq<Label>, i: nat, c: nat, n: nat)
    requires Runs.IsTrace(Next, trace, ls) && trace[0] == START && i < |ls| && ls[i] == ResolveSession(c)
    ensures c in trace[i].sends && c in trace[i + 1].sends
    ensures trace[i + 1].sends[c].stage == Resolved(n) <==> LastConnection(trace, ls, i, trace[i].sends[c].uid, n)
    ensures trace[i + 1].sends[c].stage.Resolved? || trace[i + 1].sends[c].stage == Threw
  {
    assert Runs.StepsTo(Next, trace[i], ls[i], trace[i + 1]);
    RegistryIsLastConnection(trace, ls, i, trace[i].sends[c].uid, n);
  }

  /******* An undisturbed send *******/

  /** A user's registered, open and free session, which then holds nothing. */
  ghost predicate Reachable(s: System, uid: uint32, n: nat) {
    && uid in s.registry && s.registry[uid] == n && n in s.sessions
    && !s.sessions[n].closed && s.sessions[n].owner == None && HoldsNothing(s.sessions[n])
  }

  function WithSend(s: System, c: nat, send: Send): System {
    s.(sends := s.sends[c := send])
  }

  lemma BeginAndResolve(s: System, c: nat, uid: uint32, pid: int32, feature: uint64)
    requires c !in s.sends && pid in s.processes && uid in s.registry
    ensures Runs.Run(NextDisciplined, s, [BeginSend(c, uid, pid, feature), ResolveSession(c)])
            == Some(WithSend(s, c, Send(uid, pid, feature, s.processes[pid], Resolved(s.registry[uid]))))
  {
    var s1 := WithSend(s, c, Send(uid, pid, feature, s.processes[pid], Sampled));
    var s2 := WithSend(s, c, Send(uid, pid, feature, s.processes[pid], Resolved(s.registry[uid])));
    assert SetStage(s1, c, Resolved(s.registry[uid])) == s2;
    Runs.TraceIsRun(NextDisciplined, [s, s1, s2], [BeginSend(c, uid, pid, feature), ResolveSession(c)]);
  }

  /** The request of a resolved send is written to a free session and read from it. */
  lemma WriteAndReceive(s: System, c: nat, n: nat)
    requires c in s.sends && s.sends[c].stage == Resolved(n) && Reachable(s, s.sends[c].uid, n)
    ensures Runs.Run(NextDisciplined, s, [WriteRequest(c), ReadRequest(n)])
            == Some(SetSession(SetStage(s, c, Waiting(n)), n,
                               s.sessions[n].(owner := Some(c), service := Received(WireOf(s.sends[c])))))
  {
    var session, wire := s.sessions[n], WireOf(s.sends[c]);
    assert session.toSkeleton + [wire] == [wire] && [wire][1..] == [];
    var s1 := SetSession(SetStage(s, c, Waiting(n)), n, session.(owner := Some(c), toSkeleton := [wire]));
    assert NextSend(s, WriteRequest(c)) == Some(s1);
    var received := session.(owner := Some(c), service := Received(wire));
    var s2 := SetSession(SetStage(s, c, Waiting(n)), n, received);
    assert SetSession(s1, n, received) == s2;
    assert NextService(s1, ReadRequest(n)) == Some(s2);
    Runs.TraceIsRun(NextDisciplined, [s, s1, s2], [WriteRequest(c), ReadRequest(n)]);
  }

  lemma VerifyAndResolve(s: System, n: nat, wire: Wire, process: Process)
    requires n in s.sessions && !s.sessions[n].closed && s.sessions[n].service == Received(wire)
    requires Holds(s, wire.pid, process) && process.start == wire.start
    ensures Runs.Run(NextDisciplined, s, [VerifyStart(n), ResolveApp(n)])
            == Some(SetSession(s, n, s.sessions[n].(service := Prompting(wire, process))))
  {
    var session := s.sessions[n];
    var s1 := SetSession(s, n, session.(service := Verified(wire)));
    assert NextService(s, VerifyStart(n)) == Some(s1);
    var s2 := SetSession(s, n, session.(service := Prompting(wire, process)));
    assert SetSession(s1, n, s2.sessions[n]) == s2;
    assert NextService(s1, ResolveApp(n)) == Some(s2);
    Runs.TraceIsRun(NextDisciplined, [s, s1, s2], [VerifyStart(n), ResolveApp(n)]);
  }

  /** A resolved send leads its request up to the user, on behalf of the process that was sampled. */
  lemma AskUser(s: System, c: nat, n: nat)
    requires c in s.sends && s.sends[c].stage == Resolved(n) && Reachable(s, s.sends[c].uid, n)
    requires Holds(s, s.sends[c].pid, s.sends[c].first)
    ensures Runs.Run(NextDisciplined, s, [WriteRequest(c), ReadRequest(n)] + [VerifyStart(n), ResolveApp(n)])
            == Some(SetSession(SetStage(s, c, Waiting(n)), n,
                               s.sessions[n].(owner := Some(c),
                                              service := Prompting(WireOf(s.sends[c]), s.sends[c].first))))
  {
    WriteAndReceive(s, c, n);
    var asked := Runs.Run(NextDisciplined, s, [WriteRequest(c), ReadRequest(n)]).value;
    VerifyAndResolve(asked, n, WireOf(s.sends[c]), s.sends[c].first);
    Runs.RunAppend(NextDisciplined, s, [WriteRequest(c), ReadRequest(n)], [VerifyStart(n), ResolveApp(n)]);
    var prompting := asked.sessions[n].(service := Prompting(WireOf(s.sends[c]), s.sends[c].first));
    assert asked.sessions[n := prompting] == s.sessions[n := prompting];
  }

  lemma DecideOnce(s: System, n: nat, wire: Wire, process: Process, answer: Answer)
    requires n in s.sessions && !s.sessions[n].closed && s.sessions[n].service == Prompting(wire, process)
    requires s.sessions[n].toStub == []
    ensures var t := NextDisciplined(s, Decide(n, Some(answer)));
            && t == Some(SetSession(s, n, s.sessions[n].(service := Idle, toStub := [Decision(wire, process, answer)])))
            && Runs.Run(NextDisciplined, s, [Decide(n, Some(answer))]) == t
  {
    var session := s.sessions[n];
    assert session.toStub + [Decision(wire, process, answer)] == [Decision(wire, process, answer)];
    Runs.RunCons(NextDisciplined, s, Decide(n, Some(answer)), []);
    assert [Decide(n, Some(answer))] + [] == [Decide(n, Some(answer))];
  }

  lemma ReadAndReturn(s: System, c: nat, n: nat)
    requires c in s.sends && n in s.sessions && s.sends[c].stage == Waiting(n) && s.sessions[n].toStub != []
    requires Holds(s, s.sends[c].pid, s.sends[c].first)
    ensures var t := Runs.Run(NextDisciplined, s, [ReadAnswer(c), CheckAgain(c)]);
            && t.Some? && c in t.value.sends
            && t.value.sends[c] == s.sends[c].(stage := Returned(n, s.sessions[n].toStub[0]))
  {
    var s1 := NextSend(s, ReadAnswer(c)).value;
    var s2 := NextSend(s1, CheckAgain(c)).value;
    Runs.TraceIsRun(NextDisciplined, [s, s1, s2], [ReadAnswer(c), CheckAgain(c)]);
  }

  /** If nothing interferes, a send to a reachable user returns what the user's agent decides. */
  lemma UndisturbedSendReturns(s: System, c: nat, n: nat, uid: uint32, pid: int32, feature: uint64, answer: Answer)
    requires c !in s.sends && pid in s.processes && Reachable(s, uid, n)
    ensures var t := Runs.Run(NextDisciplined, s,
                              [BeginSend(c, uid, pid, feature), ResolveSession(c)]
                              + ([WriteRequest(c), ReadRequest(n)] + [VerifyStart(n), ResolveApp(n)])
                              + [Decide(n, Some(answer))] + [ReadAnswer(c), CheckAgain(c)]);
            && t.Some? && c in t.value.sends && t.value.sends[c].stage.Returned?
            && t.value.sends[c].stage.decision.answer == answer
  {
    var begin := [BeginSend(c, uid, pid, feature), ResolveSession(c)];
    var ask := [WriteRequest(c), ReadRequest(n)] + [VerifyStart(n), ResolveApp(n)];
    BeginAndResolve(s, c, uid, pid, feature);
    var resolved := Runs.Run(NextDisciplined, s, begin).value;
    AskUser(resolved, c, n);
    Runs.RunAppend(NextDisciplined, s, begin, ask);
    var prompting := Runs.Run(NextDisciplined, resolved, ask).value;
    DecideOnce(prompting, n, WireOf(resolved.sends[c]), s.processes[pid], answer);
    Runs.RunAppend(NextDisciplined, s, begin + ask, [Decide(n, Some(answer))]);
    ReadAndReturn(Runs.Run(NextDisciplined, prompting, [Decide(n, Some(answer))]).value, c, n);
    Runs.RunAppend(NextDisciplined, s, begin + ask + [Decide(n, Some(answer))], [ReadAnswer(c), CheckAgain(c)]);
  }

  /******* When a waiting send can return *******/

  predicate IsCurrent(s: System, wire: Wire) {
    wire.pid in s.processes && s.processes[wire.pid].start == wire.start
  }

  /**
   The next answer out of the session is, or can still become, one for `wire`. A request that is
   not verified, or no longer, needs only some process under its pid, now or later.
   */
  predicate Answerable(s: System, n: nat, wire: Wire) {
    && n in s.sessions
    && var session := s.sessions[n];
       if session.toStub != [] then session.toStub[0].request == wire
       else
         && !session.closed
         && match session.service
            case Idle =>
              session.toSkeleton != [] && session.toSkeleton[0] == wire && (!session.verify || IsCurrent(s, wire))
            case Received(request) => request == wire && (!session.verify || IsCurrent(s, wire))
            case Crashed(_) => false
            case _ => session.service.request == wire
  }

  function NextServiceLabel(s: System, n: nat): Label
    requires n in s.sessions
  {
    match s.sessions[n].service
    case Idle => ReadRequest(n)
    case Received(_) => VerifyStart(n)
    case Verified(request) =>
      if request.pid in s.processes then ResolveApp(n)
      else Spawn(request.pid, if request.pid in s.lastStart then s.lastStart[request.pid] + 1 else 0, "")
    case _ => Decide(n, Some(Denied))
  }

  function StepsLeft(s: System, n: nat): nat
    requires n in s.sessions
  {
    if s.sessions[n].toStub != [] then 0
    else match s.sessions[n].service
      case Idle => 5
      case Received(_) => 4
      case Verified(request) => if request.pid in s.processes then 2 else 3
      case Prompting(_, _) => 1
      case Crashed(_) => 0
  }

  /** No process of `s` is missing or replaced in `t`. */
  ghost predicate ProcessesStay(s: System, t: System) {
    forall pid :: pid in s.processes ==> Holds(t, pid, s.processes[pid])
  }

  lemma ServeStep(s: System, n: nat, wire: Wire)
    requires Answerable(s, n, wire) && s.sessions[n].toStub == []
    ensures var t := NextDisciplined(s, NextServiceLabel(s, n));
            && t.Some? && Answerable(t.value, n, wire) && t.value.sends == s.sends && ProcessesStay(s, t.value)
            && StepsLeft(t.value, n) < StepsLeft(s, n)
  {
    var l := NextServiceLabel(s, n);
    if !l.Spawn? {
      assert NextDisciplined(s, l) == NextService(s, l);
    }
  }

  /** The skeleton can go on until the answer is there. */
  lemma ServeToAnswer(s: System, n: nat, wire: Wire) returns (t: System)
    requires Answerable(s, n, wire)
    ensures Runs.Reaches(NextDisciplined, s, t) && Answerable(t, n, wire) && t.sessions[n].toStub != []
    ensures ProcessesStay(s, t) && t.sends == s.sends
    decreases StepsLeft(s, n)
  {
    if s.sessions[n].toStub != [] {
      Runs.ReachesItself(NextDisciplined, s);
      t := s;
    } else {
      var l := NextServiceLabel(s, n);
      ServeStep(s, n, wire);
      var u := NextDisciplined(s, l).value;
      t := ServeToAnswer(u, n, wire);
      Runs.ReachesAfter(NextDisciplined, s, l, t);
      forall pid | pid in s.processes ensures Holds(t, pid, s.processes[pid]) {
        assert Holds(u, pid, s.processes[pid]);
      }
    }
  }

  /** A send waiting on a session can return the next answer that comes out of it. */
  lemma AnswerableReturns(s: System, c: nat, n: nat, wire: Wire) returns (t: System)
    requires c in s.sends && s.sends[c].stage == Waiting(n) && Answerable(s, n, wire)
    requires Holds(s, s.sends[c].pid, s.sends[c].first)
    ensures Runs.Reaches(NextDisciplined, s, t) && c in t.sends && t.sends[c].stage.Returned?
    ensures t.sends[c] == s.sends[c].(stage := t.sends[c].stage) && t.sends[c].stage.decision.request == wire
  {
    var u := ServeToAnswer(s, n, wire);
    ReadAndReturn(u, c, n);
    t := Runs.Run(NextDisciplined, u, [ReadAnswer(c), CheckAgain(c)]).value;
    Runs.ReachesOnward(NextDisciplined, s, u, t);
  }

  /** Some continuation that keeps the discipline makes the send return. */
  ghost predicate MayReturn(s: System, c: nat) {
    exists t :: Runs.Reaches(NextDisciplined, s, t) && c in t.sends && t.sends[c].stage.Returned?
  }

  /** The process that asked has gone: its pid is free or has a later start time. */
  ghost predicate Doomed(s: System, c: nat) {
    && c in s.sends && !s.sends[c].stage.Returned?
    && s.sends[c].pid in s.lastStart && s.sends[c].first.start <= s.lastStart[s.sends[c].pid]
    && !(s.sends[c].pid in s.processes && s.processes[s.sends[c].pid].start == s.sends[c].first.start)
  }

  /** The request that comes next will not pass the verification of the start time. */
  ghost predicate Rejected(s: System, session: Session) {
    && session.verify
    && (session.service.Received? || (session.service.Idle? && session.toSkeleton != []))
    && var wire := if session.service.Received? then session.service.request else session.toSkeleton[0];
       wire.pid in s.lastStart && wire.start <= s.lastStart[wire.pid] && !IsCurrent(s, wire)
  }

  /** No answer is there, and none will come. */
  ghost predicate Stuck(s: System, c: nat, n: nat) {
    && c in s.sends && n in s.sessions
    && (s.sends[c].stage == Waiting(n) || s.sends[c].stage == Threw)
    && s.sessions[n].toStub == []
    && (s.sessions[n].closed || s.sessions[n].service.Crashed? || Rejected(s, s.sessions[n]))
  }

  lemma StepDoomed(s: System, l: Label, c: nat)
    requires Doomed(s, c) && NextDisciplined(s, l).Some?
    ensures Doomed(NextDisciplined(s, l).value, c)
  {
  }

  lemma StepStuck(s: System, l: Label, c: nat, n: nat)
    requires Stuck(s, c, n) && NextDisciplined(s, l).Some?
    ensures Stuck(NextDisciplined(s, l).value, c, n)
  {
    var t := NextDisciplined(s, l).value;
    if l.Spawn? || l.Exit? {
      assert t.sessions == s.sessions && t.sends == s.sends;
    } else if l.Connect? || l.Disconnect? {
      assert t.sends == s.sends && t.processes == s.processes;
    } else if l.ReadRequest? || l.VerifyStart? || l.ResolveApp? || l.Decide? {
      assert t == SetSession(s, l.session, t.sessions[l.session]);
    } else {
      assert t.processes == s.processes && t.lastStart == s.lastStart;
    }
  }

  lemma DoomedNeverReturns(s: System, c: nat)
    requires Doomed(s, c)
    ensures !MayReturn(s, c)
  {
    forall u, l | Doomed(u, c) && NextDisciplined(u, l).Some? ensures Doomed(NextDisciplined(u, l).value, c) {
      StepDoomed(u, l, c);
    }
    Runs.ReachesKeeps(NextDisciplined, u => Doomed(u, c), s);
  }

  lemma StuckNeverReturns(s: System, c: nat, n: nat)
    requires Stuck(s, c, n)
    ensures !MayReturn(s, c)
  {
    forall u, l | Stuck(u, c, n) && NextDisciplined(u, l).Some? ensures Stuck(NextDisciplined(u, l).value, c, n) {
      StepStuck(u, l, c, n);
    }
    Runs.ReachesKeeps(NextDisciplined, u => Stuck(u, c, n), s);
  }

  /**
   Exactly when a waiting send can still return: the process that was sampled still holds its
   pid, and the answer is there or the skeleton is connected and has not been stopped by an
   exception.
   */
  lemma WaitingSendReturnsIff(s: System, c: nat, n: nat)
    requires Inv(s) && c in s.sends && s.sends[c].stage == Waiting(n)
    ensures n in s.sessions
    ensures MayReturn(s, c)
            <==> && Holds(s, s.sends[c].pid, s.sends[c].first)
                 && (s.sessions[n].toStub != [] || (!s.sessions[n].closed && !s.sessions[n].service.Crashed?))
  {
    assert SendOk(s, c) && SessionOk(s, n);
    if !Holds(s, s.sends[c].pid, s.sends[c].first) {
      DoomedNeverReturns(s, c);
    } else if s.sessions[n].toStub == [] && (s.sessions[n].closed || s.sessions[n].service.Crashed?) {
      StuckNeverReturns(s, c, n);
    } else {
      var t := AnswerableReturns(s, c, n, WireOf(s.sends[c]));
    }
  }

  /** A run from the start that ends in a send nothing can make return: its prompt has thrown. */
  lemma StuckFromStart(uid: uint32, pid: int32, start: int, app: string, feature: uint64) returns (t: System)
    ensures Runs.Reaches(NextDisciplined, START, t)
    ensures 0 in t.sends && t.sends[0].stage == Waiting(0) && !MayReturn(t, 0)
  {
    var s := AskedFromStart(uid, pid, start, app, feature);
    t := NextDisciplined(s, Decide(0, None)).value;
    Runs.ReachesItself(NextDisciplined, t);
    Runs.ReachesAfter(NextDisciplined, s, Decide(0, None), t);
    Runs.ReachesOnward(NextDisciplined, START, s, t);
    StuckNeverReturns(t, 0, 0);
  }

  /******* Answers to other requests *******/

  /** Some continuation that keeps the discipline makes the send return an answer to another request. */
  ghost predicate MayMisreturn(s: System, d: nat) {
    exists t :: && Runs.Reaches(NextDisciplined, s, t) && d in t.sends && t.sends[d].stage.Returned?
                && t.sends[d].stage.decision.request != WireOf(t.sends[d])
  }

  lemma KeptInvNeverMisreturns(s: System, d: nat)
    requires Inv(s)
    ensures !MayMisreturn(s, d)
  {
    ReachedKeepsInv(s);
    forall t | Runs.Reaches(NextDisciplined, s, t) && d in t.sends ensures SendOk(t, d) {}
  }

  /** The session holds one message, which is or answers the request `wire`. */
  ghost predicate HoldsOnly(session: Session, wire: Wire) {
    || (session.toSkeleton == [wire] && session.service == Idle && session.toStub == [])
    || (session.toSkeleton == [] && session.service != Idle && session.toStub == [] && session.service.request == wire)
    || (session.toSkeleton == [] && session.service == Idle && |session.toStub| == 1
        && session.toStub[0].request == wire)
  }

  /** Whatever the session holds is, or answers, the request `wire`. */
  ghost predicate AboutOnly(session: Session, wire: Wire) {
    && (forall w :: w in session.toSkeleton ==> w == wire)
    && (session.service != Idle ==> session.service.request == wire)
    && (forall x :: x in session.toStub ==> x.request == wire)
  }

  /** The send owns a session that holds nothing about other requests, or is done with it. */
  ghost predicate OnlyOwn(s: System, d: nat, n: nat) {
    && d in s.sends && n in s.sessions
    && match s.sends[d].stage
       case Waiting(m) => m == n && s.sessions[n].owner == Some(d) && AboutOnly(s.sessions[n], WireOf(s.sends[d]))
       case Answered(_, x) => x.request == WireOf(s.sends[d])
       case Returned(_, x) => x.request == WireOf(s.sends[d])
       case Threw => true
       case _ => false
  }

  lemma ServiceAboutOnly(s: System, l: Label, wire: Wire)
    requires (l.ReadRequest? || l.VerifyStart? || l.ResolveApp? || l.Decide?) && NextService(s, l).Some?
    requires AboutOnly(s.sessions[l.session], wire)
    ensures var t := NextService(s, l).value;
            && l.session in t.sessions && AboutOnly(t.sessions[l.session], wire)
            && t == SetSession(s, l.session, t.sessions[l.session].(owner := s.sessions[l.session].owner))
  {
    var session, after := s.sessions[l.session], NextService(s, l).value.sessions[l.session];
    assert l.ReadRequest? ==> session.toSkeleton[0] in session.toSkeleton;
    forall w | w in after.toSkeleton ensures w == wire {
      assert w in session.toSkeleton;
    }
    forall x | x in after.toStub ensures x.request == wire {
      assert x in session.toStub || (l.Decide? && x.request == session.service.request);
    }
  }

  lemma StepOnlyOwn(s: System, l: Label, d: nat, n: nat)
    requires OnlyOwn(s, d, n) && NextDisciplined(s, l).Some?
    ensures OnlyOwn(NextDisciplined(s, l).value, d, n)
  {
    var t := NextDisciplined(s, l).value;
    if l.Spawn? || l.Exit? {
      assert t.sessions == s.sessions && t.sends == s.sends;
    } else if l.Connect? || l.Disconnect? {
      assert t.sends == s.sends;
    } else if l.ReadRequest? || l.VerifyStart? || l.ResolveApp? || l.Decide? {
      if l.session == n && s.sends[d].stage.Waiting? { ServiceAboutOnly(s, l, WireOf(s.sends[d])); }
    } else {
      SendStepOnlyOwn(s, l, d, n);
    }
  }

  lemma SendStepOnlyOwn(s: System, l: Label, d: nat, n: nat)
    requires !(l.Spawn? || l.Exit? || l.Connect? || l.Disconnect?)
    requires !(l.ReadRequest? || l.VerifyStart? || l.ResolveApp? || l.Decide?)
    requires OnlyOwn(s, d, n) && NextSend(s, l).Some? && Disciplined(s, l)
    ensures OnlyOwn(NextSend(s, l).value, d, n)
  {
  }

  lemma OnlyOwnNeverMisreturns(s: System, d: nat, n: nat)
    requires OnlyOwn(s, d, n)
    ensures !MayMisreturn(s, d)
  {
    forall u, l | OnlyOwn(u, d, n) && NextDisciplined(u, l).Some? ensures OnlyOwn(NextDisciplined(u, l).value, d, n) {
      StepOnlyOwn(u, l, d, n);
    }
    Runs.ReachesKeeps(NextDisciplined, u => OnlyOwn(u, d, n), s);
  }

  /** A send that writes behind the message of another request can return the answer to that one. */
  lemma LeftoverReturns(s: System, d: nat, n: nat, wire: Wire) returns (t: System)
    requires d in s.sends && s.sends[d].stage == Resolved(n) && Answerable(s, n, wire) && !s.sessions[n].closed
    requires Holds(s, s.sends[d].pid, s.sends[d].first)
    ensures Next(s, WriteRequest(d)).Some? && Runs.Reaches(NextDisciplined, Next(s, WriteRequest(d)).value, t)
    ensures d in t.sends && t.sends[d] == s.sends[d].(stage := t.sends[d].stage) && t.sends[d].stage.Returned?
    ensures t.sends[d].stage.decision.request == wire
  {
    var written := NextSend(s, WriteRequest(d)).value;
    assert Answerable(written, n, wire);
    t := AnswerableReturns(written, d, n, wire);
  }

  /**
   Exactly when a write behind a message of another request is misleading: its send can come to
   return the answer to that request if and only if the two differ, the process that asks is
   still there, and the message is or can still be answered.
   */
  lemma LeftoverMisleadsIff(s: System, d: nat, n: nat, wire: Wire)
    requires d in s.sends && s.sends[d].stage == Resolved(n) && SendOk(s, d)
    requires n in s.sessions && !s.sessions[n].closed && HoldsOnly(s.sessions[n], wire)
    requires wire.pid in s.lastStart && wire.start <= s.lastStart[wire.pid]
    ensures Next(s, WriteRequest(d)).Some?
    ensures MayMisreturn(Next(s, WriteRequest(d)).value, d)
            <==> && wire != WireOf(s.sends[d]) && Holds(s, s.sends[d].pid, s.sends[d].first)
                 && Answerable(s, n, wire)
  {
    var written := NextSend(s, WriteRequest(d)).value;
    if wire == WireOf(s.sends[d]) {
      assert OnlyOwn(written, d, n);
      OnlyOwnNeverMisreturns(written, d, n);
    } else if !Holds(s, s.sends[d].pid, s.sends[d].first) {
      DoomedNeverReturns(written, d);
    } else if !Answerable(s, n, wire) {
      assert Stuck(written, d, n);
      StuckNeverReturns(written, d, n);
    } else {
      var t := LeftoverReturns(s, d, n, wire);
    }
  }

  /** The message of the send that waits on a session is the only one there. */
  lemma WaitingMessage(s: System, c: nat, n: nat)
    requires Inv(s) && c in s.sends && s.sends[c].stage == Waiting(n)
    ensures n in s.sessions && HoldsOnly(s.sessions[n], WireOf(s.sends[c]))
    ensures var wire := WireOf(s.sends[c]); wire.pid in s.lastStart && wire.start <= s.lastStart[wire.pid]
  {
    assert SendOk(s, c);
    assert SessionOk(s, n);
  }

  /**
   The code does not keep sends apart by itself. Exactly when a write is misleading: another
   send waits on the session with another request that is or can still be answered, and the
   process that asks is still there.
   */
  lemma WriteMisleadsIff(s: System, d: nat)
    requires Inv(s) && Next(s, WriteRequest(d)).Some?
    ensures var n := s.sends[d].stage.session;
            MayMisreturn(Next(s, WriteRequest(d)).value, d)
            <==> && Holds(s, s.sends[d].pid, s.sends[d].first)
                 && exists c :: && c in s.sends && s.sends[c].stage == Waiting(n)
                                && WireOf(s.sends[c]) != WireOf(s.sends[d]) && Answerable(s, n, WireOf(s.sends[c]))
  {
    var n := s.sends[d].stage.session;
    assert SendOk(s, d) && SessionOk(s, n);
    forall c | c in s.sends && s.sends[c].stage == Waiting(n) ensures s.sessions[n].owner == Some(c) {
      assert SendOk(s, c);
    }
    if Exclusive(s, WriteRequest(d)) {
      StepKeepsInv(s, WriteRequest(d));
      KeptInvNeverMisreturns(Next(s, WriteRequest(d)).value, d);
    } else {
      var c := s.sessions[n].owner.value;
      WaitingMessage(s, c, n);
      LeftoverMisleadsIff(s, d, n, WireOf(s.sends[c]));
    }
  }

  /**
   Nor is it enough that nobody waits. When a send gives up on a standing connection, the next
   write is exclusive, and yet misleading under the same conditions: the answer to the request
   that was given up is still to come.
   */
  lemma StaleAnswerMisleadsIff(s: System, c: nat, d: nat, n: nat)
    requires Inv(s) && c in s.sends && d in s.sends && s.sends[c].stage == Waiting(n) && s.sends[d].stage == Resolved(n)
    requires n in s.sessions && !s.sessions[n].closed
    ensures Next(s, SocketError(c, false)).Some?
    ensures var t := Next(s, SocketError(c, false)).value;
            && Exclusive(t, WriteRequest(d)) && Next(t, WriteRequest(d)).Some?
            && (MayMisreturn(Next(t, WriteRequest(d)).value, d)
                <==> && WireOf(s.sends[c]) != WireOf(s.sends[d]) && Holds(s, s.sends[d].pid, s.sends[d].first)
                     && Answerable(s, n, WireOf(s.sends[c])))
  {
    WaitingMessage(s, c, n);
    assert SendOk(s, c) && SendOk(s, d);
    LeftoverMisleadsIff(Next(s, SocketError(c, false)).value, d, n, WireOf(s.sends[c]));
  }

  /** One process, and one connection of the user. */
  lemma StartConnected(uid: uint32, pid: int32, start: int, app: string)
    ensures var t := Runs.Run(NextDisciplined, START, [Spawn(pid, start, app), Connect(0, uid, true)]);
            && t.Some? && Reachable(t.value, uid, 0)
            && pid in t.value.processes && t.value.processes[pid].app == app && t.value.sessions[0].uid == uid
            && t.value.sends == map[] && t.value.sessions.Keys == {0}
  {
    var s1 := NextDisciplined(START, Spawn(pid, start, app)).value;
    var s2 := NextDisciplined(s1, Connect(0, uid, true)).value;
    Runs.TraceIsRun(NextDisciplined, [START, s1, s2], [Spawn(pid, start, app), Connect(0, uid, true)]);
  }

  /** From the start up to the user: one process has sent, and its session is prompting. */
  lemma AskedFromStart(uid: uint32, pid: int32, start: int, app: string, feature: uint64) returns (s: System)
    ensures Runs.Run(NextDisciplined, START,
                     [Spawn(pid, start, app), Connect(0, uid, true)]
                     + [BeginSend(0, uid, pid, feature), ResolveSession(0)]
                     + ([WriteRequest(0), ReadRequest(0)] + [VerifyStart(0), ResolveApp(0)]))
            == Some(s)
    ensures 0 in s.sends && 0 in s.sessions && pid in s.processes && s.processes[pid].app == app
    ensures s.sends[0] == Send(uid, pid, feature, s.processes[pid], Waiting(0))
    ensures s.sessions[0].uid == uid && !s.sessions[0].closed && s.sessions[0].toStub == []
    ensures s.sessions[0].service == Prompting(WireOf(s.sends[0]), s.processes[pid])
  {
    var connect := [Spawn(pid, start, app), Connect(0, uid, true)];
    var begin := [BeginSend(0, uid, pid, feature), ResolveSession(0)];
    var ask := [WriteRequest(0), ReadRequest(0)] + [VerifyStart(0), ResolveApp(0)];
    StartConnected(uid, pid, start, app);
    var connected := Runs.Run(NextDisciplined, START, connect).value;
    BeginAndResolve(connected, 0, uid, pid, feature);
    var resolved := Runs.Run(NextDisciplined, connected, begin).value;
    Runs.RunAppend(NextDisciplined, START, connect, begin);
    AskUser(resolved, 0, 0);
    Runs.RunAppend(NextDisciplined, START, connect + begin, ask);
    s := Runs.Run(NextDisciplined, resolved, ask).value;
  }

  lemma OneWaitsOneResolved(s: System, n: nat, uid: uint32, pid: int32, f: uint64, g: uint64) returns (t: System)
    requires s.sends == map[] && pid in s.processes && Reachable(s, uid, n)
    ensures Runs.Run(NextDisciplined, s, [BeginSend(0, uid, pid, f), ResolveSession(0)]
                                       + [BeginSend(1, uid, pid, g), ResolveSession(1)] + [WriteRequest(0)])
            == Some(t)
    ensures t.processes == s.processes && 0 in t.sends && 1 in t.sends && n in t.sessions
    ensures t.sends[0] == Send(uid, pid, f, s.processes[pid], Waiting(n))
    ensures t.sends[1] == Send(uid, pid, g, s.processes[pid], Resolved(n))
    ensures !t.sessions[n].closed && Answerable(t, n, WireOf(t.sends[0]))
  {
    var first, second := [BeginSend(0, uid, pid, f), ResolveSession(0)], [BeginSend(1, uid, pid, g), ResolveSession(1)];
    BeginAndResolve(s, 0, uid, pid, f);
    var s1 := Runs.Run(NextDisciplined, s, first).value;
    BeginAndResolve(s1, 1, uid, pid, g);
    var s2 := Runs.Run(NextDisciplined, s1, second).value;
    Runs.RunAppend(NextDisciplined, s, first, second);
    Runs.RunAppend(NextDisciplined, s, first + second, [WriteRequest(0)]);
    t := NextSend(s2, WriteRequest(0)).value;
    Runs.TraceIsRun(NextDisciplined, [s2, t], [WriteRequest(0)]);
  }

  lemma SharingReached(uid: uint32, pid: int32, start: int, app: string, f: uint64, g: uint64) returns (s: System)
    ensures Runs.Reaches(NextDisciplined, START, s)
    ensures pid in s.processes && 0 in s.sends && 1 in s.sends && 0 in s.sessions
    ensures s.sends[0] == Send(uid, pid, f, s.processes[pid], Waiting(0))
    ensures s.sends[1] == Send(uid, pid, g, s.processes[pid], Resolved(0))
    ensures !s.sessions[0].closed && Answerable(s, 0, WireOf(s.sends[0]))
  {
    StartConnected(uid, pid, start, app);
    var connected := Runs.Run(NextDisciplined, START, [Spawn(pid, start, app), Connect(0, uid, true)]).value;
    s := OneWaitsOneResolved(connected, 0, uid, pid, f, g);
    Runs.ReachesOnward(NextDisciplined, START, connected, s);
  }

  /** A run from the start: a process asks for two features, and the answer for one is returned for the other. */
  lemma FeaturesSwapFromStart(uid: uint32, pid: int32, start: int, app: string, f: uint64, g: uint64)
    returns (t: System)
    ensures Runs.Reaches(Next, START, t)
    ensures 1 in t.sends && t.sends[1].feature == g && t.sends[1].stage.Returned?
    ensures t.sends[1].stage.decision.request.feature == f
  {
    var s := SharingReached(uid, pid, start, app, f, g);
    t := LeftoverReturns(s, 1, 0, WireOf(s.sends[0]));
    Runs.ReachesMore(NextDisciplined, Next, START, s);
    Runs.ReachesMore(NextDisciplined, Next, Next(s, WriteRequest(1)).value, t);
    Runs.ReachesAfter(Next, s, WriteRequest(1), t);
    Runs.ReachesOnward(Next, START, s, t);
  }

  /** The same with one send at a time: the first one is interrupted, and the second one gets its answer. */
  lemma StaleAnswerFromStart(uid: uint32, pid: int32, start: int, app: string, f: uint64, g: uint64)
    returns (s: System, t: System)
    ensures Runs.Reaches(NextDisciplined, START, s) && Next(s, SocketError(0, false)).Some?
    ensures var u := Next(s, SocketError(0, false)).value;
            Exclusive(u, WriteRequest(1)) && Next(u, WriteRequest(1)).Some?
            && Runs.Reaches(NextDisciplined, Next(u, WriteRequest(1)).value, t)
    ensures 1 in t.sends && t.sends[1].feature == g && t.sends[1].stage.Returned?
    ensures t.sends[1].stage.decision.request.feature == f
  {
    s := SharingReached(uid, pid, start, app, f, g);
    ReachedKeepsInv(START);
    assert SendOk(s, 0);
    var u := Next(s, SocketError(0, false)).value;
    t := LeftoverReturns(u, 1, 0, WireOf(s.sends[0]));
  }

  /******* Error handling *******/

  /**
   A peer that has gone away makes `send` forget whatever session is registered for the user.
   That forgets an open session exactly when the one registered is not the session of this
   send but one that a newer connection of the user has opened.
   */
  lemma ErrorForgetsNewerIff(s: System, c: nat)
    requires Inv(s) && NextSend(s, SocketError(c, true)).Some?
    ensures var t := NextSend(s, SocketError(c, true)).value;
            var uid, n := s.sends[c].uid, s.sends[c].stage.session;
            (exists u :: u in s.registry && !s.sessions[s.registry[u]].closed && u !in t.registry)
            <==> uid in s.registry && s.registry[uid] != n && !s.sessions[s.registry[uid]].closed
  {
  }

  lemma ReconnectThenError(s: System, c: nat, n: nat, m: nat, uid: uint32)
    requires c in s.sends && s.sends[c].stage == Resolved(n) && s.sends[c].uid == uid
    requires n in s.sessions && m !in s.sessions
    ensures var t := Runs.Run(NextDisciplined, s, [Disconnect(n), Connect(m, uid, true), SocketError(c, true)]);
            && t.Some? && m in t.value.sessions && t.value.sessions[m].uid == uid && !t.value.sessions[m].closed
            && uid !in t.value.registry
  {
    var s1 := NextDisciplined(s, Disconnect(n)).value;
    var s2 := NextDisciplined(s1, Connect(m, uid, true)).value;
    var s3 := NextDisciplined(s2, SocketError(c, true)).value;
    Runs.TraceIsRun(NextDisciplined, [s, s1, s2, s3], [Disconnect(n), Connect(m, uid, true), SocketError(c, true)]);
  }

  /** A run in which that happens: the user reconnects while a send is under way. */
  lemma ErrorForgetsNewerSession(uid: uint32, pid: int32, start: int, app: string, feature: uint64)
    ensures var t := Runs.Run(NextDisciplined, START,
                              [Spawn(pid, start, app), Connect(0, uid, true)]
                              + [BeginSend(0, uid, pid, feature), ResolveSession(0)]
                              + [Disconnect(0), Connect(1, uid, true), SocketError(0, true)]);
            && t.Some? && 1 in t.value.sessions && t.value.sessions[1].uid == uid && !t.value.sessions[1].closed
            && uid !in t.value.registry
  {
    var connect := [Spawn(pid, start, app), Connect(0, uid, true)];
    var ask := [BeginSend(0, uid, pid, feature), ResolveSession(0)];
    StartConnected(uid, pid, start, app);
    var connected := Runs.Run(NextDisciplined, START, connect).value;
    BeginAndResolve(connected, 0, uid, pid, feature);
    Runs.RunAppend(NextDisciplined, START, connect, ask);
    ReconnectThenError(Runs.Run(NextDisciplined, connected, ask).value, 0, 0, 1, uid);
    Runs.RunAppend(NextDisciplined, START, connect + ask, [Disconnect(0), Connect(1, uid, true), SocketError(0, true)]);
  }
}
