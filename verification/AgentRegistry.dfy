/**
 Per-user agents registered over the bus. Every client keeps the skeletons it has announced in
 a registry of its own; the registering service keeps, per user, the client and object path to
 forward requests to. Calls and replies of one client travel in order; clients interleave.
 */
module AgentRegistry {
  import opened TrustTypes
  import Decimals
  import Runs

  /** Where the service reaches an agent: the sender of the announcement and its object. */
  datatype Endpoint = Endpoint(client: nat, path: string)

  datatype Announcement = Register(uid: uint32, path: string) | Unregister(uid: uint32)
  datatype Acknowledgement = Registered(uid: uint32, path: string) | Refused(uid: uint32) | Unregistered(uid: uint32)

  /** `skeletons` is the client's own registry; `outbox` and `inbox` hold calls and replies under way. */
  datatype Client = Client(
    skeletons: map<uint32, string>, counter: nat, outbox: seq<Announcement>, inbox: seq<Acknowledgement>)

  datatype System = System(registry: map<uint32, Endpoint>, clients: map<nat, Client>)

  datatype Label =
    | Join(client: nat)
    | CallRegister(client: nat, uid: uint32)
    | CallUnregister(client: nat, uid: uint32)
    | Serve(client: nat, implThrows: bool, replyFails: bool)
    | Deliver(client: nat)
    | LoseUnregister(client: nat, uid: uint32)

  function AgentPath(n: nat): string {
    "/core/trust/dbus/Agent/" + Decimals.Decimal(n)
  }

  /** What the registration handler does to the registry: a reply that cannot be sent is rolled back. */
  function ServeRegister(registry: map<uint32, Endpoint>, uid: uint32, endpoint: Endpoint,
                         implThrows: bool, replyFails: bool): map<uint32, Endpoint> {
    var registered := if implThrows then registry else registry[uid := endpoint];
    if replyFails then registered - {uid} else registered
  }

  /** An implementation that throws is passed over in silence: the client is told of success. */
  function ServeUnregister(registry: map<uint32, Endpoint>, uid: uint32, implThrows: bool): map<uint32, Endpoint> {
    if implThrows then registry else registry - {uid}
  }

  /** The client's side of a reply. A client forgets its skeleton however unregistering went. */
  function Receive(skeletons: map<uint32, string>, a: Acknowledgement): map<uint32, string> {
    match a
    case Registered(uid, path) => skeletons[uid := path]
    case Refused(_) => skeletons
    case Unregistered(uid) => skeletons - {uid}
  }

  function Next(s: System, l: Label): Option<System> {
    if l.Join? then
      if l.client in s.clients then None else Some(s.(clients := s.clients[l.client := Client(map[], 0, [], [])]))
    else if l.client !in s.clients then None
    else
      var c := s.clients[l.client];
      match l
      case CallRegister(n, uid) =>
        var asked := c.(counter := c.counter + 1, outbox := c.outbox + [Register(uid, AgentPath(c.counter))]);
        Some(s.(clients := s.clients[n := asked]))
      case CallUnregister(n, uid) =>
        Some(s.(clients := s.clients[n := c.(outbox := c.outbox + [Unregister(uid)])]))
      case Serve(n, implThrows, replyFails) =>
        if c.outbox == [] then None
        else
          var served := c.(outbox := c.outbox[1..]);
          (match c.outbox[0]
           case Register(uid, path) =>
             var answer := if implThrows then Refused(uid) else Registered(uid, path);
             var answered := if replyFails then served else served.(inbox := served.inbox + [answer]);
             Some(System(ServeRegister(s.registry, uid, Endpoint(n, path), implThrows, replyFails),
                         s.clients[n := answered]))
           case Unregister(uid) =>
             Some(System(ServeUnregister(s.registry, uid, implThrows),
                         s.clients[n := served.(inbox := served.inbox + [Unregistered(uid)])])))
      case Deliver(n) =>
        if c.inbox == [] then None
        else Some(s.(clients := s.clients[n := c.(skeletons := Receive(c.skeletons, c.inbox[0]),
                                                   inbox := c.inbox[1..])]))
      case LoseUnregister(n, uid) =>
        Some(s.(clients := s.clients[n := c.(skeletons := c.skeletons - {uid})]))
  }

  /** The client's registry once all replies under way have arrived. */
  function Settled(skeletons: map<uint32, string>, inbox: seq<Acknowledgement>): map<uint32, string>
    decreases |inbox|
  {
    if inbox == [] then skeletons else Settled(Receive(skeletons, inbox[0]), inbox[1..])
  }

  lemma {:induction false} SettledAppend(
    skeletons: map<uint32, string>, inbox: seq<Acknowledgement>, a: Acknowledgement)
    ensures Settled(skeletons, inbox + [a]) == Receive(Settled(skeletons, inbox), a)
    decreases |inbox|
  {
    if inbox == [] {
      assert ([] + [a])[1..] == [];
    } else {
      assert (inbox + [a])[1..] == inbox[1..] + [a];
      SettledAppend(Receive(skeletons, inbox[0]), inbox[1..], a);
    }
  }

  /** Every registered endpoint is a skeleton its client holds or is about to hold. */
  ghost predicate Backed(s: System, uid: uint32)
    requires uid in s.registry
  {
    var e := s.registry[uid];
    && e.client in s.clients
    && var held := Settled(s.clients[e.client].skeletons, s.clients[e.client].inbox);
       uid in held && held[uid] == e.path
  }

  ghost predicate Consistent(s: System) {
    forall uid :: uid in s.registry ==> Backed(s, uid)
  }

  /** A reply under way will give the client a skeleton for the user. */
  predicate Awaited(inbox: seq<Acknowledgement>, uid: uint32) {
    exists a :: a in inbox && a.Registered? && a.uid == uid
  }

  predicate RegisteredTo(s: System, uid: uint32, n: nat) {
    uid in s.registry && s.registry[uid].client == n
  }

  /**
   Two steps make a client forget a skeleton that the service does not unregister: a lost
   unregister call, and one whose implementation throws. They do no harm unless the user is
   registered to this very client; the lost call does none either if a newer skeleton is on
   its way to the client.
   */
  predicate Harmless(s: System, l: Label) {
    match l
    case LoseUnregister(n, uid) =>
      n in s.clients && RegisteredTo(s, uid, n) ==> Awaited(s.clients[n].inbox, uid)
    case Serve(n, implThrows, _) =>
      implThrows && n in s.clients && s.clients[n].outbox != [] && s.clients[n].outbox[0].Unregister?
      ==> !RegisteredTo(s, s.clients[n].outbox[0].uid, n)
    case _ => true
  }

  /** Forgetting a skeleton first shows in the end unless a reply about the user overrides it. */
  lemma {:induction false} SettledWithout(skeletons: map<uint32, string>, inbox: seq<Acknowledgement>, uid: uint32)
    ensures var before, after := Settled(skeletons, inbox), Settled(skeletons - {uid}, inbox);
            && after - {uid} == before - {uid}
            && (Awaited(inbox, uid) ==> after == before)
            && (!Awaited(inbox, uid) ==> uid !in after)
    decreases |inbox|
  {
    if inbox != [] {
      var a, rest := inbox[0], inbox[1..];
      SettledWithout(Receive(skeletons, a), rest, uid);
      assert Awaited(inbox, uid) <==> Awaited(rest, uid) || (a.Registered? && a.uid == uid) by {
        assert forall x :: x in inbox <==> x == a || x in rest;
      }
      if !a.Refused? && a.uid == uid {
        assert Receive(skeletons - {uid}, a) == Receive(skeletons, a);
        if a.Unregistered? { assert Receive(skeletons, a) - {uid} == Receive(skeletons, a); }
      } else {
        assert Receive(skeletons - {uid}, a) == Receive(skeletons, a) - {uid};
      }
    } else {
      assert skeletons - {uid} - {uid} == skeletons - {uid};
    }
  }

  /** Exactly when losing an unregister call is harmless, and when it leaves a user without skeleton. */
  lemma LostUnregisterIff(s: System, n: nat, uid: uint32)
    requires Consistent(s) && n in s.clients
    ensures Consistent(Next(s, LoseUnregister(n, uid)).value) <==> Harmless(s, LoseUnregister(n, uid))
  {
    var t := Next(s, LoseUnregister(n, uid)).value;
    var c := s.clients[n];
    SettledWithout(c.skeletons, c.inbox, uid);
    forall u | u in s.registry && (u != uid || s.registry[u].client != n) ensures Backed(t, u) {
      assert Backed(s, u);
      var before, after := Settled(c.skeletons, c.inbox), Settled(c.skeletons - {uid}, c.inbox);
      assert u != uid ==> (u in after <==> u in after - {uid}) && (u in before <==> u in before - {uid});
      assert u != uid && u in before ==> (before - {uid})[u] == before[u] && (after - {uid})[u] == after[u];
    }
    if uid in s.registry && s.registry[uid].client == n {
      assert Backed(s, uid);
      assert Backed(t, uid) <==> Awaited(c.inbox, uid);
    }
  }

  lemma ServeRegisterConsistent(s: System, n: nat, implThrows: bool, replyFails: bool)
    requires Consistent(s) && Next(s, Serve(n, implThrows, replyFails)).Some? && s.clients[n].outbox[0].Register?
    ensures Consistent(Next(s, Serve(n, implThrows, replyFails)).value)
  {
    var t := Next(s, Serve(n, implThrows, replyFails)).value;
    var c := s.clients[n];
    var uid, path := c.outbox[0].uid, c.outbox[0].path;
    SettledAppend(c.skeletons, c.inbox, if implThrows then Refused(uid) else Registered(uid, path));
    forall u | u in t.registry ensures Backed(t, u) { assert u in s.registry ==> Backed(s, u); }
  }

  lemma ServeUnregisterConsistentIff(s: System, n: nat, implThrows: bool, replyFails: bool)
    requires Consistent(s) && Next(s, Serve(n, implThrows, replyFails)).Some? && s.clients[n].outbox[0].Unregister?
    ensures Consistent(Next(s, Serve(n, implThrows, replyFails)).value)
            <==> implThrows ==> !RegisteredTo(s, s.clients[n].outbox[0].uid, n)
  {
    var t := Next(s, Serve(n, implThrows, replyFails)).value;
    var c, uid := s.clients[n], s.clients[n].outbox[0].uid;
    SettledAppend(c.skeletons, c.inbox, Unregistered(uid));
    forall u | u in t.registry && !(u == uid && RegisteredTo(s, uid, n)) ensures Backed(t, u) {
      assert Backed(s, u);
    }
    if implThrows && RegisteredTo(s, uid, n) { assert !Backed(t, uid); }
  }

  /** The only steps that break the agreement are those that are not harmless. */
  lemma StepConsistentIff(s: System, l: Label)
    requires Consistent(s) && Next(s, l).Some?
    ensures Consistent(Next(s, l).value) <==> Harmless(s, l)
  {
    if l.LoseUnregister? {
      LostUnregisterIff(s, l.client, l.uid);
    } else if l.Serve? {
      if s.clients[l.client].outbox[0].Register? {
        ServeRegisterConsistent(s, l.client, l.implThrows, l.replyFails);
      } else {
        ServeUnregisterConsistentIff(s, l.client, l.implThrows, l.replyFails);
      }
    } else {
      var t := Next(s, l).value;
      forall uid | uid in t.registry ensures Backed(t, uid) { assert Backed(s, uid); }
    }
  }

  /** The steps of a system in which unregister calls get lost or throw only where that is harmless. */
  function NextHarmless(s: System, l: Label): Option<System> {
    if Harmless(s, l) then Next(s, l) else None
  }

  /**
   However many clients call in whatever order, and even if the service throws or cannot send
   its replies: whenever no reply to a client is under way, each user registered to that client
   maps to the path of the skeleton the client holds for the user.
   */
  lemma RegistriesAgree(s: System, ls: seq<Label>)
    requires Consistent(s) && Runs.Run(NextHarmless, s, ls).Some?
    ensures var t := Runs.Run(NextHarmless, s, ls).value;
            && Consistent(t)
            && (forall uid :: uid in t.registry ==>
                  var e := t.registry[uid];
                  && e.client in t.clients
                  && (t.clients[e.client].inbox == [] ==>
                        uid in t.clients[e.client].skeletons && t.clients[e.client].skeletons[uid] == e.path))
  {
    forall u, l | Consistent(u) && NextHarmless(u, l).Some? ensures Consistent(NextHarmless(u, l).value) {
      StepConsistentIff(u, l);
    }
    Runs.RunKeeps(NextHarmless, u => Consistent(u), s, ls);
    var t := Runs.Run(NextHarmless, s, ls).value;
    forall uid | uid in t.registry ensures Backed(t, uid) {}
  }

  predicate SameEndpoint(before: map<uint32, Endpoint>, after: map<uint32, Endpoint>, uid: uint32) {
    (uid in before <==> uid in after) && (uid in before ==> before[uid] == after[uid])
  }

  /** The user's endpoint after a call about the user is served. */
  function EndpointAfter(s: System, l: Label): Option<Endpoint>
    requires l.Serve? && Next(s, l).Some?
  {
    match s.clients[l.client].outbox[0]
    case Unregister(uid) =>
      if !l.implThrows || uid !in s.registry then None else Some(s.registry[uid])
    case Register(uid, path) =>
      if l.replyFails then None
      else if !l.implThrows then Some(Endpoint(l.client, path))
      else if uid in s.registry then Some(s.registry[uid])
      else None
  }

  /**
   What serving a call does: it concerns the user named in it and no other. A registration that
   is refused leaves the user's old agent in place, one whose reply fails leaves none.
   */
  lemma ServeConcernsOneUser(s: System, l: Label, uid: uint32)
    requires Next(s, l).Some?
    ensures var t := Next(s, l).value;
            if l.Serve? && s.clients[l.client].outbox[0].uid == uid
            then EndpointAfter(s, l) == (if uid in t.registry then Some(t.registry[uid]) else None)
            else SameEndpoint(s.registry, t.registry, uid)
  {
  }

  /** The step serves a call about the user that is neither refused nor passed over. */
  predicate Settles(s: System, l: Label, uid: uint32) {
    && l.Serve? && l.client in s.clients && s.clients[l.client].outbox != []
    && s.clients[l.client].outbox[0].uid == uid
    && (l.implThrows ==> s.clients[l.client].outbox[0].Register? && l.replyFails)
  }

  /** Over every run, a user keeps its endpoint until a call about this user settles otherwise. */
  lemma {:induction false} EndpointStays(trace: seq<System>, ls: seq<Label>, uid: uint32, i: nat)
    requires Runs.IsTrace(Next, trace, ls) && i <= |ls|
    requires forall j :: 0 <= j < |ls| ==> !Settles(trace[j], ls[j], uid)
    ensures SameEndpoint(trace[0].registry, trace[i].registry, uid)
  {
    if i > 0 {
      EndpointStays(trace, ls, uid, i - 1);
      assert Runs.StepsTo(Next, trace[i - 1], ls[i - 1], trace[i - 1 + 1]);
      ServeConcernsOneUser(trace[i - 1], ls[i - 1], uid);
      assert !Settles(trace[i - 1], ls[i - 1], uid);
    }
  }

  /**
   A registration that nothing disturbs ends with both registries naming the new skeleton. If
   its reply cannot be sent, the user ends up without agent and the client with what it had.
   */
  lemma RegistrationOutcome(s: System, n: nat, uid: uint32, replyFails: bool)
    requires n in s.clients && s.clients[n].outbox == [] && s.clients[n].inbox == []
    ensures var path := AgentPath(s.clients[n].counter);
            var t := Runs.Run(Next, s, [CallRegister(n, uid), Serve(n, false, replyFails)]
                                       + if replyFails then [] else [Deliver(n)]);
            && t.Some? && n in t.value.clients && t.value.clients[n].inbox == []
            && (!replyFails ==> && t.value.registry == s.registry[uid := Endpoint(n, path)]
                                && t.value.clients[n].skeletons == s.clients[n].skeletons[uid := path])
            && (replyFails ==> && t.value.registry == s.registry - {uid}
                               && t.value.clients[n].skeletons == s.clients[n].skeletons)
  {
    var s1 := Next(s, CallRegister(n, uid)).value;
    var s2 := Next(s1, Serve(n, false, replyFails)).value;
    if replyFails {
      Runs.TraceIsRun(Next, [s, s1, s2], [CallRegister(n, uid), Serve(n, false, replyFails)] + []);
      assert s.registry[uid := Endpoint(n, AgentPath(s.clients[n].counter))] - {uid} == s.registry - {uid};
    } else {
      var s3 := Next(s2, Deliver(n)).value;
      Runs.TraceIsRun(Next, [s, s1, s2, s3], [CallRegister(n, uid), Serve(n, false, replyFails)] + [Deliver(n)]);
    }
  }

  /** A run that ends with a user registered to a client that holds no skeleton, and no reply under way. */
  lemma LostUnregisterDangles(n: nat, uid: uint32)
    ensures var t := Runs.Run(Next, System(map[], map[]),
                              [Join(n), CallRegister(n, uid), Serve(n, false, false), Deliver(n),
                               LoseUnregister(n, uid)]);
            && t.Some? && uid in t.value.registry && t.value.registry[uid].client == n
            && n in t.value.clients && t.value.clients[n].inbox == [] && uid !in t.value.clients[n].skeletons
            && !Consistent(t.value)
  {
    var s0 := System(map[], map[]);
    var s1 := Next(s0, Join(n)).value;
    var s2 := Next(s1, CallRegister(n, uid)).value;
    var s3 := Next(s2, Serve(n, false, false)).value;
    var s4 := Next(s3, Deliver(n)).value;
    var s5 := Next(s4, LoseUnregister(n, uid)).value;
    Runs.TraceIsRun(Next, [s0, s1, s2, s3, s4, s5],
                    [Join(n), CallRegister(n, uid), Serve(n, false, false), Deliver(n), LoseUnregister(n, uid)]);
    assert uid in s5.registry && !Backed(s5, uid);
  }

  /** The same end after an unregister call whose implementation throws. */
  lemma ThrowingUnregisterDangles(n: nat, uid: uint32)
    ensures var t := Runs.Run(Next, System(map[], map[]),
                              [Join(n), CallRegister(n, uid), Serve(n, false, false), Deliver(n)]
                              + [CallUnregister(n, uid), Serve(n, true, false), Deliver(n)]);
            && t.Some? && uid in t.value.registry && t.value.registry[uid].client == n
            && n in t.value.clients && t.value.clients[n].inbox == [] && uid !in t.value.clients[n].skeletons
            && !Consistent(t.value)
  {
    var s0 := System(map[], map[]);
    var s1 := Next(s0, Join(n)).value;
    var s2 := Next(s1, CallRegister(n, uid)).value;
    var s3 := Next(s2, Serve(n, false, false)).value;
    var s4 := Next(s3, Deliver(n)).value;
    Runs.TraceIsRun(Next, [s0, s1, s2, s3, s4],
                    [Join(n), CallRegister(n, uid), Serve(n, false, false), Deliver(n)]);
    var s5 := Next(s4, CallUnregister(n, uid)).value;
    var s6 := Next(s5, Serve(n, true, false)).value;
    var s7 := Next(s6, Deliver(n)).value;
    Runs.TraceIsRun(Next, [s4, s5, s6, s7], [CallUnregister(n, uid), Serve(n, true, false), Deliver(n)]);
    Runs.RunAppend(Next, s0, [Join(n), CallRegister(n, uid), Serve(n, false, false), Deliver(n)],
                   [CallUnregister(n, uid), Serve(n, true, false), Deliver(n)]);
    assert uid in s7.registry && !Backed(s7, uid);
  }

  lemma FirstAgentPath()
    ensures AgentPath(0) == "/core/trust/dbus/Agent/0"
  {
  }

  lemma AgentPathsInjective(m: nat, n: nat)
    ensures AgentPath(m) == AgentPath(n) <==> m == n
  {
    Decimals.PrintedInjective("/core/trust/dbus/Agent/", m, n);
  }

  /** The number of registrations a client has asked for never falls, and each one has a number of its own. */
  lemma {:induction false} CounterGrows(trace: seq<System>, ls: seq<Label>, i: nat, j: nat, n: nat)
    requires Runs.IsTrace(Next, trace, ls) && i <= j <= |ls| && n in trace[i].clients
    ensures n in trace[j].clients && trace[i].clients[n].counter <= trace[j].clients[n].counter
    ensures i < j && ls[i].CallRegister? && ls[i].client == n ==>
              trace[i].clients[n].counter < trace[j].clients[n].counter
  {
    if i < j {
      assert Runs.StepsTo(Next, trace[j - 1], ls[j - 1], trace[j - 1 + 1]);
      CounterGrows(trace, ls, i, j - 1, n);
    }
  }

  /** The path announced by a call to register. */
  function Announced(s: System, l: Label): Option<string> {
    if !l.CallRegister? || Next(s, l).None? then None
    else
      var outbox := Next(s, l).value.clients[l.client].outbox;
      if outbox == [] || !outbox[|outbox| - 1].Register? then None else Some(outbox[|outbox| - 1].path)
  }

  /** Over every run, a client never announces two skeletons under one path. */
  lemma AnnouncedPathsDiffer(trace: seq<System>, ls: seq<Label>, i: nat, j: nat, n: nat)
    requires Runs.IsTrace(Next, trace, ls) && i < j < |ls|
    requires ls[i].CallRegister? && ls[j].CallRegister? && ls[i].client == ls[j].client == n
    ensures Announced(trace[i], ls[i]).Some? && Announced(trace[j], ls[j]).Some?
    ensures Announced(trace[i], ls[i]) != Announced(trace[j], ls[j])
  {
    assert Runs.StepsTo(Next, trace[i], ls[i], trace[i + 1]);
    assert Runs.StepsTo(Next, trace[j], ls[j], trace[j + 1]);
    CounterGrows(trace, ls, i, j, n);
    AgentPathsInjective(trace[i].clients[n].counter, trace[j].clients[n].counter);
  }

  function OutboxOf(s: System, n: nat): seq<Announcement> {
    if n in s.clients then s.clients[n].outbox else []
  }

  /** The call a step makes on behalf of a client. */
  function Made(s: System, l: Label, n: nat): seq<Announcement> {
    match l
    case CallRegister(m, uid) =>
      if m == n && n in s.clients then [Register(uid, AgentPath(s.clients[n].counter))] else []
    case CallUnregister(m, uid) => if m == n then [Unregister(uid)] else []
    case _ => []
  }

  /** The call of a client that a step serves. */
  function Served(s: System, l: Label, n: nat): seq<Announcement> {
    if l.Serve? && l.client == n && OutboxOf(s, n) != [] then [OutboxOf(s, n)[0]] else []
  }

  function AllMade(trace: seq<System>, ls: seq<Label>, i: nat, n: nat): seq<Announcement>
    requires i <= |ls| < |trace|
  {
    if i == 0 then [] else AllMade(trace, ls, i - 1, n) + Made(trace[i - 1], ls[i - 1], n)
  }

  function AllServed(trace: seq<System>, ls: seq<Label>, i: nat, n: nat): seq<Announcement>
    requires i <= |ls| < |trace|
  {
    if i == 0 then [] else AllServed(trace, ls, i - 1, n) + Served(trace[i - 1], ls[i - 1], n)
  }

  lemma StepConserves(s: System, l: Label, n: nat)
    requires Next(s, l).Some?
    ensures OutboxOf(s, n) + Made(s, l, n) == Served(s, l, n) + OutboxOf(Next(s, l).value, n)
  {
  }

  /** Over every run, the calls a client has made are those served so far, in this order, and those under way. */
  lemma {:induction false} NoCallIsLost(trace: seq<System>, ls: seq<Label>, i: nat, n: nat)
    requires Runs.IsTrace(Next, trace, ls) && trace[0].clients == map[] && i <= |ls|
    ensures AllMade(trace, ls, i, n) == AllServed(trace, ls, i, n) + OutboxOf(trace[i], n)
  {
    if i > 0 {
      NoCallIsLost(trace, ls, i - 1, n);
      assert Runs.StepsTo(Next, trace[i - 1], ls[i - 1], trace[i - 1 + 1]);
      StepConserves(trace[i - 1], ls[i - 1], n);
      Regroup(AllServed(trace, ls, i - 1, n), OutboxOf(trace[i - 1], n), Made(trace[i - 1], ls[i - 1], n),
              Served(trace[i - 1], ls[i - 1], n), OutboxOf(trace[i], n));
    }
  }

  lemma Regroup<T>(served: seq<T>, before: seq<T>, made: seq<T>, now: seq<T>, after: seq<T>)
    requires before + made == now + after
    ensures served + before + made == served + now + after
  {
    assert served + before + made == served + (before + made);
    assert served + now + after == served + (now + after);
  }

  /******* The classes *******/

  class LockingAgentRegistry {
    var registered: map<uint32, Endpoint>

    constructor ()
      ensures registered == map[]
    {
      registered := map[];
    }

    method RegisterAgentForUser(uid: uint32, agent: Endpoint)
      modifies this
      ensures registered == old(registered)[uid := agent]
    {
      registered := registered[uid := agent];
    }

    method UnregisterAgentForUser(uid: uint32)
      modifies this
      ensures registered == old(registered) - {uid}
    {
      registered := registered - {uid};
    }

    /** `implThrows` stands for a registry implementation that refuses, `replyFails` for the bus. */
    method OnRegister(sender: nat, uid: uint32, path: string, implThrows: bool, replyFails: bool)
      modifies this
      ensures registered == ServeRegister(old(registered), uid, Endpoint(sender, path), implThrows, replyFails)
    {
      if !implThrows {
        RegisterAgentForUser(uid, Endpoint(sender, path));
      }
      if replyFails {
        UnregisterAgentForUser(uid);
      }
    }

    method OnUnregister(uid: uint32, implThrows: bool)
      modifies this
      ensures registered == ServeUnregister(old(registered), uid, implThrows)
    {
      if !implThrows {
        UnregisterAgentForUser(uid);
      }
    }
  }
}
