/**
 A store exposed on the bus and the proxy that resolves it. The service keeps one object per
 query under a path printed from a counter; the proxy turns every call into a message and the
 reply back into a result. The claim: a client cannot tell the proxy from the local store.
 */
module RemoteStore {
  import opened TrustTypes
  import opened SqliteStore
  import opened DbusCodec
  import Decimals

  /******* Object paths *******/

  function QueryPath(n: nat): string {
    "/queries/" + Decimals.Decimal(n)
  }

  const ROOT := "/"

  /** The paths as a client sees them. */
  lemma FirstPaths()
    ensures QueryPath(0) == "/queries/0" && QueryPath(12) == "/queries/12"
  {
    assert Decimals.Decimal(12) == Decimals.Decimal(1) + [Decimals.Digit(2)] == "12";
  }

  /** Printed counters never coincide. */
  lemma PathsInjective(m: nat, n: nat)
    ensures QueryPath(m) == QueryPath(n) <==> m == n
    ensures QueryPath(n) != ROOT
  {
    Decimals.PrintedInjective("/queries/", m, n);
  }

  /******* What a client does *******/

  /** Handles are the client's names for its query objects. */
  datatype Call =
    | AddCall(request: Request)
    | RemoveCall(id: string)
    | ResetCall
    | NewQuery(handle: nat)
    | OnQuery(handle: nat, op: QueryOp)
    | DropQuery(handle: nat)

  datatype Local = Local(store: StoreState, queries: map<nat, Cursor>)
  datatype LocalResult = LocalResult(local: Local, outcome: Outcome)

  /** The call on the local store. */
  function CallLocal(w: Local, call: Call): LocalResult {
    match call
    case AddCall(r) =>
      var a := ApplyStore(w.store, Add(r));
      LocalResult(w.(store := a.state), if a.ok then Done else Threw)
    case RemoveCall(id) => LocalResult(w.(store := ApplyStore(w.store, RemoveApplication(id)).state), Done)
    case ResetCall => LocalResult(w.(store := ApplyStore(w.store, Reset).state), Done)
    case NewQuery(h) => LocalResult(w.(queries := w.queries[h := NEW_CURSOR]), Done)
    case DropQuery(h) => LocalResult(w.(queries := w.queries - {h}), Done)
    case OnQuery(h, op) =>
      if h !in w.queries then LocalResult(w, Threw)
      else
        var q := ApplyQuery(w.queries[h], w.store.rows, op);
        LocalResult(Local(w.store.(rows := q.rows), w.queries[h := q.cursor]), q.outcome)
  }

  /******* The service *******/

  datatype Member =
    | MAdd | MRemoveApplication | MReset | MAddQuery | MRemoveQuery
    | MForApplicationId | MForFeature | MForInterval | MForAnswer | MAll
    | MExecute | MNext | MErase | MCurrent | MStatus

  datatype Message = Message(path: string, member: Member, args: seq<Value>)
  datatype Reply = Return(values: seq<Value>) | ErrorReply | NoReply

  datatype Service = Service(store: StoreState, counter: nat, objects: map<string, Cursor>)
  datatype Handled = Handled(service: Service, reply: Reply)

  function HandleAdd(s: Service, args: seq<Value>): Handled {
    var r := DecodeRequest(args);
    if r.Fault? then Handled(s, NoReply)
    else
      var a := ApplyStore(s.store, Add(r.value));
      Handled(s.(store := a.state), if a.ok then Return([]) else ErrorReply)
  }

  function HandleRemoveApplication(s: Service, args: seq<Value>): Handled {
    var id := DecodeText(args);
    if id.Fault? then Handled(s, NoReply)
    else Handled(s.(store := ApplyStore(s.store, RemoveApplication(id.value)).state), Return([]))
  }

  function HandleAddQuery(s: Service): Handled {
    var path := QueryPath(s.counter);
    Handled(s.(counter := s.counter + 1, objects := s.objects[path := NEW_CURSOR]), Return([ObjectPath(path)]))
  }

  function HandleRemoveQuery(s: Service, args: seq<Value>): Handled {
    if args == [] || !args[0].ObjectPath? then Handled(s, Return([]))
    else Handled(s.(objects := s.objects - {args[0].path}), Return([]))
  }

  /** The operation a message to a query object asks for. */
  function DecodeOp(member: Member, args: seq<Value>): Option<QueryOp> {
    match member
    case MForApplicationId =>
      var id := DecodeText(args); if id.Fault? then None else Some(ForApplicationId(id.value))
    case MForFeature =>
      var f := DecodeWord(args); if f.Fault? then None else Some(ForFeature(f.value))
    case MForInterval =>
      var begin := DecodeNumber(args);
      if begin.Fault? then None else
      var end := DecodeNumber(begin.rest);
      if end.Fault? then None else Some(ForInterval(begin.value, end.value))
    case MForAnswer =>
      var a := DecodeAnswer(args); if a.Fault? then None else Some(ForAnswer(a.value))
    case MAll => Some(All)
    case MExecute => Some(Execute)
    case MNext => Some(Next)
    case MErase => Some(Erase)
    case MCurrent => Some(Current)
    case MStatus => Some(GetStatus)
    case _ => None
  }

  /** A query method that throws sends nothing back, except that a missing result is reported. */
  function ReplyTo(outcome: Outcome): Reply {
    match outcome
    case Done => Return([])
    case IsStatus(status) => Return([Byte(StatusByte(status))])
    case IsRequest(r) => Return(EncodeRequest(r))
    case NoCurrentResult => ErrorReply
    case Threw => NoReply
  }

  function HandleQuery(s: Service, path: string, member: Member, args: seq<Value>): Handled
    requires path in s.objects
  {
    match DecodeOp(member, args)
    case None => Handled(s, NoReply)
    case Some(op) =>
      var q := ApplyQuery(s.objects[path], s.store.rows, op);
      Handled(s.(store := s.store.(rows := q.rows), objects := s.objects[path := q.cursor]), ReplyTo(q.outcome))
  }

  function Handle(s: Service, m: Message): Handled {
    if m.path == ROOT then
      match m.member
      case MAdd => HandleAdd(s, m.args)
      case MRemoveApplication => HandleRemoveApplication(s, m.args)
      case MReset => Handled(s.(store := ApplyStore(s.store, Reset).state), Return([]))
      case MAddQuery => HandleAddQuery(s)
      case MRemoveQuery => HandleRemoveQuery(s, m.args)
      case _ => Handled(s, ErrorReply)
    else if m.path in s.objects then HandleQuery(s, m.path, m.member, m.args)
    else Handled(s, ErrorReply)
  }

  /******* The proxy *******/

  datatype Remote = Remote(service: Service, proxies: map<nat, string>)

  /** `None` if no reply ever comes. */
  datatype RemoteResult = RemoteResult(remote: Remote, outcome: Option<Outcome>)

  function EncodeOp(path: string, op: QueryOp): Message {
    match op
    case ForApplicationId(id) => Message(path, MForApplicationId, [EncodeText(id)])
    case ForFeature(f) => Message(path, MForFeature, [Uint64(f)])
    case ForInterval(b, e) => Message(path, MForInterval, [Int64(b), Int64(e)])
    case ForAnswer(a) => Message(path, MForAnswer, [Byte(AnswerByte(a))])
    case All => Message(path, MAll, [])
    case Execute => Message(path, MExecute, [])
    case Next => Message(path, MNext, [])
    case Erase => Message(path, MErase, [])
    case Current => Message(path, MCurrent, [])
    case GetStatus => Message(path, MStatus, [])
  }

  /** What the proxy makes of a reply to a query operation. */
  function ReadReply(op: QueryOp, reply: Reply): Option<Outcome> {
    if reply.NoReply? then None
    else match op
      case All => Some(Done)
      case Current =>
        if reply.ErrorReply? then Some(NoCurrentResult)
        else
          var r := DecodeRequest(reply.values);
          Some(if r.Fault? then Threw else IsRequest(r.value))
      case GetStatus =>
        if reply.ErrorReply? then Some(Threw)
        else
          var s := DecodeStatus(reply.values);
          Some(if s.Fault? then Threw else IsStatus(s.value))
      case _ => Some(if reply.ErrorReply? then Threw else Done)
  }

  function PlainReply(reply: Reply): Option<Outcome> {
    match reply
    case NoReply => None
    case ErrorReply => Some(Threw)
    case Return(_) => Some(Done)
  }

  /** The call on the resolved store. */
  function CallRemote(w: Remote, call: Call): RemoteResult {
    match call
    case AddCall(r) =>
      var h := Handle(w.service, Message(ROOT, MAdd, EncodeRequest(r)));
      RemoteResult(w.(service := h.service), PlainReply(h.reply))
    case RemoveCall(id) =>
      var h := Handle(w.service, Message(ROOT, MRemoveApplication, [EncodeText(id)]));
      RemoteResult(w.(service := h.service), PlainReply(h.reply))
    case ResetCall =>
      var h := Handle(w.service, Message(ROOT, MReset, []));
      RemoteResult(w.(service := h.service), if h.reply.NoReply? then None else Some(Done))
    case NewQuery(n) =>
      var h := Handle(w.service, Message(ROOT, MAddQuery, []));
      if h.reply.Return? && h.reply.values != [] && h.reply.values[0].ObjectPath?
      then RemoteResult(Remote(h.service, w.proxies[n := h.reply.values[0].path]), Some(Done))
      else RemoteResult(w.(service := h.service), Some(Threw))
    case DropQuery(n) =>
      if n !in w.proxies then RemoteResult(w, Some(Done))
      else
        var h := Handle(w.service, Message(ROOT, MRemoveQuery, [ObjectPath(w.proxies[n])]));
        RemoteResult(Remote(h.service, w.proxies - {n}), Some(Done))
    case OnQuery(n, op) =>
      if n !in w.proxies then RemoteResult(w, Some(Threw))
      else
        var h := Handle(w.service, EncodeOp(w.proxies[n], op));
        RemoteResult(w.(service := h.service), ReadReply(op, h.reply))
  }

  /******* The proxy refines the store *******/

  ghost predicate Issued(path: string, counter: nat) {
    exists n :: 0 <= n < counter && path == QueryPath(n)
  }

  ghost predicate PathsOk(w: Remote) {
    && (forall h :: h in w.proxies ==> Issued(w.proxies[h], w.service.counter))
    && (forall h, k :: h in w.proxies && k in w.proxies && w.proxies[h] == w.proxies[k] ==> h == k)
  }

  /** Both sides hold the same store, and behind each handle the same query. */
  ghost predicate Mirrors(l: Local, w: Remote) {
    && PathsOk(w)
    && l.store == w.service.store
    && l.queries.Keys == w.proxies.Keys
    && (forall h :: h in w.proxies ==>
          w.proxies[h] in w.service.objects && w.service.objects[w.proxies[h]] == l.queries[h])
  }

  /**
   What the client of the resolved store sees where the client of the local one sees `outcome`:
   the same, except that it waits in vain for an operation that throws on an existing query.
   */
  function Seen(l: Local, call: Call, outcome: Outcome): Option<Outcome> {
    if call.OnQuery? && call.handle in l.queries && outcome == Threw then None else Some(outcome)
  }

  predicate Transportable(call: Call) {
    match call
    case AddCall(r) => NulFree(r.from)
    case RemoveCall(id) => NulFree(id)
    case OnQuery(_, ForApplicationId(id)) => NulFree(id)
    case _ => true
  }

  lemma IssuedStays(path: string, counter: nat)
    requires Issued(path, counter)
    ensures Issued(path, counter + 1) && path != QueryPath(counter) && path != ROOT
  {
    var n :| 0 <= n < counter && path == QueryPath(n);
    PathsInjective(n, counter);
    PathsInjective(counter, n);
  }

  /** The next path is a new one, and paths issued before stay issued. */
  lemma NextPathUnused(counter: nat)
    ensures !Issued(QueryPath(counter), counter) && Issued(QueryPath(counter), counter + 1)
    ensures forall path :: Issued(path, counter) ==> Issued(path, counter + 1)
  {
    forall path | Issued(path, counter) ensures Issued(path, counter + 1) && path != QueryPath(counter) {
      IssuedStays(path, counter);
    }
  }

  lemma OpSurvives(path: string, op: QueryOp)
    requires op.ForApplicationId? ==> NulFree(op.id)
    ensures var m := EncodeOp(path, op); m.path == path && DecodeOp(m.member, m.args) == Some(op)
  {
  }

  lemma ReplySurvives(c: Cursor, rows: seq<Row>, op: QueryOp)
    ensures var outcome := ApplyQuery(c, rows, op).outcome;
            ReadReply(op, ReplyTo(outcome)) == if outcome == Threw then None else Some(outcome)
  {
    var outcome := ApplyQuery(c, rows, op).outcome;
    match op
    case Current =>
      if outcome.IsRequest? {
        var r := outcome.request;
        assert NulFree(r.from);
        DecodeEncodedRequest(r, []);
        assert EncodeRequest(r) + [] == EncodeRequest(r);
      }
    case GetStatus =>
      StatusRoundTrip(c.status, []);
      assert [Byte(StatusByte(c.status))] + [] == [Byte(StatusByte(c.status))];
    case _ =>
  }

  /** A query operation reaches the query object named by the path, and nothing else. */
  lemma QueryEffect(w: Remote, h: nat, op: QueryOp)
    requires h in w.proxies && w.proxies[h] in w.service.objects && w.proxies[h] != ROOT
    requires op.ForApplicationId? ==> NulFree(op.id)
    ensures var path := w.proxies[h];
            var q := ApplyQuery(w.service.objects[path], w.service.store.rows, op);
            && CallRemote(w, OnQuery(h, op)).remote
               == w.(service := w.service.(store := w.service.store.(rows := q.rows),
                                           objects := w.service.objects[path := q.cursor]))
            && CallRemote(w, OnQuery(h, op)).outcome == ReadReply(op, ReplyTo(q.outcome))
  {
    OpSurvives(w.proxies[h], op);
  }

  lemma QueryCallMirrors(l: Local, w: Remote, h: nat, op: QueryOp)
    requires Mirrors(l, w) && Transportable(OnQuery(h, op)) && h in w.proxies
    ensures var lr, rr := CallLocal(l, OnQuery(h, op)), CallRemote(w, OnQuery(h, op));
            Mirrors(lr.local, rr.remote) && rr.outcome == Seen(l, OnQuery(h, op), lr.outcome)
  {
    IssuedStays(w.proxies[h], w.service.counter);
    QueryEffect(w, h, op);
    ReplySurvives(l.queries[h], l.store.rows, op);
  }

  lemma NewQueryMirrors(l: Local, w: Remote, n: nat)
    requires Mirrors(l, w)
    ensures var lr, rr := CallLocal(l, NewQuery(n)), CallRemote(w, NewQuery(n));
            Mirrors(lr.local, rr.remote) && rr.outcome == Seen(l, NewQuery(n), lr.outcome)
  {
    forall h | h in w.proxies
      ensures Issued(w.proxies[h], w.service.counter + 1) && w.proxies[h] != QueryPath(w.service.counter)
    {
      IssuedStays(w.proxies[h], w.service.counter);
    }
    assert Issued(QueryPath(w.service.counter), w.service.counter + 1);
  }

  lemma DropEffect(w: Remote, n: nat)
    requires n in w.proxies
    ensures CallRemote(w, DropQuery(n))
            == RemoteResult(Remote(w.service.(objects := w.service.objects - {w.proxies[n]}), w.proxies - {n}),
                            Some(Done))
  {
  }

  lemma DropMirrors(l: Local, w: Remote, n: nat)
    requires Mirrors(l, w)
    ensures var lr, rr := CallLocal(l, DropQuery(n)), CallRemote(w, DropQuery(n));
            Mirrors(lr.local, rr.remote) && rr.outcome == Seen(l, DropQuery(n), lr.outcome)
  {
    if n in w.proxies {
      DropEffect(w, n);
      forall h | h in w.proxies && h != n ensures w.proxies[h] != w.proxies[n] {}
    } else {
      assert l.queries - {n} == l.queries;
    }
  }

  lemma StoreCallMirrors(l: Local, w: Remote, call: Call)
    requires Mirrors(l, w) && Transportable(call) && (call.AddCall? || call.RemoveCall? || call.ResetCall?)
    ensures var lr, rr := CallLocal(l, call), CallRemote(w, call);
            Mirrors(lr.local, rr.remote) && rr.outcome == Seen(l, call, lr.outcome)
  {
    match call
    case AddCall(r) =>
      DecodeEncodedRequest(r, []);
      assert EncodeRequest(r) + [] == EncodeRequest(r);
    case RemoveCall(id) => assert DecodeText([EncodeText(id)]) == Decoded(id, []);
    case ResetCall =>
  }

  /** One call: the results agree and the two sides stay in step. */
  lemma CallMirrors(l: Local, w: Remote, call: Call)
    requires Mirrors(l, w) && Transportable(call)
    ensures var lr, rr := CallLocal(l, call), CallRemote(w, call);
            Mirrors(lr.local, rr.remote) && rr.outcome == Seen(l, call, lr.outcome)
  {
    match call
    case NewQuery(n) => NewQueryMirrors(l, w, n);
    case DropQuery(n) => DropMirrors(l, w, n);
    case OnQuery(h, op) => if h in w.proxies { QueryCallMirrors(l, w, h, op); }
    case _ => StoreCallMirrors(l, w, call);
  }

  /** What the client of the local store sees, put as the client of the resolved store sees it. */
  function LocalOutcomes(l: Local, calls: seq<Call>): seq<Option<Outcome>>
    decreases |calls|
  {
    if calls == [] then []
    else
      var r := CallLocal(l, calls[0]);
      [Seen(l, calls[0], r.outcome)] + LocalOutcomes(r.local, calls[1..])
  }

  function RemoteOutcomes(w: Remote, calls: seq<Call>): seq<Option<Outcome>>
    decreases |calls|
  {
    if calls == [] then []
    else [CallRemote(w, calls[0]).outcome] + RemoteOutcomes(CallRemote(w, calls[0]).remote, calls[1..])
  }

  /**
   Every run of a client, with strings a message can carry, has the same results on the
   resolved store as on the local one: statuses, requests, missing results and failed
   additions alike.
   */
  lemma {:induction false} ResolvedStoreRefinesLocal(l: Local, w: Remote, calls: seq<Call>)
    requires Mirrors(l, w)
    requires forall i :: 0 <= i < |calls| ==> Transportable(calls[i])
    ensures RemoteOutcomes(w, calls) == LocalOutcomes(l, calls)
    decreases |calls|
  {
    if calls != [] {
      assert Transportable(calls[0]);
      CallMirrors(l, w, calls[0]);
      ResolvedStoreRefinesLocal(CallLocal(l, calls[0]).local, CallRemote(w, calls[0]).remote, calls[1..]);
    }
  }

  function RunRemote(w: Remote, calls: seq<Call>): Remote
    decreases |calls|
  {
    if calls == [] then w else RunRemote(CallRemote(w, calls[0]).remote, calls[1..])
  }

  function NewQueries(calls: seq<Call>): nat
    decreases |calls|
  {
    if calls == [] then 0 else (if calls[0].NewQuery? then 1 else 0) + NewQueries(calls[1..])
  }

  ghost predicate OffRoot(w: Remote) {
    forall k :: k in w.proxies ==> w.proxies[k] != ROOT
  }

  /** The service counts the queries it creates. */
  lemma CallCounts(w: Remote, call: Call)
    requires OffRoot(w)
    ensures var t := CallRemote(w, call).remote;
            OffRoot(t) && t.service.counter == w.service.counter + if call.NewQuery? then 1 else 0
  {
    PathsInjective(0, w.service.counter);
  }

  lemma {:induction false} RunCounts(w: Remote, calls: seq<Call>)
    requires OffRoot(w)
    ensures RunRemote(w, calls).service.counter == w.service.counter + NewQueries(calls)
    decreases |calls|
  {
    if calls != [] {
      CallCounts(w, calls[0]);
      RunCounts(CallRemote(w, calls[0]).remote, calls[1..]);
    }
  }

  /** Paths are numbered consecutively: after any calls the next query gets the number of queries so far. */
  lemma PathsAreConsecutive(w: Remote, calls: seq<Call>, h: nat)
    requires OffRoot(w)
    ensures var t := CallRemote(RunRemote(w, calls), NewQuery(h)).remote;
            h in t.proxies && t.proxies[h] == QueryPath(w.service.counter + NewQueries(calls))
  {
    RunCounts(w, calls);
  }

  lemma FreshServiceMirrors(store: StoreState, counter: nat)
    ensures Mirrors(Local(store, map[]), Remote(Service(store, counter, map[]), map[]))
  {
  }

  /** A proxy whose object is gone from the service gets errors, and changes nothing. */
  lemma GoneQuery(w: Remote, h: nat, op: QueryOp)
    requires h in w.proxies && w.proxies[h] != ROOT && w.proxies[h] !in w.service.objects
    ensures var r := CallRemote(w, OnQuery(h, op));
            r.remote == w && r.outcome == Some(match op
                                               case All => Done
                                               case Current => NoCurrentResult
                                               case _ => Threw)
  {
  }

  /**
   A message that lacks its arguments changes nothing. It is not answered, except that the
   removal of a query is always confirmed.
   */
  lemma MissingArguments(s: Service, path: string, member: Member)
    requires path in s.objects && path != ROOT
    ensures member in {MAdd, MRemoveApplication} ==> Handle(s, Message(ROOT, member, [])) == Handled(s, NoReply)
    ensures Handle(s, Message(ROOT, MRemoveQuery, [])) == Handled(s, Return([]))
    ensures member in {MForApplicationId, MForFeature, MForInterval, MForAnswer} ==>
              Handle(s, Message(path, member, [])) == Handled(s, NoReply)
  {
  }

  /** A message changes no query object but the one it is sent to. */
  lemma MessageStaysLocal(s: Service, m: Message, other: string)
    requires m.path != ROOT && other != m.path && other in s.objects
    ensures var t := Handle(s, m).service;
            other in t.objects && t.objects[other] == s.objects[other]
  {
  }

  /** An operation on one remote query leaves the bindings and the cursor of all others alone. */
  lemma QueriesAreIsolated(w: Remote, h: nat, op: QueryOp, other: nat)
    requires PathsOk(w) && h in w.proxies && other in w.proxies && other != h
    requires w.proxies[other] in w.service.objects
    ensures var t := CallRemote(w, OnQuery(h, op)).remote;
            && t.proxies == w.proxies
            && w.proxies[other] in t.service.objects
            && t.service.objects[w.proxies[other]] == w.service.objects[w.proxies[other]]
  {
    IssuedStays(w.proxies[h], w.service.counter);
    var m := EncodeOp(w.proxies[h], op);
    assert m.path == w.proxies[h];
    MessageStaysLocal(w.service, m, w.proxies[other]);
  }

  /******* The classes *******/

  /** Calls the method of a query object that an operation stands for. */
  method Perform(query: Query, op: QueryOp) returns (outcome: Outcome)
    modifies query, query.store`rows
    ensures QueryResult(query.State(), query.store.rows, outcome)
            == ApplyQuery(old(query.State()), old(query.store.rows), op)
  {
    var ok := true;
    match op {
      case ForApplicationId(id) => ok := query.RestrictToApplication(id);
      case ForFeature(feature) => ok := query.RestrictToFeature(feature);
      case ForInterval(begin, end) => ok := query.RestrictToInterval(begin, end);
      case ForAnswer(answer) => ok := query.RestrictToAnswer(answer);
      case All => query.MatchAll();
      case Execute => query.ExecuteQuery();
      case Next => query.MoveNext();
      case Erase => ok := query.EraseCurrent();
      case Current =>
        outcome := query.GetCurrent();
        return;
      case GetStatus => return IsStatus(query.status);
    }
    outcome := if ok then Done else Threw;
  }

  method ReadRequest(args: seq<Value>) returns (d: Decoded<Request>)
    ensures d == DecodeRequest(args)
  {
    var reader := new Reader(args);
    d := reader.PopRequest();
  }

  method ReadText(args: seq<Value>) returns (d: Decoded<string>)
    ensures d == DecodeText(args)
  {
    var reader := new Reader(args);
    d := reader.PopString();
  }

  /** Reads the operation off the arguments of a message. */
  method ReadOp(member: Member, args: seq<Value>) returns (op: Option<QueryOp>)
    ensures op == DecodeOp(member, args)
  {
    var reader := new Reader(args);
    match member {
      case MForApplicationId =>
        var id := reader.PopString();
        op := if id.Fault? then None else Some(ForApplicationId(id.value));
      case MForFeature =>
        var feature := reader.PopUint64();
        op := if feature.Fault? then None else Some(ForFeature(feature.value));
      case MForInterval =>
        var begin := reader.PopInt64();
        if begin.Fault? { return None; }
        var end := reader.PopInt64();
        op := if end.Fault? then None else Some(ForInterval(begin.value, end.value));
      case MForAnswer =>
        var answer := reader.PopAnswer();
        op := if answer.Fault? then None else Some(ForAnswer(answer.value));
      case _ => op := DecodeOp(member, []);
    }
  }

  /** Writes the outcome of an operation into a reply. */
  method WriteReply(outcome: Outcome) returns (reply: Reply)
    ensures reply == ReplyTo(outcome)
  {
    var writer := new Writer();
    match outcome {
      case Done =>
      case IsStatus(status) => writer.PushByte(StatusByte(status));
      case IsRequest(request) => writer.PushRequest(request);
      case NoCurrentResult => return ErrorReply;
      case Threw => return NoReply;
    }
    reply := Return(writer.items);
  }

  /** The counter behind the paths. It outlives the tokens, and all of them draw from it. */
  class PathCounter {
    var value: nat

    constructor ()
      ensures value == 0
    {
      value := 0;
    }
  }

  /** The exposed side: a store and the query objects created on it, each with a path of its own. */
  class Token {
    const store: Store
    const counter: PathCounter
    var objects: map<string, Query>

    /** Paths name different objects, all of them on this store. */
    ghost predicate ObjectsOk()
      reads this
    {
      && (forall p :: p in objects ==> objects[p].store == store)
      && (forall p, q :: p in objects && q in objects && objects[p] == objects[q] ==> p == q)
    }

    ghost predicate Valid()
      reads this, counter
    {
      ObjectsOk() && forall p :: p in objects ==> Issued(p, counter.value)
    }

    ghost function Cursors(): map<string, Cursor>
      reads this, objects.Values
    {
      map p | p in objects :: objects[p].State()
    }

    ghost function State(): Service
      reads this, counter, objects.Values, store
    {
      Service(store.State(), counter.value, Cursors())
    }

    constructor (store: Store, counter: PathCounter)
      ensures Valid() && this.store == store && this.counter == counter
      ensures State() == Service(store.State(), counter.value, map[])
    {
      this.store, this.counter, objects := store, counter, map[];
    }

    method OnAdd(args: seq<Value>) returns (reply: Reply)
      requires Valid()
      modifies store
      ensures Valid() && Handled(State(), reply) == HandleAdd(old(State()), args)
    {
      var request := ReadRequest(args);
      if request.Fault? { return NoReply; }
      var added := store.AddRequest(request.value);
      reply := if added then Return([]) else ErrorReply;
    }

    method OnRemoveApplication(args: seq<Value>) returns (reply: Reply)
      requires Valid()
      modifies store
      ensures Valid() && Handled(State(), reply) == HandleRemoveApplication(old(State()), args)
    {
      var id := ReadText(args);
      if id.Fault? { return NoReply; }
      store.RemoveApp(id.value);
      reply := Return([]);
    }

    /** A database that refuses makes the handler send the error and then a reply nonetheless. */
    method OnReset(args: seq<Value>, fails: bool) returns (replies: seq<Reply>)
      requires Valid()
      modifies store
      ensures Valid()
      ensures fails ==> State() == old(State()) && replies == [ErrorReply, Return([])]
      ensures !fails ==> |replies| == 1
                         && Handled(State(), replies[0]) == Handle(old(State()), Message(ROOT, MReset, args))
    {
      replies := [];
      if fails {
        replies := replies + [ErrorReply];
      } else {
        store.ResetStore();
      }
      replies := replies + [Return([])];
    }

    method AddObject(path: string)
      requires ObjectsOk() && path !in objects
      modifies this
      ensures ObjectsOk() && objects.Keys == old(objects).Keys + {path}
      ensures Cursors() == old(Cursors())[path := NEW_CURSOR]
    {
      var query := new Query(store);
      assert forall p :: p in objects ==> objects[p] != query;
      objects := objects[path := query];
      assert Cursors() == old(Cursors())[path := NEW_CURSOR];
    }

    /** The path of the new object was never used before, by this token or another. */
    method OnAddQuery() returns (reply: Reply)
      requires Valid()
      modifies this, counter
      ensures Valid() && Handled(State(), reply) == HandleAddQuery(old(State()))
      ensures !Issued(QueryPath(old(counter.value)), old(counter.value))
      ensures QueryPath(old(counter.value)) !in old(objects)
    {
      var path := QueryPath(counter.value);
      NextPathUnused(counter.value);
      AddObject(path);
      counter.value := counter.value + 1;
      reply := Return([ObjectPath(path)]);
    }

    /** The handler replies when it has dropped the object, and once more at its end. */
    method OnRemoveQuery(args: seq<Value>) returns (replies: seq<Reply>)
      requires Valid()
      modifies this
      ensures Valid() && replies == (if args != [] && args[0].ObjectPath? then [Return([]), Return([])]
                                     else [Return([])])
      ensures Handled(State(), replies[0]) == HandleRemoveQuery(old(State()), args)
    {
      replies := [];
      if args != [] && args[0].ObjectPath? {
        objects := objects - {args[0].path};
        replies := replies + [Return([])];
      }
      replies := replies + [Return([])];
    }

    method PerformAt(path: string, op: QueryOp) returns (outcome: Outcome)
      requires Valid() && path in objects
      modifies objects[path], store`rows
      ensures Valid()
      ensures var q := ApplyQuery(old(objects[path].State()), old(store.rows), op);
              && outcome == q.outcome
              && State() == old(State()).(store := old(store.State()).(rows := q.rows),
                                          objects := old(Cursors())[path := q.cursor])
    {
      outcome := Perform(objects[path], op);
      assert Cursors() == old(Cursors())[path := objects[path].State()];
    }

    /** Works on the one query object at the path; the map of objects stays as it is. */
    method OnQueryMessage(path: string, member: Member, args: seq<Value>) returns (reply: Reply)
      requires Valid() && path in objects
      modifies objects[path], store`rows
      ensures Valid() && Handled(State(), reply) == HandleQuery(old(State()), path, member, args)
    {
      ghost var before := State();
      var op := ReadOp(member, args);
      assert State() == before && Cursors()[path] == objects[path].State();
      if op.None? { return NoReply; }
      var outcome := PerformAt(path, op.value);
      ghost var after := State();
      reply := WriteReply(outcome);
      assert State() == after;
    }
  }
}
