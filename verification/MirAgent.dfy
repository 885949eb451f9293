/**
 The agent that prompts through Mir: it walks up the parents of the asking process until one
 has a Mir session, opens a descriptor for the prompt provider, runs the provider and
 translates its exit. Meanwhile a callback may report that the prompt session has stopped.
 */
module MirAgent {
  import opened TrustTypes
  import Runs

  /******* Translating the provider's end *******/

  datatype WaitResult = Exited(code: int) | Signaled | Stopped

  const EXIT_FAILURE := 1

  /** `None` is an exception: no conclusive answer. */
  function Translate(r: WaitResult): Option<Answer> {
    if !r.Exited? then None else if r.code == EXIT_FAILURE then Some(Denied) else Some(Granted)
  }

  /**
   The documentation promises a grant for exit status success alone. That holds of a result
   exactly when the provider keeps to the two statuses it knows.
   */
  lemma GrantsOnlySuccessIff(r: WaitResult)
    ensures (Translate(r) == Some(Granted) <==> r == Exited(0)) <==> (r.Exited? ==> r.code in {0, EXIT_FAILURE})
  {
  }

  /** A refusal, which is exit status 1, is a denial; nothing but an exit is an answer. */
  lemma TranslatesExits(r: WaitResult)
    ensures Translate(r) == Some(Denied) <==> r == Exited(1)
    ensures Translate(r) == None <==> !r.Exited?
    ensures Translate(r) == Some(Granted) <==> r.Exited? && r.code != 1
  {
  }

  /******* The walk up the process tree *******/

  const NO_SESSION := "Error processing request: Could not identify application session\n"

  /** What Mir answers for a pid: no session object at all, or one with an error text. */
  datatype Probe = NullSession | Session(error: string)

  /**
   The outside world: the process tree, Mir's answers, and how each later stage ends, `None`
   or `false` being an exception.
   */
  datatype Environment = Environment(
    parents: map<int, int>, probe: int -> Probe,
    newFd: Option<nat>, infoResolves: bool, providerStarts: bool, wait: Option<WaitResult>)

  function Ancestor(parents: map<int, int>, pid: int, n: nat): Option<int> {
    if n == 0 then Some(pid)
    else
      var below := Ancestor(parents, pid, n - 1);
      if below.None? || below.value !in parents then None else Some(parents[below.value])
  }

  ghost predicate Acyclic(parents: map<int, int>) {
    forall pid, n: nat :: n > 0 ==> Ancestor(parents, pid, n) != Some(pid)
  }

  predicate LacksSession(env: Environment, pid: int) {
    env.probe(pid).Session? && env.probe(pid).error != "" && NO_SESSION <= env.probe(pid).error
  }

  predicate HasSession(env: Environment, pid: int) {
    env.probe(pid) == Session("")
  }

  /** The n-th ancestor can be reached: all nearer ones lack a session, and the way stays off init. */
  ghost predicate Reaches(env: Environment, pid: int, n: nat) {
    && Ancestor(env.parents, pid, n).Some?
    && (forall i :: 0 <= i < n ==>
          Ancestor(env.parents, pid, i).Some? && LacksSession(env, Ancestor(env.parents, pid, i).value))
    && (forall i :: 0 < i <= n ==>
          Ancestor(env.parents, pid, i).Some? && Ancestor(env.parents, pid, i).value > 1)
  }

  ghost predicate IsNearest(env: Environment, pid: int, n: nat) {
    Reaches(env, pid, n) && HasSession(env, Ancestor(env.parents, pid, n).value)
  }

  lemma {:induction false} AncestorCompose(parents: map<int, int>, pid: int, i: nat, k: nat)
    requires Ancestor(parents, pid, i).Some?
    ensures Ancestor(parents, pid, i + k) == Ancestor(parents, Ancestor(parents, pid, i).value, k)
  {
    if k > 0 { AncestorCompose(parents, pid, i, k - 1); }
  }

  /** On a tree the walk meets no process twice. */
  lemma AncestorsDiffer(parents: map<int, int>, pid: int, i: nat, n: nat)
    requires Acyclic(parents) && i < n && Ancestor(parents, pid, i).Some?
    ensures Ancestor(parents, pid, n) != Ancestor(parents, pid, i)
  {
    AncestorCompose(parents, pid, i, n - i);
    assert Ancestor(parents, Ancestor(parents, pid, i).value, n - i) != Ancestor(parents, pid, i);
  }

  lemma ReachesNext(env: Environment, pid: int, n: nat, at: int)
    requires Reaches(env, pid, n) && Ancestor(env.parents, pid, n) == Some(at)
    requires LacksSession(env, at) && at in env.parents && env.parents[at] > 1
    ensures Reaches(env, pid, n + 1)
  {
    forall i | 0 < i <= n + 1
      ensures Ancestor(env.parents, pid, i).Some? && Ancestor(env.parents, pid, i).value > 1
    {
      if i == n + 1 { assert Ancestor(env.parents, pid, n + 1) == Some(env.parents[at]); }
    }
  }

  /** The right result of the walk. */
  ghost predicate FoundNearest(env: Environment, pid: int, found: Option<int>) {
    if found.Some? then exists n :: IsNearest(env, pid, n) && Ancestor(env.parents, pid, n) == found
    else forall n :: !IsNearest(env, pid, n)
  }

  lemma WalkSucceeds(env: Environment, pid: int, n: nat, at: int)
    requires Reaches(env, pid, n) && Ancestor(env.parents, pid, n) == Some(at) && HasSession(env, at)
    ensures FoundNearest(env, pid, Some(at))
  {
    assert IsNearest(env, pid, n);
  }

  /**
   Mir's text for "no session" is what makes the walk go on: a process whose session has no error
   is the end of the walk, one with that text hands over to its parent, unless that is init, and
   one with any other text ends the walk without result.
   */
  lemma WalkGoesByText(env: Environment, pid: int, parent: int, text: string)
    requires env.probe(pid) == Session(text) && pid in env.parents && env.parents[pid] == parent
    requires env.probe(parent) == Session("")
    ensures text == "" ==> FoundNearest(env, pid, Some(pid))
    ensures text != "" && "Error processing request: Could not identify application session\n" <= text ==>
              FoundNearest(env, pid, if parent > 1 then Some(parent) else None)
    ensures text != "" && !("Error processing request: Could not identify application session\n" <= text) ==>
              FoundNearest(env, pid, None)
  {
    assert Reaches(env, pid, 0) && Ancestor(env.parents, pid, 0) == Some(pid);
    if text == "" {
      WalkSucceeds(env, pid, 0, pid);
    } else if LacksSession(env, pid) && parent > 1 {
      ReachesNext(env, pid, 0, pid);
      assert Ancestor(env.parents, pid, 1) == Some(parent);
      WalkSucceeds(env, pid, 1, parent);
    } else {
      WalkEnds(env, pid, 0, pid);
    }
  }

  /** A walk that cannot go on from here can end nowhere else. */
  lemma OnlyHere(env: Environment, pid: int, m: nat, at: int, n: nat)
    requires Reaches(env, pid, m) && Ancestor(env.parents, pid, m) == Some(at)
    requires LacksSession(env, at) ==> at !in env.parents || env.parents[at] <= 1
    ensures IsNearest(env, pid, n) ==> n == m
  {
    assert Ancestor(env.parents, pid, m + 1) == if at in env.parents then Some(env.parents[at]) else None;
  }

  lemma WalkEnds(env: Environment, pid: int, m: nat, at: int)
    requires Reaches(env, pid, m) && Ancestor(env.parents, pid, m) == Some(at) && !HasSession(env, at)
    requires LacksSession(env, at) ==> at !in env.parents || env.parents[at] <= 1
    ensures FoundNearest(env, pid, None)
  {
    forall n: nat ensures !IsNearest(env, pid, n) { OnlyHere(env, pid, m, at, n); }
  }

  /** The processes left behind: the ancestors before the n-th. */
  ghost predicate LeftBehind(parents: map<int, int>, pid: int, n: nat, visited: set<int>) {
    && visited <= parents.Keys
    && forall v :: v in visited ==> exists i :: 0 <= i < n && Ancestor(parents, pid, i) == Some(v)
  }

  lemma NotYetVisited(parents: map<int, int>, pid: int, n: nat, visited: set<int>, at: int)
    requires Acyclic(parents) && LeftBehind(parents, pid, n, visited) && Ancestor(parents, pid, n) == Some(at)
    ensures at in parents ==> |parents.Keys - (visited + {at})| < |parents.Keys - visited|
    ensures at in parents ==> LeftBehind(parents, pid, n + 1, visited + {at})
  {
    forall i | 0 <= i < n && Ancestor(parents, pid, i).Some? ensures Ancestor(parents, pid, i) != Some(at) {
      AncestorsDiffer(parents, pid, i, n);
    }
    assert at !in visited;
    assert parents.Keys - visited == parents.Keys - (visited + {at}) + if at in parents then {at} else {};
    forall v | v in visited + {at} ensures exists i :: 0 <= i < n + 1 && Ancestor(parents, pid, i) == Some(v) {
      if v in visited {
        var i :| 0 <= i < n && Ancestor(parents, pid, i) == Some(v);
      } else {
        assert Ancestor(parents, pid, n) == Some(v);
      }
    }
  }

  /******* Resources *******/

  datatype Event =
    | Created(session: nat, pid: int)
    | Released(session: nat)
    | Opened(fd: nat, session: nat)
    | Executed(fd: nat)
    | Closed(fd: nat)

  /** The books: what is open now, and whether everything so far was opened and closed once. */
  datatype Ledger = Ledger(sound: bool, seen: set<nat>, live: set<nat>, fdSeen: bool, fds: set<nat>)

  function Book(l: Ledger, e: Event): Ledger {
    match e
    case Created(s, _) => l.(sound := l.sound && s !in l.seen, seen := l.seen + {s}, live := l.live + {s})
    case Released(s) => l.(sound := l.sound && s in l.live && l.fds == {}, live := l.live - {s})
    case Opened(fd, s) => l.(sound := l.sound && !l.fdSeen && s in l.live, fdSeen := true, fds := l.fds + {fd})
    case Executed(fd) => l.(sound := l.sound && fd in l.fds && l.live != {})
    case Closed(fd) => l.(sound := l.sound && fd in l.fds, fds := l.fds - {fd})
  }

  function Books(log: seq<Event>): Ledger {
    if log == [] then Ledger(true, {}, {}, false, {})
    else Book(Books(log[..|log| - 1]), log[|log| - 1])
  }

  /**
   Each session released once after its creation, each descriptor closed once after its opening
   and before its session is released.
   */
  predicate Balanced(log: seq<Event>) {
    Books(log).sound && Books(log).live == {} && Books(log).fds == {}
  }

  function Creating(s: nat): Event -> bool { (e: Event) => e.Created? && e.session == s }
  function Releasing(s: nat): Event -> bool { (e: Event) => e.Released? && e.session == s }
  function Opening(fd: nat): Event -> bool { (e: Event) => e.Opened? && e.fd == fd }
  function Closing(fd: nat): Event -> bool { (e: Event) => e.Closed? && e.fd == fd }

  function Count(log: seq<Event>, p: Event -> bool): nat {
    if log == [] then 0 else Count(log[..|log| - 1], p) + if p(log[|log| - 1]) then 1 else 0
  }

  lemma {:induction false} SessionsCount(log: seq<Event>, s: nat)
    requires Books(log).sound
    ensures Count(log, Creating(s)) == if s in Books(log).seen then 1 else 0
    ensures Count(log, Releasing(s)) == Count(log, Creating(s)) - if s in Books(log).live then 1 else 0
    ensures s in Books(log).live ==> s in Books(log).seen
  {
    if log != [] { SessionsCount(log[..|log| - 1], s); }
  }

  lemma {:induction false} DescriptorsCount(log: seq<Event>, fd: nat)
    requires Books(log).sound
    ensures Count(log, Opening(fd)) <= if Books(log).fdSeen then 1 else 0
    ensures Count(log, Closing(fd)) == Count(log, Opening(fd)) - if fd in Books(log).fds then 1 else 0
    ensures fd in Books(log).fds ==> Books(log).fdSeen
  {
    if log != [] { DescriptorsCount(log[..|log| - 1], fd); }
  }

  /** Balanced books, counted: every session and every descriptor is given back as often as taken, once. */
  lemma BalancedCounts(log: seq<Event>, s: nat, fd: nat)
    requires Balanced(log)
    ensures Count(log, Releasing(s)) == Count(log, Creating(s)) <= 1
    ensures Count(log, Closing(fd)) == Count(log, Opening(fd)) <= 1
  {
    SessionsCount(log, s);
    DescriptorsCount(log, fd);
  }

  lemma BooksAppend(log: seq<Event>, e: Event)
    ensures Books(log + [e]) == Book(Books(log), e)
  {
    assert (log + [e])[..|log|] == log;
  }

  method Note(log: seq<Event>, e: Event) returns (r: seq<Event>)
    ensures r == log + [e] && Books(r) == Book(Books(log), e)
  {
    r := log + [e];
    BooksAppend(log, e);
  }

  predicate Quiet(log: seq<Event>) {
    forall i :: 0 <= i < |log| ==> log[i].Created? || log[i].Released?
  }

  /** While walking: sessions are numbered, and only the one held is not released. */
  ghost predicate Tidy(log: seq<Event>, held: Option<nat>, next: nat) {
    && Quiet(log) && Books(log).sound && !Books(log).fdSeen && Books(log).fds == {}
    && Books(log).live == (if held.Some? then {held.value} else {})
    && (forall s :: s in Books(log).seen ==> s < next)
    && (held.Some? ==> held.value < next)
  }

  /** Assigning a new session to the pointer releases the one it held. */
  method Adopt(log: seq<Event>, held: Option<nat>, next: nat, pid: int) returns (r: seq<Event>)
    requires Tidy(log, held, next)
    ensures Tidy(r, Some(next), next + 1) && Created(next, pid) in r
  {
    r := Note(log, Created(next, pid));
    if held.Some? { r := Note(r, Released(held.value)); }
  }

  /**
   The loop: opens a prompt session for the process or its nearest ancestor that has one. The
   session still held when it ends, by success or exception, is the only one not yet released.
   */
  method OpenSession(env: Environment, start: int)
    returns (found: Option<int>, held: Option<nat>, next: nat, log: seq<Event>)
    requires Acyclic(env.parents)
    ensures FoundNearest(env, start, found)
    ensures found.Some? ==> held.Some? && Created(held.value, found.value) in log
    ensures Tidy(log, held, next)
  {
    var pid := start;
    held, next, log := None, 0, [];
    ghost var n: nat := 0;
    ghost var visited: set<int> := {};
    while true
      invariant Ancestor(env.parents, start, n) == Some(pid) && Reaches(env, start, n)
      invariant LeftBehind(env.parents, start, n, visited)
      invariant Tidy(log, held, next)
      decreases |env.parents.Keys - visited|
    {
      NotYetVisited(env.parents, start, n, visited, pid);
      var probe := env.probe(pid);
      if probe.NullSession? {
        WalkEnds(env, start, n, pid);
        return None, held, next, log;
      }
      log := Adopt(log, held, next, pid);
      held, next := Some(next), next + 1;
      if probe.error == "" {
        WalkSucceeds(env, start, n, pid);
        return Some(pid), held, next, log;
      }
      if !(NO_SESSION <= probe.error) || pid !in env.parents || env.parents[pid] <= 1 {
        WalkEnds(env, start, n, pid);
        return None, held, next, log;
      }
      ReachesNext(env, start, n, pid);
      visited := visited + {pid};
      pid := env.parents[pid];
      n := n + 1;
    }
  }

  /** From the descriptor to the end of the call; leaving the scopes closes it and releases the session. */
  method RunProvider(env: Environment, fd: nat, session: nat, next: nat, log: seq<Event>)
    returns (answer: Option<Answer>, r: seq<Event>)
    requires Tidy(log, Some(session), next)
    ensures Balanced(r) && log <= r && Opened(fd, session) in r
    ensures Executed(fd) in r <==> env.infoResolves && env.providerStarts
    ensures answer == if env.infoResolves && env.providerStarts && env.wait.Some?
                      then Translate(env.wait.value) else None
  {
    assert Executed(fd) !in log;
    answer := None;
    r := Note(log, Opened(fd, session));
    assert r[|log|] == Opened(fd, session);
    if env.infoResolves && env.providerStarts {
      r := Note(r, Executed(fd));
      if env.wait.Some? { answer := Translate(env.wait.value); }
    }
    r := Note(r, Closed(fd));
    r := Note(r, Released(session));
  }

  /** A process with a session can be found for `pid`. */
  ghost predicate Promptable(env: Environment, pid: int) {
    exists n :: IsNearest(env, pid, n)
  }

  /** The provider is run and waited for. */
  ghost predicate ProviderEnds(env: Environment, pid: int) {
    Promptable(env, pid) && env.newFd.Some? && env.infoResolves && env.providerStarts && env.wait.Some?
  }

  /** The log shows a descriptor opened on a session of the nearest ancestor. */
  ghost predicate OpenedForNearest(env: Environment, pid: int, fd: nat, log: seq<Event>) {
    exists n, session ::
      && IsNearest(env, pid, n)
      && Created(session, Ancestor(env.parents, pid, n).value) in log && Opened(fd, session) in log
  }

  /**
   The whole call. The provider runs exactly if an ancestor with a session is found and the
   stages before it succeed; its descriptor belongs to a session of the nearest such ancestor;
   the answer is the translation of its end; and in every outcome all resources are given back.
   */
  method AuthenticateRequest(env: Environment, pid: int) returns (answer: Option<Answer>, log: seq<Event>)
    requires Acyclic(env.parents)
    ensures Balanced(log)
    ensures !Promptable(env, pid) || env.newFd.None? ==> answer == None && Quiet(log)
    ensures Promptable(env, pid) && env.newFd.Some? ==>
              && OpenedForNearest(env, pid, env.newFd.value, log)
              && (Executed(env.newFd.value) in log <==> env.infoResolves && env.providerStarts)
              && answer == if env.infoResolves && env.providerStarts && env.wait.Some?
                           then Translate(env.wait.value) else None
    ensures answer == Some(Denied) <==> ProviderEnds(env, pid) && env.wait.value == Exited(1)
    ensures answer == Some(Granted) <==>
              ProviderEnds(env, pid) && env.wait.value.Exited? && env.wait.value.code != 1
  {
    var found, held, next;
    found, held, next, log := OpenSession(env, pid);
    if found.Some? && env.newFd.Some? {
      ghost var created := Created(held.value, found.value);
      assert created in log;
      ghost var walk := log;
      answer, log := RunProvider(env, env.newFd.value, held.value, next, log);
      assert created in log by { assert forall i :: 0 <= i < |walk| ==> log[i] == walk[i]; }
    } else {
      answer := None;
      if held.Some? { log := Note(log, Released(held.value)); }
    }
  }

  /******* The stop callback *******/

  datatype Child = NotStarted | Running | Paused | Dead(result: WaitResult)
  datatype Progress = Preparing | Started | Stored | Finished(answer: Option<Answer>)

  /** When the callback came: before the child was in the context, while it ran, after its end. */
  datatype Stop = Early | WhileAlive | Late

  datatype Prompt = Prompt(progress: Progress, child: Child, stops: set<Stop>)

  datatype Label =
    StartChild | StoreChild | ChildPauses | ChildResumes | ChildEnds(result: WaitResult) | SessionStops | Reap

  const INITIAL := Prompt(Preparing, NotStarted, {})

  function Next(s: Prompt, l: Label): Option<Prompt> {
    match l
    case StartChild => if s.progress == Preparing then Some(s.(progress := Started, child := Running)) else None
    case StoreChild => if s.progress == Started then Some(s.(progress := Stored)) else None
    case ChildPauses => if s.child == Running then Some(s.(child := Paused)) else None
    case ChildResumes => if s.child == Paused then Some(s.(child := Running)) else None
    case ChildEnds(r) => if s.child == Running && !r.Stopped? then Some(s.(child := Dead(r))) else None
    case SessionStops =>
      Some(if s.progress.Preparing? || s.progress.Started? then s.(stops := s.stops + {Early})
           else if s.child == Running || s.child == Paused
           then s.(stops := s.stops + {WhileAlive}, child := Dead(Signaled))
           else s.(stops := s.stops + {Late}))
    case Reap =>
      if s.progress != Stored then None
      else if s.child.Dead? then Some(s.(progress := Finished(Translate(s.child.result))))
      else if s.child == Paused then Some(s.(progress := Finished(Translate(Stopped))))
      else None
  }

  ghost predicate StopRespected(s: Prompt) {
    && (s.progress.Preparing? <==> s.child.NotStarted?)
    && (WhileAlive in s.stops ==> s.child == Dead(Signaled))
    && (s.progress == Finished(Some(Granted)) ==> s.child.Dead? && s.child.result.Exited?
                                                  && s.child.result.code != EXIT_FAILURE)
    && (s.progress == Finished(Some(Denied)) ==> s.child == Dead(Exited(1)))
  }

  /**
   In every interleaving: if the session's stop was delivered after the child was stored and
   before it ended, the agent does not grant; a grant means that the child exited by itself, and
   a denial that it exited with status 1.
   */
  lemma NeverGrantsAfterStop(s: Prompt, ls: seq<Label>)
    requires StopRespected(s) && Runs.Run(Next, s, ls).Some?
    ensures var t := Runs.Run(Next, s, ls).value;
            && StopRespected(t)
            && (WhileAlive in t.stops ==> t.progress != Finished(Some(Granted)))
            && (t.progress == Finished(Some(Granted)) ==>
                  t.child.Dead? && t.child.result.Exited? && t.child.result.code != EXIT_FAILURE)
            && (t.progress == Finished(Some(Denied)) ==> t.child == Dead(Exited(1)))
  {
    Runs.RunKeeps(Next, t => StopRespected(t), s, ls);
  }

  /** Waiting ends exactly when the child has ended or is paused; a paused child means no answer. */
  lemma ReapIff(s: Prompt)
    requires s.progress == Stored
    ensures Next(s, Reap).Some? <==> s.child.Dead? || s.child.Paused?
    ensures s.child.Paused? ==> Next(s, Reap).value.progress == Finished(None)
    ensures s.child.Dead? ==> var answer := Next(s, Reap).value.progress;
              && (answer == Finished(Some(Denied)) <==> s.child.result == Exited(1))
              && (answer == Finished(None) <==> !s.child.result.Exited?)
              && (answer == Finished(Some(Granted)) <==> s.child.result.Exited? && s.child.result.code != 1)
  {
  }

  /** A stop that comes before the child is stored is lost: the agent may still grant. */
  lemma EarlyStopMayGrant()
    ensures StopRespected(INITIAL)
    ensures var t := Runs.Run(Next, INITIAL, [SessionStops, StartChild, StoreChild, ChildEnds(Exited(0)), Reap]);
            t == Some(Prompt(Finished(Some(Granted)), Dead(Exited(0)), {Early}))
  {
    var s1 := Next(INITIAL, SessionStops).value;
    var s2 := Next(s1, StartChild).value;
    var s3 := Next(s2, StoreChild).value;
    var s4 := Next(s3, ChildEnds(Exited(0))).value;
    assert s1.stops == {Early};
    var s5 := Next(s4, Reap).value;
    Runs.TraceIsRun(Next, [INITIAL, s1, s2, s3, s4, s5],
                    [SessionStops, StartChild, StoreChild, ChildEnds(Exited(0)), Reap]);
  }

  /** Some continuation makes the agent grant. */
  ghost predicate MayGrant(s: Prompt) {
    exists t :: Runs.Reaches(Next, s, t) && t.progress == Finished(Some(Granted))
  }

  /** The child has ended, or is bound to end, in a way that is not translated to a grant. */
  ghost predicate Hopeless(s: Prompt) {
    StopRespected(s) && s.progress != Finished(Some(Granted))
    && (s.progress.Finished? || (s.child.Dead? && Translate(s.child.result) != Some(Granted)))
  }

  lemma HopelessNeverGrants(s: Prompt)
    requires Hopeless(s)
    ensures !MayGrant(s)
  {
    forall t | Runs.Reaches(Next, s, t) ensures Hopeless(t) {
      var ls :| Runs.Run(Next, s, ls) == Some(t);
      Runs.RunKeeps(Next, t => Hopeless(t), s, ls);
    }
  }

  /** A live child can always end well. */
  lemma OtherwiseMayGrant(s: Prompt)
    requires StopRespected(s) && !Hopeless(s)
    ensures MayGrant(s)
    decreases if s.progress.Finished? then 0 else 1,
              match s.child case NotStarted => 3 case Paused => 2 case Running => 1 case Dead(_) => 0,
              if s.progress == Started then 1 else 0
  {
    if s.progress.Finished? {
      Runs.ReachesItself(Next, s);
    } else {
      var l := match s.child
        case NotStarted => StartChild
        case Paused => ChildResumes
        case Running => ChildEnds(Exited(0))
        case Dead(_) => if s.progress == Started then StoreChild else Reap;
      OtherwiseMayGrant(Next(s, l).value);
      var t :| Runs.Reaches(Next, Next(s, l).value, t) && t.progress == Finished(Some(Granted));
      Runs.ReachesAfter(Next, s, l, t);
    }
  }

  /**
   Exactly when a stop is respected: after the callback the agent can still grant if and only
   if the callback came before the child was stored, or the child had already exited, and in
   both cases the child has not ended with failure or by a signal.
   */
  lemma StopRespectedIff(s: Prompt)
    requires StopRespected(s) && !s.progress.Finished?
    ensures MayGrant(Next(s, SessionStops).value)
            <==> if s.child.Dead? then Translate(s.child.result) == Some(Granted) else s.progress != Stored
  {
    var t := Next(s, SessionStops).value;
    if Hopeless(t) { HopelessNeverGrants(t); } else { OtherwiseMayGrant(t); }
  }
}
