/**
 Caching authentications that run concurrently. A call is cut where other calls can get in
 between: before its lookup, while the user is prompted, and before its answer is stored.
 */
module InterleavedCache {
  import opened TrustTypes
  import opened SqliteStore
  import opened CachedAgent
  import Runs

  datatype Progress = Started | Missed | Answered(answer: Answer) | Returned(answer: Answer) | Failed
  datatype Call = Call(id: string, feature: uint64, progress: Progress)

  /** An answer for a key: given by the user when prompted, or added to the store directly. */
  datatype Given = Given(id: string, feature: uint64, answer: Answer, prompted: bool)

  /** `given` is the log of all answers so far. */
  datatype System = System(store: StoreState, calls: map<nat, Call>, given: seq<Given>)

  datatype Label =
    | Begin(call: nat, id: string, feature: uint64)
    | LookUp(call: nat)
    | PromptEnds(call: nat, reply: Option<Answer>)
    | StoreAnswer(call: nat, now: int64)
    | Maintain(op: StoreOp)

  function Move(s: System, call: nat, progress: Progress): System
    requires call in s.calls
  {
    s.(calls := s.calls[call := s.calls[call].(progress := progress)])
  }

  /** The successor under a label, or `None` if the step is not enabled. */
  function Next(s: System, l: Label): Option<System> {
    match l
    case Begin(c, id, feature) =>
      if c in s.calls then None else Some(s.(calls := s.calls[c := Call(id, feature, Started)]))
    case Maintain(op) =>
      var logged := if op.Add? then [Given(op.request.from, op.request.feature, op.request.answer, false)] else [];
      Some(s.(store := ApplyStore(s.store, op).state, given := s.given + logged))
    case LookUp(c) =>
      if c !in s.calls || s.calls[c].progress != Started then None
      else
        var found := Lookup(s.store.rows, s.calls[c].id, s.calls[c].feature);
        Some(Move(s, c, if found.Some? then Returned(found.value) else Missed))
    case PromptEnds(c, reply) =>
      if c !in s.calls || s.calls[c].progress != Missed then None
      else if reply.None? then Some(Move(s, c, Failed))
      else
        Some(Move(s, c, Answered(reply.value)).(
             given := s.given + [Given(s.calls[c].id, s.calls[c].feature, reply.value, true)]))
    case StoreAnswer(c, now) =>
      if c !in s.calls || !s.calls[c].progress.Answered? then None
      else
        var call := s.calls[c];
        var r := ApplyStore(s.store, Add(Request(call.id, call.feature, now, call.progress.answer)));
        Some(Move(s, c, if r.ok then Returned(call.progress.answer) else Failed).(store := r.state))
  }

  predicate Regular(l: Label) {
    match l
    case Begin(_, id, feature) => id != "" && SignExtended(feature)
    case Maintain(op) => NamesApplication(op) && (op.Add? ==> SignExtended(op.request.feature))
    case _ => true
  }

  ghost predicate AllRegular(ls: seq<Label>) {
    forall i :: 0 <= i < |ls| ==> Regular(ls[i])
  }

  /******* Every answer belongs to its key *******/

  /** The user gave this answer for this key, or it was stored for it. */
  ghost predicate Sourced(base: seq<Row>, given: seq<Given>, id: string, feature: uint64, answer: Answer) {
    || Given(id, feature, answer, true) in given
    || Given(id, feature, answer, false) in given
    || exists row :: row in base && OfKey(row, id, feature) && row.entry.answer == answer
  }

  ghost predicate RowSourced(base: seq<Row>, given: seq<Given>, row: Row) {
    || row in base
    || exists g :: g in given && g.id == row.entry.app && SignExtended(g.feature)
                   && Narrow32(g.feature) == row.entry.feature && g.answer == row.entry.answer
  }

  ghost predicate CallSound(base: seq<Row>, given: seq<Given>, call: Call) {
    && call.id != "" && SignExtended(call.feature)
    && (call.progress.Answered? ==> Given(call.id, call.feature, call.progress.answer, true) in given)
    && (call.progress.Returned? ==> Sourced(base, given, call.id, call.feature, call.progress.answer))
  }

  ghost predicate Sound(base: seq<Row>, s: System) {
    && !s.store.insertFailed
    && (forall row :: row in s.store.rows ==> RowSourced(base, s.given, row))
    && (forall c :: c in s.calls ==> CallSound(base, s.given, s.calls[c]))
  }

  lemma LookupSourced(base: seq<Row>, given: seq<Given>, rows: seq<Row>, id: string, feature: uint64)
    requires forall row :: row in rows ==> RowSourced(base, given, row)
    requires id != "" && SignExtended(feature)
    ensures var found := Lookup(rows, id, feature);
            found.Some? ==> Sourced(base, given, id, feature, found.value)
  {
    LookupReadsKeyRows(rows, id, feature);
    var sorted := NewestFirst(KeyRows(rows, id, feature));
    if sorted != [] {
      var row := sorted[0];
      assert row in sorted && row in KeyRows(rows, id, feature);
      assert OfKey(row, id, feature);
      if row !in base {
        var g :| g in given && g.id == row.entry.app && SignExtended(g.feature)
                 && Narrow32(g.feature) == row.entry.feature && g.answer == row.entry.answer;
        FeaturesNeverCollide(g.feature, feature);
        assert g == Given(id, feature, row.entry.answer, g.prompted);
      }
    }
  }

  lemma SourcedGrows(base: seq<Row>, given: seq<Given>, g: Given)
    ensures forall id, feature: uint64, a ::
              Sourced(base, given, id, feature, a) ==> Sourced(base, given + [g], id, feature, a)
    ensures forall row :: RowSourced(base, given, row) ==> RowSourced(base, given + [g], row)
  {
    assert forall h :: h in given ==> h in given + [g];
  }

  lemma StepSound(base: seq<Row>, s: System, l: Label)
    requires Sound(base, s) && Regular(l) && Next(s, l).Some?
    ensures Sound(base, Next(s, l).value)
  {
    match l
    case Begin(_, _, _) =>
    case Maintain(op) => if op.Add? { AddSound(base, s, op.request); } else { assert s.given + [] == s.given; }
    case LookUp(c) =>
      assert CallSound(base, s.given, s.calls[c]);
      LookupSourced(base, s.given, s.store.rows, s.calls[c].id, s.calls[c].feature);
    case PromptEnds(c, reply) =>
      assert CallSound(base, s.given, s.calls[c]);
      if reply.Some? {
        SourcedGrows(base, s.given, Given(s.calls[c].id, s.calls[c].feature, reply.value, true));
      }
    case StoreAnswer(c, now) => StoreSound(base, s, c, now);
  }

  lemma AddSound(base: seq<Row>, s: System, r: Request)
    requires Sound(base, s) && r.from != "" && SignExtended(r.feature)
    ensures Sound(base, Next(s, Label.Maintain(Add(r))).value)
  {
    var g := Given(r.from, r.feature, r.answer, false);
    SourcedGrows(base, s.given, g);
    var row := Row(NextId(s.store.rows), Entry(r.from, Narrow32(r.feature), r.when, r.answer));
    assert g in s.given + [g];
    assert RowSourced(base, s.given + [g], row);
  }

  lemma StoreSound(base: seq<Row>, s: System, c: nat, now: int64)
    requires Sound(base, s) && c in s.calls && s.calls[c].progress.Answered?
    ensures Sound(base, Next(s, StoreAnswer(c, now)).value)
  {
    var call := s.calls[c];
    assert CallSound(base, s.given, call);
    var row := Row(NextId(s.store.rows), Entry(call.id, Narrow32(call.feature), now, call.progress.answer));
    assert RowSourced(base, s.given, row);
  }

  /**
   In every interleaving, an answer returned for a key was given by the user for that key, or
   was stored for it, at the beginning or by a direct addition.
   */
  lemma {:induction false} AnswersBelongToKey(base: seq<Row>, s: System, ls: seq<Label>)
    requires Sound(base, s) && AllRegular(ls) && Runs.Run(Next, s, ls).Some?
    ensures var t := Runs.Run(Next, s, ls).value;
            && Sound(base, t)
            && forall c :: c in t.calls && t.calls[c].progress.Returned? ==>
                 Sourced(base, t.given, t.calls[c].id, t.calls[c].feature, t.calls[c].progress.answer)
    decreases |ls|
  {
    if ls == [] {
      forall c | c in s.calls ensures CallSound(base, s.given, s.calls[c]) {}
    } else {
      assert Regular(ls[0]);
      StepSound(base, s, ls[0]);
      AnswersBelongToKey(base, Next(s, ls[0]).value, ls[1..]);
    }
  }

  lemma InitiallySound(store: StoreState)
    requires !store.insertFailed
    ensures Sound(store.rows, System(store, map[], []))
  {
  }

  /******* Quiet keys *******/

  predicate OnKey(call: Call, id: string, feature: uint64) {
    call.id == id && call.feature == feature
  }

  /** The key has a stored answer, and no call is between missing it and storing another one. */
  ghost predicate Quiet(s: System, id: string, feature: uint64) {
    && Lookup(s.store.rows, id, feature).Some?
    && (forall c :: c in s.calls && OnKey(s.calls[c], id, feature) ==>
          s.calls[c].progress != Missed && !s.calls[c].progress.Answered?)
  }

  predicate SparesKey(l: Label, id: string, feature: uint64) {
    match l
    case Maintain(RemoveApplication(gone)) => gone != id
    case Maintain(Reset) => false
    case Maintain(Add(r)) => r.from != id || r.feature != feature
    case _ => true
  }

  function OfGivenKey(id: string, feature: uint64): Given -> bool {
    (g: Given) => g.id == id && g.feature == feature && g.prompted
  }

  /** The prompts about a key. */
  function GivenFor(s: System, id: string, feature: uint64): seq<Given> {
    Keep(s.given, OfGivenKey(id, feature))
  }

  ghost predicate Named(s: System) {
    && !s.store.insertFailed
    && (forall c :: c in s.calls ==> s.calls[c].id != "" && SignExtended(s.calls[c].feature))
  }

  /** The store and the log look the same from the key. */
  ghost predicate SameForKey(s: System, t: System, id: string, feature: uint64) {
    && !t.store.insertFailed
    && Lookup(t.store.rows, id, feature) == Lookup(s.store.rows, id, feature)
    && GivenFor(t, id, feature) == GivenFor(s, id, feature)
  }

  /** Calls on the key stay as they are, or are waiting to look up, or have returned the answer. */
  ghost predicate CallsFollow(s: System, t: System, id: string, feature: uint64, answer: Answer) {
    && (forall c :: c in s.calls ==> c in t.calls && OnKey(t.calls[c], s.calls[c].id, s.calls[c].feature))
    && (forall c :: c in t.calls && OnKey(t.calls[c], id, feature) ==>
          if c in s.calls && s.calls[c].progress != Started then t.calls[c] == s.calls[c]
          else t.calls[c].progress == Started || t.calls[c].progress == Returned(answer))
  }

  ghost predicate Undisturbed(s: System, t: System, id: string, feature: uint64)
    requires Quiet(s, id, feature)
  {
    && Quiet(t, id, feature) && Named(t)
    && SameForKey(s, t, id, feature)
    && CallsFollow(s, t, id, feature, Lookup(s.store.rows, id, feature).value)
  }

  lemma LogOther(s: System, g: Given, id: string, feature: uint64)
    requires !OfGivenKey(id, feature)(g)
    ensures Keep(s.given + [g], OfGivenKey(id, feature)) == GivenFor(s, id, feature)
  {
    KeepAppend(s.given, [g], OfGivenKey(id, feature));
    assert GivenFor(s, id, feature) + [] == GivenFor(s, id, feature);
  }

  lemma StepSameForKey(s: System, l: Label, id: string, feature: uint64)
    requires Quiet(s, id, feature) && Named(s) && id != "" && SignExtended(feature)
    requires Regular(l) && SparesKey(l, id, feature) && Next(s, l).Some?
    ensures SameForKey(s, Next(s, l).value, id, feature)
  {
    var t := Next(s, l).value;
    match l
    case Begin(_, _, _) =>
    case LookUp(_) =>
    case Maintain(RemoveApplication(gone)) =>
      RemoveApplicationRows(s.store.rows, gone, id, feature);
      assert s.given + [] == s.given;
    case Maintain(Add(r)) =>
      AddOnKey(s.store, r, id, feature);
      LogOther(s, Given(r.from, r.feature, r.answer, false), id, feature);
    case PromptEnds(c, reply) =>
      if reply.Some? {
        assert !OnKey(s.calls[c], id, feature);
        LogOther(s, Given(s.calls[c].id, s.calls[c].feature, reply.value, true), id, feature);
      }
    case StoreAnswer(c, now) =>
      var call := s.calls[c];
      assert !OnKey(call, id, feature);
      AddOnKey(s.store, Request(call.id, call.feature, now, call.progress.answer), id, feature);
  }

  lemma StepCallsFollow(s: System, l: Label, id: string, feature: uint64)
    requires Quiet(s, id, feature) && Named(s)
    requires Regular(l) && Next(s, l).Some?
    ensures CallsFollow(s, Next(s, l).value, id, feature, Lookup(s.store.rows, id, feature).value)
    ensures forall c :: c in Next(s, l).value.calls ==>
              var call := Next(s, l).value.calls[c];
              && call.id != "" && SignExtended(call.feature)
              && (OnKey(call, id, feature) ==> call.progress != Missed && !call.progress.Answered?)
  {
    match l
    case Begin(_, _, _) =>
    case Maintain(_) =>
    case LookUp(_) =>
    case PromptEnds(_, _) =>
    case StoreAnswer(_, _) =>
  }

  lemma StepLeavesQuiet(s: System, l: Label, id: string, feature: uint64)
    requires Quiet(s, id, feature) && Named(s) && id != "" && SignExtended(feature)
    requires Regular(l) && SparesKey(l, id, feature) && Next(s, l).Some?
    ensures Undisturbed(s, Next(s, l).value, id, feature)
  {
    StepSameForKey(s, l, id, feature);
    StepCallsFollow(s, l, id, feature);
  }

  lemma UndisturbedTwice(s: System, t: System, u: System, id: string, feature: uint64)
    requires Quiet(s, id, feature) && Undisturbed(s, t, id, feature) && Undisturbed(t, u, id, feature)
    ensures Undisturbed(s, u, id, feature)
  {
  }

  /**
   From the moment a key is quiet, along every interleaving that does not remove its answers,
   the key's newest answer stays what it is, the user is not asked about the key again, and
   every call on the key that has yet to look up, now or later, returns that answer.
   */
  lemma {:induction false} QuietKeyAnswers(s: System, ls: seq<Label>, id: string, feature: uint64)
    requires Quiet(s, id, feature) && Named(s) && id != "" && SignExtended(feature)
    requires AllRegular(ls) && Runs.Run(Next, s, ls).Some?
    requires forall i :: 0 <= i < |ls| ==> SparesKey(ls[i], id, feature)
    ensures Undisturbed(s, Runs.Run(Next, s, ls).value, id, feature)
    decreases |ls|
  {
    if ls != [] {
      assert Regular(ls[0]) && SparesKey(ls[0], id, feature);
      var t := Next(s, ls[0]).value;
      StepLeavesQuiet(s, ls[0], id, feature);
      QuietKeyAnswers(t, ls[1..], id, feature);
      UndisturbedTwice(s, t, Runs.Run(Next, t, ls[1..]).value, id, feature);
    }
  }

  /** Storing an answer makes its key quiet, unless another call on it is still to store one. */
  lemma StoringQuietens(s: System, c: nat, now: int64)
    requires Named(s) && c in s.calls && s.calls[c].progress.Answered?
    ensures var t := Next(s, StoreAnswer(c, now)).value;
            var id, feature := s.calls[c].id, s.calls[c].feature;
            && t.calls[c].progress == Returned(s.calls[c].progress.answer)
            && (Quiet(t, id, feature) <==>
                  forall d :: d in s.calls && d != c && OnKey(s.calls[d], id, feature) ==>
                    s.calls[d].progress != Missed && !s.calls[d].progress.Answered?)
  {
    var call := s.calls[c];
    var row := Row(NextId(s.store.rows), Entry(call.id, Narrow32(call.feature), now, call.progress.answer));
    NarrowingsAgreeIff(call.feature);
    AddedKeyIsFound(s.store.rows, row, call.id, call.feature);
    var t := Next(s, StoreAnswer(c, now)).value;
    assert forall d :: d in s.calls && d != c ==> t.calls[d] == s.calls[d];
  }

  lemma AddedKeyIsFound(rows: seq<Row>, row: Row, id: string, feature: uint64)
    requires Passes(KeyFilter(id, feature), row.entry)
    ensures Lookup(rows + [row], id, feature).Some?
  {
    KeepAppend(rows, [row], PassesRow(KeyFilter(id, feature)));
    LookupReadsKeyRows(rows + [row], id, feature);
    SortedNonEmpty(KeyRows(rows + [row], id, feature));
  }

  /** The steps of a call that nobody interrupts. */
  function CallLabels(hit: bool, c: nat, p: RequestParameters, reply: Option<Answer>, now: int64): seq<Label> {
    [Begin(c, p.id, p.feature), LookUp(c)]
    + if hit then [] else [PromptEnds(c, reply)] + if reply.None? then [] else [StoreAnswer(c, now)]
  }

  /** A call that nobody interrupts does what the sequential agent does, exceptions included. */
  lemma AloneItIsSequential(s: System, c: nat, p: RequestParameters, reply: Option<Answer>, now: int64)
    requires c !in s.calls
    ensures var r := React(World(s.store, []), Authenticate(p, reply, now));
            var hit := Lookup(s.store.rows, p.id, p.feature).Some?;
            var t := Runs.Run(Next, s, CallLabels(hit, c, p, reply, now));
            && t.Some? && t.value.store == r.world.store && c in t.value.calls
            && t.value.calls[c].progress == (if r.answer.Some? then Returned(r.answer.value) else Failed)
            && t.value.given == s.given + (if hit || reply.None? then []
                                           else [Given(p.id, p.feature, reply.value, true)])
            && (hit <==> r.world.prompts == [])
  {
    var hit := Lookup(s.store.rows, p.id, p.feature).Some?;
    var s1 := Next(s, Begin(c, p.id, p.feature)).value;
    var s2 := Next(s1, LookUp(c)).value;
    assert s.given + [] == s.given;
    if hit {
      Runs.TraceIsRun(Next, [s, s1, s2], CallLabels(hit, c, p, reply, now));
    } else {
      var s3 := Next(s2, PromptEnds(c, reply)).value;
      if reply.None? {
        Runs.TraceIsRun(Next, [s, s1, s2, s3], CallLabels(hit, c, p, reply, now));
      } else {
        var s4 := Next(s3, StoreAnswer(c, now)).value;
        Runs.TraceIsRun(Next, [s, s1, s2, s3, s4], CallLabels(hit, c, p, reply, now));
      }
    }
  }

  /**
   A key that is not quiet has no such guarantee: two calls that have both missed get two
   prompts, and return different answers when the user answers differently.
   */
  lemma OverlappingCallsMayDiffer(s: System, c: nat, d: nat, now: int64)
    requires c in s.calls && d in s.calls && c != d && Named(s)
    requires s.calls[c].progress == s.calls[d].progress == Missed
    ensures var t := Runs.Run(Next, s, [PromptEnds(c, Some(Granted)), PromptEnds(d, Some(Denied)),
                                        StoreAnswer(c, now), StoreAnswer(d, now)]);
            && t.Some? && c in t.value.calls && d in t.value.calls
            && t.value.calls[c].progress == Returned(Granted)
            && t.value.calls[d].progress == Returned(Denied)
  {
    var s1 := Next(s, PromptEnds(c, Some(Granted))).value;
    var s2 := Next(s1, PromptEnds(d, Some(Denied))).value;
    var s3 := Next(s2, StoreAnswer(c, now)).value;
    var s4 := Next(s3, StoreAnswer(d, now)).value;
    Runs.TraceIsRun(Next, [s, s1, s2, s3, s4], [PromptEnds(c, Some(Granted)), PromptEnds(d, Some(Denied)),
                                                StoreAnswer(c, now), StoreAnswer(d, now)]);
  }
}
