/**
 The caching decision: look for a stored answer, else prompt and remember. Written twice in the
 source, as `CachedAgent` and as `process_trust_request`; both are compared with a memo table
 over whole sequential runs.
 */
module CachedAgent {
  import opened TrustTypes
  import opened SqliteStore

  /******* The lookup *******/

  /** A fresh query narrowed to an application and a feature, and executed. */
  function LookupCursor(rows: seq<Row>, id: string, feature: uint64): Cursor {
    var named := ApplyQuery(NEW_CURSOR, rows, ForApplicationId(id)).cursor;
    var narrowed := ApplyQuery(named, rows, ForFeature(feature)).cursor;
    ApplyQuery(narrowed, rows, Execute).cursor
  }

  function Lookup(rows: seq<Row>, id: string, feature: uint64): Option<Answer> {
    var c := LookupCursor(rows, id, feature);
    match ApplyQuery(c, rows, Current).outcome
    case IsRequest(r) => Some(r.answer)
    case _ => None
  }

  function KeyFilter(id: string, feature: uint64): Filter {
    NO_FILTER.(app := BindText(None, id), feature := Some(Narrow64(feature)))
  }

  function KeyRows(rows: seq<Row>, id: string, feature: uint64): seq<Row> {
    Matching(rows, KeyFilter(id, feature))
  }

  function FirstAnswer(rows: seq<Row>): Option<Answer> {
    if rows == [] then None else Some(rows[0].entry.answer)
  }

  /** Only the rows of the key decide the lookup. */
  lemma LookupReadsKeyRows(rows: seq<Row>, id: string, feature: uint64)
    ensures Lookup(rows, id, feature) == FirstAnswer(NewestFirst(KeyRows(rows, id, feature)))
  {
    var f := KeyFilter(id, feature);
    var c := LookupCursor(rows, id, feature);
    assert c == Step(NEW_CURSOR.(filter := f), rows);
    assert Select(rows, f) == NewestFirst(KeyRows(rows, id, feature));
  }

  ghost predicate OfKey(row: Row, id: string, feature: uint64) {
    row.entry.app == id && row.entry.feature == Narrow64(feature)
  }

  /** The row comes before all others of the key: newest, and with the lowest id among equals. */
  ghost predicate FirstOfKey(rows: seq<Row>, row: Row, id: string, feature: uint64) {
    && row in rows && OfKey(row, id, feature)
    && forall r :: r in rows && OfKey(r, id, feature) && r != row ==> Before(row, r)
  }

  /**
   For a named application the answer found is that of the newest row of the key, the lowest
   row id among equal timestamps, and nothing is found exactly when the key has no row.
   */
  lemma LookupFindsNewest(rows: seq<Row>, id: string, feature: uint64)
    requires IdsIncrease(rows) && id != ""
    ensures Lookup(rows, id, feature) == None <==> forall row :: row in rows ==> !OfKey(row, id, feature)
    ensures forall row :: FirstOfKey(rows, row, id, feature) ==> Lookup(rows, id, feature) == Some(row.entry.answer)
  {
    var f := KeyFilter(id, feature);
    var selection := Select(rows, f);
    SelectIsSelection(rows, f);
    LookupReadsKeyRows(rows, id, feature);
    assert forall row: Row :: OfKey(row, id, feature) <==> Passes(f, row.entry);
    if selection == [] {
      assert forall row :: row in rows ==> row !in selection;
    } else {
      var first := selection[0];
      assert first in selection;
      forall row | FirstOfKey(rows, row, id, feature) ensures row == first {
        assert row in selection;
        assert first == row || Before(row, first);
      }
    }
  }

  /** The lookup of an application reads only its own rows, for every table, exactly if it has a name. */
  lemma LookupReadsOwnRowsIff(id: string, feature: uint64)
    requires SignExtended(feature)
    ensures (forall rows, row :: row in KeyRows(rows, id, feature) ==> row.entry.app == id) <==> id != ""
  {
    if id == "" {
      NarrowingsAgreeIff(feature);
      var row := Row(1, Entry("other.app", Narrow32(feature), 0, Granted));
      assert row in [row] && PassesRow(KeyFilter(id, feature))(row);
      assert row in KeyRows([row], id, feature);
    }
  }

  lemma AddOtherKey(rows: seq<Row>, row: Row, id: string, feature: uint64)
    requires !Passes(KeyFilter(id, feature), row.entry)
    ensures KeyRows(rows + [row], id, feature) == KeyRows(rows, id, feature)
    ensures Lookup(rows + [row], id, feature) == Lookup(rows, id, feature)
  {
    KeepAppend(rows, [row], PassesRow(KeyFilter(id, feature)));
    assert KeyRows(rows, id, feature) + [] == KeyRows(rows, id, feature);
    LookupReadsKeyRows(rows, id, feature);
    LookupReadsKeyRows(rows + [row], id, feature);
  }

  lemma {:induction false} SortedNonEmpty(rows: seq<Row>)
    ensures NewestFirst(rows) == [] <==> rows == []
  {
    SortKeepsLength(rows);
  }

  lemma AddFirstOfKey(rows: seq<Row>, row: Row, id: string, feature: uint64)
    requires Passes(KeyFilter(id, feature), row.entry) && Lookup(rows, id, feature) == None
    ensures Lookup(rows + [row], id, feature) == Some(row.entry.answer)
  {
    LookupReadsKeyRows(rows, id, feature);
    SortedNonEmpty(KeyRows(rows, id, feature));
    KeepAppend(rows, [row], PassesRow(KeyFilter(id, feature)));
    assert Keep([row], PassesRow(KeyFilter(id, feature))) == [row];
    LookupReadsKeyRows(rows + [row], id, feature);
    assert KeyRows(rows + [row], id, feature) == [row];
    assert NewestFirst([row]) == InsertByTime(row, NewestFirst([])) == [row];
  }

  lemma RemoveApplicationRows(rows: seq<Row>, gone: string, id: string, feature: uint64)
    requires id != ""
    ensures KeyRows(WithoutApplication(rows, Some(gone)), id, feature)
            == if gone == id then [] else KeyRows(rows, id, feature)
    ensures Lookup(WithoutApplication(rows, Some(gone)), id, feature)
            == if gone == id then None else Lookup(rows, id, feature)
  {
    var key := PassesRow(KeyFilter(id, feature));
    var left := WithoutApplication(rows, Some(gone));
    LookupReadsKeyRows(left, id, feature);
    LookupReadsKeyRows(rows, id, feature);
    if gone == id {
      KeepNone(left, key);
    } else {
      KeepTwice(rows, OtherApplication(Some(gone)), key, key);
    }
  }

  /******* Sequential runs *******/

  /** The store and the log of everything the user was prompted for. */
  datatype World = World(store: StoreState, prompts: seq<RequestParameters>)

  /** An authentication carries what the user would answer (`None`: the prompt throws) and the clock. */
  datatype Event =
    | Authenticate(params: RequestParameters, reply: Option<Answer>, now: int64)
    | Maintain(op: StoreOp)

  datatype Reaction = Reaction(world: World, answer: Option<Answer>)

  function React(w: World, e: Event): Reaction {
    match e
    case Maintain(op) => Reaction(w.(store := ApplyStore(w.store, op).state), None)
    case Authenticate(p, reply, now) =>
      match Lookup(w.store.rows, p.id, p.feature)
      case Some(answer) => Reaction(w, Some(answer))
      case None =>
        var prompted := w.(prompts := w.prompts + [p]);
        if reply.None? then Reaction(prompted, None)
        else
          var r := ApplyStore(w.store, Add(Request(p.id, p.feature, now, reply.value)));
          Reaction(prompted.(store := r.state), if r.ok then reply else None)
  }

  function Run(w: World, es: seq<Event>): World
    decreases |es|
  {
    if es == [] then w else Run(React(w, es[0]).world, es[1..])
  }

  function Answers(w: World, es: seq<Event>): seq<Option<Answer>>
    decreases |es|
  {
    if es == [] then [] else [React(w, es[0]).answer] + Answers(React(w, es[0]).world, es[1..])
  }

  /** The events for which the store's widths and names are no obstacle. */
  predicate Regular(e: Event) {
    match e
    case Authenticate(p, _, _) => p.id != "" && SignExtended(p.feature)
    case Maintain(op) => NamesApplication(op) && (op.Add? ==> SignExtended(op.request.feature))
  }

  ghost predicate AllRegular(es: seq<Event>) {
    forall i :: 0 <= i < |es| ==> Regular(es[i])
  }

  /** Events that neither drop nor replace the stored answers of a key. */
  predicate Spares(e: Event, id: string, feature: uint64) {
    match e
    case Authenticate(_, _, _) => true
    case Maintain(Reset) => false
    case Maintain(RemoveApplication(gone)) => gone != id
    case Maintain(Add(r)) => r.from != id || r.feature != feature
  }

  lemma InsertTouchesOnlyItsKey(r: Request, id: string, feature: uint64)
    requires SignExtended(r.feature) && SignExtended(feature) && r.from != "" && id != ""
    ensures Passes(KeyFilter(id, feature), Entry(r.from, Narrow32(r.feature), r.when, r.answer))
            <==> r.from == id && r.feature == feature
  {
    FeaturesNeverCollide(r.feature, feature);
  }

  /** An answer and when it was given. */
  datatype Dated = Dated(when: int64, answer: Answer)

  /** The newest of some rows. */
  function NewestOf(rows: seq<Row>): Option<Dated> {
    var sorted := NewestFirst(rows);
    if sorted == [] then None else Some(Dated(sorted[0].entry.when, sorted[0].entry.answer))
  }

  /** Of two answers the later one; the known one if they are of the same time. */
  function Newer(known: Option<Dated>, d: Dated): Option<Dated> {
    if known.Some? && d.when <= known.value.when then known else Some(d)
  }

  function AnswerOf(d: Option<Dated>): Option<Answer> {
    if d.None? then None else Some(d.value.answer)
  }

  function NewestOnKey(rows: seq<Row>, id: string, feature: uint64): Option<Dated> {
    NewestOf(KeyRows(rows, id, feature))
  }

  /** A row added last becomes the newest one exactly if it is newer than the newest so far. */
  lemma {:induction false} NewestOfAppended(rows: seq<Row>, row: Row)
    ensures var before := NewestOf(rows);
            NewestOf(rows + [row])
            == Newer(before, Dated(row.entry.when, row.entry.answer))
  {
    if rows == [] {
      assert rows + [row] == [row];
      assert NewestFirst([row]) == InsertByTime(row, NewestFirst([])) == [row];
    } else {
      assert (rows + [row])[1..] == rows[1..] + [row];
      NewestOfAppended(rows[1..], row);
    }
  }

  lemma KeyRowsAfterAdd(s: StoreState, r: Request, id: string, feature: uint64)
    requires !s.insertFailed && r.from != "" && id != "" && SignExtended(r.feature) && SignExtended(feature)
    ensures KeyRows(ApplyStore(s, Add(r)).state.rows, id, feature)
            == KeyRows(s.rows, id, feature)
               + if r.from == id && r.feature == feature
                 then [Row(NextId(s.rows), Entry(r.from, Narrow32(r.feature), r.when, r.answer))] else []
  {
    var row := Row(NextId(s.rows), Entry(r.from, Narrow32(r.feature), r.when, r.answer));
    InsertTouchesOnlyItsKey(r, id, feature);
    KeepAppend(s.rows, [row], PassesRow(KeyFilter(id, feature)));
  }

  /** An addition to a key leaves the newer of the two answers, and changes no other key. */
  lemma AddOnKey(s: StoreState, r: Request, id: string, feature: uint64)
    requires !s.insertFailed && r.from != "" && id != ""
    requires SignExtended(r.feature) && SignExtended(feature)
    ensures var t := ApplyStore(s, Add(r));
            var before, after := NewestOnKey(s.rows, id, feature), NewestOnKey(t.state.rows, id, feature);
            && t.ok && !t.state.insertFailed
            && after == (if r.from == id && r.feature == feature then Newer(before, Dated(r.when, r.answer))
                         else before)
            && Lookup(s.rows, id, feature) == AnswerOf(before)
            && Lookup(t.state.rows, id, feature) == AnswerOf(after)
  {
    var t := ApplyStore(s, Add(r)).state;
    LookupReadsKeyRows(s.rows, id, feature);
    LookupReadsKeyRows(t.rows, id, feature);
    KeyRowsAfterAdd(s, r, id, feature);
    if r.from == id && r.feature == feature {
      NewestOfAppended(KeyRows(s.rows, id, feature),
                       Row(NextId(s.rows), Entry(r.from, Narrow32(r.feature), r.when, r.answer)));
    } else {
      assert KeyRows(s.rows, id, feature) + [] == KeyRows(s.rows, id, feature);
    }
  }

  /** Exactly what is found for a key after an event. */
  lemma ReactOnKey(w: World, e: Event, id: string, feature: uint64)
    requires !w.store.insertFailed && Regular(e) && id != "" && SignExtended(feature)
    ensures var r := React(w, e);
            var before := Lookup(w.store.rows, id, feature);
            && !r.world.store.insertFailed
            && Lookup(r.world.store.rows, id, feature)
               == (match e
                  case Authenticate(p, reply, _) =>
                    if p.id != id || p.feature != feature then before else if before.Some? then before else reply
                  case Maintain(Reset) => None
                  case Maintain(RemoveApplication(gone)) => if gone == id then None else before
                  case Maintain(Add(q)) =>
                    if q.from != id || q.feature != feature then before
                    else AnswerOf(Newer(NewestOnKey(w.store.rows, id, feature), Dated(q.when, q.answer))))
            && (e.Authenticate? && e.params.id == id && e.params.feature == feature ==>
                  r.answer == Lookup(r.world.store.rows, id, feature))
  {
    var rows := w.store.rows;
    match e
    case Maintain(Reset) =>
    case Maintain(RemoveApplication(gone)) => RemoveApplicationRows(rows, gone, id, feature);
    case Maintain(Add(r)) => AddOnKey(w.store, r, id, feature);
    case Authenticate(p, reply, now) =>
      if Lookup(rows, p.id, p.feature) == None && reply.Some? {
        AddOnKey(w.store, Request(p.id, p.feature, now, reply.value), id, feature);
      }
  }

  /******* The memo table *******/

  datatype Memo = Memo(table: map<(string, uint64), Dated>, prompts: seq<RequestParameters>)
  datatype MemoReaction = MemoReaction(memo: Memo, answer: Option<Answer>)

  function Find(m: Memo, id: string, feature: uint64): Option<Dated> {
    if (id, feature) in m.table then Some(m.table[(id, feature)]) else None
  }

  /** A newer answer replaces an older one. */
  function Remember(m: Memo, id: string, feature: uint64, d: Dated): Memo {
    m.(table := m.table[(id, feature) := Newer(Find(m, id, feature), d).value])
  }

  function ReactMemo(m: Memo, e: Event): MemoReaction {
    match e
    case Maintain(Reset) => MemoReaction(m.(table := map[]), None)
    case Maintain(RemoveApplication(id)) =>
      MemoReaction(m.(table := map k | k in m.table && k.0 != id :: m.table[k]), None)
    case Maintain(Add(r)) => MemoReaction(Remember(m, r.from, r.feature, Dated(r.when, r.answer)), None)
    case Authenticate(p, reply, now) =>
      match Find(m, p.id, p.feature)
      case Some(known) => MemoReaction(m, Some(known.answer))
      case None =>
        var prompted := m.(prompts := m.prompts + [p]);
        if reply.None? then MemoReaction(prompted, None)
        else MemoReaction(Remember(prompted, p.id, p.feature, Dated(now, reply.value)), reply)
  }

  function MemoAnswers(m: Memo, es: seq<Event>): seq<Option<Answer>>
    decreases |es|
  {
    if es == [] then [] else [ReactMemo(m, es[0]).answer] + MemoAnswers(ReactMemo(m, es[0]).memo, es[1..])
  }

  function MemoRun(m: Memo, es: seq<Event>): Memo
    decreases |es|
  {
    if es == [] then m else MemoRun(ReactMemo(m, es[0]).memo, es[1..])
  }

  ghost predicate AgreeOnKey(rows: seq<Row>, m: Memo, id: string, feature: uint64) {
    NewestOnKey(rows, id, feature) == Find(m, id, feature)
  }

  /** Store and memo tell the same newest answer for every key, and the same prompts were made. */
  ghost predicate Agrees(w: World, m: Memo) {
    && !w.store.insertFailed
    && w.prompts == m.prompts
    && (forall id, feature: uint64 :: id != "" && SignExtended(feature) ==>
          AgreeOnKey(w.store.rows, m, id, feature))
  }

  lemma AddAgrees(s: StoreState, m: Memo, r: Request, id: string, feature: uint64)
    requires !s.insertFailed && r.from != "" && id != "" && SignExtended(r.feature) && SignExtended(feature)
    requires AgreeOnKey(s.rows, m, id, feature)
    ensures AgreeOnKey(ApplyStore(s, Add(r)).state.rows,
                       Remember(m, r.from, r.feature, Dated(r.when, r.answer)), id, feature)
  {
    AddOnKey(s, r, id, feature);
  }

  lemma MemoStepOnKey(w: World, m: Memo, e: Event, id: string, feature: uint64)
    requires Agrees(w, m) && Regular(e) && id != "" && SignExtended(feature)
    ensures AgreeOnKey(React(w, e).world.store.rows, ReactMemo(m, e).memo, id, feature)
  {
    assert AgreeOnKey(w.store.rows, m, id, feature);
    match e
    case Maintain(Reset) =>
    case Maintain(RemoveApplication(gone)) => RemoveApplicationRows(w.store.rows, gone, id, feature);
    case Maintain(Add(r)) => AddAgrees(w.store, m, r, id, feature);
    case Authenticate(p, reply, now) =>
      LookupAgrees(w, m, p.id, p.feature);
      if Find(m, p.id, p.feature) == None && reply.Some? {
        AddAgrees(w.store, m.(prompts := m.prompts + [p]), Request(p.id, p.feature, now, reply.value), id, feature);
      }
  }

  lemma LookupAgrees(w: World, m: Memo, id: string, feature: uint64)
    requires Agrees(w, m) && id != "" && SignExtended(feature)
    ensures Lookup(w.store.rows, id, feature) == AnswerOf(Find(m, id, feature))
  {
    assert AgreeOnKey(w.store.rows, m, id, feature);
    LookupReadsKeyRows(w.store.rows, id, feature);
  }

  lemma MemoStep(w: World, m: Memo, e: Event)
    requires Agrees(w, m) && Regular(e)
    ensures Agrees(React(w, e).world, ReactMemo(m, e).memo)
    ensures React(w, e).answer == ReactMemo(m, e).answer
  {
    forall id, feature: uint64 | id != "" && SignExtended(feature)
      ensures AgreeOnKey(React(w, e).world.store.rows, ReactMemo(m, e).memo, id, feature)
    {
      MemoStepOnKey(w, m, e, id, feature);
    }
    if e.Authenticate? { LookupAgrees(w, m, e.params.id, e.params.feature); }
  }

  /**
   Over every sequential run, direct additions included, the caching agent on the SQLite store
   gives the answers and makes the prompts of a memo table that keeps the newest answer of
   every key.
   */
  lemma {:induction false} CacheIsMemo(w: World, m: Memo, es: seq<Event>)
    requires Agrees(w, m) && AllRegular(es)
    ensures Answers(w, es) == MemoAnswers(m, es)
    ensures Agrees(Run(w, es), MemoRun(m, es))
    decreases |es|
  {
    if es != [] {
      assert Regular(es[0]);
      MemoStep(w, m, es[0]);
      CacheIsMemo(React(w, es[0]).world, ReactMemo(m, es[0]).memo, es[1..]);
    }
  }

  lemma EmptyStoreAgrees()
    ensures Agrees(World(EMPTY_STORE, []), Memo(map[], []))
  {
    forall id, feature: uint64 ensures AgreeOnKey([], Memo(map[], []), id, feature) {
      assert KeyRows([], id, feature) == [];
    }
  }

  /******* What a stored answer guarantees *******/

  ghost predicate AllSpare(es: seq<Event>, id: string, feature: uint64) {
    forall i :: 0 <= i < |es| ==> Spares(es[i], id, feature)
  }

  /**
   Once a key has an answer it keeps it: after any further run that spares the key, an
   authentication of the key returns that answer, prompts nobody and stores nothing.
   */
  lemma {:induction false} AnswerSticks(w: World, es: seq<Event>, id: string, feature: uint64, again: Event)
    requires !w.store.insertFailed && id != "" && SignExtended(feature)
    requires Lookup(w.store.rows, id, feature).Some?
    requires AllRegular(es) && AllSpare(es, id, feature)
    requires again.Authenticate? && again.params.id == id && again.params.feature == feature
    ensures React(Run(w, es), again) == Reaction(Run(w, es), Lookup(w.store.rows, id, feature))
    decreases |es|
  {
    if es != [] {
      assert Regular(es[0]) && Spares(es[0], id, feature);
      ReactOnKey(w, es[0], id, feature);
      AnswerSticks(React(w, es[0]).world, es[1..], id, feature, again);
    }
  }

  /** The answers the user gave for one key in the course of a run. */
  function Given(w: World, es: seq<Event>, id: string, feature: uint64): seq<Answer>
    decreases |es|
  {
    if es == [] then []
    else
      var r := React(w, es[0]);
      var here := match es[0]
        case Authenticate(p, reply, _) =>
          if p.id == id && p.feature == feature && Lookup(w.store.rows, id, feature) == None && reply.Some?
          then [reply.value] else []
        case Maintain(_) => [];
      here + Given(r.world, es[1..], id, feature)
  }

  /** While nothing touches its stored answers, a key gets at most one answer from the user. */
  lemma {:induction false} AtMostOnePrompt(w: World, es: seq<Event>, id: string, feature: uint64)
    requires !w.store.insertFailed && id != "" && SignExtended(feature)
    requires AllRegular(es) && AllSpare(es, id, feature)
    ensures |Given(w, es, id, feature)| <= if Lookup(w.store.rows, id, feature).Some? then 0 else 1
    decreases |es|
  {
    if es != [] {
      assert Regular(es[0]) && Spares(es[0], id, feature);
      ReactOnKey(w, es[0], id, feature);
      AtMostOnePrompt(React(w, es[0]).world, es[1..], id, feature);
    }
  }

  /** An authentication of a named application that yields no answer leaves the store as it was. */
  lemma NoAnswerNoChange(w: World, e: Event)
    requires e.Authenticate? && e.params.id != "" && !w.store.insertFailed
    ensures React(w, e).answer == None ==> React(w, e).world.store == w.store
    ensures React(w, e).answer == None <==>
            Lookup(w.store.rows, e.params.id, e.params.feature) == None && e.reply == None
  {
  }

  /** A prompted answer is found again exactly when the feature survives the narrowing. */
  lemma RememberedIff(w: World, e: Event)
    requires e.Authenticate? && e.params.id != "" && !w.store.insertFailed && e.reply.Some?
    requires Lookup(w.store.rows, e.params.id, e.params.feature) == None
    ensures Lookup(React(w, e).world.store.rows, e.params.id, e.params.feature) == e.reply
            <==> SignExtended(e.params.feature)
  {
    var p := e.params;
    var row := Row(NextId(w.store.rows), Entry(p.id, Narrow32(p.feature), e.now, e.reply.value));
    NarrowingsAgreeIff(p.feature);
    if SignExtended(p.feature) {
      AddFirstOfKey(w.store.rows, row, p.id, p.feature);
    } else {
      AddOtherKey(w.store.rows, row, p.id, p.feature);
    }
  }

  /**
   An application without name that is prompted for gets its answer stored under the application
   inserted last; if there is none, the answer is lost in an exception.
   */
  lemma UnnamedPrompt(w: World, p: RequestParameters, reply: Answer, now: int64)
    requires p.id == "" && !w.store.insertFailed && Lookup(w.store.rows, p.id, p.feature) == None
    ensures var r := React(w, Authenticate(p, Some(reply), now));
            && r.world.prompts == w.prompts + [p]
            && (r.answer == None <==> w.store.insertApp == None)
            && (r.answer == None ==> r.world.store == w.store.(insertFailed := true))
            && (r.answer.Some? ==>
                  && r.answer == Some(reply)
                  && Contents(r.world.store.rows)
                     == Contents(w.store.rows) + [Entry(w.store.insertApp.value, Narrow32(p.feature), now, reply)])
  {
    if w.store.insertApp.Some? {
      var row := Row(NextId(w.store.rows), Entry(w.store.insertApp.value, Narrow32(p.feature), now, reply));
      ContentsAppend(w.store.rows, [row]);
      assert Contents([row]) == [row.entry];
    }
  }

  /** After that exception the next prompted answer is lost as well, whoever it is for. */
  lemma LostAnswerCostsNext(w: World, p: RequestParameters, reply: Answer, now: int64)
    requires w.store.insertFailed && Lookup(w.store.rows, p.id, p.feature) == None
    ensures React(w, Authenticate(p, Some(reply), now))
            == Reaction(World(w.store.(insertFailed := false), w.prompts + [p]), None)
  {
  }

  lemma PromptedRow(w: World, p: RequestParameters, answer: Answer, now: int64)
    requires p.id != "" && !w.store.insertFailed && Lookup(w.store.rows, p.id, p.feature) == None
    ensures var t := React(w, Authenticate(p, Some(answer), now)).world.store;
            && !t.insertFailed
            && t.rows == w.store.rows + [Row(NextId(w.store.rows), Entry(p.id, Narrow32(p.feature), now, answer))]
  {
  }

  /**
   The answer for a feature that does not survive the narrowing replaces, for the same
   application, the answer of the feature that shares its low 32 bits.
   */
  lemma WideFeatureReplacesAnswer(w: World, p: RequestParameters, feature: uint64, answer: Answer, now: int64)
    requires IdsIncrease(w.store.rows) && !w.store.insertFailed && p.id != ""
    requires !SignExtended(p.feature) && SignExtended(feature) && Narrow32(feature) == Narrow32(p.feature)
    requires forall row :: row in w.store.rows ==> row.entry.when < now
    ensures var after := React(w, Authenticate(p, Some(answer), now)).world;
            Lookup(after.store.rows, p.id, feature) == Some(answer)
  {
    var rows := w.store.rows;
    var entry := Entry(p.id, Narrow32(p.feature), now, answer);
    NarrowingsAgreeIff(feature);
    WideFeatureNeverFound(rows, p.id, p.feature);
    PromptedRow(w, p, answer, now);
    AppendIncreasing(rows, entry);
    NewestAnswers(rows, Row(NextId(rows), entry), p.id, feature);
  }

  lemma WideFeatureNeverFound(rows: seq<Row>, id: string, feature: uint64)
    requires !SignExtended(feature)
    ensures Lookup(rows, id, feature) == None
  {
    LookupReadsKeyRows(rows, id, feature);
    SortedNonEmpty(KeyRows(rows, id, feature));
    assert forall row: Row :: !PassesRow(KeyFilter(id, feature))(row);
    KeepNone(rows, PassesRow(KeyFilter(id, feature)));
  }

  lemma NewestAnswers(rows: seq<Row>, row: Row, id: string, feature: uint64)
    requires IdsIncrease(rows + [row]) && id != "" && OfKey(row, id, feature)
    requires forall r :: r in rows ==> r.entry.when < row.entry.when
    ensures Lookup(rows + [row], id, feature) == Some(row.entry.answer)
  {
    LookupFindsNewest(rows + [row], id, feature);
    assert row in rows + [row];
  }

  /******* The imperative form *******/

  /** The prompting agent: the user's reply is an input, the prompts are recorded. */
  class PromptingAgent {
    var prompts: seq<RequestParameters>

    constructor ()
      ensures prompts == []
    {
      prompts := [];
    }

    method Prompt(params: RequestParameters, reply: Option<Answer>) returns (answer: Option<Answer>)
      modifies this
      ensures prompts == old(prompts) + [params] && answer == reply
    {
      prompts := prompts + [params];
      answer := reply;
    }
  }

  /** Configures and executes a query object, and reads the answer it stands on, if any. */
  method QueryStore(store: Store, id: string, feature: uint64) returns (stored: Option<Answer>)
    ensures stored == Lookup(store.rows, id, feature)
  {
    var query := new Query(store);
    var bound := query.RestrictToApplication(id);
    bound := query.RestrictToFeature(feature);
    query.ExecuteQuery();
    assert query.State() == LookupCursor(store.rows, id, feature);
    if query.status == HasMoreResults {
      var current := query.GetCurrent();
      stored := Some(current.request.answer);
    } else {
      stored := None;
    }
  }

  class CachingAgent {
    const agent: PromptingAgent
    const store: Store

    constructor (agent: PromptingAgent, store: Store)
      ensures this.agent == agent && this.store == store
    {
      this.agent, this.store := agent, store;
    }

    method AuthenticateRequest(params: RequestParameters, reply: Option<Answer>, now: int64)
      returns (answer: Option<Answer>)
      modifies agent, store
      ensures Reaction(World(store.State(), agent.prompts), answer)
              == React(old(World(store.State(), agent.prompts)), Authenticate(params, reply, now))
    {
      var stored := QueryStore(store, params.id, params.feature);
      if stored.Some? { return stored; }
      answer := agent.Prompt(params, reply);
      if answer.Some? {
        var added := store.AddRequest(Request(params.id, params.feature, now, answer.value));
        if !added { answer := None; }
      }
    }
  }

  /** The free function of the same purpose reacts to every request as the caching agent does. */
  method ProcessTrustRequest(agent: PromptingAgent, store: Store, params: RequestParameters,
                             reply: Option<Answer>, now: int64) returns (answer: Option<Answer>)
    modifies agent, store
    ensures Reaction(World(store.State(), agent.prompts), answer)
            == React(old(World(store.State(), agent.prompts)), Authenticate(params, reply, now))
  {
    var stored := QueryStore(store, params.id, params.feature);
    if stored.Some? { return stored; }
    answer := agent.Prompt(params, reply);
    if answer.Some? {
      var added := store.AddRequest(Request(params.id, params.feature, now, answer.value));
      if !added { answer := None; }
    }
  }
}
