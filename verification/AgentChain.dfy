/**
 The chain a daemon puts in front of the user: format the application id, grant white-listed
 applications, and only then consult the cache.
 */
module AgentChain {
  import opened TrustTypes
  import opened SqliteStore
  import opened CachedAgent
  import opened AppIdFormatting

  predicate WhiteListed(id: string, whitelistingDisabled: bool) {
    id == "unconfined" || (!whitelistingDisabled && id == "com.ubuntu.camera_camera")
  }

  /** One event through the chain; maintenance of the store bypasses it. */
  function ReactChain(w: World, e: Event, disabled: bool): Reaction {
    match e
    case Maintain(_) => React(w, e)
    case Authenticate(p, _, _) =>
      var formatted := e.(params := p.(id := Format(p.id)));
      if WhiteListed(formatted.params.id, disabled) then Reaction(w, Some(Granted)) else React(w, formatted)
  }

  function RunChain(w: World, es: seq<Event>, disabled: bool): World
    decreases |es|
  {
    if es == [] then w else RunChain(ReactChain(w, es[0], disabled).world, es[1..], disabled)
  }

  /** The events that get through to the cache, as the cache sees them. */
  function Passed(es: seq<Event>, disabled: bool): seq<Event>
    decreases |es|
  {
    if es == [] then []
    else
      var rest := Passed(es[1..], disabled);
      match es[0]
      case Maintain(_) => [es[0]] + rest
      case Authenticate(p, _, _) =>
        if WhiteListed(Format(p.id), disabled) then rest
        else [es[0].(params := p.(id := Format(p.id)))] + rest
  }

  /** A run of the chain is a run of the cache on what passes. */
  lemma {:induction false} ChainRunsCache(w: World, es: seq<Event>, disabled: bool)
    ensures RunChain(w, es, disabled) == Run(w, Passed(es, disabled))
    decreases |es|
  {
    if es != [] {
      ChainRunsCache(ReactChain(w, es[0], disabled).world, es[1..], disabled);
      var rest := Passed(es[1..], disabled);
      assert Passed(es, disabled) != rest ==> Passed(es, disabled)[1..] == rest;
    }
  }

  lemma {:induction false} PassedRegular(es: seq<Event>, disabled: bool)
    requires AllRegular(es)
    ensures AllRegular(Passed(es, disabled))
    decreases |es|
  {
    if es != [] {
      assert Regular(es[0]);
      PassedRegular(es[1..], disabled);
      if es[0].Authenticate? { FormatKeepsNames(es[0].params.id); }
    }
  }

  lemma {:induction false} PassedSpares(es: seq<Event>, disabled: bool, id: string, feature: uint64)
    requires AllSpare(es, id, feature)
    ensures AllSpare(Passed(es, disabled), id, feature)
    decreases |es|
  {
    if es != [] {
      assert Spares(es[0], id, feature);
      PassedSpares(es[1..], disabled, id, feature);
    }
  }

  lemma {:induction false} RunChainAppend(w: World, es: seq<Event>, fs: seq<Event>, disabled: bool)
    ensures RunChain(w, es + fs, disabled) == RunChain(RunChain(w, es, disabled), fs, disabled)
    decreases |es|
  {
    if es == [] {
      assert es + fs == fs;
    } else {
      assert (es + fs)[1..] == es[1..] + fs;
      RunChainAppend(ReactChain(w, es[0], disabled).world, es[1..], fs, disabled);
    }
  }

  const NEW_WORLD := World(EMPTY_STORE, [])
  const NEW_MEMO := Memo(map[], [])

  /** What a user's chain has in store after the events `es` is what the memo table has. */
  lemma ChainAgrees(es: seq<Event>, disabled: bool)
    requires AllRegular(es)
    ensures Agrees(RunChain(NEW_WORLD, es, disabled), MemoRun(NEW_MEMO, Passed(es, disabled)))
  {
    EmptyStoreAgrees();
    PassedRegular(es, disabled);
    ChainRunsCache(NEW_WORLD, es, disabled);
    CacheIsMemo(NEW_WORLD, NEW_MEMO, Passed(es, disabled));
  }

  /** The chain's standing answer for a formatted id, if it has one. */
  function ChainAnswer(w: World, id: string, feature: uint64, disabled: bool): Option<Answer> {
    if WhiteListed(id, disabled) then Some(Granted) else Lookup(w.store.rows, id, feature)
  }

  /**
   An event that spares a key keeps the standing answer, and an authentication that belongs to
   the key is given the answer that stands after it.
   */
  lemma ChainStepOnKey(w: World, e: Event, id: string, feature: uint64, disabled: bool)
    requires !w.store.insertFailed && Regular(e) && Spares(e, id, feature) && id != "" && SignExtended(feature)
    ensures var r := ReactChain(w, e, disabled);
            var before := ChainAnswer(w, id, feature, disabled);
            var after := ChainAnswer(r.world, id, feature, disabled);
            && (before.Some? ==> after == before)
            && (e.Authenticate? && Format(e.params.id) == id && e.params.feature == feature ==> r.answer == after)
  {
    match e
    case Maintain(_) => ReactOnKey(w, e, id, feature);
    case Authenticate(p, _, _) =>
      FormatKeepsNames(p.id);
      ReactOnKey(w, e.(params := p.(id := Format(p.id))), id, feature);
  }

  /**
   What the chain grants unasked, by name: an unconfined application, and the camera unless
   white-listing is disabled. Every other application gets its stored answer, and if there is
   none the user is asked about it, under the id without version.
   */
  lemma GrantedUnasked(w: World, e: Event, disabled: bool)
    requires e.Authenticate?
    ensures var id := Cut(e.params.id);
            var r := ReactChain(w, e, disabled);
            var stored := Lookup(w.store.rows, id, e.params.feature);
            if id == "unconfined" || (id == "com.ubuntu.camera_camera" && !disabled)
            then r == Reaction(w, Some(Granted))
            else if stored.Some? then r == Reaction(w, stored)
            else r.world.prompts == w.prompts + [e.params.(id := id)]
  {
    FormatIsCut(e.params.id);
  }

  lemma CameraIsPackage()
    ensures '_' in "com.ubuntu.camera_camera" && OneLine("com.ubuntu.camera_camera")
  {
    var package := "com.ubuntu.camera_camera";
    assert package[17] == '_';
    assert package == "com.ubuntu." + "camera_camera";
  }

  /** All versions of the camera are granted unasked, or none is if white-listing is disabled. */
  lemma CameraGrantedIff(v: string, params: RequestParameters, reply: Option<Answer>, now: int64, disabled: bool)
    requires OneLine(v) && '_' !in v && params.id == "com.ubuntu.camera_camera" + "_" + v
    ensures ReactChain(NEW_WORLD, Authenticate(params, reply, now), disabled) == Reaction(NEW_WORLD, Some(Granted))
            <==> !disabled
  {
    CameraIsPackage();
    FormatOfVersion("com.ubuntu.camera_camera", v);
    FormatIsCut(params.id);
    GrantedUnasked(NEW_WORLD, Authenticate(params, reply, now), disabled);
    LookupReadsKeyRows([], "com.ubuntu.camera_camera", params.feature);
    assert KeyRows([], "com.ubuntu.camera_camera", params.feature) == [];
  }

  /** Anywhere in a run, a white-listed application is granted, and the run goes on as without it. */
  lemma WhiteListedGranted(w: World, before: seq<Event>, e: Event, after: seq<Event>, disabled: bool)
    requires e.Authenticate? && WhiteListed(Format(e.params.id), disabled)
    ensures ReactChain(RunChain(w, before, disabled), e, disabled).answer == Some(Granted)
    ensures RunChain(w, before + [e] + after, disabled) == RunChain(w, before + after, disabled)
  {
    var w' := RunChain(w, before, disabled);
    RunChainAppend(w, before, after, disabled);
    RunChainAppend(w, before + [e], after, disabled);
    RunChainAppend(w, before, [e], disabled);
    assert RunChain(w', [e], disabled) == RunChain(ReactChain(w', e, disabled).world, [], disabled);
  }

  /**
   Two ids with the same formatted id share their cached answer: once one of them has got an
   answer, and the run spares the key, the other one gets the same answer without a prompt.
   */
  lemma VersionsShareAnswer(w: World, first: Event, es: seq<Event>, second: Event, disabled: bool)
    requires !w.store.insertFailed && first.Authenticate? && second.Authenticate? && Regular(first)
    requires Format(second.params.id) == Format(first.params.id)
    requires second.params.feature == first.params.feature
    requires AllRegular(es) && AllSpare(es, Format(first.params.id), first.params.feature)
    requires ReactChain(w, first, disabled).answer.Some?
    ensures var after := RunChain(ReactChain(w, first, disabled).world, es, disabled);
            ReactChain(after, second, disabled) == Reaction(after, ReactChain(w, first, disabled).answer)
  {
    var id, feature := Format(first.params.id), first.params.feature;
    FormatKeepsNames(first.params.id);
    if !WhiteListed(id, disabled) {
      var formatted := first.(params := first.params.(id := id));
      ReactOnKey(w, formatted, id, feature);
      var w' := React(w, formatted).world;
      PassedRegular(es, disabled);
      PassedSpares(es, disabled, id, feature);
      ChainRunsCache(w', es, disabled);
      AnswerSticks(w', Passed(es, disabled), id, feature, second.(params := second.params.(id := id)));
    }
  }

  /** In particular, two versions of a package: what one of them was answered, the other one is answered. */
  lemma VersionsOfPackageShareAnswer(w: World, package: string, v: string, v': string,
                                     first: Event, es: seq<Event>, second: Event, disabled: bool)
    requires '_' in package && OneLine(package) && OneLine(v) && OneLine(v') && '_' !in v && '_' !in v'
    requires first.Authenticate? && first.params.id == package + "_" + v && Regular(first)
    requires second.Authenticate? && second.params.id == package + "_" + v'
    requires second.params.feature == first.params.feature && !w.store.insertFailed
    requires AllRegular(es) && AllSpare(es, package, first.params.feature)
    requires ReactChain(w, first, disabled).answer.Some?
    ensures var after := RunChain(ReactChain(w, first, disabled).world, es, disabled);
            ReactChain(after, second, disabled) == Reaction(after, ReactChain(w, first, disabled).answer)
  {
    VersionsShareFormat(package, v, v');
    VersionsShareAnswer(w, first, es, second, disabled);
  }

  /** All versions of an application together cost the user at most one answer per feature. */
  lemma VersionsShareOnePrompt(w: World, es: seq<Event>, id: string, feature: uint64, disabled: bool)
    requires !w.store.insertFailed && id != "" && SignExtended(feature)
    requires AllRegular(es) && AllSpare(es, Format(id), feature)
    ensures |Given(w, Passed(es, disabled), Format(id), feature)| <= 1
  {
    FormatKeepsNames(id);
    PassedRegular(es, disabled);
    PassedSpares(es, disabled, Format(id), feature);
    AtMostOnePrompt(w, Passed(es, disabled), Format(id), feature);
  }
}
