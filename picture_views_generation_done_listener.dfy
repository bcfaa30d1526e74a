/** The post-commit listener: for each "pictureViewsGenerationDone" event
    on a mutable document it builds the stored renditions and saves the
    document; the first build that throws ends the whole bundle. */
module PictureViewsGenerationDoneListener {
  import opened Java
  import opened DocumentModel
  import opened StoredPictureRenditionBuilder

  /** What escapes handleEvent: a builder exception that is not caught, or
      a CommandNotAvailable wrapped in a ClientException naming the
      document. */
  datatype ListenerFailure =
    | Propagated(error: BuildError)
    | Wrapped(docId: string, cause: BuildError)
  {
    /** The text of the escaping exception: the builder's own, or the
        wrapper's naming the document. */
    function Message(): (msg: Option<string>)
      ensures Propagated? ==> msg == error.Message()
      ensures Wrapped? ==> msg == Some("Failed to pre-build the renditions for document " + docId)
    {
      match this
      case Propagated(error) => error.Message()
      case Wrapped(docId, _) => Some("Failed to pre-build the renditions for document " + docId)
    }
  }

  /** The catch clause: only CommandNotAvailable (of the exceptions the
      builder can raise here) is wrapped. */
  function Escaping(doc: Document, error: BuildError): (failure: ListenerFailure)
    ensures failure.Wrapped? <==> error.CommandNotAvailable?
    ensures failure.Wrapped? ==> failure.docId == doc.id && failure.cause == error
    ensures failure.Propagated? ==> failure.error == error
  {
    if error.CommandNotAvailable? then Wrapped(doc.id, error) else Propagated(error)
  }

  /** The guards: the event's name, a document context, a mutable document.
      A document without the "picture" schema is only warned about, so the
      schema plays no part here. */
  function Builds(event: Event): (builds: bool)
    ensures event.name != PictureViewsGenerationDone ==> !builds
    ensures event.context.OtherContext? ==> !builds
    ensures event.name == PictureViewsGenerationDone && event.context.DocumentEventContext? ==>
      (builds <==> !event.context.source.immutable)
  {
    && event.name == PictureViewsGenerationDone
    && event.context.DocumentEventContext?
    && !event.context.source.immutable
  }

  /** The documents the events of a bundle carry. */
  function Documents(bundle: seq<Event>): set<Document> {
    set i | 0 <= i < |bundle| && bundle[i].context.DocumentEventContext? :: bundle[i].context.source
  }

  /** What building the renditions of a document gives, for a fixed list
      of definitions, cache and environment. */
  function BuildOutcome(defs: seq<RenditionDefinition>, available: string -> bool, env: Environment): Document -> BuildRun {
    (doc: Document) => Renditions(doc, defs, |defs|, available, env)
  }

  /** The command names a document's build looks up in the availability
      cache: those of the definitions it consulted before it stopped. */
  function LookupsOf(defs: seq<RenditionDefinition>, available: string -> bool, env: Environment): Document -> set<string> {
    (doc: Document) => CommandNames(defs, Renditions(doc, defs, |defs|, available, env).consulted)
  }

  /** The command names the builds of the first `k` events look up in the
      cache. */
  function LookedUp(bundle: seq<Event>, k: nat, lookups: Document -> set<string>): set<string>
    requires k <= |bundle|
    decreases k
  {
    if k == 0 then {}
    else
      var prev := LookedUp(bundle, k - 1, lookups);
      var event := bundle[k - 1];
      if Builds(event) then prev + lookups(event.context.source) else prev
  }

  /** A name is looked up by the first `k` events exactly when one of
      them builds on a document whose build looks it up. */
  lemma {:induction false} LookedUpByAnEvent(bundle: seq<Event>, k: nat, lookups: Document -> set<string>, name: string)
    requires k <= |bundle|
    ensures name in LookedUp(bundle, k, lookups) <==>
      exists i :: 0 <= i < k && Builds(bundle[i]) && name in lookups(bundle[i].context.source)
    decreases k
  {
    if k > 0 {
      LookedUpByAnEvent(bundle, k - 1, lookups, name);
      if Builds(bundle[k - 1]) && name in lookups(bundle[k - 1].context.source) {
        assert 0 <= k - 1 < k;
      }
    }
  }

  /** One more event adds the names its build looks up, if it builds. */
  lemma NextLookups(keys: set<string>, bundle: seq<Event>, i: nat, lookups: Document -> set<string>)
    requires i < |bundle|
    ensures Builds(bundle[i]) ==>
      keys + LookedUp(bundle, i, lookups) + lookups(bundle[i].context.source) == keys + LookedUp(bundle, i + 1, lookups)
    ensures !Builds(bundle[i]) ==> LookedUp(bundle, i + 1, lookups) == LookedUp(bundle, i, lookups)
  {
  }

  /** The outcome of handling the first `k` events: the documents saved, in
      order, how many events were looked at, and the failure that stopped
      the loop, if any. */
  datatype BundleRun = BundleRun(saved: seq<Document>, consulted: nat, failure: Option<ListenerFailure>)

  function Handled(bundle: seq<Event>, k: nat, build: Document -> BuildRun): (outcome: BundleRun)
    requires k <= |bundle|
    ensures outcome.consulted <= k
    ensures |outcome.saved| <= outcome.consulted
    ensures outcome.failure.None? ==> outcome.consulted == k
    decreases k
  {
    if k == 0 then BundleRun([], 0, None)
    else
      var prev := Handled(bundle, k - 1, build);
      var event := bundle[k - 1];
      if prev.failure.Some? then prev
      else if !Builds(event) then prev.(consulted := k)
      else
        var doc := event.context.source;
        var run := build(doc);
        if run.failure.None? then prev.(saved := prev.saved + [doc], consulted := k)
        else prev.(consulted := k, failure := Some(Escaping(doc, run.failure.value)))
  }

  /** The views the first `k` events would append to `doc`: one build's
      views per event that builds on it, including the views of a build
      that fails part-way. The loop stops after the first failure, so what
      it appends is this for the events it looked at. */
  function AddedTo(doc: Document, bundle: seq<Event>, k: nat, build: Document -> BuildRun): seq<PictureView>
    requires k <= |bundle|
    decreases k
  {
    if k == 0 then []
    else
      var prev := AddedTo(doc, bundle, k - 1, build);
      var event := bundle[k - 1];
      if Builds(event) && event.context.source == doc then prev + build(doc).added else prev
  }

  /** Only the events that build on a document append to it, and what
      they append is that document's build output. */
  lemma {:induction false} AddedViewsComeFromBuilds(doc: Document, bundle: seq<Event>, k: nat, build: Document -> BuildRun)
    requires k <= |bundle|
    ensures (forall i :: 0 <= i < k ==> !Builds(bundle[i]) || bundle[i].context.source != doc) ==>
      AddedTo(doc, bundle, k, build) == []
    ensures forall view :: view in AddedTo(doc, bundle, k, build) ==> view in build(doc).added
    decreases k
  {
    if k > 0 {
      AddedViewsComeFromBuilds(doc, bundle, k - 1, build);
    }
  }

  /** Once an event has failed, the events after it are not looked at. */
  lemma {:induction false} FirstFailureEndsTheBundle(bundle: seq<Event>, k: nat, n: nat, build: Document -> BuildRun)
    requires k <= n <= |bundle|
    requires Handled(bundle, k, build).failure.Some?
    ensures Handled(bundle, n, build) == Handled(bundle, k, build)
    decreases n
  {
    if k < n {
      FirstFailureEndsTheBundle(bundle, k, n - 1, build);
    }
  }

  /** The loop stops at the event whose build failed: the events it looked
      at are exactly those up to and including that one. */
  lemma {:induction false} FailureStopsAtItsEvent(bundle: seq<Event>, k: nat, build: Document -> BuildRun)
    requires k <= |bundle|
    requires Handled(bundle, k, build).failure.Some?
    ensures var c := Handled(bundle, k, build).consulted;
      && 0 < c
      && Handled(bundle, c - 1, build).failure.None?
      && FailsWith(bundle[c - 1], build, Handled(bundle, k, build).failure.value)
    decreases k
  {
    if Handled(bundle, k - 1, build).failure.Some? {
      FailureStopsAtItsEvent(bundle, k - 1, build);
    }
  }

  /** A document is saved only after a build on it that completed, and
      every saved document comes from an event that passed the guards. */
  lemma {:induction false} SavedDocumentsWereBuilt(bundle: seq<Event>, k: nat, build: Document -> BuildRun)
    requires k <= |bundle|
    ensures forall doc :: doc in Handled(bundle, k, build).saved ==>
      && build(doc).failure.None?
      && exists i :: 0 <= i < k && Builds(bundle[i]) && bundle[i].context.source == doc
    decreases k
  {
    if k > 0 {
      SavedDocumentsWereBuilt(bundle, k - 1, build);
    }
  }

  /** The event passes the guards and its build fails with the error
      behind `failure`. */
  predicate FailsWith(event: Event, build: Document -> BuildRun, failure: ListenerFailure) {
    && Builds(event)
    && build(event.context.source).failure.Some?
    && failure == Escaping(event.context.source, build(event.context.source).failure.value)
  }

  /** A bundle whose events all fail the guards changes nothing. */
  lemma {:induction false} IgnoredEventsChangeNothing(bundle: seq<Event>, k: nat, build: Document -> BuildRun, doc: Document)
    requires k <= |bundle|
    requires forall i :: 0 <= i < k ==> !Builds(bundle[i])
    ensures Handled(bundle, k, build) == BundleRun([], k, None)
    ensures AddedTo(doc, bundle, k, build) == []
    decreases k
  {
    if k > 0 {
      IgnoredEventsChangeNothing(bundle, k - 1, build, doc);
    }
  }

  /** One more event, while nothing has failed yet. */
  lemma NextEvent(bundle: seq<Event>, i: nat, build: Document -> BuildRun)
    requires i < |bundle| && Handled(bundle, i, build).failure.None?
    ensures var event, prev := bundle[i], Handled(bundle, i, build);
      Handled(bundle, i + 1, build)
      == (if !Builds(event) then prev.(consulted := i + 1)
          else if build(event.context.source).failure.None? then prev.(saved := prev.saved + [event.context.source], consulted := i + 1)
          else prev.(consulted := i + 1, failure := Some(Escaping(event.context.source, build(event.context.source).failure.value))))
  {
  }

  /** The try block for one document: build its renditions and save it, or
      turn the builder's exception into what escapes the listener. */
  method BuildAndSave(doc: Document, defs: seq<RenditionDefinition>, cache: CommandAvailabilityCache, env: Environment, session: CoreSession)
    returns (failure: Option<ListenerFailure>)
    requires cache.Valid()
    modifies doc, cache, session
    ensures cache.Valid()
    ensures var run := Renditions(doc, defs, |defs|, cache.service, env);
      && doc.views == old(doc.views) + run.added
      && failure == (if run.failure.None? then None else Some(Escaping(doc, run.failure.value)))
      && session.saved == old(session.saved) + (if run.failure.None? then [doc] else [])
      && cache.entries.Keys == old(cache.entries).Keys + CommandNames(defs, run.consulted)
  {
    var rh := new StoredPictureRenditionBuilder(doc);
    var buildFailure := rh.BuildAvailableRenditions(defs, cache, env);
    if buildFailure.None? {
      var savedDoc := session.SaveDocument(doc);
      failure := None;
    } else {
      failure := Some(Escaping(doc, buildFailure.value));
    }
  }

  /** One turn of the loop in `HandleEvent`: the event at `i`, reached
      without a failure, moves the bundle's outcome, the documents' views
      and the cache's keys on by one event. `views0`, `saved0` and `keys0`
      are the state before the first event; `build` and `lookups` are what
      building a document gives and looks up. */
  method HandleAt(
    bundle: seq<Event>, i: nat, defs: seq<RenditionDefinition>, cache: CommandAvailabilityCache, env: Environment, session: CoreSession,
    ghost build: Document -> BuildRun, ghost lookups: Document -> set<string>,
    ghost views0: map<Document, seq<PictureView>>, ghost saved0: seq<Document>, ghost keys0: set<string>)
    returns (failure: Option<ListenerFailure>, next: nat)
    requires i < |bundle| && cache.Valid()
    requires build == BuildOutcome(defs, cache.service, env) && lookups == LookupsOf(defs, cache.service, env)
    requires Documents(bundle) <= views0.Keys
    requires Handled(bundle, i, build).failure.None?
    requires session.saved == saved0 + Handled(bundle, i, build).saved
    requires forall doc {:trigger views0[doc]} :: doc in Documents(bundle) ==> doc.views == views0[doc] + AddedTo(doc, bundle, i, build)
    requires cache.entries.Keys == keys0 + LookedUp(bundle, i, lookups)
    modifies Documents(bundle), cache, session
    ensures next == i + 1 && cache.Valid()
    ensures failure == Handled(bundle, next, build).failure
    ensures Handled(bundle, next, build).consulted == next
    ensures session.saved == saved0 + Handled(bundle, next, build).saved
    ensures forall doc {:trigger views0[doc]} :: doc in Documents(bundle) ==> doc.views == views0[doc] + AddedTo(doc, bundle, next, build)
    ensures cache.entries.Keys == keys0 + LookedUp(bundle, next, lookups)
  {
    next := i + 1;
    NextEvent(bundle, i, build);
    NextLookups(keys0, bundle, i, lookups);
    var oneEvent := bundle[i];
    failure := None;
    if Builds(oneEvent) {
      var doc := oneEvent.context.source;
      assert doc in Documents(bundle);
      failure := BuildAndSave(doc, defs, cache, env, session);
    }
  }

  method HandleEvent(
    bundle: seq<Event>, defs: seq<RenditionDefinition>, cache: CommandAvailabilityCache, env: Environment, session: CoreSession)
    returns (failure: Option<ListenerFailure>)
    requires cache.Valid()
    modifies Documents(bundle), cache, session
    ensures cache.Valid()
    ensures var outcome := Handled(bundle, |bundle|, BuildOutcome(defs, cache.service, env));
      && failure == outcome.failure
      && session.saved == old(session.saved) + outcome.saved
    ensures var outcome := Handled(bundle, |bundle|, BuildOutcome(defs, cache.service, env));
      forall doc :: doc in Documents(bundle) ==>
        doc.views == old(doc.views) + AddedTo(doc, bundle, outcome.consulted, BuildOutcome(defs, cache.service, env))
    ensures var outcome := Handled(bundle, |bundle|, BuildOutcome(defs, cache.service, env));
      cache.entries.Keys == old(cache.entries).Keys + LookedUp(bundle, outcome.consulted, LookupsOf(defs, cache.service, env))
  {
    ghost var build := BuildOutcome(defs, cache.service, env);
    ghost var lookups := LookupsOf(defs, cache.service, env);
    ghost var views0 := map doc | doc in Documents(bundle) :: doc.views;
    ghost var saved0 := session.saved;
    ghost var keys0 := cache.entries.Keys;
    var i := 0;
    failure := None;
    while i < |bundle| && failure.None?
      invariant 0 <= i <= |bundle|
      invariant cache.Valid()
      invariant failure == Handled(bundle, i, build).failure
      invariant Handled(bundle, i, build).consulted == i
      invariant session.saved == saved0 + Handled(bundle, i, build).saved
      invariant forall doc {:trigger views0[doc]} :: doc in Documents(bundle) ==> doc.views == views0[doc] + AddedTo(doc, bundle, i, build)
      invariant cache.entries.Keys == keys0 + LookedUp(bundle, i, lookups)
    {
      failure, i := HandleAt(bundle, i, defs, cache, env, session, build, lookups, views0, saved0, keys0);
    }
    if failure.Some? {
      FirstFailureEndsTheBundle(bundle, i, |bundle|, build);
    }
    forall doc | doc in Documents(bundle)
      ensures doc.views == old(doc.views) + AddedTo(doc, bundle, i, build)
    {
      assert views0[doc] == old(doc.views);
    }
  }
}
