/**
 The collaborative editor's provider flags and its one-time seeding of a new
 shared document. The collaboration provider is reduced to the events it
 raises (`status`, `connect`, `disconnect`, `synced`) and to the length of the
 shared "default" XML fragment at the moment the seeding effect runs.
 */
module SeedGate {
  import opened Seqs

  /** The editor component's four state flags. */
  datatype Flags = Flags(providerReady: bool, hasSeeded: bool, isSynced: bool, isConnected: bool)

  const Unmounted: Flags := Flags(false, false, false, false)

  /** Events raised by the collaboration provider. */
  datatype ProviderEvent = Status(status: string) | Connect | Disconnect | Synced

  /**
   The provider effect: it creates a provider only for a signed-in user and a
   non-empty note id, and then marks the provider ready.
   */
  function SetUp(f: Flags, sessionUserId: Option<string>, noteId: string): (r: Flags)
    ensures sessionUserId.None? || noteId == "" ==> r == f
    ensures sessionUserId.Some? && noteId != "" ==> r.providerReady
    ensures r.hasSeeded == f.hasSeeded && r.isSynced == f.isSynced && r.isConnected == f.isConnected
  {
    if sessionUserId.None? || noteId == "" then f else f.(providerReady := true)
  }

  /** The provider's event handlers. */
  function OnProviderEvent(f: Flags, e: ProviderEvent): (r: Flags)
    ensures r.providerReady == f.providerReady && r.hasSeeded == f.hasSeeded
    ensures e.Synced? ==> r.isSynced && r.isConnected == f.isConnected
    ensures !e.Synced? ==> r.isSynced == f.isSynced
    ensures e.Status? ==> (r.isConnected <==> e.status == "connected")
    ensures e.Connect? ==> r.isConnected
    ensures e.Disconnect? ==> !r.isConnected
  {
    match e
    case Status(status) => f.(isConnected := status == "connected")
    case Connect => f.(isConnected := true)
    case Disconnect => f.(isConnected := false)
    case Synced => f.(isSynced := true)
  }

  /** The effect's cleanup destroys the provider and clears every flag. */
  function TearDown(f: Flags): (r: Flags)
    ensures !r.providerReady && !r.hasSeeded && !r.isSynced && !r.isConnected
  {
    Unmounted
  }

  /** The result of one run of the seeding effect: the flags and the content handed to `setContent`, if any. */
  datatype Seeding = Seeding(flags: Flags, injected: Option<string>)

  /**
   The seeding effect: with an editor, a ready and synced provider, no earlier
   seeding and non-empty initial content, it injects the content only when the
   shared fragment is still empty.
   */
  function SeedCheck(f: Flags, editorExists: bool, initialContent: string, fragmentLength: nat): (r: Seeding)
    ensures r.injected.Some? <==>
      editorExists && f.providerReady && f.isSynced && !f.hasSeeded && initialContent != "" && fragmentLength == 0
    ensures r.injected.Some? ==> r.injected.value == initialContent && r.flags == f.(hasSeeded := true)
    ensures r.injected.None? ==> r.flags == f
  {
    if !editorExists || !f.providerReady || !f.isSynced || f.hasSeeded || initialContent == "" then Seeding(f, None)
    else if fragmentLength == 0 then Seeding(f.(hasSeeded := true), Some(initialContent))
    else Seeding(f, None)
  }

  /** Everything the component reacts to. */
  datatype Event =
    | Mount(sessionUserId: Option<string>, noteId: string)
    | Provider(e: ProviderEvent)
    | Check(editorExists: bool, fragmentLength: nat)
    | Unmount

  function Step(f: Flags, e: Event, initialContent: string): (r: Seeding)
    ensures !e.Check? ==> r.injected.None?
  {
    match e
    case Mount(u, id) => Seeding(SetUp(f, u, id), None)
    case Provider(p) => Seeding(OnProviderEvent(f, p), None)
    case Check(ed, len) => SeedCheck(f, ed, initialContent, len)
    case Unmount => Seeding(TearDown(f), None)
  }

  /** The flags after a sequence of events, and every content injection in order. */
  datatype Trace = Trace(flags: Flags, injections: seq<string>)

  function Run(f: Flags, events: seq<Event>, initialContent: string): Trace
    decreases |events|
  {
    if events == [] then Trace(f, [])
    else
      var first := Step(f, events[0], initialContent);
      var rest := Run(first.flags, events[1..], initialContent);
      var mine := if first.injected.Some? then [first.injected.value] else [];
      Trace(rest.flags, mine + rest.injections)
  }

  /** A seeded editor always has a ready, synced provider. */
  predicate Consistent(f: Flags) {
    f.hasSeeded ==> f.providerReady && f.isSynced
  }

  lemma StepConsistent(f: Flags, e: Event, initialContent: string)
    requires Consistent(f)
    ensures Consistent(Step(f, e, initialContent).flags)
  {
  }

  /**
   While the provider lives (no unmount in between), the document is seeded
   at most once, with the initial content, and never once it was seeded.
   */
  lemma {:induction false} SeedsAtMostOnce(f: Flags, events: seq<Event>, initialContent: string)
    requires forall i :: 0 <= i < |events| ==> !events[i].Unmount?
    ensures var t := Run(f, events, initialContent);
      && |t.injections| <= (if f.hasSeeded then 0 else 1)
      && (forall i :: 0 <= i < |t.injections| ==> t.injections[i] == initialContent)
      && (f.hasSeeded ==> t.flags.hasSeeded)
      && (|t.injections| == 1 ==> t.flags.hasSeeded)
    decreases |events|
  {
    if events != [] {
      var first := Step(f, events[0], initialContent);
      SeedsAtMostOnce(first.flags, events[1..], initialContent);
      if first.injected.Some? {
        assert first.flags.hasSeeded;
      }
    }
  }

  /** A non-empty shared document is never overwritten, however often the effect runs. */
  lemma {:induction false} NonEmptyDocumentKept(f: Flags, events: seq<Event>, initialContent: string)
    requires forall i :: 0 <= i < |events| ==> events[i].Check? ==> events[i].fragmentLength > 0
    ensures Run(f, events, initialContent).injections == []
    decreases |events|
  {
    if events != [] {
      NonEmptyDocumentKept(Step(f, events[0], initialContent).flags, events[1..], initialContent);
    }
  }

  /** Provider events never clear `isSynced`: only unmounting does. */
  lemma {:induction false} SyncedIsSticky(f: Flags, events: seq<Event>, initialContent: string)
    requires f.isSynced
    requires forall i :: 0 <= i < |events| ==> !events[i].Unmount?
    ensures Run(f, events, initialContent).flags.isSynced
    decreases |events|
  {
    if events != [] {
      SyncedIsSticky(Step(f, events[0], initialContent).flags, events[1..], initialContent);
    }
  }

  /** After unmounting, nothing is injected until the new provider reports `synced`. */
  lemma {:induction false} NoSeedBeforeSync(f: Flags, events: seq<Event>, initialContent: string)
    requires !f.isSynced
    requires forall i :: 0 <= i < |events| ==> !events[i].Provider? || !events[i].e.Synced?
    ensures Run(f, events, initialContent).injections == []
    ensures !Run(f, events, initialContent).flags.isSynced
    decreases |events|
  {
    if events != [] {
      NoSeedBeforeSync(Step(f, events[0], initialContent).flags, events[1..], initialContent);
    }
  }

  /** A remount seeds again: mount, sync and a check on an empty fragment inject once more. */
  lemma RemountSeedsAgain(f: Flags, userId: string, noteId: string, initialContent: string)
    requires noteId != "" && initialContent != ""
    ensures Run(f, [Unmount, Mount(Some(userId), noteId), Provider(Synced), Check(true, 0)], initialContent).injections
      == [initialContent]
  {
    var evs := [Unmount, Mount(Some(userId), noteId), Provider(Synced), Check(true, 0)];
    var f1 := TearDown(f);
    var f2 := SetUp(f1, Some(userId), noteId);
    var f3 := OnProviderEvent(f2, Synced);
    assert evs[1..] == [Mount(Some(userId), noteId), Provider(Synced), Check(true, 0)];
    assert evs[1..][1..] == [Provider(Synced), Check(true, 0)];
    assert evs[1..][1..][1..] == [Check(true, 0)];
    assert SeedCheck(f3, true, initialContent, 0).injected == Some(initialContent);
    assert Run(f3, evs[1..][1..][1..], initialContent).injections == [initialContent];
    assert Run(f2, evs[1..][1..], initialContent).injections == [initialContent];
    assert Run(f1, evs[1..], initialContent).injections == [initialContent];
  }

  /** What the component renders. */
  datatype View = Placeholder(text: string) | EditorView

  const SignInText: string := "Please sign in to use collaborative editing..."
  const LoadingText: string := "Loading collaborative editor..."

  /** The placeholder stands in for the editor until the provider is ready and the editor exists. */
  function Render(f: Flags, editorExists: bool, signedIn: bool): (v: View)
    ensures v.EditorView? <==> f.providerReady && editorExists
    ensures v.Placeholder? ==> (v.text == SignInText <==> !signedIn)
    ensures v.Placeholder? ==> (v.text == LoadingText <==> signedIn)
  {
    if !f.providerReady || !editorExists then
      Placeholder(if !signedIn then SignInText else LoadingText)
    else EditorView
  }

  /** Without a signed-in user no provider is created, so the editor never shows. */
  lemma {:induction false} SignedOutNeverShowsEditor(f: Flags, events: seq<Event>, initialContent: string)
    requires !f.providerReady
    requires forall i :: 0 <= i < |events| ==> events[i].Mount? ==> events[i].sessionUserId.None?
    ensures !Run(f, events, initialContent).flags.providerReady
    ensures forall ed :: Render(Run(f, events, initialContent).flags, ed, false) == Placeholder(SignInText)
    decreases |events|
  {
    if events != [] {
      SignedOutNeverShowsEditor(Step(f, events[0], initialContent).flags, events[1..], initialContent);
    }
  }
}
