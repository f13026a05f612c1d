/** The sidebar's route matching and quick actions, and the header's search box. */
module Navigation {
  import opened Seqs
  import opened Strings

  /** The sidebar's navigation entries, top to bottom. */
  const NavPaths: seq<string> := ["/", "/notes", "/friends", "/invitations", "/messaging"]
  const NavLabels: seq<string> := ["Home", "Notes", "Friends", "Invitations", "Messages"]

  /** `isActive`: "/messaging" also covers the thread pages below it; every other entry matches exactly. */
  predicate IsActive(path: string, pathname: string) {
    if path == "/messaging" then pathname == path || StartsWith(pathname, "/messaging/")
    else pathname == path
  }

  /** The messages entry is active on its own page and its sub-pages, but not on a longer sibling path. */
  lemma MessagingActivation(rest: string)
    ensures IsActive("/messaging", "/messaging")
    ensures IsActive("/messaging", "/messaging/" + rest)
    ensures !IsActive("/messaging", "/messagingX")
  {
    assert ("/messaging/" + rest)[..11] == "/messaging/";
    assert "/messagingX"[10] == 'X';
  }

  /** Sub-pages of the notes list do not light up the Notes entry. */
  lemma NotesMatchesExactly(rest: string)
    requires rest != ""
    ensures !IsActive("/notes", "/notes" + rest)
    ensures IsActive("/notes", "/notes")
  {
    assert |"/notes" + rest| > |"/notes"|;
  }

  /** Whatever the location, at most one sidebar entry is active. */
  lemma AtMostOneActive(pathname: string, i: nat, j: nat)
    requires i < j < |NavPaths|
    ensures !(IsActive(NavPaths[i], pathname) && IsActive(NavPaths[j], pathname))
  {
    assert IsActive(NavPaths[i], pathname) ==> pathname == NavPaths[i];
    if j == 4 {
      assert i == 0 || NavPaths[i][1] != 'm';
    } else {
      assert NavPaths[i] != NavPaths[j];
    }
  }

  /** The notification counts; each may be missing. */
  datatype Counts = Counts(friends: Option<int>, invitations: Option<int>, messages: Option<int>)

  /**
   What renders after an entry's label: nothing, the bare number 0 (React
   renders the value of `0 && ...` as text), or the badge with the count.
   */
  datatype BadgeChild = NoBadge | BareZero | Badge(count: int)

  /** A rendered sidebar entry. */
  datatype NavEntry = NavEntry(caption: string, path: string, active: bool, badge: BadgeChild)

  /** The count shown next to each entry; Home and Notes have none. */
  function BadgeCount(counts: Option<Counts>, i: nat): (r: Option<int>)
    requires i < |NavPaths|
    ensures i <= 1 || counts.None? ==> r.None?
  {
    if counts.None? || i <= 1 then None
    else if i == 2 then counts.value.friends
    else if i == 3 then counts.value.invitations
    else counts.value.messages
  }

  /**
   `{!collapsed && <>… {item.badge && <Badge/>}</>}`: collapsed entries show no
   label and no badge; a missing count renders nothing, a zero count is falsy
   but is itself rendered, and any other count shows the badge.
   */
  function ShownBadge(collapsed: bool, count: Option<int>): (r: BadgeChild)
    ensures r.Badge? <==> !collapsed && count.Some? && count.value != 0
    ensures r.Badge? ==> r.count == count.value
    ensures r == BareZero <==> !collapsed && count == Some(0)
  {
    if collapsed || count.None? then NoBadge
    else if count.value == 0 then BareZero
    else Badge(count.value)
  }

  /** The sidebar: nothing without a session, else the five entries in order. */
  function Sidebar(hasSession: bool, collapsed: bool, pathname: string, counts: Option<Counts>): (r: Option<seq<NavEntry>>)
    ensures r.None? <==> !hasSession
    ensures r.Some? ==> |r.value| == |NavPaths|
    ensures r.Some? ==> forall i :: 0 <= i < |r.value| ==>
      r.value[i].path == NavPaths[i] && r.value[i].caption == NavLabels[i]
      && (r.value[i].active <==> IsActive(NavPaths[i], pathname))
      && r.value[i].badge == ShownBadge(collapsed, BadgeCount(counts, i))
  {
    if !hasSession then None
    else Some(seq(|NavPaths|, i requires 0 <= i < |NavPaths| =>
      NavEntry(NavLabels[i], NavPaths[i], IsActive(NavPaths[i], pathname), ShownBadge(collapsed, BadgeCount(counts, i)))))
  }

  /**
   As written, an empty inbox does not hide the counters: every entry whose
   count is zero renders a bare "0" beside its label.
   */
  lemma ZeroCountsShowBareZero(pathname: string)
    ensures var entries := Sidebar(true, false, pathname, Some(Counts(Some(0), Some(0), Some(0)))).value;
      forall i :: 2 <= i < |NavPaths| ==> entries[i].badge == BareZero
  {
  }

  /** Missing counts and the counter-less entries render nothing. */
  lemma MissingCountsHidden(pathname: string, counts: Option<Counts>)
    ensures var entries := Sidebar(true, false, pathname, counts).value;
      && entries[0].badge == NoBadge && entries[1].badge == NoBadge
      && (counts.None? ==> forall i :: 0 <= i < |NavPaths| ==> entries[i].badge == NoBadge)
  {
  }

  /** The badge rule with the count tested as a number, `item.badge > 0`, hiding zero. */
  function ShownBadgeIntended(collapsed: bool, count: Option<int>): (r: BadgeChild)
  {
    if !collapsed && count.Some? && count.value > 0 then Badge(count.value) else NoBadge
  }

  /**
   With the numeric test nothing but a badge is ever rendered, a zero or
   missing count renders nothing, and positive counts show as before.
   */
  lemma IntendedBadgeHidesZero(collapsed: bool, count: Option<int>)
    ensures ShownBadgeIntended(collapsed, count) != BareZero
    ensures ShownBadgeIntended(collapsed, count).Badge? <==> !collapsed && count.Some? && count.value > 0
    ensures count == Some(0) ==> ShownBadgeIntended(collapsed, count) == NoBadge
    ensures count.Some? && count.value > 0 ==> ShownBadgeIntended(collapsed, count) == ShownBadge(collapsed, count)
  {
  }

  const CreateFolderQuery: string := "?createFolder=true"
  const FolderPrefix: string := "/notes/folder/"

  /** The New Folder button's target: inside the open folder when there is one. */
  function NewFolderTarget(folderId: Option<string>): (r: string)
    ensures EndsWith(r, CreateFolderQuery)
    ensures !Truthy(folderId) ==> r == "/notes" + CreateFolderQuery
  {
    var base := if Truthy(folderId) then FolderPrefix + folderId.value else "/notes";
    assert (base + CreateFolderQuery)[|base + CreateFolderQuery| - |CreateFolderQuery|..] == CreateFolderQuery;
    base + CreateFolderQuery
  }

  /** The folder id of a New Folder target, if it names one. */
  function TargetFolder(target: string): (r: Option<string>)
    ensures r.Some? ==> |target| == |FolderPrefix| + |r.value| + |CreateFolderQuery|
  {
    if |target| > |FolderPrefix| + |CreateFolderQuery| && StartsWith(target, FolderPrefix)
        && EndsWith(target, CreateFolderQuery)
    then Some(target[|FolderPrefix|..|target| - |CreateFolderQuery|])
    else None
  }

  /** The open folder is recovered from the New Folder target, and no folder means none is named. */
  lemma NewFolderTargetRoundTrip(folderId: Option<string>)
    ensures Truthy(folderId) ==> TargetFolder(NewFolderTarget(folderId)) == folderId
    ensures !Truthy(folderId) ==> TargetFolder(NewFolderTarget(folderId)).None?
  {
    var r := NewFolderTarget(folderId);
    if Truthy(folderId) {
      var id := folderId.value;
      assert r == FolderPrefix + id + CreateFolderQuery;
      assert r[..|FolderPrefix|] == FolderPrefix;
      assert r[|FolderPrefix|..|r| - |CreateFolderQuery|] == id;
    } else {
      assert r == "/notes?createFolder=true";
      assert |r| == 24;
    }
  }

  /** The search box's icon. */
  datatype SearchIcon = FileTextIcon | MessageIcon | UsersIcon | MailIcon | SearchGlass

  /** `getSearchPlaceholder`: the first matching area prefix decides. */
  function Placeholder(pathname: string): (r: string)
    ensures StartsWith(pathname, "/notes") ==> r == "Search notes..."
    ensures r == "Search..." <==>
      !StartsWith(pathname, "/notes") && !StartsWith(pathname, "/messaging")
      && !StartsWith(pathname, "/friends") && !StartsWith(pathname, "/invitations")
  {
    if StartsWith(pathname, "/notes") then "Search notes..."
    else if StartsWith(pathname, "/messaging") then "Search messages..."
    else if StartsWith(pathname, "/friends") then "Search friends..."
    else if StartsWith(pathname, "/invitations") then "Search invitations..."
    else "Search..."
  }

  /** `getSearchIcon`: its own chain over the same prefixes. */
  function Icon(pathname: string): (r: SearchIcon)
    ensures StartsWith(pathname, "/notes") ==> r == FileTextIcon
  {
    if StartsWith(pathname, "/notes") then FileTextIcon
    else if StartsWith(pathname, "/messaging") then MessageIcon
    else if StartsWith(pathname, "/friends") then UsersIcon
    else if StartsWith(pathname, "/invitations") then MailIcon
    else SearchGlass
  }

  /** The icon that belongs with each placeholder. */
  function IconForPlaceholder(placeholder: string): SearchIcon {
    if placeholder == "Search notes..." then FileTextIcon
    else if placeholder == "Search messages..." then MessageIcon
    else if placeholder == "Search friends..." then UsersIcon
    else if placeholder == "Search invitations..." then MailIcon
    else SearchGlass
  }

  /** Placeholder and icon always describe the same area. */
  lemma IconMatchesPlaceholder(pathname: string)
    ensures Icon(pathname) == IconForPlaceholder(Placeholder(pathname))
  {
  }

  /** Wherever the Messages entry is active, the search box offers to search messages. */
  lemma MessagingSearchesMessages(pathname: string)
    requires IsActive("/messaging", pathname)
    ensures Placeholder(pathname) == "Search messages..." && Icon(pathname) == MessageIcon
  {
    assert pathname[..6] != "/notes" by {
      assert pathname[..10] == "/messaging";
      assert pathname[1] == 'm';
    }
    assert pathname[..10] == "/messaging";
  }

  /** The search box: the query on screen and the `value` prop of the latest render. */
  datatype SearchBox = SearchBox(query: string, prop: string)

  /** The first render starts the query at the prop, which defaults to "". */
  function MountSearch(value: string): (b: SearchBox)
    ensures b.query == value && b.prop == value
  {
    SearchBox(value, value)
  }

  /**
   Input to the search box: a re-render carrying the parent's `value` prop,
   typing, or the clear button.
   */
  datatype SearchEvent = Render(value: string) | Typed(query: string) | Cleared

  /**
   One event: the new box and what is passed to `onSearch`, if anything. The
   effect that copies the prop into the query has `[value]` as its dependency
   list, so it runs only on a render whose prop differs from the previous one.
   */
  function SearchStep(b: SearchBox, e: SearchEvent): (r: (SearchBox, Option<string>))
    ensures e.Render? ==> r.1 == None && r.0.prop == e.value
    ensures e.Render? ==> (r.0.query == e.value || r.0.query == b.query)
    ensures e.Render? && e.value != b.prop ==> r.0.query == e.value
    ensures !e.Render? ==> r.0.prop == b.prop && r.1 == Some(r.0.query)
    ensures e.Typed? ==> r.0.query == e.query
    ensures e.Cleared? ==> r.0.query == ""
  {
    match e
    case Render(v) => (if v != b.prop then SearchBox(v, v) else b, None)
    case Typed(q) => (b.(query := q), Some(q))
    case Cleared => (b.(query := ""), Some(""))
  }

  /** A re-render with an unchanged prop keeps whatever the user typed. */
  lemma SameValueKeepsTyping(b: SearchBox, q: string)
    ensures var typed := SearchStep(b, Typed(q)).0;
      SearchStep(typed, Render(b.prop)) == (typed, None) && typed.query == q
  {
  }

  /** The clear button is shown only while there is a query. */
  predicate ShowsClear(query: string) {
    query != ""
  }

  /** A run of events: the final box and every `onSearch` call in order. */
  function SearchRun(b: SearchBox, evs: seq<SearchEvent>): (r: (SearchBox, seq<string>))
    decreases |evs|
  {
    if |evs| == 0 then (b, [])
    else
      var step := SearchStep(b, evs[0]);
      var rest := SearchRun(step.0, evs[1..]);
      (rest.0, (if step.1.Some? then [step.1.value] else []) + rest.1)
  }

  /** Unless a render comes last, the parent last heard exactly the query on screen. */
  lemma {:induction false} ParentHearsLastQuery(b: SearchBox, evs: seq<SearchEvent>)
    requires |evs| > 0 && !evs[|evs| - 1].Render?
    ensures |SearchRun(b, evs).1| > 0
    ensures SearchRun(b, evs).1[|SearchRun(b, evs).1| - 1] == SearchRun(b, evs).0.query
    decreases |evs|
  {
    var step := SearchStep(b, evs[0]);
    if |evs| > 1 {
      ParentHearsLastQuery(step.0, evs[1..]);
    }
  }

  /**
   Renders that repeat the parent's current prop change nothing and report
   nothing, however many there are.
   */
  lemma {:induction false} UnchangedRendersKeepQuery(b: SearchBox, evs: seq<SearchEvent>)
    requires forall i :: 0 <= i < |evs| ==> evs[i] == Render(b.prop)
    ensures SearchRun(b, evs) == (b, [])
    decreases |evs|
  {
    if evs != [] {
      UnchangedRendersKeepQuery(b, evs[1..]);
      assert SearchStep(b, evs[0]) == (b, None);
      var none: seq<string> := [];
      assert SearchRun(b, evs) == (SearchRun(b, evs[1..]).0, none + SearchRun(b, evs[1..]).1);
      assert none + none == none;
    }
  }

  /** Clearing hides the clear button and tells the parent about the empty query. */
  lemma ClearResets(b: SearchBox)
    ensures SearchRun(b, [Cleared]) == (b.(query := ""), [""])
    ensures !ShowsClear(SearchRun(b, [Cleared]).0.query)
  {
    assert [Cleared][1..] == [];
    assert SearchStep(b, Cleared) == (b.(query := ""), Some(""));
    assert SearchRun(b.(query := ""), []) == (b.(query := ""), []);
    assert SearchRun(b, [Cleared]) == (b.(query := ""), [""] + []);
    assert [""] + [] == [""];
  }
}
