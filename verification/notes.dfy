/**
 Access decisions on a note and the note editor's buffer. The notes list, the
 list view and the editor all resolve the signed-in user's access the same way:
 the owner has full rights, anybody else has the level of the first permission
 entry naming them.
 */
module NoteAccess {
  import opened Seqs
  import opened Strings
  import opened NoteContent

  /** A permission entry's level. */
  datatype Level = Read | Write

  function LevelName(l: Level): (r: string)
    ensures r == "READ" || r == "WRITE"
    ensures (r == "WRITE") <==> l == Write
  {
    match l
    case Read => "READ"
    case Write => "WRITE"
  }

  datatype Grant = Grant(userId: string, level: Level)

  /** The fields of a note the decisions read; dates are milliseconds since the epoch. */
  datatype Note = Note(
    id: string,
    title: string,
    content: Option<Content>,
    ownerId: string,
    updatedAt: int,
    permissions: Option<seq<Grant>>)

  /** `note.ownerId === session?.user?.id`: false without a session. */
  predicate IsOwner(n: Note, sessionUserId: Option<string>) {
    sessionUserId == Some(n.ownerId)
  }

  /** `note.permissions?.find(p => p.userId === session?.user?.id)`. */
  function UserGrant(n: Note, sessionUserId: Option<string>): (r: Option<Grant>)
    ensures sessionUserId.None? || n.permissions.None? ==> r.None?
    ensures r.Some? ==> n.permissions.Some? && r.value in n.permissions.value && Some(r.value.userId) == sessionUserId
    ensures r.None? && n.permissions.Some? ==>
      forall i :: 0 <= i < |n.permissions.value| ==> Some(n.permissions.value[i].userId) != sessionUserId
  {
    match n.permissions
    case None => None
    case Some(ps) => Find(ps, (g: Grant) => Some(g.userId) == sessionUserId)
  }

  /** The first entry naming the user decides, even if a later one grants more. */
  lemma FirstGrantDecides(n: Note, uid: string, k: nat)
    requires n.permissions.Some? && k < |n.permissions.value|
    requires n.permissions.value[k].userId == uid
    requires forall j :: 0 <= j < k ==> n.permissions.value[j].userId != uid
    ensures UserGrant(n, Some(uid)) == Some(n.permissions.value[k])
  {
    var p := (g: Grant) => Some(g.userId) == Some(uid);
    var i := FindIndex(n.permissions.value, p);
    assert i.Some?;
    assert FirstMatch(n.permissions.value, p, i.value);
    assert i.value == k;
  }

  /** `getNotePermissionLevel` of the notes list and the list view: "Owner", the entry's level, or null. */
  function PermissionLabel(n: Note, sessionUserId: Option<string>): (r: Option<string>)
    ensures IsOwner(n, sessionUserId) ==> r == Some("Owner")
    ensures !IsOwner(n, sessionUserId) ==>
      r == (if UserGrant(n, sessionUserId).Some? then Some(LevelName(UserGrant(n, sessionUserId).value.level)) else None)
  {
    if IsOwner(n, sessionUserId) then Some("Owner")
    else
      match UserGrant(n, sessionUserId)
      case Some(g) => Some(LevelName(g.level))
      case None => None
  }

  /** `getPermissionLevel` of the editor: as the list's label, but "READ" instead of null. */
  function EditorPermissionLabel(n: Note, sessionUserId: Option<string>): (r: string)
    ensures r == PermissionLabel(n, sessionUserId).GetOr("READ")
  {
    if IsOwner(n, sessionUserId) then "Owner"
    else
      var g := UserGrant(n, sessionUserId);
      if g.Some? then LevelName(g.value.level) else "READ"
  }

  /** `canEditNote` and the editor's `canEdit`. */
  predicate CanEdit(n: Note, sessionUserId: Option<string>) {
    IsOwner(n, sessionUserId) || (UserGrant(n, sessionUserId).Some? && UserGrant(n, sessionUserId).value.level == Write)
  }

  /** `canDeleteNote` and the editor's `canDelete`. */
  predicate CanDelete(n: Note, sessionUserId: Option<string>) {
    IsOwner(n, sessionUserId)
  }

  /** Editing rights agree with the displayed label: "Owner" or "WRITE" exactly when editing is allowed. */
  lemma CanEditIffLabel(n: Note, sessionUserId: Option<string>)
    ensures CanEdit(n, sessionUserId) <==>
      PermissionLabel(n, sessionUserId) in {Some("Owner"), Some("WRITE")}
  {
    if !IsOwner(n, sessionUserId) && UserGrant(n, sessionUserId).Some? {
      assert "WRITE" != "Owner";
    }
  }

  /** Whoever may delete may also edit, and a signed-out viewer may do neither. */
  lemma DeleteImpliesEdit(n: Note, sessionUserId: Option<string>)
    ensures CanDelete(n, sessionUserId) ==> CanEdit(n, sessionUserId)
    ensures sessionUserId.None? ==> !CanEdit(n, sessionUserId) && PermissionLabel(n, sessionUserId).None?
  {
  }

  /** The list's menu entry: "Edit" when the user may edit, else "View". */
  function MenuLabel(n: Note, sessionUserId: Option<string>): (r: string)
    ensures r == "Edit" <==> CanEdit(n, sessionUserId)
    ensures r == "View" <==> !CanEdit(n, sessionUserId)
  {
    if CanEdit(n, sessionUserId) then "Edit" else "View"
  }

  /** The search filter's test for one note, after lower-casing both sides. */
  predicate Matches(n: Note, query: string) {
    Contains(Lower(n.title), Lower(query)) || Contains(Lower(ContentToText(n.content)), Lower(query))
  }

  /** `notes?.filter(...) ?? []`. */
  function SearchNotes(notes: Option<seq<Note>>, query: string): (r: seq<Note>)
    ensures notes.None? ==> r == []
    ensures forall i :: 0 <= i < |r| ==> Matches(r[i], query)
  {
    match notes
    case None => []
    case Some(ns) => Keep(ns, (n: Note) => Matches(n, query))
  }

  /** The result is exactly the matching notes, in their original order. */
  lemma SearchKeepsOrder(notes: seq<Note>, query: string)
    ensures IsSubsequence(SearchNotes(Some(notes), query), notes)
    ensures forall n :: n in SearchNotes(Some(notes), query) <==> n in notes && Matches(n, query)
  {
    KeepIsSubsequence(notes, (n: Note) => Matches(n, query));
    forall n ensures n in SearchNotes(Some(notes), query) <==> n in notes && Matches(n, query) {
      KeepMembers(notes, (n: Note) => Matches(n, query), n);
    }
  }

  /** An empty query keeps every note. */
  lemma EmptyQueryKeepsAll(notes: seq<Note>)
    ensures SearchNotes(Some(notes), "") == notes
  {
    forall i | 0 <= i < |notes| ensures Matches(notes[i], "") {
      ContainsEmpty(Lower(notes[i].title));
    }
    KeepAll(notes, (n: Note) => Matches(n, ""));
  }

  /** The search ignores ASCII case in the query. */
  lemma SearchIgnoresQueryCase(notes: Option<seq<Note>>, query: string)
    ensures SearchNotes(notes, Upper(query)) == SearchNotes(notes, Lower(query))
  {
    assert Lower(Upper(query)) == Lower(Lower(query));
    if notes.Some? {
      KeepAgree(notes.value, (n: Note) => Matches(n, Upper(query)), (n: Note) => Matches(n, Lower(query)));
    }
  }

  /** The editor's text buffers. */
  datatype Buffers = Buffers(title: string, content: string)

  /** The buffers right after a note loads. */
  function Load(n: Note): (b: Buffers)
    ensures b.title == n.title && b.content == ContentToText(n.content)
  {
    Buffers(n.title, ContentToText(n.content))
  }

  /** The editor's `hasChanges`: either buffer differs from the loaded note. */
  predicate HasChanges(n: Note, b: Buffers) {
    b.title != n.title || b.content != ContentToText(n.content)
  }

  /** Freshly loaded buffers hold no changes, and any buffers without changes are the loaded ones. */
  lemma LoadHasNoChanges(n: Note, b: Buffers)
    ensures !HasChanges(n, Load(n))
    ensures !HasChanges(n, b) <==> b == Load(n)
  {
  }

  /** `handleSave`: nothing without changes; otherwise an update of both fields, trimmed. */
  function Save(n: Note, b: Buffers): (r: Option<UpdatePayload>)
    ensures r.Some? <==> HasChanges(n, b)
    ensures r.Some? ==> r.value.title == Some(Trim(b.title))
    ensures r.Some? ==> r.value.content.Some? && ContentToText(r.value.content) == Trim(b.content)
  {
    if !HasChanges(n, b) then None else Some(UpdateNote(Some(Trim(b.title)), Some(Trim(b.content))))
  }

  /** Saving buffers that were already trimmed sends them unchanged. */
  lemma SaveTrimmedSendsBuffers(n: Note, b: Buffers)
    requires HasChanges(n, b)
    requires Trim(b.title) == b.title && Trim(b.content) == b.content
    ensures Save(n, b).value.title == Some(b.title)
    ensures ContentToText(Save(n, b).value.content) == b.content
  {
  }

  /**
   `handleBack`: the path to navigate to, if any. `confirmed` is the answer to
   the unsaved-changes prompt, which is asked only when there are changes.
   */
  function Back(hasChanges: bool, confirmed: bool): (r: Option<string>)
    ensures r.None? <==> hasChanges && !confirmed
    ensures r.Some? ==> r.value == "/notes"
  {
    if hasChanges && !confirmed then None else Some("/notes")
  }

  /** Without changes the answer to the prompt does not matter. */
  lemma BackWithoutChanges(confirmed: bool)
    ensures Back(false, confirmed) == Some("/notes")
  {
  }

  /**
   Back from the editor: the page is left silently exactly when the buffers are
   the loaded note, and unsaved edits are only ever left behind with the
   user's consent.
   */
  lemma LeaveOnlyWithoutUnsavedEdits(n: Note, b: Buffers, confirmed: bool)
    ensures Back(HasChanges(n, b), false).Some? <==> b == Load(n)
    ensures Back(HasChanges(n, b), confirmed).Some? && Save(n, b).Some? ==> confirmed
    ensures Back(HasChanges(n, Load(n)), confirmed) == Some("/notes")
  {
    LoadHasNoChanges(n, b);
  }
}
