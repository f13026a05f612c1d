/**
 The notes list view: notes ordered by last update, newest first, split into
 "recently edited" (updated after the cutoff seven days before now) and the
 rest. Array sorting in JavaScript is stable, so notes updated at the same
 instant keep their input order; the model sorts by stable insertion.
 */
module NotesListView {
  import opened Seqs
  import opened NoteAccess

  /** Ordered by `updatedAt`, newest first. */
  predicate SortedDesc(s: seq<Note>) {
    forall i, j :: 0 <= i < j < |s| ==> s[i].updatedAt >= s[j].updatedAt
  }

  /** Inserts `x` into a newest-first list, ahead of every note that is not newer than it. */
  function Insert(x: Note, s: seq<Note>): (r: seq<Note>)
    ensures multiset(r) == multiset(s) + multiset{x}
    ensures |r| == |s| + 1
  {
    if s == [] || s[0].updatedAt <= x.updatedAt then [x] + s
    else
      assert s == [s[0]] + s[1..];
      [s[0]] + Insert(x, s[1..])
  }

  /** Insertion keeps a newest-first list newest-first. */
  lemma {:induction false} InsertSorted(x: Note, s: seq<Note>)
    requires SortedDesc(s)
    ensures SortedDesc(Insert(x, s))
    decreases |s|
  {
    if s != [] && s[0].updatedAt > x.updatedAt {
      var rest := Insert(x, s[1..]);
      InsertSorted(x, s[1..]);
      forall i | 0 <= i < |rest|
        ensures s[0].updatedAt >= rest[i].updatedAt
      {
        assert rest[i] in multiset(rest);
        assert rest[i] == x || rest[i] in multiset(s[1..]);
      }
    }
  }

  /** `[...notes].sort((a, b) => b.updatedAt - a.updatedAt)`. */
  function SortByUpdated(notes: seq<Note>): (r: seq<Note>)
    ensures multiset(r) == multiset(notes)
    ensures SortedDesc(r)
  {
    if notes == [] then []
    else
      assert notes == [notes[0]] + notes[1..];
      InsertSorted(notes[0], SortByUpdated(notes[1..]));
      Insert(notes[0], SortByUpdated(notes[1..]))
  }

  /** Notes with the same timestamp. */
  predicate UpdatedAt(n: Note, t: int) {
    n.updatedAt == t
  }

  /** Insertion places `x` ahead of the notes that share its timestamp. */
  lemma {:induction false} InsertStable(x: Note, s: seq<Note>, t: int)
    requires SortedDesc(s)
    ensures Keep(Insert(x, s), (n: Note) => UpdatedAt(n, t)) ==
      (if x.updatedAt == t then [x] else []) + Keep(s, (n: Note) => UpdatedAt(n, t))
    decreases |s|
  {
    var p := (n: Note) => UpdatedAt(n, t);
    if s == [] || s[0].updatedAt <= x.updatedAt {
      assert ([x] + s)[1..] == s;
    } else {
      InsertStable(x, s[1..], t);
      var rest := Insert(x, s[1..]);
      assert ([s[0]] + rest)[1..] == rest;
      if x.updatedAt == t {
        assert !p(s[0]);
      }
    }
  }

  /** The sort is stable: notes sharing a timestamp keep their relative input order. */
  lemma {:induction false} SortStable(notes: seq<Note>, t: int)
    ensures Keep(SortByUpdated(notes), (n: Note) => UpdatedAt(n, t)) == Keep(notes, (n: Note) => UpdatedAt(n, t))
    decreases |notes|
  {
    if notes != [] {
      SortStable(notes[1..], t);
      InsertStable(notes[0], SortByUpdated(notes[1..]), t);
    }
  }

  /** A list that is already newest-first is left as it is. */
  lemma {:induction false} SortSortedIsIdentity(notes: seq<Note>)
    requires SortedDesc(notes)
    ensures SortByUpdated(notes) == notes
    decreases |notes|
  {
    if notes != [] {
      SortSortedIsIdentity(notes[1..]);
      var s := notes[1..];
      assert s == [] || s[0].updatedAt <= notes[0].updatedAt;
      assert notes == [notes[0]] + s;
    }
  }

  predicate IsRecent(n: Note, cutoff: int) {
    n.updatedAt > cutoff
  }

  /** `recentlyEdited`: updated strictly after the cutoff. */
  function Recent(sorted: seq<Note>, cutoff: int): (r: seq<Note>)
    ensures forall i :: 0 <= i < |r| ==> r[i].updatedAt > cutoff
  {
    Keep(sorted, (n: Note) => IsRecent(n, cutoff))
  }

  /** `olderNotes`: updated at or before the cutoff. */
  function Older(sorted: seq<Note>, cutoff: int): (r: seq<Note>)
    ensures forall i :: 0 <= i < |r| ==> r[i].updatedAt <= cutoff
  {
    Keep(sorted, (n: Note) => !IsRecent(n, cutoff))
  }

  /**
   On a newest-first list the two sections split it at one point: the recent
   notes followed by the older notes are the list itself, so every note is in
   exactly one section and both keep the order.
   */
  lemma {:induction false} SectionsSplitSorted(sorted: seq<Note>, cutoff: int)
    requires SortedDesc(sorted)
    ensures Recent(sorted, cutoff) + Older(sorted, cutoff) == sorted
    decreases |sorted|
  {
    var recent := (n: Note) => IsRecent(n, cutoff);
    var older := (n: Note) => !IsRecent(n, cutoff);
    if sorted != [] {
      if sorted[0].updatedAt > cutoff {
        SectionsSplitSorted(sorted[1..], cutoff);
        assert sorted == [sorted[0]] + sorted[1..];
      } else {
        KeepNone(sorted, recent);
        KeepAll(sorted, older);
      }
    }
  }

  /** The view's two sections for a list of notes. */
  lemma Sections(notes: seq<Note>, cutoff: int)
    ensures var sorted := SortByUpdated(notes);
      && Recent(sorted, cutoff) + Older(sorted, cutoff) == sorted
      && multiset(Recent(sorted, cutoff)) + multiset(Older(sorted, cutoff)) == multiset(notes)
      && SortedDesc(Recent(sorted, cutoff)) && SortedDesc(Older(sorted, cutoff))
  {
    var sorted := SortByUpdated(notes);
    SectionsSplitSorted(sorted, cutoff);
    var r := Recent(sorted, cutoff);
    var o := Older(sorted, cutoff);
    assert multiset(r + o) == multiset(sorted);
    SortedParts(r, o);
  }

  /** Both halves of a newest-first list are newest-first. */
  lemma SortedParts(a: seq<Note>, b: seq<Note>)
    requires SortedDesc(a + b)
    ensures SortedDesc(a) && SortedDesc(b)
  {
    forall i, j | 0 <= i < j < |b| ensures b[i].updatedAt >= b[j].updatedAt {
      assert (a + b)[|a| + i] == b[i] && (a + b)[|a| + j] == b[j];
    }
    forall i, j | 0 <= i < j < |a| ensures a[i].updatedAt >= a[j].updatedAt {
      assert (a + b)[i] == a[i] && (a + b)[j] == a[j];
    }
  }

  /** The collaborator count beside a note: the entries plus the owner, shown only when there are entries. */
  function CollaboratorCount(n: Note): (r: Option<nat>)
    ensures r.Some? <==> n.permissions.Some? && |n.permissions.value| > 0
    ensures r.Some? ==> r.value == |n.permissions.value| + 1 && r.value >= 2
  {
    if n.permissions.Some? && |n.permissions.value| > 0 then Some(|n.permissions.value| + 1) else None
  }

  /** The card view's count, `note.permissions?.length ? note.permissions.length + 1 : 1`. */
  function ListItemCount(n: Note): (r: nat)
    ensures r >= 1
  {
    if n.permissions.Some? && |n.permissions.value| > 0 then |n.permissions.value| + 1 else 1
  }

  /** The list row and the card agree: where the row shows a count the card shows the same one, and otherwise the card shows 1. */
  lemma CountsAgreeAcrossViews(n: Note)
    ensures CollaboratorCount(n).Some? ==> ListItemCount(n) == CollaboratorCount(n).value
    ensures CollaboratorCount(n).None? ==> ListItemCount(n) == 1
  {
  }

  /** The users a list of grants names. */
  function GrantUsers(gs: seq<Grant>): (r: set<string>)
    ensures forall i :: 0 <= i < |gs| ==> gs[i].userId in r
    ensures forall u :: u in r ==> exists i :: 0 <= i < |gs| && gs[i].userId == u
    decreases |gs|
  {
    if gs == [] then {} else {gs[0].userId} + GrantUsers(gs[1..])
  }

  /** No user holds two grants. */
  predicate DistinctUsers(gs: seq<Grant>) {
    forall i, j :: 0 <= i < j < |gs| ==> gs[i].userId != gs[j].userId
  }

  lemma {:induction false} GrantUsersCount(gs: seq<Grant>)
    requires DistinctUsers(gs)
    ensures |GrantUsers(gs)| == |gs|
    decreases |gs|
  {
    if gs != [] {
      var tail := gs[1..];
      GrantUsersCount(tail);
      forall i | 0 <= i < |tail| ensures tail[i].userId != gs[0].userId {
        assert tail[i] == gs[i + 1];
      }
      assert gs[0].userId !in GrantUsers(tail);
    }
  }

  /**
   With one grant per collaborator and none for the owner, the count shown is
   the number of people who can open the note: the owner and each grantee.
   */
  lemma CountIsPeopleWithAccess(n: Note)
    requires n.permissions.Some? && |n.permissions.value| > 0
    requires DistinctUsers(n.permissions.value)
    requires forall i :: 0 <= i < |n.permissions.value| ==> n.permissions.value[i].userId != n.ownerId
    ensures CollaboratorCount(n) == Some(|{n.ownerId} + GrantUsers(n.permissions.value)|)
  {
    var gs := n.permissions.value;
    var users := GrantUsers(gs);
    GrantUsersCount(gs);
    GrantUsersExclude(gs, n.ownerId);
    assert {n.ownerId} + users == users + {n.ownerId};
    assert |users + {n.ownerId}| == |users| + 1;
  }

  /** A user who holds none of the grants is not among their users. */
  lemma {:induction false} GrantUsersExclude(gs: seq<Grant>, u: string)
    requires forall i :: 0 <= i < |gs| ==> gs[i].userId != u
    ensures u !in GrantUsers(gs)
    decreases |gs|
  {
    if gs != [] {
      GrantUsersExclude(gs[1..], u);
    }
  }

  /** "No items found" appears exactly when there is nothing to list. */
  predicate ShowsEmptyState(notes: seq<Note>, folderCount: nat, cutoff: int) {
    var sorted := SortByUpdated(notes);
    |Recent(sorted, cutoff)| == 0 && |Older(sorted, cutoff)| == 0 && folderCount == 0
  }

  lemma EmptyStateIffNothing(notes: seq<Note>, folderCount: nat, cutoff: int)
    ensures ShowsEmptyState(notes, folderCount, cutoff) <==> notes == [] && folderCount == 0
  {
    Sections(notes, cutoff);
    var sorted := SortByUpdated(notes);
    assert |sorted| == |multiset(sorted)| == |multiset(notes)| == |notes|;
  }
}
