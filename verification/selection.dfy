/**
 Picking people from the friend list: the friend selector used when sharing a
 note (each pick carries an invitation role) and the participant picker of
 the new-conversation dialog (a list of friend ids).
 */
module Selection {
  import opened Seqs
  import opened Strings

  /** A friend as the friend list reports them. */
  datatype Person = Person(id: string, name: string, email: string)

  /** The roles a friend can be invited with. */
  datatype InviteRole = Editor | Commenter | Viewer

  function RoleName(r: InviteRole): (s: string)
    ensures s in {"EDITOR", "COMMENTER", "VIEWER"}
  {
    match r
    case Editor => "EDITOR"
    case Commenter => "COMMENTER"
    case Viewer => "VIEWER"
  }

  /** An entry of the selection. */
  datatype SelectedFriend = SelectedFriend(id: string, name: string, email: string, role: InviteRole)

  /** The ids of a selection, in order. */
  function Ids(sel: seq<SelectedFriend>): (r: seq<string>)
    ensures |r| == |sel|
    ensures forall i :: 0 <= i < |sel| ==> r[i] == sel[i].id
  {
    seq(|sel|, i requires 0 <= i < |sel| => sel[i].id)
  }

  /** `isSelected`: some entry has the id. */
  predicate IsSelected(sel: seq<SelectedFriend>, id: string) {
    id in Ids(sel)
  }

  /** `removeFriend`: drops every entry with the id. */
  function RemoveFriend(sel: seq<SelectedFriend>, id: string): (r: seq<SelectedFriend>)
    ensures !IsSelected(r, id)
  {
    var r := Keep(sel, (f: SelectedFriend) => f.id != id);
    assert forall i :: 0 <= i < |r| ==> Ids(r)[i] != id;
    r
  }

  /** Removal keeps every other entry, in order. */
  lemma RemoveFriendKeepsOthers(sel: seq<SelectedFriend>, id: string)
    ensures forall f :: f in RemoveFriend(sel, id) <==> f in sel && f.id != id
    ensures IsSubsequence(RemoveFriend(sel, id), sel)
  {
    var p := (f: SelectedFriend) => f.id != id;
    forall f ensures f in RemoveFriend(sel, id) <==> f in sel && f.id != id {
      KeepMembers(sel, p, f);
    }
    KeepIsSubsequence(sel, p);
  }

  /** A friend freshly added to the selection. */
  function Entry(p: Person): SelectedFriend {
    SelectedFriend(p.id, p.name, p.email, Viewer)
  }

  /** `handleSelect`: toggles the friend, appending new picks with the VIEWER role. */
  function HandleSelect(sel: seq<SelectedFriend>, p: Person): (r: seq<SelectedFriend>)
    ensures IsSelected(sel, p.id) ==> !IsSelected(r, p.id)
    ensures !IsSelected(sel, p.id) ==> r == sel + [SelectedFriend(p.id, p.name, p.email, Viewer)]
  {
    if IsSelected(sel, p.id) then RemoveFriend(sel, p.id) else sel + [Entry(p)]
  }

  /** Selecting a friend and selecting them again restores the selection. */
  lemma SelectTwiceRestores(sel: seq<SelectedFriend>, p: Person)
    requires !IsSelected(sel, p.id)
    ensures HandleSelect(HandleSelect(sel, p), p) == sel
  {
    var q := (f: SelectedFriend) => f.id != p.id;
    assert Ids(sel + [Entry(p)])[|sel|] == p.id;
    KeepConcat(sel, [Entry(p)], q);
    forall i | 0 <= i < |sel| ensures q(sel[i]) {
      assert Ids(sel)[i] == sel[i].id;
    }
    KeepAll(sel, q);
  }

  /** Unique ids stay unique whatever is toggled. */
  lemma SelectKeepsIdsUnique(sel: seq<SelectedFriend>, p: Person)
    requires NoDup(Ids(sel))
    ensures NoDup(Ids(HandleSelect(sel, p)))
  {
    if IsSelected(sel, p.id) {
      KeepIdsUnique(sel, (f: SelectedFriend) => f.id != p.id);
    } else {
      assert Ids(sel + [Entry(p)]) == Ids(sel) + [p.id];
    }
  }

  /** Filtering a selection keeps its ids unique. */
  lemma {:induction false} KeepIdsUnique(sel: seq<SelectedFriend>, q: SelectedFriend -> bool)
    requires NoDup(Ids(sel))
    ensures NoDup(Ids(Keep(sel, q)))
    decreases |sel|
  {
    if |sel| > 0 {
      assert Ids(sel[1..]) == Ids(sel)[1..];
      KeepIdsUnique(sel[1..], q);
      if q(sel[0]) {
        var rest := Keep(sel[1..], q);
        assert Ids([sel[0]] + rest) == [sel[0].id] + Ids(rest);
        forall i | 0 <= i < |rest| ensures Ids(rest)[i] != sel[0].id {
          KeepMembers(sel[1..], q, rest[i]);
          var j :| 0 <= j < |sel[1..]| && sel[1..][j] == rest[i];
          assert Ids(sel)[j + 1] == rest[i].id;
        }
      }
    }
  }

  /** `updateFriendRole`: only the role of the entries with the id changes. */
  function UpdateFriendRole(sel: seq<SelectedFriend>, id: string, role: InviteRole): (r: seq<SelectedFriend>)
    ensures |r| == |sel| && Ids(r) == Ids(sel)
    ensures forall i :: 0 <= i < |sel| ==>
      r[i].name == sel[i].name && r[i].email == sel[i].email
      && r[i].role == (if sel[i].id == id then role else sel[i].role)
  {
    seq(|sel|, i requires 0 <= i < |sel| => if sel[i].id == id then sel[i].(role := role) else sel[i])
  }

  /** Changing a role and then removing the friend is the same as removing them. */
  lemma {:induction false} UpdateThenRemove(sel: seq<SelectedFriend>, id: string, role: InviteRole)
    ensures RemoveFriend(UpdateFriendRole(sel, id, role), id) == RemoveFriend(sel, id)
    decreases |sel|
  {
    if |sel| > 0 {
      assert UpdateFriendRole(sel, id, role)[1..] == UpdateFriendRole(sel[1..], id, role);
      UpdateThenRemove(sel[1..], id, role);
    }
  }

  /** "N friend(s) selected" style count text: the noun takes an "s" when the count exceeds one. */
  function CountPhrase(n: nat, noun: string): (r: string)
    ensures StartsWith(r, NatToString(n) + " " + noun)
  {
    NatToString(n) + " " + noun + (if n > 1 then "s" else "")
  }

  /** The plural ending appears exactly for counts above one. */
  lemma CountPhrasePlural(n: nat, noun: string)
    requires noun != "" && noun[|noun| - 1] != 's'
    ensures var r := CountPhrase(n, noun); r[|r| - 1] == 's' <==> n > 1
  {
  }

  const DefaultPlaceholder: string := "Select friends to invite..."

  /** The selector's trigger label. */
  function TriggerLabel(count: nat, placeholder: string): (r: string)
    ensures count == 0 ==> r == placeholder
    ensures count > 0 ==> r == CountPhrase(count, "friend") + " selected"
  {
    if count > 0 then CountPhrase(count, "friend") + " selected" else placeholder
  }

  /** One friend reads "1 friend selected"; more read "friends". */
  lemma TriggerLabelAgreement(count: nat)
    requires count > 0
    ensures var r := TriggerLabel(count, DefaultPlaceholder);
      EndsWith(r, "friends selected") <==> count > 1
  {
    var r := TriggerLabel(count, DefaultPlaceholder);
    var head := NatToString(count) + " friend";
    if count > 1 {
      assert r == head + "s" + " selected";
      assert r[|r| - 16..] == "friends selected";
    } else {
      assert r == head + "" + " selected";
      assert |r| < 16 || r[|r| - 16..][6] == r[|r| - 10] == 'd';
    }
  }

  /** The conversation dialog's participant picker: add a non-empty id that is not yet chosen. */
  function AddParticipant(sel: seq<string>, friendId: string): (r: seq<string>)
    ensures friendId == "" || friendId in sel ==> r == sel
    ensures friendId != "" && friendId !in sel ==> r == sel + [friendId]
    ensures NoDup(sel) ==> NoDup(r)
  {
    if friendId != "" && friendId !in sel then sel + [friendId] else sel
  }

  /** Removing a chosen participant by its badge. */
  function RemoveParticipant(sel: seq<string>, friendId: string): (r: seq<string>)
    ensures forall id :: id in r <==> id in sel && id != friendId
    ensures NoDup(sel) ==> NoDup(r)
  {
    RemoveKeepsOthers(sel, friendId);
    Remove(sel, friendId)
  }

  /** Whatever the order of adds and removes, the chosen ids never repeat. */
  lemma {:induction false} ParticipantsStayUnique(sel: seq<string>, ops: seq<(bool, string)>)
    requires NoDup(sel)
    ensures NoDup(ApplyParticipantOps(sel, ops))
    decreases |ops|
  {
    if ops != [] {
      var next := if ops[0].0 then AddParticipant(sel, ops[0].1) else RemoveParticipant(sel, ops[0].1);
      ParticipantsStayUnique(next, ops[1..]);
    }
  }

  /** A sequence of picker operations: `(true, id)` adds, `(false, id)` removes. */
  function ApplyParticipantOps(sel: seq<string>, ops: seq<(bool, string)>): seq<string>
    decreases |ops|
  {
    if ops == [] then sel
    else
      var next := if ops[0].0 then AddParticipant(sel, ops[0].1) else RemoveParticipant(sel, ops[0].1);
      ApplyParticipantOps(next, ops[1..])
  }

  /** The picker offers the friends not chosen yet, in friend-list order. */
  function Offered(friends: Option<seq<Person>>, sel: seq<string>): (r: seq<Person>)
    ensures friends.None? ==> r == []
    ensures forall i :: 0 <= i < |r| ==> r[i].id !in sel
  {
    match friends
    case None => []
    case Some(fs) => Keep(fs, (f: Person) => f.id !in sel)
  }

  /** A friend is offered exactly when listed and not yet chosen. */
  lemma OfferedExactly(friends: seq<Person>, sel: seq<string>, f: Person)
    ensures f in Offered(Some(friends), sel) <==> f in friends && f.id !in sel
  {
    KeepMembers(friends, (f: Person) => f.id !in sel, f);
  }

  /** The request to create a conversation. */
  datatype CreateThread = CreateThread(name: string, participantIds: seq<string>)

  /** `handleCreateThread`: needs a non-blank title and at least one participant; the title is sent trimmed. */
  function CreateRequest(title: string, sel: seq<string>): (r: Option<CreateThread>)
    ensures r.None? <==> IsBlank(title) || sel == []
    ensures r.Some? ==> r.value.name == Trim(title) && r.value.name != "" && r.value.participantIds == sel
  {
    TrimEmptyIffBlank(title);
    if Trim(title) == "" || |sel| == 0 then None else Some(CreateThread(Trim(title), sel))
  }

  /** The dialog after a conversation was created: closed, emptied, and on the way to the new thread. */
  datatype DialogState = DialogState(open: bool, title: string, selected: seq<string>)

  function AfterCreate(threadId: string): (r: (DialogState, string))
    ensures !r.0.open && r.0.title == "" && r.0.selected == []
    ensures r.1 == "/messaging/" + threadId
  {
    (DialogState(false, "", []), "/messaging/" + threadId)
  }

  /** After a thread is created the reset dialog cannot submit again until a title and participants are entered anew. */
  lemma AfterCreateBlocksResubmit(threadId: string, friends: Option<seq<Person>>)
    ensures var d := AfterCreate(threadId).0;
      CreateRequest(d.title, d.selected).None? && Offered(friends, d.selected) == (if friends.Some? then friends.value else [])
  {
    var d := AfterCreate(threadId).0;
    assert IsBlank(d.title);
    if friends.Some? {
      KeepAll(friends.value, (f: Person) => f.id !in d.selected);
    }
  }
}
