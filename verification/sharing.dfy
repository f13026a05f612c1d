/**
 The note-sharing dialog: role labels, the pending-invitation and
 people-with-access lists, the two ways of inviting (one address, or the
 friends picked in the selector) and the texts and resets that follow a
 successful invitation.
 */
module Sharing {
  import opened Seqs
  import opened Strings
  import opened Selection

  /** Keys of the dialog's role table. */
  datatype RoleKey = OwnerKey | EditorKey | CommenterKey | ViewerKey

  function KeyOf(role: string): (r: Option<RoleKey>)
    ensures r.Some? <==> role in {"OWNER", "EDITOR", "COMMENTER", "VIEWER"}
  {
    if role == "OWNER" then Some(OwnerKey)
    else if role == "EDITOR" then Some(EditorKey)
    else if role == "COMMENTER" then Some(CommenterKey)
    else if role == "VIEWER" then Some(ViewerKey)
    else None
  }

  function KeyLabel(k: RoleKey): string {
    match k
    case OwnerKey => "Owner"
    case EditorKey => "Editor"
    case CommenterKey => "Commenter"
    case ViewerKey => "Viewer"
  }

  /** `getRoleInfo(role).label`: the table entry for a known key, the VIEWER entry otherwise. */
  function RoleLabel(role: string): (r: string)
    ensures r in {"Owner", "Editor", "Commenter", "Viewer"}
    ensures r == "Viewer" <==> role !in {"OWNER", "EDITOR", "COMMENTER"}
    ensures KeyOf(role).Some? ==> r == KeyLabel(KeyOf(role).value)
  {
    match KeyOf(role)
    case Some(k) => KeyLabel(k)
    case None => KeyLabel(ViewerKey)
  }

  /** Lookups are case-sensitive: the lower-case spelling of a role falls back to Viewer. */
  lemma RoleLabelCaseSensitive()
    ensures RoleLabel("EDITOR") == "Editor" && RoleLabel("editor") == "Viewer"
  {
  }

  datatype InvitationStatus = Pending | Accepted | Declined | Expired

  /** An invitation as the sharing information lists it. */
  datatype Invitation = Invitation(id: string, inviteeEmail: string, role: string, status: InvitationStatus)

  /** A permission entry; the role is lower-case ("owner", "editor", ...). */
  datatype Permission = Permission(userId: string, role: string)

  /** `invitations.filter(inv => inv.status === "PENDING")`. */
  function PendingInvitations(invs: seq<Invitation>): (r: seq<Invitation>)
    ensures forall i :: 0 <= i < |r| ==> r[i].status == Pending
  {
    Keep(invs, (inv: Invitation) => inv.status == Pending)
  }

  /** `permissions.filter(perm => perm.role !== "owner")`. */
  function UsersWithAccess(perms: seq<Permission>): (r: seq<Permission>)
    ensures forall i :: 0 <= i < |r| ==> r[i].role != "owner"
  {
    Keep(perms, (p: Permission) => p.role != "owner")
  }

  /** Both lists are exactly the matching entries, in the order received. */
  lemma ListsAreExact(invs: seq<Invitation>, perms: seq<Permission>)
    ensures forall inv :: inv in PendingInvitations(invs) <==> inv in invs && inv.status == Pending
    ensures forall p :: p in UsersWithAccess(perms) <==> p in perms && p.role != "owner"
    ensures IsSubsequence(PendingInvitations(invs), invs) && IsSubsequence(UsersWithAccess(perms), perms)
  {
    var pi := (inv: Invitation) => inv.status == Pending;
    var pp := (p: Permission) => p.role != "owner";
    forall inv ensures inv in PendingInvitations(invs) <==> inv in invs && inv.status == Pending {
      KeepMembers(invs, pi, inv);
    }
    forall p ensures p in UsersWithAccess(perms) <==> p in perms && p.role != "owner" {
      KeepMembers(perms, pp, p);
    }
    KeepIsSubsequence(invs, pi);
    KeepIsSubsequence(perms, pp);
  }

  /** The request sent by the single-address form. */
  datatype InviteRequest = InviteRequest(noteId: string, inviteeEmail: string, role: InviteRole)

  /** `handleInviteUser`: nothing for a blank address, else the trimmed address with the chosen role. */
  function InviteByEmail(noteId: string, email: string, role: InviteRole): (r: Option<InviteRequest>)
    ensures r.None? <==> IsBlank(email)
    ensures r.Some? ==> r.value == InviteRequest(noteId, Trim(email), role)
    ensures r.Some? ==> r.value.inviteeEmail != "" && !IsSpace(r.value.inviteeEmail[0])
  {
    TrimEmptyIffBlank(email);
    if Trim(email) == "" then None else Some(InviteRequest(noteId, Trim(email), role))
  }

  /** One entry of the bulk request. */
  datatype EmailRole = EmailRole(email: string, role: InviteRole)

  datatype BulkRequest = BulkRequest(noteId: string, invitations: seq<EmailRole>)

  /** `handleInviteFriends`: nothing for an empty selection, else one entry per selected friend, in order. */
  function InviteFriends(noteId: string, sel: seq<SelectedFriend>): (r: Option<BulkRequest>)
    ensures r.None? <==> sel == []
    ensures r.Some? ==> r.value.noteId == noteId && |r.value.invitations| == |sel|
    ensures r.Some? ==> forall i :: 0 <= i < |sel| ==>
      r.value.invitations[i] == EmailRole(sel[i].email, sel[i].role)
  {
    if |sel| == 0 then None
    else Some(BulkRequest(noteId, seq(|sel|, i requires 0 <= i < |sel| => EmailRole(sel[i].email, sel[i].role))))
  }

  /** Every selected friend is invited, and nobody else. */
  lemma BulkInvitesExactlySelection(noteId: string, sel: seq<SelectedFriend>, e: string)
    requires sel != []
    ensures (exists i :: 0 <= i < |InviteFriends(noteId, sel).value.invitations| && InviteFriends(noteId, sel).value.invitations[i].email == e)
      <==> exists j :: 0 <= j < |sel| && sel[j].email == e
  {
    var inv := InviteFriends(noteId, sel).value.invitations;
    if exists j :: 0 <= j < |sel| && sel[j].email == e {
      var j :| 0 <= j < |sel| && sel[j].email == e;
      assert inv[j].email == e;
    }
  }

  /** The single-address form after a successful invitation: emptied, back to VIEWER. */
  datatype InviteForm = InviteForm(email: string, role: InviteRole)

  function AfterSingleInvite(f: InviteForm): (r: InviteForm)
    ensures r.email == "" && r.role == Viewer
  {
    InviteForm("", Viewer)
  }

  /** The form as the dialog first shows it: no address, the VIEWER role. */
  const InitialInviteForm: InviteForm := InviteForm("", Viewer)

  /**
   After a successful invitation the form is the one the dialog opened with:
   it cannot send again until an address is typed, and retyping the same
   address invites as VIEWER whatever role was chosen before.
   */
  lemma SuccessReturnsToInitialForm(noteId: string, f: InviteForm)
    ensures AfterSingleInvite(f) == InitialInviteForm
    ensures InviteByEmail(noteId, AfterSingleInvite(f).email, AfterSingleInvite(f).role).None?
    ensures InviteByEmail(noteId, f.email, f.role).Some? ==>
      InviteByEmail(noteId, f.email, AfterSingleInvite(f).role) == Some(InviteRequest(noteId, Trim(f.email), Viewer))
  {
    assert IsBlank("");
  }

  /** `data.success || selectedFriends.length`: a zero or missing count falls back to the selection size. */
  function BulkCount(success: Option<nat>, selectedCount: nat): (n: nat)
    ensures success.Some? && success.value > 0 ==> n == success.value
    ensures success.None? || success.value == 0 ==> n == selectedCount
  {
    if success.Some? && success.value != 0 then success.value else selectedCount
  }

  /** The bulk success toast. */
  function BulkToast(success: Option<nat>, selectedCount: nat): (r: string)
    ensures StartsWith(r, NatToString(BulkCount(success, selectedCount)) + " invitation")
  {
    CountPhrase(BulkCount(success, selectedCount), "invitation") + " sent successfully!"
  }

  /** The toast says "invitations" exactly when more than one was sent. */
  lemma BulkToastPlural(success: Option<nat>, selectedCount: nat)
    ensures var n := BulkCount(success, selectedCount);
      var r := BulkToast(success, selectedCount);
      EndsWith(r, "s sent successfully!") <==> n > 1
  {
    var n := BulkCount(success, selectedCount);
    var r := BulkToast(success, selectedCount);
    var phrase := CountPhrase(n, "invitation");
    var tail := " sent successfully!";
    var ending := "s sent successfully!";
    CountPhrasePlural(n, "invitation");
    var k := |phrase| - 1;
    assert r == phrase + tail && |tail| == 19 && |ending| == 20;
    assert r[|r| - 20..] == [phrase[k]] + tail;
    assert ending == ['s'] + tail;
  }

}
