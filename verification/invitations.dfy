/**
 The invitation inbox and the page reached from an invitation link. Times are
 milliseconds since the epoch and "now" is an input; an invitation is expired
 when its expiry instant lies strictly before now.
 */
module Invitations {
  import opened Seqs
  import opened Strings
  import opened Effects

  predicate IsExpired(expiresAt: int, now: int) {
    expiresAt < now
  }

  /** The inbox's role badge: the upper-cased role (missing counts as "") looked up, VIEWER otherwise. */
  function InboxRoleLabel(role: Option<string>): (r: string)
    ensures r in {"Viewer", "Commenter", "Editor"}
    ensures r == "Editor" <==> Upper(role.GetOr("")) == "EDITOR"
    ensures r == "Commenter" <==> Upper(role.GetOr("")) == "COMMENTER"
  {
    var key := Upper(role.GetOr(""));
    if key == "VIEWER" then "Viewer"
    else if key == "COMMENTER" then "Commenter"
    else if key == "EDITOR" then "Editor"
    else "Viewer"
  }

  /** The inbox lookup ignores ASCII case, unlike the sharing dialog's. */
  lemma InboxRoleIgnoresCase(role: string)
    ensures InboxRoleLabel(Some(Lower(role))) == InboxRoleLabel(Some(Upper(role)))
  {
    assert Upper(Lower(role)) == Upper(Upper(role));
  }

  /** `(invitation.status || "").toUpperCase()`. */
  function NormalStatus(status: Option<string>): (r: string)
    ensures |r| == |status.GetOr("")|
    ensures forall i :: 0 <= i < |r| ==> !('a' <= r[i] <= 'z')
  {
    Upper(status.GetOr(""))
  }

  /** What the inbox shows at the right of an invitation card. */
  datatype CardAction = AcceptOrDecline | Badge(text: string)

  function InboxAction(status: Option<string>, expiresAt: int, now: int): (r: CardAction)
    ensures r.AcceptOrDecline? <==> NormalStatus(status) == "PENDING" && !IsExpired(expiresAt, now)
    ensures r.Badge? && IsExpired(expiresAt, now) ==> r.text == "Expired"
    ensures r.Badge? && !IsExpired(expiresAt, now) ==> r.text == NormalStatus(status) && r.text != "PENDING"
  {
    var s := NormalStatus(status);
    var expired := IsExpired(expiresAt, now);
    if s == "PENDING" && !expired then AcceptOrDecline
    else Badge(if expired then "Expired" else s)
  }

  /** An invitation expiring exactly now can still be answered; a millisecond later it cannot. */
  lemma ExpiryBoundary(status: string, t: int)
    requires Upper(status) == "PENDING"
    ensures InboxAction(Some(status), t, t) == AcceptOrDecline
    ensures InboxAction(Some(status), t, t + 1) == Badge("Expired")
  {
  }

  /** A lower-case "pending" still offers the actions. */
  lemma PendingAnyCase(t: int, now: int)
    requires t >= now
    ensures InboxAction(Some("pending"), t, now) == AcceptOrDecline
  {
    assert Upper("pending") == "PENDING";
  }

  /**
   The inbox's mark-read effect over `renders` renders: one
   `markAllRead.mutate("note_invitation")` for every run of an effect whose
   dependency list is the empty `[]`.
   */
  function MarkReadCalls(renders: nat): (r: seq<string>)
    ensures forall i :: 0 <= i < |r| ==> r[i] == "note_invitation"
  {
    seq(|EffectRuns(MountOnly<string>(renders))|, _ => "note_invitation")
  }

  /** However often the inbox re-renders, its notifications are marked read exactly once, and not before it renders. */
  lemma MarkedReadOnce(renders: nat)
    ensures renders == 0 ==> MarkReadCalls(renders) == []
    ensures renders >= 1 ==> MarkReadCalls(renders) == ["note_invitation"]
  {
    if renders >= 1 {
      ConstantDepsRunOnce(MountOnly<string>(renders));
    }
  }

  /** The keys of the page's role table, which the declared role type promises. */
  const RoleKeys: set<string> := {"OWNER", "EDITOR", "COMMENTER", "VIEWER"}

  /** The keys of the table the page consults for an invitation that is no longer pending. */
  const StatusKeys: set<string> := {"ACCEPTED", "DECLINED", "EXPIRED"}

  /**
   The names every JavaScript object literal inherits from `Object.prototype`:
   indexing a table with one of them yields a value rather than `undefined`,
   and that value has no `icon` either.
   */
  const InheritedKeys: set<string> := {
    "constructor", "hasOwnProperty", "isPrototypeOf", "propertyIsEnumerable",
    "toLocaleString", "toString", "valueOf", "__proto__",
    "__defineGetter__", "__defineSetter__", "__lookupGetter__", "__lookupSetter__"}

  /** A settled invitation's status, read through the status table. */
  datatype Status = Accepted | Declined | ExpiredStatus

  function ProcessedStatus(status: string): (r: Option<Status>)
    ensures r.Some? <==> status in StatusKeys
    ensures r == Some(Accepted) <==> status == "ACCEPTED"
  {
    if status == "ACCEPTED" then Some(Accepted)
    else if status == "DECLINED" then Some(Declined)
    else if status == "EXPIRED" then Some(ExpiredStatus)
    else None
  }

  /** What the accept page reads of an invitation; role and status are the strings the server sent. */
  datatype Invite = Invite(noteId: string, inviteeEmail: string, role: string, status: string, expiresAt: int)

  /** The page's inputs: session, query state and the clock. */
  datatype PageInput = PageInput(
    sessionPending: bool,
    invitationLoading: bool,
    signedIn: bool,
    sessionEmail: Option<string>,
    error: Option<string>,
    invitation: Option<Invite>,
    now: int)

  /**
   Where rendering throws instead of returning a screen: reading `.icon` of
   the missing role entry, reading `.icon` of the missing status entry (or
   rendering the `undefined` icon an inherited status key yields), or
   rendering the `undefined` role icon on the form.
   */
  datatype CrashSite = RoleLookup | StatusLookup | RoleIcon

  /** What the page shows; each non-form screen names the path of its one button. */
  datatype Screen =
    | Loading
    | SignInRequired(target: string)
    | LoadFailed(message: string)
    | NotFound(target: string)
    | Crash(site: CrashSite)
    | AlreadyProcessed(status: Status, target: string)
    | WrongAccount(target: string)
    | InvitationExpired(target: string)
    | AcceptForm

  /** The screen of a settled invitation that is not pending: only an accepted one links to its note. */
  function ProcessedTarget(inv: Invite): (r: string)
    ensures inv.status == "ACCEPTED" ==> r == "/notes/" + inv.noteId
    ensures inv.status != "ACCEPTED" ==> r == "/notes"
  {
    if inv.status == "ACCEPTED" then "/notes/" + inv.noteId else "/notes"
  }

  /**
   The page's decision chain, in the order the component checks. The role
   entry is looked up before the status check, so a role outside the table
   throws whatever the status; an inherited name only fails once the form
   renders its icon.
   */
  function AcceptPage(p: PageInput): (s: Screen)
    ensures s.AlreadyProcessed? ==> p.invitation.Some? && ProcessedStatus(p.invitation.value.status) == Some(s.status)
    ensures s == AcceptForm ==> p.invitation.Some? && p.invitation.value.role in RoleKeys && p.invitation.value.status == "PENDING"
  {
    if p.sessionPending || p.invitationLoading then Loading
    else if !p.signedIn then SignInRequired("/auth/signin")
    else if p.error.Some? then LoadFailed(if p.error.value != "" then p.error.value else "Failed to load invitation")
    else if p.invitation.None? then NotFound("/notes")
    else
      var inv := p.invitation.value;
      if inv.role !in RoleKeys && inv.role !in InheritedKeys then Crash(RoleLookup)
      else if inv.status != "PENDING" then
        match ProcessedStatus(inv.status)
        case None => Crash(StatusLookup)
        case Some(st) => AlreadyProcessed(st, ProcessedTarget(inv))
      else if p.sessionEmail != Some(inv.inviteeEmail) then WrongAccount("/auth/signin")
      else if IsExpired(inv.expiresAt, p.now) then InvitationExpired("/notes")
      else if inv.role !in RoleKeys then Crash(RoleIcon)
      else AcceptForm
  }

  /** The rank of each screen in the check order. */
  function Rank(s: Screen): nat {
    match s
    case Loading => 1
    case SignInRequired(_) => 2
    case LoadFailed(_) => 3
    case NotFound(_) => 4
    case Crash(RoleLookup) => 5
    case Crash(StatusLookup) => 6
    case AlreadyProcessed(_, _) => 7
    case WrongAccount(_) => 8
    case InvitationExpired(_) => 9
    case Crash(RoleIcon) => 10
    case AcceptForm => 11
  }

  /** The condition under which each screen's own check fires. */
  predicate Fires(p: PageInput, rank: nat) {
    match rank
    case 1 => p.sessionPending || p.invitationLoading
    case 2 => !p.signedIn
    case 3 => p.error.Some?
    case 4 => p.invitation.None?
    case 5 => p.invitation.Some? && p.invitation.value.role !in RoleKeys && p.invitation.value.role !in InheritedKeys
    case 6 => p.invitation.Some? && p.invitation.value.status != "PENDING" && p.invitation.value.status !in StatusKeys
    case 7 => p.invitation.Some? && p.invitation.value.status != "PENDING"
    case 8 => p.invitation.Some? && p.sessionEmail != Some(p.invitation.value.inviteeEmail)
    case 9 => p.invitation.Some? && IsExpired(p.invitation.value.expiresAt, p.now)
    case 10 => p.invitation.Some? && p.invitation.value.role !in RoleKeys
    case _ => true
  }

  /** The screen shown is the first one in the fixed order whose check fires. */
  lemma FirstFiringCheckWins(p: PageInput)
    ensures Fires(p, Rank(AcceptPage(p)))
    ensures forall k :: 1 <= k < Rank(AcceptPage(p)) ==> !Fires(p, k)
  {
  }

  /** A loaded invitation reaches a screen past the query checks. */
  predicate Settled(p: PageInput) {
    !p.sessionPending && !p.invitationLoading && p.signedIn && p.error.None? && p.invitation.Some?
  }

  /**
   The page throws exactly when a field leaves its declared type on a path
   that reads it: a role outside both the table and the inherited names; a
   settled status outside the table; or an inherited role name on a live
   invitation for this account.
   */
  lemma CrashIffUndeclaredKey(p: PageInput)
    requires Settled(p)
    ensures var inv := p.invitation.value;
      AcceptPage(p).Crash? <==>
        || (inv.role !in RoleKeys && inv.role !in InheritedKeys)
        || (inv.status != "PENDING" && inv.status !in StatusKeys)
        || (inv.role !in RoleKeys && inv.status == "PENDING"
            && p.sessionEmail == Some(inv.inviteeEmail) && !IsExpired(inv.expiresAt, p.now))
  {
  }

  /** With role and status inside their declared unions the page never throws. */
  lemma DeclaredKeysNeverCrash(p: PageInput)
    requires Settled(p)
    requires p.invitation.value.role in RoleKeys
    requires p.invitation.value.status in StatusKeys + {"PENDING"}
    ensures !AcceptPage(p).Crash?
  {
  }

  /** The lower-case "pending" that the inbox still offers to answer makes this page throw. */
  lemma LowerPendingCrashes(p: PageInput)
    requires Settled(p) && p.invitation.value.role in RoleKeys
    requires p.invitation.value.status == "pending"
    ensures AcceptPage(p) == Crash(StatusLookup)
    ensures InboxAction(Some(p.invitation.value.status), p.now, p.now) == AcceptOrDecline
  {
    assert "pending" != "PENDING";
    assert "pending" !in StatusKeys;
    PendingAnyCase(p.now, p.now);
  }

  /** A processed invitation shows its status even to the wrong account and after expiry. */
  lemma StatusBeatsAccountAndExpiry(p: PageInput)
    requires Settled(p)
    requires p.invitation.value.role in RoleKeys + InheritedKeys
    requires p.invitation.value.status in StatusKeys
    ensures AcceptPage(p).AlreadyProcessed?
  {
  }

  /** The account check compares addresses exactly: a differently-cased address is the wrong account. */
  lemma EmailCaseMatters(p: PageInput)
    requires Settled(p)
    requires p.invitation.value.role in RoleKeys && p.invitation.value.status == "PENDING"
    requires p.invitation.value.inviteeEmail == "ann@example.com"
    requires p.sessionEmail == Some("Ann@example.com")
    ensures AcceptPage(p) == WrongAccount("/auth/signin")
  {
    assert "Ann@example.com" != "ann@example.com" by {
      assert "Ann@example.com"[0] != "ann@example.com"[0];
    }
  }

  /** Expiry is only looked at for the right account: the form shows iff the address matches and time remains. */
  lemma FormIffMatchingAndLive(p: PageInput)
    requires Settled(p)
    requires p.invitation.value.role in RoleKeys && p.invitation.value.status == "PENDING"
    ensures AcceptPage(p) == AcceptForm <==>
      p.sessionEmail == Some(p.invitation.value.inviteeEmail) && !IsExpired(p.invitation.value.expiresAt, p.now)
    ensures p.sessionEmail != Some(p.invitation.value.inviteeEmail) ==> AcceptPage(p).WrongAccount?
  {
  }

  /** Where the mutations send the user on success. */
  function AcceptedTarget(inv: Invite): (r: string)
    ensures StartsWith(r, "/notes/") && r[7..] == inv.noteId
  {
    "/notes/" + inv.noteId
  }

  const DeclinedTarget: string := "/notes"

  /** Accepting from the form and the "already accepted" screen lead to the same note. */
  lemma AcceptPathsAgree(inv: Invite)
    requires inv.status == "ACCEPTED"
    ensures ProcessedTarget(inv) == AcceptedTarget(inv)
  {
  }

  /** Both action buttons are disabled while either request is in flight. */
  function ButtonsDisabled(isAccepting: bool, isDeclining: bool): (r: (bool, bool))
    ensures r.0 == r.1
    ensures r.0 <==> isAccepting || isDeclining
  {
    (isAccepting || isDeclining, isAccepting || isDeclining)
  }

  /** The two requests the form can start. */
  datatype Call = AcceptCall | DeclineCall

  /** The form's two flags and the requests that have started and not yet settled. */
  datatype Actions = Actions(isAccepting: bool, isDeclining: bool, inFlight: seq<Call>)

  const NoActions: Actions := Actions(false, false, [])

  /** A click on one of the buttons, or a request settling (with success or error). */
  datatype ActionEvent = Click(call: Call) | Settled(call: Call)

  /**
   `handleAccept`/`handleDecline` and the mutations' `onSuccess`/`onError`: a
   click on a disabled button does nothing; an enabled click sets its flag and
   starts its request; a request that settles clears its own flag.
   */
  function ActionStep(s: Actions, e: ActionEvent): (r: Actions)
    ensures e.Click? && ButtonsDisabled(s.isAccepting, s.isDeclining).0 ==> r == s
    ensures e.Click? && !ButtonsDisabled(s.isAccepting, s.isDeclining).0 ==> r.inFlight == s.inFlight + [e.call]
    ensures e.Settled? && e.call in s.inFlight ==> e.call !in r.inFlight
  {
    match e
    case Click(c) =>
      if ButtonsDisabled(s.isAccepting, s.isDeclining).0 then s
      else if c == AcceptCall then Actions(true, s.isDeclining, s.inFlight + [c])
      else Actions(s.isAccepting, true, s.inFlight + [c])
    case Settled(c) =>
      if c !in s.inFlight then s
      else if c == AcceptCall then Actions(false, s.isDeclining, Remove(s.inFlight, c))
      else Actions(s.isAccepting, false, Remove(s.inFlight, c))
  }

  /** The flags say exactly which request is in flight, and never both. */
  predicate Tracked(s: Actions) {
    || (s.inFlight == [] && !s.isAccepting && !s.isDeclining)
    || (s.inFlight == [AcceptCall] && s.isAccepting && !s.isDeclining)
    || (s.inFlight == [DeclineCall] && !s.isAccepting && s.isDeclining)
  }

  /** Every click or settlement keeps the flags tracking the request in flight. */
  lemma ActionStepTracked(s: Actions, e: ActionEvent)
    requires Tracked(s)
    ensures Tracked(ActionStep(s, e))
  {
    if e.Settled? && e.call in s.inFlight {
      assert s.inFlight == [e.call];
      KeepNone(s.inFlight, (y: Call) => y != e.call);
    }
  }

  /** The form after a sequence of clicks and settlements. */
  function RunActions(s: Actions, events: seq<ActionEvent>): Actions
    decreases |events|
  {
    if events == [] then s else RunActions(ActionStep(s, events[0]), events[1..])
  }

  /**
   Whatever the user clicks and however the requests settle, at most one
   request is in flight, the buttons are disabled exactly while one is, and a
   click then starts nothing.
   */
  lemma {:induction false} AtMostOneInFlight(s: Actions, events: seq<ActionEvent>, c: Call)
    requires Tracked(s)
    ensures var t := RunActions(s, events);
      && Tracked(t)
      && |t.inFlight| <= 1
      && (ButtonsDisabled(t.isAccepting, t.isDeclining).0 <==> t.inFlight != [])
      && (t.inFlight != [] ==> ActionStep(t, Click(c)) == t)
    decreases |events|
  {
    if events != [] {
      ActionStepTracked(s, events[0]);
      AtMostOneInFlight(ActionStep(s, events[0]), events[1..], c);
    }
  }
}
