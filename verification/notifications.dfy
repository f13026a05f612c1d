/**
 The notification router of `useNotificationToasts`: from one inbound
 notification it derives the toast text, the page to open and the cached
 queries to mark stale, and "View" performs those invalidations and then one
 navigation.
 */
module NotificationRouter {
  import opened Seqs
  import opened Strings

  /** The seven notification types the server sends, plus anything else. */
  datatype Kind =
    | FriendRequest | FriendAccepted | NewMessage | NoteInvitation
    | NoteShared | NoteComment | NoteUpdated | Unknown

  /** The server's `type` string for a known kind. */
  function Tag(k: Kind): string
    requires !k.Unknown?
  {
    match k
    case FriendRequest => "friend_request"
    case FriendAccepted => "friend_accepted"
    case NewMessage => "new_message"
    case NoteInvitation => "note_invitation"
    case NoteShared => "note_shared"
    case NoteComment => "note_comment"
    case NoteUpdated => "note_updated"
  }

  /** The `switch (type)` of the source: exact string comparison, anything else falls to `default`. */
  function KindOf(tag: string): (k: Kind)
    ensures !k.Unknown? ==> Tag(k) == tag
  {
    if tag == "friend_request" then FriendRequest
    else if tag == "friend_accepted" then FriendAccepted
    else if tag == "new_message" then NewMessage
    else if tag == "note_invitation" then NoteInvitation
    else if tag == "note_shared" then NoteShared
    else if tag == "note_comment" then NoteComment
    else if tag == "note_updated" then NoteUpdated
    else Unknown
  }

  /** Every known kind is recognised from its own tag. */
  lemma KindOfTag(k: Kind)
    requires !k.Unknown?
    ensures KindOf(Tag(k)) == k
  {
  }

  /** The kinds that are about a note and carry `noteId`/`noteTitle`. */
  predicate IsNoteKind(k: Kind) {
    k == NoteShared || k == NoteComment || k == NoteUpdated
  }

  /**
   The free-form `data` bag, restricted to the fields the router reads.
   A `null` bag is the value with every field `None`, since `data?.x` is
   `undefined` either way.
   */
  datatype Payload = Payload(
    userName: Option<string>,
    fromUserName: Option<string>,
    noteTitle: Option<string>,
    threadId: Option<string>,
    invitationId: Option<string>,
    noteId: Option<string>)

  const NullPayload := Payload(None, None, None, None, None, None)

  datatype Notification = Notification(
    id: string,
    tag: string,
    title: string,
    message: Option<string>,
    data: Payload)

  /** The actor named in fallback texts: `userName || fromUserName || 'Someone'`. */
  function Actor(d: Payload): (r: string)
    ensures r != ""
    ensures Truthy(d.userName) ==> r == d.userName.value
    ensures !Truthy(d.userName) && Truthy(d.fromUserName) ==> r == d.fromUserName.value
    ensures !Truthy(d.userName) && !Truthy(d.fromUserName) ==> r == "Someone"
  {
    if Truthy(d.userName) then d.userName.value
    else if Truthy(d.fromUserName) then d.fromUserName.value
    else "Someone"
  }

  /** `" " + prefix + "\"" + title + "\""` when the note title is truthy, else `otherwise`. */
  function TitleFragment(d: Payload, lead: string, otherwise: string): string
  {
    if Truthy(d.noteTitle) then lead + "\"" + d.noteTitle.value + "\"" else otherwise
  }

  /** `getPersonalizedMessage`: the toast description. */
  function DisplayText(n: Notification): (r: string)
    ensures Truthy(n.message) ==> r == n.message.value
    ensures !Truthy(n.message) && KindOf(n.tag).Unknown? ==> r == n.title
    ensures !Truthy(n.message) && !KindOf(n.tag).Unknown? && KindOf(n.tag) != NewMessage
            ==> StartsWith(r, Actor(n.data)) && |r| > |Actor(n.data)|
    ensures !Truthy(n.message) && KindOf(n.tag) == NewMessage ==> EndsWith(r, Actor(n.data))
    ensures !Truthy(n.message) && !KindOf(n.tag).Unknown? ==> r != ""
  {
    if Truthy(n.message) then n.message.value
    else
      var user := Actor(n.data);
      match KindOf(n.tag)
      case FriendRequest => user + " sent you a friend request"
      case FriendAccepted => user + " accepted your friend request"
      case NewMessage => "New message from " + user
      case NoteInvitation => user + " invited you" + TitleFragment(n.data, " to ", "")
      case NoteShared => user + " shared" + TitleFragment(n.data, " ", " a note") + " with you"
      case NoteComment => user + " commented" + TitleFragment(n.data, " on ", "")
      case NoteUpdated => user + " updated" + TitleFragment(n.data, " ", " a shared note")
      case Unknown => n.title
  }

  /** The ids in `data` never change the display text: only names, titles and the message do. */
  lemma DisplayIgnoresIds(n: Notification, threadId: Option<string>, invitationId: Option<string>, noteId: Option<string>)
    ensures DisplayText(n) == DisplayText(n.(data := n.data.(threadId := threadId, invitationId := invitationId, noteId := noteId)))
  {
  }

  /** Only invitation and note kinds mention a note title; for the others it is irrelevant. */
  lemma DisplayTitleOnlyForNotes(n: Notification, noteTitle: Option<string>)
    requires KindOf(n.tag) != NoteInvitation && !IsNoteKind(KindOf(n.tag))
    ensures DisplayText(n) == DisplayText(n.(data := n.data.(noteTitle := noteTitle)))
  {
  }

  /** With an empty message and a truthy note title, the quoted title appears in the text. */
  lemma {:induction false} DisplayQuotesTitle(n: Notification)
    requires !Truthy(n.message) && Truthy(n.data.noteTitle)
    requires KindOf(n.tag) == NoteInvitation || IsNoteKind(KindOf(n.tag))
    ensures Contains(DisplayText(n), "\"" + n.data.noteTitle.value + "\"")
  {
    var q := "\"" + n.data.noteTitle.value + "\"";
    var user := Actor(n.data);
    match KindOf(n.tag)
    case NoteInvitation =>
      assert DisplayText(n) == user + " invited you to " + q + "";
      ContainsInfix(user + " invited you to ", q, "");
    case NoteShared =>
      assert DisplayText(n) == user + " shared " + q + " with you";
      ContainsInfix(user + " shared ", q, " with you");
    case NoteComment =>
      assert DisplayText(n) == user + " commented on " + q + "";
      ContainsInfix(user + " commented on ", q, "");
    case NoteUpdated =>
      assert DisplayText(n) == user + " updated " + q + "";
      ContainsInfix(user + " updated ", q, "");
  }

  /** Without a note title the note texts fall back to their fixed wording. */
  lemma DisplayWithoutTitle(n: Notification)
    requires !Truthy(n.message) && !Truthy(n.data.noteTitle)
    ensures KindOf(n.tag) == NoteInvitation ==> DisplayText(n) == Actor(n.data) + " invited you"
    ensures KindOf(n.tag) == NoteShared ==> DisplayText(n) == Actor(n.data) + " shared a note with you"
    ensures KindOf(n.tag) == NoteComment ==> DisplayText(n) == Actor(n.data) + " commented"
    ensures KindOf(n.tag) == NoteUpdated ==> DisplayText(n) == Actor(n.data) + " updated a shared note"
  {
  }

  /** `getRedirectUrl`: the page "View" opens. */
  function RedirectUrl(n: Notification): (r: string)
    ensures |r| > 0 && r[0] == '/'
  {
    match KindOf(n.tag)
    case FriendRequest => "/friends"
    case FriendAccepted => "/friends"
    case NewMessage =>
      if Truthy(n.data.threadId) then "/messaging/" + n.data.threadId.value else "/messaging"
    case NoteInvitation =>
      if Truthy(n.data.invitationId) then "/invitations/" + n.data.invitationId.value else "/invitations"
    case NoteShared | NoteComment | NoteUpdated =>
      if Truthy(n.data.noteId) then "/notes/" + n.data.noteId.value else "/notes"
    case Unknown => "/"
  }

  /** The client-side pages a redirect can land on, as an independent reading of a path. */
  datatype Destination =
    | Home | FriendsPage | ThreadList | Thread(threadId: string)
    | InvitationList | Invitation(invitationId: string)
    | NoteList | Note(noteId: string) | Elsewhere(path: string)

  /** Reads a path back into the page it designates. */
  function ParsePath(path: string): Destination
  {
    if path == "/" then Home
    else if path == "/friends" then FriendsPage
    else if path == "/messaging" then ThreadList
    else if StartsWith(path, "/messaging/") then Thread(path[|"/messaging/"|..])
    else if path == "/invitations" then InvitationList
    else if StartsWith(path, "/invitations/") then Invitation(path[|"/invitations/"|..])
    else if path == "/notes" then NoteList
    else if StartsWith(path, "/notes/") then Note(path[|"/notes/"|..])
    else Elsewhere(path)
  }

  /** Where each kind of notification should lead, stated per kind. */
  function Intended(n: Notification): Destination
  {
    var k := KindOf(n.tag);
    if k == FriendRequest || k == FriendAccepted then FriendsPage
    else if k == NewMessage then
      (if Truthy(n.data.threadId) then Thread(n.data.threadId.value) else ThreadList)
    else if k == NoteInvitation then
      (if Truthy(n.data.invitationId) then Invitation(n.data.invitationId.value) else InvitationList)
    else if IsNoteKind(k) then
      (if Truthy(n.data.noteId) then Note(n.data.noteId.value) else NoteList)
    else Home
  }

  lemma PrefixedSlice(prefix: string, id: string)
    ensures StartsWith(prefix + id, prefix)
    ensures (prefix + id)[|prefix|..] == id
  {
    assert (prefix + id)[..|prefix|] == prefix;
  }

  /** Every redirect reads back as the page intended for its kind, carrying the same id. */
  lemma RedirectRoundTrip(n: Notification)
    ensures ParsePath(RedirectUrl(n)) == Intended(n)
  {
    var r := RedirectUrl(n);
    match KindOf(n.tag)
    case NewMessage =>
      if Truthy(n.data.threadId) {
        PrefixedSlice("/messaging/", n.data.threadId.value);
      }
    case NoteInvitation =>
      if Truthy(n.data.invitationId) {
        PrefixedSlice("/invitations/", n.data.invitationId.value);
        assert r[..11][1] == 'i' != "/messaging/"[1];
      } else {
        assert r[..11][1] == 'i' != "/messaging/"[1];
      }
    case NoteShared | NoteComment | NoteUpdated =>
      if Truthy(n.data.noteId) {
        PrefixedSlice("/notes/", n.data.noteId.value);
        assert r[1] == 'n';
        assert |r| < 11 || r[..11][1] != "/messaging/"[1];
        assert |r| < 13 || r[..13][1] != "/invitations/"[1];
      }
    case _ =>
  }

  /** A cached query's key, as the array passed to `invalidateQueries`. */
  type QueryKey = seq<string>

  const CountsKey: QueryKey := ["notifications", "counts"]

  function ThreadKey(threadId: string): QueryKey { ["messaging", "threads", threadId] }
  function MessagesKey(threadId: string): QueryKey { ["messaging", "threads", threadId, "messages"] }
  function NoteKey(noteId: string): QueryKey { ["notes", noteId] }

  /** The invalidation switch of `invalidateQueriesAndNavigate`, in call order. */
  function InvalidationKeys(n: Notification): (keys: seq<QueryKey>)
    ensures |keys| > 0 && keys[|keys| - 1] == CountsKey
    ensures forall t :: MessagesKey(t) in keys <==> KindOf(n.tag) == NewMessage && Truthy(n.data.threadId) && t == n.data.threadId.value
    ensures forall t :: ThreadKey(t) in keys <==> KindOf(n.tag) == NewMessage && Truthy(n.data.threadId) && t == n.data.threadId.value
    ensures forall id :: NoteKey(id) in keys <==> IsNoteKind(KindOf(n.tag)) && Truthy(n.data.noteId) && id == n.data.noteId.value
  {
    match KindOf(n.tag)
    case FriendRequest | FriendAccepted =>
      [["friends"], ["friends", "pending"], ["friends", "sent"], CountsKey]
    case NewMessage =>
      [["messaging", "threads"]]
      + (if Truthy(n.data.threadId)
         then [MessagesKey(n.data.threadId.value), ThreadKey(n.data.threadId.value)]
         else [])
      + [CountsKey]
    case NoteInvitation =>
      [["my-invitations"], ["invitations"], CountsKey]
    case NoteShared | NoteComment | NoteUpdated =>
      [["notes"]] + (if Truthy(n.data.noteId) then [NoteKey(n.data.noteId.value)] else []) + [CountsKey]
    case Unknown =>
      [CountsKey]
  }

  /**
   The queries each type must refresh, independent of the notification's ids:
   the friend lists for friend events, the thread list for messages, both
   invitation lists for invitations and the note list for note events.
   */
  function RequiredKeys(k: Kind): seq<QueryKey>
  {
    match k
    case FriendRequest => [["friends"], ["friends", "pending"], ["friends", "sent"]]
    case FriendAccepted => [["friends"], ["friends", "pending"], ["friends", "sent"]]
    case NewMessage => [["messaging", "threads"]]
    case NoteInvitation => [["my-invitations"], ["invitations"]]
    case NoteShared => [["notes"]]
    case NoteComment => [["notes"]]
    case NoteUpdated => [["notes"]]
    case Unknown => []
  }

  /** A key scoped to the thread or note the notification names. */
  predicate IdKeyOf(n: Notification, key: QueryKey) {
    || (Truthy(n.data.threadId) && (key == MessagesKey(n.data.threadId.value) || key == ThreadKey(n.data.threadId.value)))
    || (Truthy(n.data.noteId) && key == NoteKey(n.data.noteId.value))
  }

  /**
   "View" refreshes its type's required queries first and in order; every
   other key it refreshes is the counts key or a key for the notification's
   own thread or note.
   */
  lemma InvalidationCoversRequired(n: Notification)
    ensures var keys := InvalidationKeys(n); var req := RequiredKeys(KindOf(n.tag));
      |req| < |keys| && keys[..|req|] == req
    ensures forall key :: key in InvalidationKeys(n) ==>
      key in RequiredKeys(KindOf(n.tag)) || key == CountsKey || IdKeyOf(n, key)
  {
  }

  /** What the cache and the router are asked to do. */
  datatype Effect = Invalidate(key: QueryKey) | Navigate(path: string)

  /** "View": every invalidation of the notification's kind, then one navigation to its redirect. */
  function ViewEffects(n: Notification): (effects: seq<Effect>)
    ensures |effects| == |InvalidationKeys(n)| + 1
    ensures effects[|effects| - 1] == Navigate(RedirectUrl(n))
    ensures forall i :: 0 <= i < |effects| - 1 ==> effects[i] == Invalidate(InvalidationKeys(n)[i])
  {
    var keys := InvalidationKeys(n);
    seq(|keys|, i requires 0 <= i < |keys| => Invalidate(keys[i])) + [Navigate(RedirectUrl(n))]
  }

  /** "View" navigates exactly once, after every invalidation, and always refreshes the counts. */
  lemma {:induction false} ViewNavigatesOnceLast(n: Notification)
    ensures CountWhere(ViewEffects(n), (e: Effect) => e.Navigate?) == 1
    ensures Invalidate(CountsKey) in ViewEffects(n)
  {
    var e := ViewEffects(n);
    var keys := InvalidationKeys(n);
    assert e[|e| - 2] == Invalidate(keys[|keys| - 1]);
    NoNavigateBefore(e, |e| - 1);
  }

  lemma {:induction false} NoNavigateBefore(e: seq<Effect>, k: nat)
    requires k == |e| - 1 && e[k].Navigate?
    requires forall i :: 0 <= i < k ==> e[i].Invalidate?
    ensures CountWhere(e, (x: Effect) => x.Navigate?) == 1
    decreases |e|
  {
    if k > 0 {
      NoNavigateBefore(e[1..], k - 1);
    }
  }

  /** The toast shown for an inbound notification while a user is signed in; `onView` is what its action does. */
  datatype Toast = Toast(heading: string, description: string, actionLabel: string, durationMs: nat, onView: seq<Effect>)

  /** The `notification:new` handler: registered only for a signed-in user. */
  function OnNotification(signedIn: bool, n: Notification): (t: Option<Toast>)
    ensures t.Some? <==> signedIn
    ensures t.Some? ==> t.value.heading == n.title && t.value.description == DisplayText(n)
    ensures t.Some? ==> t.value.actionLabel == "View" && t.value.durationMs == 6000
    ensures t.Some? ==> t.value.onView == ViewEffects(n)
  {
    if signedIn then Some(Toast(n.title, DisplayText(n), "View", 6000, ViewEffects(n))) else None
  }

  /** The toasts a run of `notification:new` events raises, in arrival order. */
  function ToastStream(signedIn: bool, ns: seq<Notification>): seq<Toast>
    decreases |ns|
  {
    if ns == [] then []
    else
      var head := if signedIn then [OnNotification(signedIn, ns[0]).value] else [];
      head + ToastStream(signedIn, ns[1..])
  }

  /**
   Signed out, no event raises a toast; signed in, every event raises exactly
   one, in order, whose "View" action refreshes the counts and then makes its
   one navigation, to the notification's redirect.
   */
  lemma {:induction false} ToastPerEventWhileSignedIn(signedIn: bool, ns: seq<Notification>)
    ensures !signedIn ==> ToastStream(signedIn, ns) == []
    ensures signedIn ==> |ToastStream(signedIn, ns)| == |ns|
    ensures signedIn ==> forall i :: 0 <= i < |ns| ==>
      var t := ToastStream(signedIn, ns)[i];
      && t.heading == ns[i].title
      && t.description == DisplayText(ns[i])
      && t.onView == ViewEffects(ns[i])
      && t.onView[|t.onView| - 1] == Navigate(RedirectUrl(ns[i]))
      && CountWhere(t.onView, (e: Effect) => e.Navigate?) == 1
      && Invalidate(CountsKey) in t.onView
    decreases |ns|
  {
    if ns != [] {
      ToastPerEventWhileSignedIn(signedIn, ns[1..]);
      if signedIn {
        var r := ToastStream(signedIn, ns);
        var rest := ToastStream(signedIn, ns[1..]);
        assert r == [OnNotification(true, ns[0]).value] + rest;
        forall i | 0 <= i < |ns|
          ensures var t := r[i];
            && t.heading == ns[i].title
            && t.description == DisplayText(ns[i])
            && t.onView == ViewEffects(ns[i])
            && t.onView[|t.onView| - 1] == Navigate(RedirectUrl(ns[i]))
            && CountWhere(t.onView, (e: Effect) => e.Navigate?) == 1
            && Invalidate(CountsKey) in t.onView
        {
          ViewNavigatesOnceLast(ns[i]);
          if i > 0 {
            assert r[i] == rest[i - 1] && ns[i] == ns[1..][i - 1];
          }
        }
      }
    }
  }

  /** A new-message notification for thread `t1` opens that thread and refreshes its messages and the list. */
  lemma NewMessageScenario()
    ensures var n := Notification("n1", "new_message", "Message", None, NullPayload.(threadId := Some("t1")));
      && RedirectUrl(n) == "/messaging/t1"
      && MessagesKey("t1") in InvalidationKeys(n)
      && ["messaging", "threads"] in InvalidationKeys(n)
  {
  }

  /** An eighth, unknown type opens the home page and only refreshes the counts. */
  lemma UnknownKindScenario(n: Notification)
    requires KindOf(n.tag).Unknown?
    ensures RedirectUrl(n) == "/"
    ensures InvalidationKeys(n) == [CountsKey]
  {
  }
}
