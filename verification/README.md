# Collaborative notes client: decision logic in Dafny

This project models the pure decision logic of the collaborative notes web
client (a React application). That client lets users write notes, share them
and edit them together, invite people, message friends, and receive live
notifications. The rendering and network plumbing are not modelled. What is
modelled are the functions and small state machines the components run:
- which text, route and cache refresh a notification produces;
- who is shown as typing in a conversation, and when the page tells the
  others that its user is typing;
- when the collaborative editor may seed an empty shared document;
- who may edit or delete a note, and how the note list is searched, sorted
  and split into sections;
- the selection lists of the sharing dialog, the friend selector and the
  conversation picker;
- the invitation inbox and the invitation acceptance page;
- the folder dialogs, the friend request form, the authentication store,
  the route guards and the sidebar and search box.

Each component is one module. Times are integer milliseconds, and "now" is
always an input. The WebSocket, the collaboration provider, the browser's
`confirm` and the REST calls become inputs, or logs of what would be sent.
Three shared modules hold the primitives:
- `Strings`: JavaScript whitespace and `trim`, ASCII case mapping,
  `split(" ")`, `trim().split(/\s+/)` and `join`.
- `Seqs`: `filter`, `find` and `findIndex` on sequences, and an `Option` type
  for values that may be `null` or `undefined`.
- `Effects`: when React runs an effect, given each render's dependency values.

## Model

| member | source | states |
|---|---|---|
| NotificationRouter.KindOfTag | src/hooks/useNotificationToasts.ts:40-65 | each of the seven known type strings is recognised as its own kind; every other string is the default branch |
| NotificationRouter.Actor | src/hooks/useNotificationToasts.ts:38 | the actor is `userName` if truthy, else `fromUserName` if truthy, else "Someone"; never empty |
| NotificationRouter.DisplayText | src/hooks/useNotificationToasts.ts:29-66 | a non-empty message is shown verbatim; otherwise an unknown type shows the title and each known type a non-empty template naming the actor |
| NotificationRouter.DisplayIgnoresIds | src/hooks/useNotificationToasts.ts:29-66 | thread, invitation and note ids never change the displayed text |
| NotificationRouter.DisplayTitleOnlyForNotes | src/hooks/useNotificationToasts.ts:40-46 | for friend and message types the note title is irrelevant |
| NotificationRouter.DisplayQuotesTitle | src/hooks/useNotificationToasts.ts:47-62 | with a note title and no message, the quoted title appears in the text of the four note types |
| NotificationRouter.DisplayWithoutTitle | src/hooks/useNotificationToasts.ts:47-62 | without a note title the fallbacks are " invited you", " shared a note with you", " commented" and " updated a shared note" |
| NotificationRouter.RedirectUrl | src/hooks/useNotificationToasts.ts:68-96 | every redirect is non-empty and starts with "/" |
| NotificationRouter.RedirectRoundTrip | src/hooks/useNotificationToasts.ts:68-96 | parsing the redirect gives back the page intended for the type (friends, the thread or list, the invitation or list, the note or list, home), with the same id |
| NotificationRouter.InvalidationKeys | src/hooks/useNotificationToasts.ts:104-140 | every type refreshes the notification counts last; thread keys appear exactly for a new message with a thread id, note keys exactly for note types with a note id |
| NotificationRouter.InvalidationCoversRequired | src/hooks/useNotificationToasts.ts:104-140 | each type first refreshes its own lists (the three friend lists, the thread list, both invitation lists, the note list), in order; every other key is the counts key or a key for the notification's own thread or note |
| NotificationRouter.ViewEffects | src/hooks/useNotificationToasts.ts:98-145 | "View" performs every invalidation of the type in order, then navigates to the redirect |
| NotificationRouter.ViewNavigatesOnceLast | src/hooks/useNotificationToasts.ts:98-145 | "View" navigates exactly once and always refreshes the counts |
| NotificationRouter.OnNotification | src/hooks/useNotificationToasts.ts:148-176 | a toast appears only for a signed-in user, headed by the title, described by the display text, with a "View" action lasting 6000 ms whose effects are those of "View" |
| NotificationRouter.ToastPerEventWhileSignedIn | src/hooks/useNotificationToasts.ts:148-176 | signed out, no event raises a toast; signed in, each event raises exactly one, in order, whose action refreshes the counts and then navigates once, to the notification's redirect |
| NotificationRouter.NewMessageScenario | src/hooks/useNotificationToasts.ts:76-80 | a new-message notification for a thread opens that thread and refreshes its messages, the thread and the counts |
| NotificationRouter.UnknownKindScenario | src/hooks/useNotificationToasts.ts:93-95 | an unknown type leads home and only refreshes the counts |
| Presence.AddName | src/pages/messaging/ThreadPage.tsx:137-141 | adding keeps the old list as a prefix, adds the name at most once, and preserves the absence of duplicates |
| Presence.RemoveName | src/pages/messaging/ThreadPage.tsx:142-143 | after removal the name is absent |
| Presence.AddNameIdempotent | src/pages/messaging/ThreadPage.tsx:137-141 | repeating a start-typing event changes nothing |
| Presence.AddThenRemove | src/pages/messaging/ThreadPage.tsx:137-143 | a new name that starts and stops typing leaves the list as it was |
| Presence.OnUserTyping | src/pages/messaging/ThreadPage.tsx:127-146 | the user's own events are ignored; others add or remove their display name |
| Presence.ReplayTypingNoDup | src/pages/messaging/ThreadPage.tsx:127-146 | over any sequence of typing events the list never holds a name twice |
| Presence.OwnEventsIgnored | src/pages/messaging/ThreadPage.tsx:135 | events sent by the signed-in user never change the list |
| Presence.IndicatorText | src/pages/messaging/ThreadPage.tsx:494-500 | nothing is shown exactly when nobody is typing |
| Presence.IndicatorMentionsEveryone | src/pages/messaging/ThreadPage.tsx:494-500 | every typing name appears in the indicator |
| Presence.IndicatorVerbAgrees | src/pages/messaging/ThreadPage.tsx:496-500 | the sentence ends in " are typing..." iff two or more are listed, and in " is typing..." iff one is |
| Presence.IndicatorThreeNames | src/pages/messaging/ThreadPage.tsx:498-500 | three names read "Ann, Bob and Cy are typing..." with no comma before "and" |
| Presence.Keystroke | src/pages/messaging/ThreadPage.tsx:163-181 | without a thread id or connection nothing happens; otherwise the state becomes typing with a fresh timer, and a start signal is sent only from idle |
| Presence.TimerFires | src/pages/messaging/ThreadPage.tsx:177-180 | a pending timer returns the state to idle and sends one stop signal for its thread |
| Presence.ApplyConsistent | src/pages/messaging/ThreadPage.tsx:163-181 | the typing flag is set exactly while a stop timer is pending, in every reachable state |
| Presence.SignalsAlternate | src/pages/messaging/ThreadPage.tsx:163-181 | start and stop signals strictly alternate over any run of keystrokes and timer expiries |
| Presence.BurstThenPause | src/pages/messaging/ThreadPage.tsx:163-181 | a streak of keystrokes sends one start signal, and the pause after it one stop signal |
| Presence.ActiveKeystrokes | src/pages/messaging/ThreadPage.tsx:166-169 | keystrokes while already typing send nothing |
| Presence.IgnoredKeystrokes | src/pages/messaging/ThreadPage.tsx:164 | keystrokes without a thread id or connection change nothing and send nothing |
| Presence.JoinRoomEffect | src/pages/messaging/ThreadPage.tsx:92-151 | with a thread id while connected the page sends one join and registers four listeners; otherwise nothing |
| Presence.LeaveRoomEffect | src/pages/messaging/ThreadPage.tsx:153-159 | cleanup sends a leave for the same thread and leaves none of the effect's four listeners registered |
| Presence.OffEachRestores | src/pages/messaging/ThreadPage.tsx:155-158 | unregistering the channels removes exactly the listeners that run registered, leaving all others |
| Presence.JoinLeavePaired | src/pages/messaging/ThreadPage.tsx:92-159 | join followed by cleanup restores the listeners and logs a join and then a leave for the same thread |
| Presence.RoomRender | src/pages/messaging/ThreadPage.tsx:92-160 | an unchanged thread and connection re-render nothing; a change runs the previous run's cleanup and then the effect again |
| Presence.ReconnectRejoins | src/pages/messaging/ThreadPage.tsx:92-160 | losing the connection leaves the room and drops the listeners; regaining it joins the same thread again |
| Presence.SteadyRenderSilent | src/pages/messaging/ThreadPage.tsx:160 | a render with the same dependencies sends nothing |
| Presence.PageApply | src/pages/messaging/ThreadPage.tsx:153-181 | opening another thread keeps the typing flag and timer; keystrokes and expiry act as on the intent machine |
| Presence.SwitchMidStreakMisroutesStop | src/pages/messaging/ThreadPage.tsx:153-181 | typing in A and switching to B sends start to A and stop to B: A never hears the stop and B hears a stop without a start |
| Presence.PageApplyIntended | src/pages/messaging/ThreadPage.tsx:153-159 | with a flushing cleanup, opening another thread sends any pending stop at once and leaves the page idle |
| Presence.IntendedStepPerThread | src/pages/messaging/ThreadPage.tsx:153-181 | with the flushing cleanup each event sends a thread at most one signal, and only one that flips that thread's state |
| Presence.IntendedSignalsAlternatePerThread | src/pages/messaging/ThreadPage.tsx:153-181 | with the flushing cleanup every thread's start and stop signals strictly alternate over any run |
| Presence.IntendedSwitchClosesEachThread | src/pages/messaging/ThreadPage.tsx:153-181 | with the flushing cleanup the same switch gives A its start and stop, then B its start and stop |
| Avatar.WordInitials | src/pages/messaging/ThreadPage.tsx:259-269 | "?" for an empty name, "" for a blank one, at most two characters, none lower-case |
| Avatar.WordInitialsOfWords | src/components/editor/CollaborativeEditor.tsx:48-58 | a non-blank name yields the upper-cased first letter of its only word, or of its first and last words |
| Avatar.WordsOfSpaced | src/pages/messaging/ThreadPage.tsx:261 | splitting single-spaced words on whitespace runs gives back the words |
| Avatar.WordInitialsOfSpaced | src/pages/messaging/ThreadPage.tsx:259-269 | a name written as words yields the initials of its first and last words |
| Avatar.FirstChars | src/components/notes/SharePermissionsDialog.tsx:264-265 | one character per non-empty piece, its first, in order; empty pieces add nothing |
| Avatar.SpaceInitials | src/components/notes/SharePermissionsDialog.tsx:261-268 | the upper-cased first characters of the first two non-empty space-separated pieces |
| Avatar.SpaceInitialsOfSpaced | src/components/friends/FriendsSelector.tsx:57-64 | a single-spaced name yields the initials of its first two words |
| Avatar.ToInt32 | src/pages/messaging/ThreadPage.tsx:286 | `& 0xffffffff` yields the signed 32-bit value congruent to its input modulo 2^32 |
| Avatar.Hash | src/pages/messaging/ThreadPage.tsx:284-287 | the hash of any id is a signed 32-bit value |
| Avatar.HashIsWrappedPolyHash | src/pages/messaging/ThreadPage.tsx:284-287 | the shift-and-mask hash equals the 32-bit wrap of the polynomial hash with base 31 |
| Avatar.UserColor | src/pages/messaging/ThreadPage.tsx:271-289 | the colour is a palette entry, picked by the absolute hash modulo the palette size |
| Avatar.ThreadAndEditorColors | src/components/editor/CollaborativeEditor.tsx:22-45 | the thread page picks among its ten colours and the editor among its twelve, from the same hash |
| SeedGate.SetUp | src/components/editor/CollaborativeEditor.tsx:75-86 | a provider is created only for a signed-in user and a note id; the other flags are untouched |
| SeedGate.OnProviderEvent | src/components/editor/CollaborativeEditor.tsx:88-102 | status sets connection iff "connected", connect and disconnect set it, synced only ever sets the sync flag |
| SeedGate.TearDown | src/components/editor/CollaborativeEditor.tsx:104-111 | teardown clears readiness, seeding, sync and connection |
| SeedGate.SeedCheck | src/components/editor/CollaborativeEditor.tsx:254-271 | content is injected iff the editor exists, the provider is ready and synced, nothing was seeded, the content is non-empty and the fragment is empty; injecting marks the gate seeded |
| SeedGate.Step | src/components/editor/CollaborativeEditor.tsx:75-271 | only a content check can inject content; mounting, provider events and unmounting never do |
| SeedGate.StepConsistent | src/components/editor/CollaborativeEditor.tsx:75-111 | a seeded editor always has a ready, synced provider |
| SeedGate.SeedsAtMostOnce | src/components/editor/CollaborativeEditor.tsx:264-270 | without unmounting, any run injects at most once |
| SeedGate.NonEmptyDocumentKept | src/components/editor/CollaborativeEditor.tsx:264-268 | a non-empty shared document is never overwritten |
| SeedGate.SyncedIsSticky | src/components/editor/CollaborativeEditor.tsx:100-110 | provider events never clear the sync flag; only unmounting does |
| SeedGate.NoSeedBeforeSync | src/components/editor/CollaborativeEditor.tsx:254-262 | nothing is injected before the provider reports synced |
| SeedGate.RemountSeedsAgain | src/components/editor/CollaborativeEditor.tsx:75-111 | after a remount and a new sync an empty document is seeded again |
| SeedGate.Render | src/components/editor/CollaborativeEditor.tsx:273-283 | the editor shows iff the provider is ready and the editor exists; otherwise a sign-in or loading placeholder |
| SeedGate.SignedOutNeverShowsEditor | src/components/editor/CollaborativeEditor.tsx:76 | a signed-out user only ever sees the sign-in placeholder |
| NoteContent.TextToContent | src/hooks/notes.hook.ts:7-10 | wrapping gives a "text" body holding the string |
| NoteContent.ContentToText | src/hooks/notes.hook.ts:12-20 | no body reads as "", string data reads as itself whatever the tag, structured data as its serialisation |
| NoteContent.TextRoundTrip | src/hooks/notes.hook.ts:7-16 | reading back wrapped text gives the text |
| NoteContent.TagIrrelevant | src/hooks/notes.hook.ts:14-18 | the type tag never influences the text read back |
| NoteContent.ReWrapStringBody | src/hooks/notes.hook.ts:7-18 | re-wrapping a string body changes only its tag to "text" |
| NoteContent.CreateNote | src/hooks/notes.hook.ts:101-104 | the create payload keeps the title and wraps the text so that it reads back |
| NoteContent.UpdateNote | src/hooks/notes.hook.ts:126-128 | the update payload carries exactly the provided fields, content wrapped |
| NoteContent.UpdateReadsBack | src/hooks/notes.hook.ts:126-128 | the fields read back from an update payload are the ones given |
| NoteAccess.UserGrant | src/pages/notes/NotesListPage.tsx:44 | the grant found is an entry for the session user; none is found only when no entry names them |
| NoteAccess.FirstGrantDecides | src/pages/notes/NotesListPage.tsx:44 | the first entry naming the user decides, even if a later one grants more |
| NoteAccess.PermissionLabel | src/pages/notes/NotesListPage.tsx:42-46 | "Owner" for the owner, else the user's first entry's level, else null |
| NoteAccess.EditorPermissionLabel | src/pages/notes/NoteEditorPage.tsx:93-96 | the editor's label is the list's label with "READ" for null |
| NoteAccess.CanEditIffLabel | src/pages/notes/NotesListPage.tsx:48-52 | editing is allowed exactly when the label is "Owner" or "WRITE" |
| NoteAccess.DeleteImpliesEdit | src/pages/notes/NoteEditorPage.tsx:63-66 | deleting implies editing, and a signed-out viewer may do neither |
| NoteAccess.MenuLabel | src/pages/notes/NotesListPage.tsx:142 | the menu reads "Edit" iff the user may edit, else "View" |
| NoteAccess.SearchNotes | src/pages/notes/NotesListPage.tsx:31-34 | a missing list gives [], and every result matches the lower-cased query |
| NoteAccess.SearchKeepsOrder | src/pages/notes/NotesListPage.tsx:31-34 | the result is exactly the matching notes, in their original order |
| NoteAccess.EmptyQueryKeepsAll | src/pages/notes/NotesListPage.tsx:31-34 | an empty query keeps every note |
| NoteAccess.SearchIgnoresQueryCase | src/pages/notes/NotesListPage.tsx:31-34 | upper- and lower-case spellings of a query give the same result |
| NoteAccess.Load | src/pages/notes/NoteEditorPage.tsx:44-57 | the buffers hold the note's title and its content read as text |
| NoteAccess.LoadHasNoChanges | src/pages/notes/NoteEditorPage.tsx:44-57 | loaded buffers hold no changes, and buffers without changes are the loaded ones |
| NoteAccess.Save | src/pages/notes/NoteEditorPage.tsx:68-78 | saving sends something iff there are changes, with both fields trimmed |
| NoteAccess.SaveTrimmedSendsBuffers | src/pages/notes/NoteEditorPage.tsx:68-78 | already-trimmed buffers are sent unchanged |
| NoteAccess.Back | src/pages/notes/NoteEditorPage.tsx:86-91 | leaving goes to /notes unless there are changes and the user declines |
| NoteAccess.BackWithoutChanges | src/pages/notes/NoteEditorPage.tsx:86-91 | without changes the answer to the prompt does not matter |
| NoteAccess.LeaveOnlyWithoutUnsavedEdits | src/pages/notes/NoteEditorPage.tsx:67-91 | the editor is left without a prompt exactly when the buffers are the loaded note, and edits that would be saved are left behind only with the user's consent |
| NotesListView.SortByUpdated | src/components/notes/NotesListView.tsx:68-70 | the sorted list is a permutation of the notes, newest first |
| NotesListView.SortStable | src/components/notes/NotesListView.tsx:68-70 | notes with equal timestamps keep their input order |
| NotesListView.SortSortedIsIdentity | src/components/notes/NotesListView.tsx:68-70 | an already newest-first list is left as it is |
| NotesListView.Recent | src/components/notes/NotesListView.tsx:76-78 | recent notes are updated strictly after the cutoff |
| NotesListView.Older | src/components/notes/NotesListView.tsx:80-82 | older notes are updated at or before the cutoff |
| NotesListView.SectionsSplitSorted | src/components/notes/NotesListView.tsx:76-82 | recent followed by older is exactly the sorted list |
| NotesListView.Sections | src/components/notes/NotesListView.tsx:68-82 | both sections are newest first and together hold exactly the notes |
| NotesListView.CollaboratorCount | src/components/notes/NotesListView.tsx:87-115 | the count shows only with entries, and is the entries plus the owner |
| NotesListView.ListItemCount | src/components/notes/NoteListItem.tsx:82-86 | the card always shows at least one person |
| NotesListView.CountsAgreeAcrossViews | src/components/notes/NoteListItem.tsx:82-86 | the card shows the same count as the list row where the row shows one, and 1 otherwise |
| NotesListView.CountIsPeopleWithAccess | src/components/notes/NotesListView.tsx:87-115 | with one grant per collaborator and none for the owner, the count is the number of people who can open the note |
| NotesListView.EmptyStateIffNothing | src/components/notes/NotesListView.tsx:276 | "No items found" shows iff there are no notes and no folders |
| Selection.RemoveFriend | src/components/friends/FriendsSelector.tsx:98-100 | after removal no entry has the id |
| Selection.RemoveFriendKeepsOthers | src/components/friends/FriendsSelector.tsx:98-100 | removal keeps every other entry, in order |
| Selection.HandleSelect | src/components/friends/FriendsSelector.tsx:70-86 | a selected friend is removed; a new one is appended with role VIEWER |
| Selection.SelectTwiceRestores | src/components/friends/FriendsSelector.tsx:70-86 | selecting a new friend twice restores the selection |
| Selection.SelectKeepsIdsUnique | src/components/friends/FriendsSelector.tsx:70-86 | unique ids stay unique whatever is toggled |
| Selection.UpdateFriendRole | src/components/friends/FriendsSelector.tsx:89-96 | only the role of entries with the id changes; length, order and ids stay |
| Selection.UpdateThenRemove | src/components/friends/FriendsSelector.tsx:89-100 | changing a role and then removing the friend equals removing them |
| Selection.CountPhrase | src/components/friends/FriendsSelector.tsx:206-210 | the phrase starts with the count in decimal, a space and the noun |
| Selection.CountPhrasePlural | src/components/friends/FriendsSelector.tsx:206-210 | the noun takes an "s" exactly for counts above one |
| Selection.TriggerLabel | src/components/friends/FriendsSelector.tsx:206-210 | the placeholder with nothing selected, else "N friend(s) selected" |
| Selection.TriggerLabelAgreement | src/components/friends/FriendsSelector.tsx:206-210 | one friend reads "1 friend selected", more read "friends" |
| Selection.AddParticipant | src/pages/messaging/MessagingPage.tsx:124-128 | an empty or chosen id is ignored, a new one appended; no duplicates arise |
| Selection.RemoveParticipant | src/pages/messaging/MessagingPage.tsx:164-170 | exactly the other chosen ids remain, and a duplicate-free choice stays duplicate-free |
| Selection.ParticipantsStayUnique | src/pages/messaging/MessagingPage.tsx:124-170 | any sequence of adds and removes keeps the chosen ids unique |
| Selection.Offered | src/pages/messaging/MessagingPage.tsx:134-137 | nothing is offered without a friend list, and nobody already chosen is offered |
| Selection.OfferedExactly | src/pages/messaging/MessagingPage.tsx:134-137 | a friend is offered exactly when listed and not yet chosen |
| Selection.CreateRequest | src/pages/messaging/MessagingPage.tsx:48-56 | a conversation is created iff the title is not blank and someone is chosen; the title is sent trimmed |
| Selection.AfterCreate | src/pages/messaging/MessagingPage.tsx:57-62 | success closes and empties the dialog and opens the new thread |
| Selection.AfterCreateBlocksResubmit | src/pages/messaging/MessagingPage.tsx:57-62 | the reset dialog cannot create again until a title and a participant are entered, and offers every friend again |
| Sharing.KeyOf | src/components/notes/SharePermissionsDialog.tsx:271 | the role table has an entry exactly for OWNER, EDITOR, COMMENTER and VIEWER |
| Sharing.RoleLabel | src/components/notes/SharePermissionsDialog.tsx:270-272 | a known key gets its entry's label; any other string the Viewer label |
| Sharing.RoleLabelCaseSensitive | src/components/notes/SharePermissionsDialog.tsx:270-272 | "EDITOR" reads Editor but "editor" falls back to Viewer |
| Sharing.PendingInvitations | src/components/notes/SharePermissionsDialog.tsx:274-276 | every listed invitation is pending |
| Sharing.UsersWithAccess | src/components/notes/SharePermissionsDialog.tsx:277-279 | no listed permission is the owner's |
| Sharing.ListsAreExact | src/components/notes/SharePermissionsDialog.tsx:274-279 | the pending list is exactly the PENDING invitations and the access list exactly the non-owner permissions, in input order |
| Sharing.InviteByEmail | src/components/notes/SharePermissionsDialog.tsx:225-233 | nothing for a blank address, else the trimmed address with the chosen role |
| Sharing.InviteFriends | src/components/notes/SharePermissionsDialog.tsx:235-247 | nothing for an empty selection, else one email and role per selected friend, in order |
| Sharing.BulkInvitesExactlySelection | src/components/notes/SharePermissionsDialog.tsx:235-247 | an address is invited iff it belongs to a selected friend |
| Sharing.AfterSingleInvite | src/components/notes/SharePermissionsDialog.tsx:164-165 | success empties the address and resets the role to VIEWER |
| Sharing.SuccessReturnsToInitialForm | src/components/notes/SharePermissionsDialog.tsx:130-165 | after success the form is the one the dialog opened with: it cannot send again until an address is typed, and retyping the same address invites as VIEWER |
| Sharing.BulkCount | src/components/notes/SharePermissionsDialog.tsx:190 | a zero or missing count falls back to the selection size |
| Sharing.BulkToast | src/components/notes/SharePermissionsDialog.tsx:190-193 | the toast starts with the count in decimal followed by " invitation" |
| Sharing.BulkToastPlural | src/components/notes/SharePermissionsDialog.tsx:190-193 | the toast says "invitations" exactly when more than one was sent |
| Invitations.InboxRoleLabel | src/pages/invitations/InvitationsPage.tsx:44-63 | the badge is Editor or Commenter iff the upper-cased role says so, else Viewer |
| Invitations.InboxRoleIgnoresCase | src/pages/invitations/InvitationsPage.tsx:61-62 | lower- and upper-case spellings of a role read the same |
| Invitations.NormalStatus | src/pages/invitations/InvitationsPage.tsx:168 | the status is upper-cased, a missing one read as "" |
| Invitations.InboxAction | src/pages/invitations/InvitationsPage.tsx:206-239 | accept and decline are offered iff the status is PENDING and not expired; otherwise the badge says "Expired" or the status |
| Invitations.ExpiryBoundary | src/pages/invitations/InvitationsPage.tsx:169 | an invitation expiring exactly now can still be answered, a millisecond later not |
| Invitations.PendingAnyCase | src/pages/invitations/InvitationsPage.tsx:168-206 | a lower-case "pending" still offers the actions |
| Invitations.MarkReadCalls | src/pages/invitations/InvitationsPage.tsx:70-72 | each run of the mount effect marks only invitation notifications read |
| Invitations.MarkedReadOnce | src/pages/invitations/InvitationsPage.tsx:70-72 | over any number of renders (at least one), with the empty dependency list, exactly one mark-read call is made |
| Effects.EffectRuns | src/pages/invitations/InvitationsPage.tsx:70-72 | the effect runs, in render order, exactly after the first render and after each render whose dependencies differ from the previous one |
| Effects.ConstantDepsRunOnce | src/pages/invitations/InvitationsPage.tsx:70-72 | with unchanging dependencies the effect runs once, after the first render |
| Invitations.AcceptPage | src/pages/invitations/AcceptInvitationPage.tsx:149-345 | a settled-status screen carries the status read through the status table; the form is shown only for a pending invitation whose role is a table key |
| Invitations.ProcessedStatus | src/pages/invitations/AcceptInvitationPage.tsx:209-215 | the status table has an entry exactly for ACCEPTED, DECLINED and EXPIRED |
| Invitations.FirstFiringCheckWins | src/pages/invitations/AcceptInvitationPage.tsx:149-345 | the screen shown is the first in the order loading, sign-in, error, not found, role lookup failure, status lookup failure, processed, wrong account, expired, role icon failure, form whose check fires |
| Invitations.CrashIffUndeclaredKey | src/pages/invitations/AcceptInvitationPage.tsx:202-345 | for a loaded invitation the page throws exactly when the role is neither a table key nor an inherited name, when a settled status has no table entry, or when an inherited role name reaches the form |
| Invitations.DeclaredKeysNeverCrash | src/pages/invitations/AcceptInvitationPage.tsx:44-45 | with role and status inside their declared unions the page never throws |
| Invitations.LowerPendingCrashes | src/pages/invitations/AcceptInvitationPage.tsx:208-216 | the lower-case "pending" that the inbox still answers makes this page throw at the status lookup |
| Invitations.StatusBeatsAccountAndExpiry | src/pages/invitations/AcceptInvitationPage.tsx:204-244 | an invitation with a listed settled status (and a role the lookup survives) shows its status even to the wrong account and after expiry |
| Invitations.ProcessedTarget | src/pages/invitations/AcceptInvitationPage.tsx:231-239 | only an accepted invitation links to its note; the others to /notes |
| Invitations.EmailCaseMatters | src/pages/invitations/AcceptInvitationPage.tsx:247 | a differently cased address counts as the wrong account |
| Invitations.FormIffMatchingAndLive | src/pages/invitations/AcceptInvitationPage.tsx:247-272 | the form shows iff the address matches and the invitation has not expired |
| Invitations.AcceptedTarget | src/pages/invitations/AcceptInvitationPage.tsx:98 | accepting leads to /notes/ followed by the note id |
| Invitations.AcceptPathsAgree | src/pages/invitations/AcceptInvitationPage.tsx:98-232 | accepting from the form and the "already accepted" screen lead to the same note |
| Invitations.ButtonsDisabled | src/pages/invitations/AcceptInvitationPage.tsx:363-377 | both buttons are disabled together, exactly while either request runs |
| Invitations.ActionStep | src/pages/invitations/AcceptInvitationPage.tsx:81-138 | a click on a disabled button does nothing; an enabled click starts its request; a settled request is no longer in flight |
| Invitations.ActionStepTracked | src/pages/invitations/AcceptInvitationPage.tsx:81-138 | each click or settlement keeps the two flags naming exactly the request in flight |
| Invitations.AtMostOneInFlight | src/pages/invitations/AcceptInvitationPage.tsx:81-138 | over any run at most one request is in flight, the buttons are disabled exactly while one is, and a click then starts nothing |
| FriendRequest.SendRequest | src/pages/friends/FriendsPage.tsx:52-65 | nothing for a blank address; the user's own address (trimmed, any case) is rejected; otherwise the trimmed address is sent |
| FriendRequest.OwnAddressRejected | src/pages/friends/FriendsPage.tsx:57-60 | padding and upper-casing the user's own address does not get it past the check |
| FriendRequest.SignedOutSendsAnything | src/pages/friends/FriendsPage.tsx:57 | without a session address any non-blank input is sent trimmed |
| FriendRequest.AfterRequest | src/pages/friends/FriendsPage.tsx:63 | the input is cleared only on success |
| FriendRequest.InputClearedOnlyOnSuccess | src/pages/friends/FriendsPage.tsx:52-64 | an ignored, self-addressed or failed request leaves the input as typed; only a sent and accepted one clears it, and the cleared input is then ignored |
| Folders.ReportedValue | src/components/folders/FolderSelect.tsx:26-32 | "root" is reported as null, anything else unchanged |
| Folders.DisplayedValue | src/components/folders/FolderSelect.tsx:34 | null and undefined display as "root", an id as itself |
| Folders.DisplayThenReport | src/components/folders/FolderSelect.tsx:26-34 | displaying and reporting back returns the value, except for a folder id that is literally "root" |
| Folders.Options | src/components/folders/FolderSelect.tsx:46-53 | the root option comes first when allowed and is absent otherwise |
| Folders.PickedOptionReported | src/components/folders/FolderSelect.tsx:26-64 | picking the root option reports null and picking a folder reports its id |
| Folders.DisplayedIsOffered | src/components/folders/FolderSelect.tsx:34-64 | the displayed value is always one of the options when the root is allowed and the folder is listed |
| Folders.InitialSelection | src/components/folders/MoveNoteDialog.tsx:30-32 | an absent or empty current folder selects the root, otherwise the current folder |
| Folders.AbsentFolderCountsAsChanged | src/components/folders/MoveNoteDialog.tsx:59 | as written, a note without a folder id opens with Move enabled |
| Folders.IntendedOpensUnchanged | src/components/folders/MoveNoteDialog.tsx:59-97 | compared against the normalised folder, the opened dialog starts unchanged and Move is enabled exactly after a different choice |
| Folders.MoveSubmit | src/components/folders/MoveNoteDialog.tsx:36-44 | nothing without a note id, else a move to the selected folder, null meaning the root |
| Folders.EnabledMoveSendsPick | src/components/folders/MoveNoteDialog.tsx:36-97 | an enabled Move on a note sends the folder picked in the select, null for the root, and always one that differs from the current folder |
| Folders.MoveOpenChange | src/components/folders/MoveNoteDialog.tsx:52-57 | closing puts the selection back to the initial one |
| Folders.CloseDiscardsChoice | src/components/folders/MoveNoteDialog.tsx:52-57 | whatever was chosen, closing leads to the same selection |
| Folders.MoveSucceeded | src/components/folders/MoveNoteDialog.tsx:45-47 | a successful move closes the dialog and keeps the selection |
| Folders.SuccessKeepsChoice | src/components/folders/MoveNoteDialog.tsx:45-50 | a successful move closes without the reset, so a changed choice survives |
| Folders.EmptyForm | src/components/folders/CreateFolderDialog.tsx:41-46 | the form starts empty with the first colour, "#3b82f6", and the dialog's parent |
| Folders.CreateSubmit | src/components/folders/CreateFolderDialog.tsx:50-61 | nothing for a blank name; the name is trimmed, a blank description dropped, colour and parent kept |
| Folders.EnabledCreateSends | src/components/folders/CreateFolderDialog.tsx:158 | an enabled Create button always leads to a request |
| Folders.CreateOpenChange | src/components/folders/CreateFolderDialog.tsx:76-86 | closing resets to the empty form for the dialog's parent |
| Folders.CreateSucceeded | src/components/folders/CreateFolderDialog.tsx:63-70 | a successful create closes the dialog and resets the form, keeping a parent exactly when the dialog has one |
| Folders.SuccessAndCancelAgree | src/components/folders/CreateFolderDialog.tsx:63-86 | success and cancel leave the same empty form |
| Folders.EmptyFormBlocked | src/components/folders/CreateFolderDialog.tsx:41-53 | the empty form cannot be submitted |
| Auth.SetAuth | src/stores/auth.store.ts:24-35 | a malformed token throws and changes nothing; otherwise the store holds the token and user, is authenticated and not loading, and expires at exp × 1000 ms, or at an Invalid Date when exp is missing or out of range |
| Auth.MakeDate | src/stores/auth.store.ts:26 | a date holds its time value exactly inside the ±8.64e15 ms range and is an Invalid Date outside it |
| Auth.ClearAuth | src/stores/auth.store.ts:37-45 | the store forgets token, user and expiry and is neither authenticated nor loading |
| Auth.SetLoading | src/stores/auth.store.ts:47-49 | only the loading flag changes |
| Auth.ExpiredTokensAreRefreshed | src/stores/auth.store.ts:51-63 | with a representable expiry, an expired token is always due for refresh, and a token is due for refresh but not yet expired exactly in the five minutes before it expires |
| Auth.SetAuthTiming | src/stores/auth.store.ts:24-63 | after setAuth with a representable exp the token expires at exp seconds and is refreshed from five minutes before |
| Auth.UnusableExpiryNeverRefreshes | src/stores/auth.store.ts:24-63 | a token without a numeric exp, or with one beyond the date range, is authenticated yet never expired and never refreshed |
| Auth.MalformedTokenKeepsStore | src/stores/auth.store.ts:24-26 | a token that cannot be decoded throws before the store changes |
| Auth.ClearedNeverRefreshes | src/stores/auth.store.ts:37-63 | a cleared store reports expiry but never asks for a refresh |
| Auth.ApplyOp | src/stores/auth.store.ts:24-49 | setLoading sets only the loading flag, clearAuth and a decodable setAuth end loading, and a throwing setAuth leaves the store unchanged |
| Auth.RunOpsCoherent | src/stores/auth.store.ts:17-63 | any sequence of store operations keeps token, user, expiry and the authenticated flag present or absent together, and a signed-out store is expired and never refreshed at any time |
| Auth.InitialCoherent | src/stores/auth.store.ts:17-22 | the initial store is signed out, loading and coherent |
| Auth.ProtectedRoute | src/components/auth/ProtectedRoute.tsx:12-27 | loading while pending, error next, then a redirect to /login without a user, else the page |
| Auth.AuthenticatedRoute | src/components/auth/AuthenticatedRoute.tsx:11-26 | loading while pending, error next, then a redirect home with a user, else the page |
| Auth.GuardsComplementary | src/components/auth/AuthenticatedRoute.tsx:11-26 | for a settled session without error exactly one guard shows its page and the other redirects |
| Auth.GuardsAgreeUnsettled | src/components/auth/ProtectedRoute.tsx:15-21 | while pending or on error both guards show the same placeholder |
| Navigation.MessagingActivation | src/components/layout/Sidebar.tsx:43-48 | Messages is active on /messaging and below it, not on "/messagingX" |
| Navigation.NotesMatchesExactly | src/components/layout/Sidebar.tsx:49 | sub-pages of /notes do not activate Notes |
| Navigation.AtMostOneActive | src/components/layout/Sidebar.tsx:42-83 | at most one sidebar entry is active for any location |
| Navigation.ShownBadge | src/components/layout/Sidebar.tsx:137-144 | a collapsed sidebar or a missing count renders nothing, a zero count renders a bare 0, and any other count the badge |
| Navigation.Sidebar | src/components/layout/Sidebar.tsx:52-151 | nothing without a session; otherwise the five entries in order with their activity and what renders after each label |
| Navigation.ZeroCountsShowBareZero | src/components/layout/Sidebar.tsx:140 | an empty inbox renders a bare 0 beside each counted entry |
| Navigation.MissingCountsHidden | src/components/layout/Sidebar.tsx:52-83 | Home and Notes never render a count, and nothing renders while counts are missing |
| Navigation.IntendedBadgeHidesZero | src/components/layout/Sidebar.tsx:140 | with a numeric test a zero or missing count renders nothing and positive counts show as before |
| Navigation.NewFolderTarget | src/components/layout/Sidebar.tsx:110-113 | the target always asks to create a folder, under /notes when no folder is open |
| Navigation.NewFolderTargetRoundTrip | src/components/layout/Sidebar.tsx:110-113 | the open folder's id is recovered from the target, and none is named without one |
| Navigation.Placeholder | src/components/layout/GlobalSearch.tsx:19-33 | notes paths search notes; "Search..." exactly when no area prefix matches |
| Navigation.IconMatchesPlaceholder | src/components/layout/GlobalSearch.tsx:19-49 | the icon always belongs to the area the placeholder names |
| Navigation.MessagingSearchesMessages | src/components/layout/GlobalSearch.tsx:19-49 | wherever Messages is active, the search box searches messages |
| Navigation.MountSearch | src/components/layout/GlobalSearch.tsx:11-12 | the box opens showing its value prop, "" by default |
| Navigation.SearchStep | src/components/layout/GlobalSearch.tsx:15-60 | a render with a changed value prop replaces the query, one with the same prop keeps it; renders report nothing; typing and clearing set the query and report it to the parent |
| Navigation.SameValueKeepsTyping | src/components/layout/GlobalSearch.tsx:15-17 | a re-render with an unchanged prop leaves the typed query on screen |
| Navigation.UnchangedRendersKeepQuery | src/components/layout/GlobalSearch.tsx:15-17 | any number of renders repeating the current prop change nothing and report nothing |
| Navigation.ParentHearsLastQuery | src/components/layout/GlobalSearch.tsx:51-60 | unless a render comes last, the parent last heard the query on screen |
| Navigation.ClearResets | src/components/layout/GlobalSearch.tsx:57-60 | clearing empties the query, reports "" and hides the clear button |
| Navigation.BadgeCount | src/components/layout/Sidebar.tsx:52-83 | Home and Notes have no count, and no entry has one while the counts are missing |
| Navigation.Icon | src/components/layout/GlobalSearch.tsx:35-49 | every notes path shows the notes icon |
| Strings.TrimEmptyIffBlank | src/pages/friends/FriendsPage.tsx:54 | the trimmed string is empty exactly for input made only of whitespace |
| Strings.JoinSplitRoundTrip | src/components/friends/FriendsSelector.tsx:58-60 | splitting joined separator-free words on the separator gives back the words |
| Seqs.KeepMembers | src/pages/notes/NotesListPage.tsx:31-34 | `filter` keeps exactly the elements that satisfy the predicate |
| Seqs.KeepIsSubsequence | src/pages/notes/NotesListPage.tsx:31-34 | `filter` preserves the order of what it keeps |
| Seqs.RemoveKeepsOthers | src/pages/messaging/ThreadPage.tsx:143 | removing a value drops exactly it, keeps the rest in order, and creates no duplicates |

Predicates and run functions that carry no contract of their own are stated
through the rows of the lemmas that use them:
- `Invitations.IsExpired` (InvitationsPage.tsx:169, AcceptInvitationPage.tsx:203): `ExpiryBoundary`, `FormIffMatchingAndLive`.
- `Auth.IsTokenExpired` and `Auth.ShouldRefresh` (auth.store.ts:51-63): `ExpiredTokensAreRefreshed`, `SetAuthTiming`, `UnusableExpiryNeverRefreshes`, `ClearedNeverRefreshes`, `RunOpsCoherent`.
- `NoteAccess.IsOwner`, `CanEdit` and `CanDelete` (NotesListPage.tsx:48-52, NoteEditorPage.tsx:63-66): `CanEditIffLabel`, `DeleteImpliesEdit`, `MenuLabel`.
- `NoteAccess.Matches` (NotesListPage.tsx:31-34): `SearchNotes`, `SearchKeepsOrder`, `EmptyQueryKeepsAll`, `SearchIgnoresQueryCase`.
- `NoteAccess.HasChanges` (NoteEditorPage.tsx:51-57): `LoadHasNoChanges`, `Save`, `Back`, `LeaveOnlyWithoutUnsavedEdits`.
- `Navigation.IsActive` (Sidebar.tsx:42-49): `MessagingActivation`, `NotesMatchesExactly`, `AtMostOneActive`.
- `Navigation.SearchRun` (GlobalSearch.tsx:15-60): `ParentHearsLastQuery`, `UnchangedRendersKeepQuery`, `ClearResets`.
- `Presence.Apply`, `Replay` and `ReplayTyping` (ThreadPage.tsx:131-181): `ApplyConsistent`, `SignalsAlternate`, `BurstThenPause`, `ReplayTypingNoDup`.
- `Presence.PageReplay` and `PageReplayIntended` (ThreadPage.tsx:153-181): `SwitchMidStreakMisroutesStop`, `IntendedSignalsAlternatePerThread`.
- `SeedGate.Run` (CollaborativeEditor.tsx:75-271): `StepConsistent`, `SeedsAtMostOnce`, `RemountSeedsAgain`.
- `Selection.IsSelected` (FriendsSelector.tsx:66-68): `RemoveFriend`, `HandleSelect`, `SelectKeepsIdsUnique`.
- `Folders.HasChanged`, `MoveDisabled` and `CreateDisabled` (MoveNoteDialog.tsx:59-97, CreateFolderDialog.tsx:158): `AbsentFolderCountsAsChanged`, `IntendedOpensUnchanged`, `EnabledMoveSendsPick`, `EnabledCreateSends`, `EmptyFormBlocked`.
- `NotificationRouter.ToastStream` (useNotificationToasts.ts:148-176): `ToastPerEventWhileSignedIn`.

## Left out

- The WebSocket transport is not part of this model: `emit`, `on` and `off` become a log of sent events and a list of registered listeners.
- The collaboration provider, Yjs document and TipTap editor are reduced to the flags `isSynced` and `isConnected`, the fragment length and the content handed to `setContent`.
- REST calls, the query cache wiring and the hooks that only pair endpoints with invalidations are left out, since they decide nothing. The better-auth wrappers are left out too, since the session is an input.
- Decoding the access token (`atob`, `JSON.parse`) is left out: its outcome, a malformed token or the payload's `exp`, is an input to `Auth.SetAuth`. A fractional `exp` is not modelled; `exp` is a whole number of seconds.
- NoteContent.ContentToText: `JSON.stringify` of structured data is not modelled; a structured body carries its serialised text.
- Dates are integer milliseconds, and "now" and the seven-day cutoff are inputs. `formatDistanceToNow` is display only.
- The browser's `confirm`, toasts, clipboard and `navigate` become boolean inputs or returned values. `setTimeout` becomes an explicit timer-expiry event.
- Strings.UpperChar: case mapping covers ASCII letters only, whereas `toUpperCase`/`toLowerCase` map all of Unicode.
- Avatar.HashIsWrappedPolyHash: `charCodeAt` is modelled as the character's code point, which equals the UTF-16 unit for characters of the Basic Multilingual Plane only.
- Invitations.ActionStep: it reads the two flags as of the latest event; React updates them between renders, so two clicks handled in one render could each start a request.
- Presence.Keystroke: it reads the typing flag as of the latest keystroke; React updates that flag between renders, so two keystrokes handled in one render could each send a start signal.
- Avatar.WordInitials, Avatar.FirstChars, Avatar.SpaceInitials: `n[0]` and `charAt(0)` take one UTF-16 code unit, while a Dafny `char` is a whole scalar value; for a name starting with a character outside the Basic Multilingual Plane the source yields half a surrogate pair and the model the whole character.
- Sharing.RoleLabel: the role table is looked up with a string index, and inherited object keys such as "constructor" would find a non-entry; the model treats every non-key as unknown.
- The move dialog's closing reset uses `currentFolderId || null`, not `?? null`, so an empty folder id also resets to the root; the model follows the code.
- Behaviour the client does not have is not modelled: de-duplication of notifications by id, expiry of typing entries, and a join-before-typing check.
- Presentation-only components (home page, skeletons, loading and error screens, layout, view toggle, breadcrumb, list items, background animation) are left out.

## Findings

| source | as written | input that shows it | evidently intended | confidence | as-written member | corrected member |
|---|---|---|---|---|---|---|
| src/components/folders/MoveNoteDialog.tsx:59 | `hasChanged` compares the selection with the raw `currentFolderId`, while the selection was initialised from `currentFolderId \|\| null` | a note whose `currentFolderId` is `undefined` (or ""): the dialog opens with selection null, `null !== undefined`, so Move is enabled before any choice | compare with the normalised folder, so the dialog opens unchanged and Move is enabled only after a different folder is chosen | low; not executed | Folders.AbsentFolderCountsAsChanged | Folders.IntendedOpensUnchanged |
| src/components/layout/Sidebar.tsx:140 | `{item.badge && <Badge/>}` guards on the count's truthiness, and React renders the number 0 that `0 && …` evaluates to | notification counts with `friends: 0`: the expanded Friends entry shows a bare "0" after its label | hide the counter for a zero count, e.g. by testing `item.badge > 0` | medium; not executed | Navigation.ZeroCountsShowBareZero | Navigation.IntendedBadgeHidesZero |
| src/pages/messaging/ThreadPage.tsx:153-159 | the join effect's cleanup leaves the room but neither clears `typingTimeoutRef` nor resets `isTyping`, so a pending stop timer outlives the thread it was set for | type in thread A, open thread B within two seconds and type again: start goes to A, no start to B, and the stop goes to B; without the second keystroke the stop for A is sent after A was left | the cleanup also cancels the timer and sends the pending stop for its own thread | medium; not executed | Presence.SwitchMidStreakMisroutesStop | Presence.IntendedSignalsAlternatePerThread |
