/** The friends page's "add friend" form. */
module FriendRequest {
  import opened Seqs
  import opened Strings

  datatype Outcome = Ignored | RejectSelf(message: string) | Send(email: string)

  const SelfMessage: string := "You cannot send a friend request to yourself"

  /** The self-request test: a present, non-empty session address equal to the trimmed input, ignoring ASCII case. */
  predicate IsSelf(email: string, sessionEmail: Option<string>) {
    Truthy(sessionEmail) && Lower(Trim(email)) == Lower(sessionEmail.value)
  }

  /** `handleSendRequest`. */
  function SendRequest(email: string, sessionEmail: Option<string>): (r: Outcome)
    ensures r.Ignored? <==> IsBlank(email)
    ensures r.RejectSelf? <==> !IsBlank(email) && IsSelf(email, sessionEmail)
    ensures r.RejectSelf? ==> r.message == SelfMessage
    ensures r.Send? ==> r.email == Trim(email) && r.email != "" && !IsSelf(email, sessionEmail)
  {
    TrimEmptyIffBlank(email);
    if Trim(email) == "" then Ignored
    else if IsSelf(email, sessionEmail) then RejectSelf(SelfMessage)
    else Send(Trim(email))
  }

  /** Padding and case do not hide the user's own address. */
  lemma OwnAddressRejected(s: string)
    requires s != "" && !IsSpace(s[0]) && !IsSpace(s[|s| - 1])
    ensures SendRequest(" " + Upper(s) + " ", Some(s)).RejectSelf?
  {
    var u := Upper(s);
    var e := " " + u + " ";
    assert !IsSpace(u[0]) && !IsSpace(u[|u| - 1]);
    TrimPadded(u);
    LowerOfUpper(s);
    assert IsSelf(e, Some(s));
    TrimEmptyIffBlank(e);
    assert !IsBlank(e);
  }

  /** Lower-casing forgets an upper-casing. */
  lemma LowerOfUpper(s: string)
    ensures Lower(Upper(s)) == Lower(s)
  {
    forall i | 0 <= i < |s| ensures Lower(Upper(s))[i] == Lower(s)[i] {
      assert LowerChar(UpperChar(s[i])) == LowerChar(s[i]);
    }
  }

  /** One space on each side of a word with no whitespace at its ends is trimmed away. */
  lemma TrimPadded(u: string)
    requires u != "" && !IsSpace(u[0]) && !IsSpace(u[|u| - 1])
    ensures Trim(" " + u + " ") == u
  {
    var e := " " + u + " ";
    assert e[1..] == u + " ";
    assert TrimStart(e) == TrimStart(u + " ") == u + " ";
    assert (u + " ")[..|u|] == u;
    assert TrimEnd(u + " ") == TrimEnd(u) == u;
  }

  /** Without a signed-in address any non-blank input is sent, trimmed. */
  lemma SignedOutSendsAnything(email: string)
    requires !IsBlank(email)
    ensures SendRequest(email, None) == Send(Trim(email))
  {
  }

  /** The input keeps its text unless the request succeeded. */
  function AfterRequest(email: string, succeeded: bool): (r: string)
    ensures succeeded ==> r == ""
    ensures !succeeded ==> r == email
  {
    if succeeded then "" else email
  }

  /**
   The input after one submission: the form keeps it when the request is
   ignored, refused as self-addressed, or fails on the server, and empties it
   only when a sent request succeeds.
   */
  function TypedAfterSubmit(email: string, sessionEmail: Option<string>, serverAccepts: bool): string
  {
    match SendRequest(email, sessionEmail)
    case Send(_) => AfterRequest(email, serverAccepts)
    case _ => email
  }

  /** Only a request that is sent and accepted clears the input, and a cleared input is then ignored. */
  lemma InputClearedOnlyOnSuccess(email: string, sessionEmail: Option<string>, serverAccepts: bool)
    ensures SendRequest(email, sessionEmail).Send? && serverAccepts ==> TypedAfterSubmit(email, sessionEmail, serverAccepts) == ""
    ensures !(SendRequest(email, sessionEmail).Send? && serverAccepts) ==> TypedAfterSubmit(email, sessionEmail, serverAccepts) == email
    ensures SendRequest(email, sessionEmail).Send? && serverAccepts ==>
      SendRequest(TypedAfterSubmit(email, sessionEmail, serverAccepts), sessionEmail).Ignored?
  {
    assert IsBlank("");
  }
}
