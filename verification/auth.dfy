/**
 The client's authentication store and the two route guards built on the
 session query. Times are integer milliseconds since the epoch, as
 `Date.getTime()` returns them; the token's `exp` claim is in seconds.
 */
module Auth {
  import opened Seqs

  datatype User = User(id: string, email: string, firstName: string, lastName: string, fullName: string)

  /**
   The store's `expiresAt`: null, a `Date` holding a time value, or an Invalid
   Date (a `Date` whose time value is NaN). An Invalid Date is still an object,
   so it is truthy, and every comparison with it is false.
   */
  datatype Expiry = NoDate | InvalidDate | At(ms: int)

  datatype AuthState = AuthState(
    accessToken: Option<string>,
    user: Option<User>,
    expiresAt: Expiry,
    isAuthenticated: bool,
    isLoading: bool)

  /** The store before anything is known: signed out and loading. */
  const Initial: AuthState := AuthState(None, None, NoDate, false, true)

  /** Five minutes, the refresh margin before expiry. */
  const RefreshMargin: int := 300000

  /** The largest time value a `Date` can hold, in milliseconds either side of the epoch (ECMAScript TimeClip). */
  const MaxTimeValue: int := 8640000000000000

  /** `new Date(ms)`: a valid date inside the representable range, an Invalid Date outside it. */
  function MakeDate(ms: int): (d: Expiry)
    ensures d.At? <==> -MaxTimeValue <= ms <= MaxTimeValue
    ensures d.At? ==> d.ms == ms
    ensures !d.At? ==> d == InvalidDate
  {
    if -MaxTimeValue <= ms <= MaxTimeValue then At(ms) else InvalidDate
  }

  /**
   What decoding the token's payload gives: a token that is not three dot-separated
   parts of base64-encoded JSON makes `atob` or `JSON.parse` throw; otherwise the
   payload's `exp` is a number of seconds or missing (any value that does not
   convert to a number counts as missing, since it multiplies to NaN).
   */
  datatype Decoded = Malformed | Payload(exp: Option<int>)

  /** `setAuth`, with the decoded payload passed in; `None` is the throw, which leaves the store as it was. */
  function SetAuth(s: AuthState, token: string, user: User, decoded: Decoded): (r: Option<AuthState>)
    ensures r.None? <==> decoded.Malformed?
    ensures r.Some? ==> r.value.accessToken == Some(token) && r.value.user == Some(user)
    ensures r.Some? ==> r.value.isAuthenticated && !r.value.isLoading
    ensures r.Some? && decoded.exp.None? ==> r.value.expiresAt == InvalidDate
    ensures r.Some? && decoded.exp.Some? ==> r.value.expiresAt == MakeDate(decoded.exp.value * 1000)
  {
    match decoded
    case Malformed => None
    case Payload(exp) =>
      var expiresAt := if exp.Some? then MakeDate(exp.value * 1000) else InvalidDate;
      Some(AuthState(Some(token), Some(user), expiresAt, true, false))
  }

  /** `clearAuth`: forgets the token, user and expiry and stops loading. */
  function ClearAuth(s: AuthState): (r: AuthState)
    ensures r.accessToken.None? && r.user.None? && r.expiresAt == NoDate
    ensures !r.isAuthenticated && !r.isLoading
  {
    AuthState(None, None, NoDate, false, false)
  }

  /** `setLoading`: changes the loading flag and nothing else. */
  function SetLoading(s: AuthState, loading: bool): (r: AuthState)
    ensures r.isLoading == loading
    ensures r.(isLoading := s.isLoading) == s
  {
    s.(isLoading := loading)
  }

  /** `isTokenExpired` at time `now`: a null expiry counts as expired; an Invalid Date never compares as reached. */
  predicate IsTokenExpired(s: AuthState, now: int) {
    match s.expiresAt
    case NoDate => true
    case InvalidDate => false
    case At(t) => now >= t
  }

  /**
   `shouldRefresh` at time `now`: nothing to refresh without an expiry; the
   threshold is a new date five minutes earlier, which is itself invalid when
   the expiry is or when it falls outside the representable range.
   */
  predicate ShouldRefresh(s: AuthState, now: int) {
    match s.expiresAt
    case NoDate => false
    case InvalidDate => false
    case At(t) =>
      var threshold := MakeDate(t - RefreshMargin);
      threshold.At? && now >= threshold.ms
  }

  /** A token with a representable expiry and threshold is due for refresh whenever it has expired, and for the five minutes before. */
  lemma ExpiredTokensAreRefreshed(s: AuthState, now: int)
    requires s.expiresAt.At? && -MaxTimeValue <= s.expiresAt.ms - RefreshMargin && s.expiresAt.ms <= MaxTimeValue
    ensures IsTokenExpired(s, now) ==> ShouldRefresh(s, now)
    ensures ShouldRefresh(s, now) && !IsTokenExpired(s, now) <==>
      s.expiresAt.ms - RefreshMargin <= now < s.expiresAt.ms
  {
  }

  /** After `setAuth` with a representable claim `exp`, expiry and refresh are decided by `exp` in seconds. */
  lemma SetAuthTiming(s: AuthState, token: string, user: User, exp: int, now: int)
    requires -MaxTimeValue <= exp * 1000 - RefreshMargin && exp * 1000 <= MaxTimeValue
    ensures var r := SetAuth(s, token, user, Payload(Some(exp))).value;
      && (IsTokenExpired(r, now) <==> now >= exp * 1000)
      && (ShouldRefresh(r, now) <==> now >= exp * 1000 - 300000)
  {
  }

  /**
   A token without a numeric `exp`, or with one too large for a date, is stored
   with an Invalid Date: it never reads as expired and never asks for a refresh,
   whatever the time.
   */
  lemma UnusableExpiryNeverRefreshes(s: AuthState, token: string, user: User, exp: Option<int>, now: int)
    requires exp.None? || exp.value * 1000 > MaxTimeValue || exp.value * 1000 < -MaxTimeValue
    ensures var r := SetAuth(s, token, user, Payload(exp)).value;
      r.isAuthenticated && !IsTokenExpired(r, now) && !ShouldRefresh(r, now)
  {
  }

  /** A malformed token throws before the store is touched. */
  lemma MalformedTokenKeepsStore(s: AuthState, token: string, user: User)
    ensures SetAuth(s, token, user, Malformed).None?
    ensures ApplyOp(s, SetAuthOp(token, user, Malformed)) == s
  {
  }

  /** A cleared store reports the token expired but never asks for a refresh. */
  lemma ClearedNeverRefreshes(s: AuthState, now: int)
    ensures IsTokenExpired(ClearAuth(s), now) && !ShouldRefresh(ClearAuth(s), now)
  {
  }

  /** The store's operations. */
  datatype AuthOp = SetAuthOp(token: string, user: User, decoded: Decoded) | ClearOp | SetLoadingOp(loading: bool)

  /** One operation; a `setAuth` that throws leaves the store unchanged. */
  function ApplyOp(s: AuthState, op: AuthOp): (r: AuthState)
    ensures op.SetLoadingOp? ==> r.isLoading == op.loading
    ensures op.ClearOp? || (op.SetAuthOp? && op.decoded.Payload?) ==> !r.isLoading
    ensures op.SetAuthOp? && op.decoded.Malformed? ==> r == s
  {
    match op
    case SetAuthOp(t, u, d) => (match SetAuth(s, t, u, d) case Some(r) => r case None => s)
    case ClearOp => ClearAuth(s)
    case SetLoadingOp(l) => SetLoading(s, l)
  }

  function RunOps(s: AuthState, ops: seq<AuthOp>): AuthState
    decreases |ops|
  {
    if |ops| == 0 then s else RunOps(ApplyOp(s, ops[0]), ops[1..])
  }

  /** Token, user, expiry and the authenticated flag are all present or all absent together. */
  predicate Coherent(s: AuthState) {
    && (s.isAuthenticated <==> s.accessToken.Some?)
    && (s.isAuthenticated <==> s.user.Some?)
    && (s.isAuthenticated <==> !s.expiresAt.NoDate?)
  }

  /** Every sequence of store operations from the initial state keeps the store coherent. */
  lemma {:induction false} RunOpsCoherent(s: AuthState, ops: seq<AuthOp>)
    requires Coherent(s)
    ensures Coherent(RunOps(s, ops))
    ensures !RunOps(s, ops).isAuthenticated ==>
      forall now :: IsTokenExpired(RunOps(s, ops), now) && !ShouldRefresh(RunOps(s, ops), now)
    decreases |ops|
  {
    if |ops| > 0 {
      RunOpsCoherent(ApplyOp(s, ops[0]), ops[1..]);
    }
  }

  /** The initial store is coherent. */
  lemma InitialCoherent()
    ensures Coherent(Initial) && Initial.isLoading && !Initial.isAuthenticated
  {
  }

  /** What `useSession` reports. */
  datatype SessionQuery = SessionQuery(isPending: bool, hasError: bool, hasUser: bool)

  datatype GuardView = Loading | ErrorView | Redirect(to: string, keepsFrom: bool) | Children

  /** `ProtectedRoute`: only signed-in users see the page; others go to /login, remembering where they came from. */
  function ProtectedRoute(q: SessionQuery): (v: GuardView)
    ensures q.isPending <==> v == Loading
    ensures v == ErrorView <==> !q.isPending && q.hasError
    ensures v == Children <==> !q.isPending && !q.hasError && q.hasUser
    ensures v.Redirect? ==> v == Redirect("/login", true)
  {
    if q.isPending then Loading
    else if q.hasError then ErrorView
    else if !q.hasUser then Redirect("/login", true)
    else Children
  }

  /** `AuthenticatedRoute`: only signed-out users see the page; others go home. */
  function AuthenticatedRoute(q: SessionQuery): (v: GuardView)
    ensures q.isPending <==> v == Loading
    ensures v == ErrorView <==> !q.isPending && q.hasError
    ensures v == Children <==> !q.isPending && !q.hasError && !q.hasUser
    ensures v.Redirect? ==> v == Redirect("/", false)
  {
    if q.isPending then Loading
    else if q.hasError then ErrorView
    else if q.hasUser then Redirect("/", false)
    else Children
  }

  /** Once the session is settled without error, exactly one guard shows its page and the other redirects. */
  lemma GuardsComplementary(q: SessionQuery)
    requires !q.isPending && !q.hasError
    ensures (ProtectedRoute(q) == Children) != (AuthenticatedRoute(q) == Children)
    ensures ProtectedRoute(q).Redirect? <==> AuthenticatedRoute(q) == Children
    ensures AuthenticatedRoute(q).Redirect? <==> ProtectedRoute(q) == Children
  {
  }

  /** Before the session settles, and on error, both guards show the same placeholder. */
  lemma GuardsAgreeUnsettled(q: SessionQuery)
    requires q.isPending || q.hasError
    ensures ProtectedRoute(q) == AuthenticatedRoute(q)
  {
  }
}
