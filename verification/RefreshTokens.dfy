/** Refresh-token rotation. */
module RefreshTokens {
  // One protocol with two implementations: the admin service revokes a session
  // together with its tokens, the player service revokes only the session row.
  import opened Common

  datatype Variant = Admin | Player

  datatype Session = Session(user: UserId, active: bool, expiresAt: int)

  /** Tokens are named by their position; their hashes are unique. */
  datatype Token = Token(session: nat, expiresAt: int, revokedAt: Option<int>, replacedBy: Option<nat>)

  datatype Store = Store(sessions: seq<Session>, tokens: seq<Token>)

  const GRACE_MS := 5000

  // ---- atomic repository steps --------------------------------------------------------

  function OpenSession(s: Store, user: UserId, expiresAt: int): Store {
    s.(sessions := s.sessions + [Session(user, true, expiresAt)])
  }

  function IssueToken(s: Store, session: nat, expiresAt: int): Store {
    s.(tokens := s.tokens + [Token(session, expiresAt, None, None)])
  }

  function RevokeTokens(tokens: seq<Token>, session: nat, now: int): seq<Token> {
    seq(|tokens|, i requires 0 <= i < |tokens| =>
      if tokens[i].session == session && tokens[i].revokedAt == None then tokens[i].(revokedAt := Some(now))
        else tokens[i])
  }

  function CloseSession(sessions: seq<Session>, session: nat): seq<Session> {
    if session < |sessions| then sessions[session := sessions[session].(active := false)] else sessions
  }

  /** `revokeSession`: the admin repository also revokes every live token of the session, in the same transaction. */
  function Revoke(v: Variant, s: Store, session: nat, now: int): Store {
    Store(CloseSession(s.sessions, session), if v == Admin then RevokeTokens(s.tokens, session, now) else s.tokens)
  }

  /** `rotateRefreshToken`: compare-and-swap on the live token, then its successor. */
  function Rotate(s: Store, t: nat, expiresAt: int, now: int): Option<Store> {
    if t >= |s.tokens| || s.tokens[t].revokedAt.Some? then None
    else
      Some(s.(tokens := s.tokens[t := s.tokens[t].(revokedAt := Some(now), replacedBy := Some(|s.tokens|))]
                        + [Token(s.tokens[t].session, expiresAt, None, None)]))
  }

  // ---- one refresh request ----------------------------------------------------------------

  /** What reading the presented token decides: refuse, end the session first, or go on to rotate. */
  datatype Decision = Refuse | EndSession(session: nat) | Proceed(token: nat)

  /** `accountOk`: the account may still sign in; `claimsMatch`: the signed claims name this session. */
  function Decide(v: Variant, s: Store, t: nat, accountOk: bool, claimsMatch: bool, now: int): Decision {
    if t >= |s.tokens| || s.tokens[t].session >= |s.sessions| then Refuse
    else
      var token := s.tokens[t];
      var session := s.sessions[token.session];
      if token.revokedAt.Some? then
        if token.replacedBy.Some? && now - token.revokedAt.value <= GRACE_MS then Refuse else EndSession(token.session)
      else
        match v
        case Admin =>
          if token.expiresAt <= now || !session.active || !claimsMatch then Refuse
          else if !accountOk then EndSession(token.session)
          else Proceed(t)
        case Player =>
          if token.expiresAt <= now || !session.active || session.expiresAt <= now || !claimsMatch || !accountOk
            then EndSession(token.session)
          else Proceed(t)
  }

  // ---- the protocol ------------------------------------------------------------------------

  /** Where a request stands between its database accesses. */
  datatype Phase = LoggingIn(session: nat) | Rotating(token: nat) | Ending(session: nat)

  /** `granted` lists the tokens that were successfully exchanged, oldest first. */
  datatype World = World(store: Store, requests: map<nat, Phase>, granted: seq<nat>, now: int)

  datatype Step =
    | Login(request: nat, user: UserId, expiresAt: int)
    | FirstToken(request: nat, expiresAt: int)
    | Present(request: nat, token: nat, accountOk: bool, claimsMatch: bool)
    | Exchange(request: nat, expiresAt: int)
    | End(request: nat)
    | Logout(session: nat)
    | LogoutAll(user: UserId, except: nat)
    | Drop(request: nat)
    | Wait(ms: nat)

  function Without(w: World, request: nat): World {
    w.(requests := w.requests - {request})
  }

  function RevokeAll(v: Variant, s: Store, user: UserId, except: nat, n: nat, now: int): Store
    requires n <= |s.sessions|
    decreases n
  {
    if n == 0 then s
    else
      var rest := RevokeAll(v, s, user, except, n - 1, now);
      if s.sessions[n - 1].user == user && n - 1 != except then Revoke(v, rest, n - 1, now) else rest
  }

  function Next(v: Variant, w: World, s: Step): World {
    match s
    case Login(k, user, expiresAt) =>
      if k in w.requests then w
      else w.(store := OpenSession(w.store, user, expiresAt),
        requests := w.requests[k := LoggingIn(|w.store.sessions|)])
    case FirstToken(k, expiresAt) =>
      if k in w.requests && w.requests[k].LoggingIn?
        then Without(w.(store := IssueToken(w.store, w.requests[k].session, expiresAt)), k) else w
    case Present(k, t, accountOk, claimsMatch) =>
      if k in w.requests then w
      else
        (match Decide(v, w.store, t, accountOk, claimsMatch, w.now)
         case Refuse => w
         case EndSession(session) => w.(requests := w.requests[k := Ending(session)])
         case Proceed(token) => w.(requests := w.requests[k := Rotating(token)]))
    case Exchange(k, expiresAt) =>
      if k in w.requests && w.requests[k].Rotating? then
        var t := w.requests[k].token;
        match Rotate(w.store, t, expiresAt, w.now)
        case Some(store) => Without(w.(store := store, granted := w.granted + [t]), k)
        case None => Without(w, k)
      else w
    case End(k) =>
      if k in w.requests && w.requests[k].Ending?
        then Without(w.(store := Revoke(v, w.store, w.requests[k].session, w.now)), k) else w
    case Logout(session) => w.(store := Revoke(v, w.store, session, w.now))
    case LogoutAll(user, except) => w.(store := RevokeAll(v, w.store, user, except, |w.store.sessions|, w.now))
    case Drop(k) => Without(w, k)
    case Wait(ms) => w.(now := w.now + ms)
  }

  // ---- the chain -----------------------------------------------------------------------------

  /** The last token of a session's chain; only it can be live. */
  predicate Tip(s: Store, t: int) {
    0 <= t < |s.tokens| && s.tokens[t].replacedBy == None
  }

  predicate LiveToken(s: Store, t: int) {
    0 <= t < |s.tokens| && s.tokens[t].revokedAt == None
  }

  ghost predicate TokenOk(s: Store, t: nat)
    requires t < |s.tokens|
  {
    && s.tokens[t].session < |s.sessions|
    && (s.tokens[t].replacedBy.Some? ==>
          && s.tokens[t].revokedAt.Some?
          && t < s.tokens[t].replacedBy.value < |s.tokens|
          && s.tokens[s.tokens[t].replacedBy.value].session == s.tokens[t].session)
  }

  predicate SameChain(s: Store, t: int, u: int) {
    0 <= t < |s.tokens| && 0 <= u < |s.tokens| && s.tokens[t].session == s.tokens[u].session
  }

  /** Each session's tokens form one chain: one first token, one successor each, one tip. */
  ghost predicate Chained(s: Store) {
    && (forall t: nat {:trigger TokenOk(s, t)} :: t < |s.tokens| ==> TokenOk(s, t))
    && (forall t, u {:trigger SameChain(s, t, u)} :: SameChain(s, t, u) && Tip(s, t) && Tip(s, u) ==> t == u)
    && (forall t, u ::
          0 <= t < |s.tokens| && 0 <= u < |s.tokens| && s.tokens[t].replacedBy.Some? ==>
          s.tokens[t].replacedBy == s.tokens[u].replacedBy ==> t == u)
    && (forall t, u {:trigger SameChain(s, t, u)} :: SameChain(s, t, u) && First(s, t) && First(s, u) ==> t == u)
  }

  /** A token that replaced no other. */
  ghost predicate First(s: Store, t: int) {
    0 <= t < |s.tokens| && forall u :: 0 <= u < |s.tokens| ==> s.tokens[u].replacedBy != Some(t)
  }

  ghost predicate Empty(s: Store, session: nat) {
    forall t :: 0 <= t < |s.tokens| ==> s.tokens[t].session != session
  }

  /** Tokens already exchanged are replaced, and none was exchanged twice. */
  ghost predicate GrantsOk(w: World) {
    && (forall i :: 0 <= i < |w.granted| ==>
       w.granted[i] < |w.store.tokens| && w.store.tokens[w.granted[i]].replacedBy.Some?)
    && (forall i, j :: 0 <= i < j < |w.granted| ==> w.granted[i] != w.granted[j])
  }

  ghost predicate RequestsOk(w: World) {
    && (forall k :: k in w.requests && w.requests[k].LoggingIn? ==>
       w.requests[k].session < |w.store.sessions| && Empty(w.store, w.requests[k].session))
    && (forall j, k ::
       j in w.requests && k in w.requests && w.requests[j].LoggingIn? && w.requests[j] == w.requests[k] ==> j == k)
    && (forall k :: k in w.requests && w.requests[k].Rotating? ==> w.requests[k].token < |w.store.tokens|)
  }

  ghost predicate Good(w: World) {
    Chained(w.store) && GrantsOk(w) && RequestsOk(w)
  }

  /** At most one token of a session is live. */
  lemma {:induction false} OneLiveToken(s: Store, t: int, u: int)
    requires Chained(s) && SameChain(s, t, u) && LiveToken(s, t) && LiveToken(s, u)
    ensures t == u
  {
    assert TokenOk(s, t) && TokenOk(s, u);
    assert Tip(s, t) && Tip(s, u);
  }

  // ---- every step keeps it ----------------------------------------------------------------------

  /** Only revocation times changed. */
  ghost predicate OnlyRevoked(s: Store, n: Store) {
    && |n.sessions| == |s.sessions| && |n.tokens| == |s.tokens|
    && (forall t :: 0 <= t < |s.tokens| ==>
          && n.tokens[t] == s.tokens[t].(revokedAt := n.tokens[t].revokedAt)
          && (s.tokens[t].revokedAt.Some? ==> n.tokens[t].revokedAt.Some?))
  }

  lemma {:induction false} RevokingKeepsChain(s: Store, n: Store)
    requires Chained(s) && OnlyRevoked(s, n)
    ensures Chained(n)
  {
    forall t: nat | t < |n.tokens| ensures TokenOk(n, t) { assert TokenOk(s, t); }
    forall t, u | SameChain(n, t, u) && Tip(n, t) && Tip(n, u) ensures t == u { assert SameChain(s, t, u); }
    forall t, u | SameChain(n, t, u) && First(n, t) && First(n, u) ensures t == u {
      assert SameChain(s, t, u);
      FirstStays(s, n, t);
      FirstStays(s, n, u);
    }
  }

  lemma {:induction false} FirstStays(s: Store, n: Store, t: int)
    requires OnlyRevoked(s, n)
    ensures First(n, t) <==> First(s, t)
  {
    if First(n, t) {
      forall u | 0 <= u < |s.tokens| ensures s.tokens[u].replacedBy != Some(t) {
        assert n.tokens[u].replacedBy != Some(t);
      }
    }
    if First(s, t) {
      forall u | 0 <= u < |n.tokens| ensures n.tokens[u].replacedBy != Some(t) {
        assert s.tokens[u].replacedBy != Some(t);
      }
    }
  }

  lemma {:induction false} RevokeOnlyRevokes(v: Variant, s: Store, session: nat, now: int)
    ensures OnlyRevoked(s, Revoke(v, s, session, now))
  {
  }

  lemma {:induction false} RevokeAllOnlyRevokes(v: Variant, s: Store, user: UserId, except: nat, n: nat, now: int)
    requires n <= |s.sessions|
    ensures OnlyRevoked(s, RevokeAll(v, s, user, except, n, now))
  {
    if n > 0 {
      RevokeAllOnlyRevokes(v, s, user, except, n - 1, now);
      RevokeOnlyRevokes(v, RevokeAll(v, s, user, except, n - 1, now), n - 1, now);
    }
  }

  lemma {:induction false} FirstTokenKeepsChain(s: Store, session: nat, expiresAt: int)
    requires Chained(s) && session < |s.sessions| && Empty(s, session)
    ensures Chained(IssueToken(s, session, expiresAt))
  {
    var n := IssueToken(s, session, expiresAt);
    var fresh_ := |s.tokens|;
    forall t: nat | t < |n.tokens| ensures TokenOk(n, t) { if t < fresh_ { assert TokenOk(s, t); } }
    forall t, u | SameChain(n, t, u) && Tip(n, t) && Tip(n, u) ensures t == u {
      if t < fresh_ && u < fresh_ { assert SameChain(s, t, u); }
    }
    forall t, u | SameChain(n, t, u) && First(n, t) && First(n, u) ensures t == u {
      if t < fresh_ && u < fresh_ {
        assert SameChain(s, t, u);
        OldFirst(s, n, t);
        OldFirst(s, n, u);
      }
    }
  }

  /** Tokens appended at the end leave the earlier first tokens as they were. */
  lemma {:induction false} OldFirst(s: Store, n: Store, t: int)
    requires |s.tokens| <= |n.tokens| && 0 <= t < |s.tokens|
    requires forall u :: 0 <= u < |s.tokens| && s.tokens[u].replacedBy.Some? ==>
      n.tokens[u].replacedBy == s.tokens[u].replacedBy
    ensures First(n, t) ==> First(s, t)
  {
    if First(n, t) {
      forall u | 0 <= u < |s.tokens| ensures s.tokens[u].replacedBy != Some(t) {
        assert n.tokens[u].replacedBy != Some(t);
      }
    }
  }

  /** Rotation leaves no earlier tip in the session's chain. */
  lemma {:induction false} OldTipGone(s: Store, t: nat, u: int, expiresAt: int, now: int)
    requires Chained(s) && Rotate(s, t, expiresAt, now).Some? && 0 <= u < |s.tokens|
    ensures Tip(Rotate(s, t, expiresAt, now).value, u) ==> s.tokens[u].session != s.tokens[t].session
  {
    assert TokenOk(s, t);
    if s.tokens[u].session == s.tokens[t].session { assert SameChain(s, u, t); }
  }

  lemma {:induction false} RotationKeepsChain(s: Store, t: nat, expiresAt: int, now: int)
    requires Chained(s) && Rotate(s, t, expiresAt, now).Some?
    ensures Chained(Rotate(s, t, expiresAt, now).value)
  {
    var n := Rotate(s, t, expiresAt, now).value;
    var last := |s.tokens|;
    assert TokenOk(s, t);
    forall u: nat | u < |n.tokens| ensures TokenOk(n, u) { if u < last { assert TokenOk(s, u); } }
    forall a, b | SameChain(n, a, b) && Tip(n, a) && Tip(n, b) ensures a == b {
      if a < last && b < last { assert SameChain(s, a, b); }
      if a < last { OldTipGone(s, t, a, expiresAt, now); }
      if b < last { OldTipGone(s, t, b, expiresAt, now); }
    }
    forall a, b | 0 <= a < |n.tokens| && 0 <= b < |n.tokens| && n.tokens[a].replacedBy.Some? &&
      n.tokens[a].replacedBy == n.tokens[b].replacedBy
      ensures a == b
    {
      assert a < last ==> TokenOk(s, a);
      assert b < last ==> TokenOk(s, b);
    }
    forall a, b | SameChain(n, a, b) && First(n, a) && First(n, b) ensures a == b {
      assert n.tokens[t].replacedBy == Some(last);
      assert a < last && b < last;
      assert SameChain(s, a, b);
      OldFirst(s, n, a);
      OldFirst(s, n, b);
    }
  }

  lemma {:induction false} ExchangeKeepsGood(v: Variant, w: World, k: nat, expiresAt: int)
    requires Good(w)
    ensures Good(Next(v, w, Exchange(k, expiresAt)))
  {
    var n := Next(v, w, Exchange(k, expiresAt));
    if k in w.requests && w.requests[k].Rotating? && Rotate(w.store, w.requests[k].token, expiresAt, w.now).Some? {
      var t := w.requests[k].token;
      RotationKeepsChain(w.store, t, expiresAt, w.now);
      assert TokenOk(w.store, t);
      forall j | j in n.requests && n.requests[j].LoggingIn? ensures Empty(n.store, n.requests[j].session) {
        assert Empty(w.store, w.requests[j].session);
      }
    }
  }

  lemma {:induction false} RevocationKeepsGood(w: World, store: Store)
    requires Good(w) && OnlyRevoked(w.store, store)
    ensures Good(w.(store := store))
  {
    RevokingKeepsChain(w.store, store);
    var n := w.(store := store);
    forall j | j in n.requests && n.requests[j].LoggingIn? ensures Empty(n.store, n.requests[j].session) {
      assert Empty(w.store, w.requests[j].session);
    }
  }

  lemma {:induction false} LoginKeepsGood(v: Variant, w: World, k: nat, user: UserId, expiresAt: int)
    requires Good(w)
    ensures Good(Next(v, w, Login(k, user, expiresAt)))
  {
    var n := Next(v, w, Login(k, user, expiresAt));
    if k !in w.requests {
      assert n.store.tokens == w.store.tokens;
      forall t: nat | t < |n.store.tokens| ensures TokenOk(n.store, t) { assert TokenOk(w.store, t); }
      forall t, u | SameChain(n.store, t, u) ensures SameChain(w.store, t, u) {}
      forall t, u | SameChain(n.store, t, u) && First(n.store, t) && First(n.store, u) ensures t == u {
        assert SameChain(w.store, t, u);
        OldFirst(w.store, n.store, t);
        OldFirst(w.store, n.store, u);
      }
      forall t, u | SameChain(n.store, t, u) && Tip(n.store, t) && Tip(n.store, u) ensures t == u {
        assert SameChain(w.store, t, u);
      }
      forall t: nat | t < |w.store.tokens| ensures w.store.tokens[t].session < |w.store.sessions| {
        assert TokenOk(w.store, t);
      }
      forall j | j in n.requests && n.requests[j].LoggingIn? ensures Empty(n.store, n.requests[j].session) {
        if j != k { assert Empty(w.store, w.requests[j].session); }
      }
    }
  }

  lemma {:induction false} FirstTokenKeepsGood(v: Variant, w: World, k: nat, expiresAt: int)
    requires Good(w)
    ensures Good(Next(v, w, FirstToken(k, expiresAt)))
  {
    if k in w.requests && w.requests[k].LoggingIn? {
      var n := Next(v, w, FirstToken(k, expiresAt));
      FirstTokenKeepsChain(w.store, w.requests[k].session, expiresAt);
      forall j | j in n.requests && n.requests[j].LoggingIn? ensures Empty(n.store, n.requests[j].session) {
        assert Empty(w.store, w.requests[j].session);
        assert w.requests[j] != w.requests[k];
      }
    }
  }

  lemma {:induction false} NextKeepsGood(v: Variant, w: World, s: Step)
    requires Good(w)
    ensures Good(Next(v, w, s))
  {
    match s {
      case Login(k, user, expiresAt) => LoginKeepsGood(v, w, k, user, expiresAt);
      case FirstToken(k, expiresAt) => FirstTokenKeepsGood(v, w, k, expiresAt);
      case Exchange(k, expiresAt) => ExchangeKeepsGood(v, w, k, expiresAt);
      case End(k) =>
        if k in w.requests && w.requests[k].Ending? {
          RevokeOnlyRevokes(v, w.store, w.requests[k].session, w.now);
          RevocationKeepsGood(w, Revoke(v, w.store, w.requests[k].session, w.now));
        }
      case Logout(session) =>
        RevokeOnlyRevokes(v, w.store, session, w.now);
        RevocationKeepsGood(w, Revoke(v, w.store, session, w.now));
      case LogoutAll(user, except) =>
        RevokeAllOnlyRevokes(v, w.store, user, except, |w.store.sessions|, w.now);
        RevocationKeepsGood(w, RevokeAll(v, w.store, user, except, |w.store.sessions|, w.now));
      case _ =>
    }
  }

  function Run(v: Variant, w: World, steps: seq<Step>): World {
    if steps == [] then w else Next(v, Run(v, w, steps[..|steps| - 1]), steps[|steps| - 1])
  }

  function Start(now: int): World {
    World(Store([], []), map[], [], now)
  }

  /**
   * Every interleaving of logins, refreshes, logouts and replays: the tokens of a
   * session form one chain, at most one of them is live, and every token is
   * exchanged at most once however many requests present it together.
   */
  lemma {:induction false} EveryInterleaving(v: Variant, steps: seq<Step>, now: int)
    ensures var w := Run(v, Start(now), steps);
      && Good(w)
      && (forall t, u :: SameChain(w.store, t, u) && LiveToken(w.store, t) && LiveToken(w.store, u) ==> t == u)
      && (forall i, j :: 0 <= i < j < |w.granted| ==> w.granted[i] != w.granted[j])
    decreases |steps|
  {
    if steps != [] {
      EveryInterleaving(v, steps[..|steps| - 1], now);
      NextKeepsGood(v, Run(v, Start(now), steps[..|steps| - 1]), steps[|steps| - 1]);
    }
    var w := Run(v, Start(now), steps);
    forall t, u | SameChain(w.store, t, u) && LiveToken(w.store, t) && LiveToken(w.store, u) ensures t == u {
      OneLiveToken(w.store, t, u);
    }
  }

  // ---- after a session has been ended -----------------------------------------------------------

  /** How many tokens of this session have been exchanged. */
  function GrantsOf(w: World, session: nat, n: nat): nat
    requires n <= |w.granted|
  {
    if n == 0 then 0
    else
      var t := w.granted[n - 1];
      GrantsOf(w, session, n - 1) + (if t < |w.store.tokens| && w.store.tokens[t].session == session then 1 else 0)
  }

  /** The session is ended, and no request about to exchange one of its tokens can succeed. */
  ghost predicate Over(w: World, session: nat) {
    && session < |w.store.sessions| && !w.store.sessions[session].active
    && forall k :: k in w.requests && w.requests[k].Rotating? ==> !Winner(w, w.requests[k].token, session)
  }

  predicate Winner(w: World, t: nat, session: nat) {
    t < |w.store.tokens| && w.store.tokens[t].session == session && w.store.tokens[t].revokedAt == None
  }

  lemma {:induction false} SameGrants(w: World, n: World, session: nat, k: nat)
    requires k <= |w.granted| && n.granted == w.granted && |w.store.tokens| <= |n.store.tokens|
    requires forall i :: 0 <= i < |w.granted| ==> w.granted[i] < |w.store.tokens|
    requires forall t :: 0 <= t < |w.store.tokens| ==> n.store.tokens[t].session == w.store.tokens[t].session
    ensures GrantsOf(n, session, k) == GrantsOf(w, session, k)
  {
    if k > 0 { SameGrants(w, n, session, k - 1); }
  }

  lemma {:induction false} RevokeAllKeepsEnded(v: Variant, s: Store, user: UserId, except: nat, n: nat, now: int,
      session: nat)
    requires n <= |s.sessions| && session < |s.sessions| && !s.sessions[session].active
    ensures |RevokeAll(v, s, user, except, n, now).sessions| == |s.sessions| &&
      !RevokeAll(v, s, user, except, n, now).sessions[session].active
  {
    if n > 0 { RevokeAllKeepsEnded(v, s, user, except, n - 1, now, session); }
  }

  /** An ended session stays ended. */
  lemma {:induction false} EndedStaysEnded(v: Variant, w: World, s: Step, session: nat)
    requires session < |w.store.sessions| && !w.store.sessions[session].active
    ensures session < |Next(v, w, s).store.sessions| && !Next(v, w, s).store.sessions[session].active
  {
    if s.LogoutAll? { RevokeAllKeepsEnded(v, w.store, s.user, s.except, |w.store.sessions|, w.now, session); }
  }

  /** Tokens keep their session, and no step makes a revoked token live. */
  lemma {:induction false} TokensOnlyAge(v: Variant, w: World, s: Step)
    ensures |w.store.tokens| <= |Next(v, w, s).store.tokens|
    ensures forall t :: 0 <= t < |w.store.tokens| ==>
      && Next(v, w, s).store.tokens[t].session == w.store.tokens[t].session
      && (w.store.tokens[t].revokedAt.Some? ==> Next(v, w, s).store.tokens[t].revokedAt.Some?)
  {
    if s.LogoutAll? { RevokeAllOnlyRevokes(v, w.store, s.user, s.except, |w.store.sessions|, w.now); }
  }

  lemma {:induction false} OverStaysOver(v: Variant, w: World, s: Step, session: nat)
    requires Good(w) && Over(w, session)
    ensures Over(Next(v, w, s), session)
    ensures GrantsOf(Next(v, w, s), session, |Next(v, w, s).granted|) == GrantsOf(w, session, |w.granted|)
  {
    var n := Next(v, w, s);
    EndedStaysEnded(v, w, s, session);
    TokensOnlyAge(v, w, s);
    forall k | k in n.requests && n.requests[k].Rotating? ensures !Winner(n, n.requests[k].token, session) {
      if k in w.requests && w.requests[k] == n.requests[k] { assert !Winner(w, w.requests[k].token, session); }
    }
    if n.granted == w.granted {
      SameGrants(w, n, session, |w.granted|);
    } else {
      assert n.granted[..|w.granted|] == w.granted;
      GrantElsewhere(w, n, session);
    }
  }

  /** A grant for another session does not count for this one. */
  lemma {:induction false} GrantElsewhere(w: World, n: World, session: nat)
    requires |n.granted| == |w.granted| + 1 && n.granted[..|w.granted|] == w.granted
    requires |w.store.tokens| <= |n.store.tokens|
    requires forall i :: 0 <= i < |w.granted| ==> w.granted[i] < |w.store.tokens|
    requires forall t :: 0 <= t < |w.store.tokens| ==> n.store.tokens[t].session == w.store.tokens[t].session
    requires n.granted[|w.granted|] < |n.store.tokens| && n.store.tokens[n.granted[|w.granted|]].session != session
    ensures GrantsOf(n, session, |n.granted|) == GrantsOf(w, session, |w.granted|)
  {
    EarlierGrants(w, n, session, |w.granted|);
  }

  lemma {:induction false} GrantHere(w: World, n: World, session: nat)
    requires |n.granted| == |w.granted| + 1 && n.granted[..|w.granted|] == w.granted
    requires |w.store.tokens| <= |n.store.tokens|
    requires forall i :: 0 <= i < |w.granted| ==> w.granted[i] < |w.store.tokens|
    requires forall t :: 0 <= t < |w.store.tokens| ==> n.store.tokens[t].session == w.store.tokens[t].session
    requires n.granted[|w.granted|] < |n.store.tokens| && n.store.tokens[n.granted[|w.granted|]].session == session
    ensures GrantsOf(n, session, |n.granted|) == GrantsOf(w, session, |w.granted|) + 1
  {
    EarlierGrants(w, n, session, |w.granted|);
  }

  lemma {:induction false} EarlierGrants(w: World, n: World, session: nat, k: nat)
    requires k <= |w.granted| <= |n.granted| && n.granted[..|w.granted|] == w.granted &&
      |w.store.tokens| <= |n.store.tokens|
    requires forall i :: 0 <= i < |w.granted| ==> w.granted[i] < |w.store.tokens|
    requires forall t :: 0 <= t < |w.store.tokens| ==> n.store.tokens[t].session == w.store.tokens[t].session
    ensures GrantsOf(n, session, k) == GrantsOf(w, session, k)
  {
    if k > 0 {
      EarlierGrants(w, n, session, k - 1);
      assert n.granted[k - 1] == n.granted[..|w.granted|][k - 1];
    }
  }

  /** Once over, no refresh of the session ever succeeds again. */
  lemma {:induction false} OverForever(v: Variant, w: World, steps: seq<Step>, session: nat)
    requires Good(w) && Over(w, session)
    ensures Good(Run(v, w, steps)) && Over(Run(v, w, steps), session)
    ensures GrantsOf(Run(v, w, steps), session, |Run(v, w, steps).granted|) == GrantsOf(w, session, |w.granted|)
    decreases |steps|
  {
    if steps != [] {
      OverForever(v, w, steps[..|steps| - 1], session);
      NextKeepsGood(v, Run(v, w, steps[..|steps| - 1]), steps[|steps| - 1]);
      OverStaysOver(v, Run(v, w, steps[..|steps| - 1]), steps[|steps| - 1], session);
    }
  }

  /**
   * The admin service: once a replay has ended a session, no refresh of it ever
   * succeeds, not even one that had already read its token as valid.
   */
  lemma {:induction false} AdminReplayKillsSession(w: World, k: nat, steps: seq<Step>)
    requires Good(w) && k in w.requests && w.requests[k].Ending? && w.requests[k].session < |w.store.sessions|
    ensures var session := w.requests[k].session;
      var ended := Next(Admin, w, End(k));
      var after := Run(Admin, ended, steps);
      GrantsOf(after, session, |after.granted|) == GrantsOf(w, session, |w.granted|)
  {
    var session := w.requests[k].session;
    var ended := Next(Admin, w, End(k));
    NextKeepsGood(Admin, w, End(k));
    RevokeOnlyRevokes(Admin, w.store, session, w.now);
    forall j | j in ended.requests && ended.requests[j].Rotating?
      ensures !Winner(ended, ended.requests[j].token, session)
    {}
    SameGrants(w, ended, session, |w.granted|);
    OverForever(Admin, ended, steps, session);
  }

  // ---- the player service ---------------------------------------------------------------------------

  /** A request that has read the live token of this session and not yet exchanged it. */
  ghost predicate InFlight(w: World, session: nat) {
    exists k :: k in w.requests && w.requests[k].Rotating? && Winner(w, w.requests[k].token, session)
  }

  /** Whatever happens from here on, the session is granted no further tokens. */
  ghost predicate NeverGrantedAgain(v: Variant, w: World, session: nat) {
    forall steps {:trigger Run(v, w, steps)} :: Grants(Run(v, w, steps), session) == Grants(w, session)
  }

  function Grants(w: World, session: nat): nat {
    GrantsOf(w, session, |w.granted|)
  }

  /** A request that holds the live token of a session wins by exchanging it, ended session or not. */
  lemma {:induction false} WinnerCanExchange(v: Variant, w: World, k: nat, session: nat, expiresAt: int)
    requires Good(w) && session < |w.store.sessions| && k in w.requests && w.requests[k].Rotating? &&
      Winner(w, w.requests[k].token, session)
    ensures Grants(Next(v, w, Exchange(k, expiresAt)), session) == Grants(w, session) + 1
  {
    var after := Next(v, w, Exchange(k, expiresAt));
    var t := w.requests[k].token;
    assert after.granted == w.granted + [t] && after.store.tokens[t].session == session;
    TokensOnlyAge(v, w, Exchange(k, expiresAt));
    GrantHere(w, after, session);
  }

  /** An ended session is ended for good exactly when no request is about to exchange its live token. */
  lemma {:induction false} EndedForGoodExactlyWhenNothingInFlight(v: Variant, w: World, session: nat)
    requires Good(w) && session < |w.store.sessions| && !w.store.sessions[session].active
    ensures NeverGrantedAgain(v, w, session) <==> !InFlight(w, session)
  {
    if InFlight(w, session) {
      var k :| k in w.requests && w.requests[k].Rotating? && Winner(w, w.requests[k].token, session);
      WinnerCanExchange(v, w, k, session, 0);
      var steps := [Exchange(k, 0)];
      assert steps[..0] == [];
      assert Run(v, w, steps) == Next(v, w, Exchange(k, 0));
    } else {
      forall steps ensures Grants(Run(v, w, steps), session) == Grants(w, session) {
        OverForever(v, w, steps, session);
      }
    }
  }

  /**
   * The player service leaves the tokens alone, so revoking a session means that
   * no refresh of it ever succeeds again if and only if none is in flight.
   */
  lemma {:induction false} PlayerSessionIsOverExactlyWhenNothingInFlight(w: World, session: nat)
    requires Good(w) && session < |w.store.sessions|
    ensures NeverGrantedAgain(Player, Next(Player, w, Logout(session)), session) <==> !InFlight(w, session)
  {
    var n := Next(Player, w, Logout(session));
    NextKeepsGood(Player, w, Logout(session));
    forall k | k in w.requests && w.requests[k].Rotating?
      ensures Winner(n, w.requests[k].token, session) <==> Winner(w, w.requests[k].token, session) {}
    assert InFlight(n, session) <==> InFlight(w, session);
    EndedForGoodExactlyWhenNothingInFlight(Player, n, session);
  }

  // ---- a replay, from the second presentation on ----------------------------------------------------

  /** A revoked token presented again within the grace window of its rotation. */
  predicate Forgiven(w: World, t: nat)
    requires t < |w.store.tokens| && w.store.tokens[t].revokedAt.Some?
  {
    w.store.tokens[t].replacedBy.Some? && w.now - w.store.tokens[t].revokedAt.value <= GRACE_MS
  }

  /** The request that is to end a session waits until it does so or crashes. */
  lemma {:induction false} EndStaysPending(v: Variant, w: World, k: nat, steps: seq<Step>)
    requires Good(w) && k in w.requests && w.requests[k].Ending? && w.requests[k].session < |w.store.sessions|
    requires forall i :: 0 <= i < |steps| ==> steps[i] != End(k) && steps[i] != Drop(k)
    ensures Good(Run(v, w, steps)) && k in Run(v, w, steps).requests && Run(v, w, steps).requests[k] == w.requests[k]
    ensures |w.store.sessions| <= |Run(v, w, steps).store.sessions|
    decreases |steps|
  {
    if steps != [] {
      var init, s := steps[..|steps| - 1], steps[|steps| - 1];
      EndStaysPending(v, w, k, init);
      NextKeepsGood(v, Run(v, w, init), s);
      SessionsOnlyGrow(v, Run(v, w, init), s);
    }
  }

  lemma {:induction false} SessionsOnlyGrow(v: Variant, w: World, s: Step)
    ensures |w.store.sessions| <= |Next(v, w, s).store.sessions|
  {
    if s.LogoutAll? { RevokeAllOnlyRevokes(v, w.store, s.user, s.except, |w.store.sessions|, w.now); }
  }

  /** Carrying out the end of a session: for good at once for admins, for players when nothing is in flight. */
  lemma {:induction false} EndCarriedOut(v: Variant, w: World, k: nat)
    requires Good(w) && k in w.requests && w.requests[k].Ending? && w.requests[k].session < |w.store.sessions|
    ensures NeverGrantedAgain(v, Next(v, w, End(k)), w.requests[k].session)
       <==> v == Admin || !InFlight(w, w.requests[k].session)
  {
    var session, n := w.requests[k].session, Next(v, w, End(k));
    NextKeepsGood(v, w, End(k));
    if v == Admin {
      forall steps ensures Grants(Run(v, n, steps), session) == Grants(n, session) {
        AdminReplayKillsSession(w, k, steps);
        AdminReplayKillsSession(w, k, []);
      }
    } else {
      forall j | j in w.requests && w.requests[j].Rotating?
        ensures j in n.requests && n.requests[j] == w.requests[j]
        ensures Winner(n, w.requests[j].token, session) <==> Winner(w, w.requests[j].token, session) {}
      assert InFlight(n, session) <==> InFlight(w, session);
      EndedForGoodExactlyWhenNothingInFlight(v, n, session);
    }
  }

  /**
   * A revoked token presented again: within the grace window of a rotation it changes
   * nothing; otherwise, once the end of its session is carried out, after whatever steps
   * come between, no refresh of that session is ever granted again, for admins always and
   * for players if and only if none is in flight at that moment.
   */
  lemma {:induction false} ReplayIsNoticed(v: Variant, w: World, k: nat, t: nat, accountOk: bool, claimsMatch: bool,
      steps: seq<Step>)
    requires Good(w) && k !in w.requests && t < |w.store.tokens| && w.store.tokens[t].revokedAt.Some?
    requires forall i :: 0 <= i < |steps| ==> steps[i] != End(k) && steps[i] != Drop(k)
    ensures Forgiven(w, t) ==> Next(v, w, Present(k, t, accountOk, claimsMatch)) == w
    ensures !Forgiven(w, t) ==>
      var session := w.store.tokens[t].session;
      var mid := Run(v, Next(v, w, Present(k, t, accountOk, claimsMatch)), steps);
      NeverGrantedAgain(v, Next(v, mid, End(k)), session) <==> v == Admin || !InFlight(mid, session)
  {
    assert TokenOk(w.store, t);
    if !Forgiven(w, t) {
      var presented := Next(v, w, Present(k, t, accountOk, claimsMatch));
      assert presented == w.(requests := w.requests[k := Ending(w.store.tokens[t].session)]);
      NextKeepsGood(v, w, Present(k, t, accountOk, claimsMatch));
      EndStaysPending(v, presented, k, steps);
      EndCarriedOut(v, Run(v, presented, steps), k);
    }
  }

  /** A refresh in flight does succeed after its session was ended. */
  lemma {:induction false} PlayerRefreshSurvivesReplay(w: World, k: nat, session: nat, expiresAt: int)
    requires Good(w) && session < |w.store.sessions| && k in w.requests && w.requests[k].Rotating? &&
      Winner(w, w.requests[k].token, session)
    ensures var ended := Next(Player, w, Logout(session));
      var after := Next(Player, ended, Exchange(k, expiresAt));
      && !ended.store.sessions[session].active
      && GrantsOf(after, session, |after.granted|) == GrantsOf(w, session, |w.granted|) + 1
  {
    var ended := Next(Player, w, Logout(session));
    var after := Next(Player, ended, Exchange(k, expiresAt));
    var t := w.requests[k].token;
    assert after.granted == w.granted + [t] && after.store.tokens[t].session == session;
    TokensOnlyAge(Player, w, Logout(session));
    TokensOnlyAge(Player, ended, Exchange(k, expiresAt));
    GrantHere(w, after, session);
  }

  /** But at most one does: its successor token can never be exchanged. */
  lemma {:induction false} AtMostOneSurvivor(w: World, steps: seq<Step>, session: nat)
    requires Good(w) && session < |w.store.sessions| && !w.store.sessions[session].active
    ensures var after := Run(Player, w, steps);
      && Good(after) && session < |after.store.sessions| && !after.store.sessions[session].active
      && (GrantsOf(after, session, |after.granted|) == GrantsOf(w, session, |w.granted|)
          || (GrantsOf(after, session, |after.granted|) == GrantsOf(w, session, |w.granted|) + 1 &&
             Over(after, session)))
    decreases |steps|
  {
    if steps != [] {
      var init, s := Run(Player, w, steps[..|steps| - 1]), steps[|steps| - 1];
      AtMostOneSurvivor(w, steps[..|steps| - 1], session);
      NextKeepsGood(Player, init, s);
      EndedStaysEnded(Player, init, s, session);
      if Over(init, session) { OverStaysOver(Player, init, s, session); } else { OneGrantThenOver(init, s, session); }
    }
  }

  lemma {:induction false} OneGrantThenOver(w: World, s: Step, session: nat)
    requires Good(w) && session < |w.store.sessions| && !w.store.sessions[session].active
    ensures var n := Next(Player, w, s);
      GrantsOf(n, session, |n.granted|) == GrantsOf(w, session, |w.granted|)
      || (GrantsOf(n, session, |n.granted|) == GrantsOf(w, session, |w.granted|) + 1 && Over(n, session))
  {
    var n := Next(Player, w, s);
    TokensOnlyAge(Player, w, s);
    EndedStaysEnded(Player, w, s, session);
    if n.granted == w.granted {
      SameGrants(w, n, session, |w.granted|);
    } else {
      assert n.granted[..|w.granted|] == w.granted;
      var t := n.granted[|w.granted|];
      EarlierGrants(w, n, session, |w.granted|);
      if w.store.tokens[t].session == session {
        forall k | k in n.requests && n.requests[k].Rotating? ensures !Winner(n, n.requests[k].token, session) {
          OnlyOneWins(w, n, t, n.requests[k].token, session);
        }
      }
    }
  }

  /** After the live token has been exchanged, no older token of the session is live. */
  lemma {:induction false} OnlyOneWins(w: World, n: World, t: nat, u: nat, session: nat)
    requires Good(w) && Winner(w, t, session) && u < |w.store.tokens| <= |n.store.tokens|
    requires n.store.tokens[t].revokedAt.Some?
    requires forall i :: 0 <= i < |w.store.tokens| ==> n.store.tokens[i].session == w.store.tokens[i].session
    requires forall i :: 0 <= i < |w.store.tokens| && w.store.tokens[i].revokedAt.Some? ==>
      n.store.tokens[i].revokedAt.Some?
    ensures !Winner(n, u, session)
  {
    if Winner(w, u, session) { OneLiveToken(w.store, t, u); }
  }

  // ---- the services -----------------------------------------------------------------------------------

  /** Sessions and refresh tokens of one of the two services. */
  class TokenStore {
    const variant: Variant
    var sessions: seq<Session>
    var tokens: seq<Token>

    function Value(): Store
      reads this
    {
      Store(sessions, tokens)
    }

    constructor (variant: Variant)
      ensures this.variant == variant && Value() == Store([], []) && Chained(Value())
    {
      this.variant := variant;
      sessions, tokens := [], [];
    }

    /** A login: a session and its first token. */
    method Login(user: UserId, sessionExpiry: int, tokenExpiry: int) returns (token: nat)
      requires Chained(Value())
      modifies this
      ensures Value() == IssueToken(OpenSession(old(Value()), user, sessionExpiry), |old(sessions)|, tokenExpiry)
      ensures token == |old(tokens)| && Chained(Value())
    {
      LoginChains(Value(), user, sessionExpiry, tokenExpiry);
      var session := |sessions|;
      sessions := sessions + [Session(user, true, sessionExpiry)];
      token := |tokens|;
      tokens := tokens + [Token(session, tokenExpiry, None, None)];
    }

    /** True for exactly one of the callers that present the same live token. */
    method RotateRefreshToken(t: nat, expiresAt: int, now: int) returns (rotated: bool)
      requires Chained(Value())
      modifies this`tokens
      ensures rotated <==> Rotate(old(Value()), t, expiresAt, now).Some?
      ensures Value() == if rotated then Rotate(old(Value()), t, expiresAt, now).value else old(Value())
      ensures Chained(Value())
    {
      if t >= |tokens| || tokens[t].revokedAt.Some? {
        return false;
      }
      RotationKeepsChain(Value(), t, expiresAt, now);
      var next := |tokens|;
      tokens := tokens + [Token(tokens[t].session, expiresAt, None, None)];
      tokens := tokens[t := tokens[t].(revokedAt := Some(now), replacedBy := Some(next))];
      rotated := true;
    }

    method RevokeSession(session: nat, now: int)
      requires Chained(Value())
      modifies this
      ensures Value() == Revoke(variant, old(Value()), session, now) && Chained(Value())
    {
      RevokeOnlyRevokes(variant, Value(), session, now);
      RevokingKeepsChain(Value(), Revoke(variant, Value(), session, now));
      if variant == Admin {
        ghost var before := tokens;
        var i := 0;
        while i < |tokens|
          invariant 0 <= i <= |tokens| == |before| && sessions == old(sessions)
          invariant forall j :: 0 <= j < |before| ==> tokens[j] == if j < i then RevokeTokens(before, session, now)[j]
            else before[j]
        {
          if tokens[i].session == session && tokens[i].revokedAt == None {
            tokens := tokens[i := tokens[i].(revokedAt := Some(now))];
          }
          i := i + 1;
        }
        assert tokens == RevokeTokens(before, session, now);
      }
      if session < |sessions| {
        sessions := sessions[session := sessions[session].(active := false)];
      }
    }

    /** `refresh`, with nothing else running: exchange a valid token, end the session on a replay, or just refuse. */
    method Refresh(t: nat, accountOk: bool, claimsMatch: bool, expiresAt: int, now: int) returns (granted: bool)
      requires Chained(Value())
      modifies this
      ensures granted <==> Decide(variant, old(Value()), t, accountOk, claimsMatch, now) == Proceed(t)
      ensures match Decide(variant, old(Value()), t, accountOk, claimsMatch, now)
              case Refuse => Value() == old(Value())
              case EndSession(session) => Value() == Revoke(variant, old(Value()), session, now)
              case Proceed(token) => Rotate(old(Value()), token, expiresAt, now) == Some(Value())
      ensures Chained(Value())
    {
      granted := false;
      match Decide(variant, Value(), t, accountOk, claimsMatch, now) {
        case Refuse =>
        case EndSession(session) => RevokeSession(session, now);
        case Proceed(token) => granted := RotateRefreshToken(token, expiresAt, now);
      }
    }
  }

  lemma {:induction false} LoginChains(s: Store, user: UserId, sessionExpiry: int, tokenExpiry: int)
    requires Chained(s)
    ensures Chained(IssueToken(OpenSession(s, user, sessionExpiry), |s.sessions|, tokenExpiry))
  {
    var n := OpenSession(s, user, sessionExpiry);
    forall t: nat | t < |n.tokens| ensures TokenOk(n, t) && n.tokens[t].session < |s.sessions| { assert TokenOk(s, t); }
    forall t, u | SameChain(n, t, u) && Tip(n, t) && Tip(n, u) ensures t == u { assert SameChain(s, t, u); }
    forall t, u | SameChain(n, t, u) && First(n, t) && First(n, u) ensures t == u {
      assert SameChain(s, t, u);
      OldFirst(s, n, t);
      OldFirst(s, n, u);
    }
    FirstTokenKeepsChain(n, |s.sessions|, tokenExpiry);
  }
}
