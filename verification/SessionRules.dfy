/** What a refresh demands. */
module SessionRules {
  // Which tokens a refresh accepts, refuses or answers by ending the session, and that
  // every token ever exchanged had passed all of it.
  import opened Common
  import opened RefreshTokens

  // ---- the answer to a presented token --------------------------------------------------------

  /** A live, unexpired token of an active session; a player's session must not have expired either. */
  predicate Usable(v: Variant, s: Store, t: nat, now: int) {
    && t < |s.tokens| && s.tokens[t].session < |s.sessions|
    && s.tokens[t].revokedAt == None && s.tokens[t].expiresAt > now
    && s.sessions[s.tokens[t].session].active
    && (v == Player ==> s.sessions[s.tokens[t].session].expiresAt > now)
  }

  /** Revoked by a rotation at most five seconds ago. */
  predicate JustRotated(s: Store, t: nat, now: int)
    requires t < |s.tokens|
  {
    s.tokens[t].revokedAt.Some? && s.tokens[t].replacedBy.Some? && now <= s.tokens[t].revokedAt.value + 5000
  }

  /**
   * A revoked token, unless just rotated; for players any unusable one, for admins a closed account with a usable
   * one.
   */
  predicate EndsSession(v: Variant, s: Store, t: nat, accountOk: bool, claimsMatch: bool, now: int) {
    && t < |s.tokens| && s.tokens[t].session < |s.sessions|
    && (if s.tokens[t].revokedAt.Some? then !JustRotated(s, t, now)
        else match v
             case Admin => Usable(v, s, t, now) && claimsMatch && !accountOk
             case Player => !(Usable(v, s, t, now) && claimsMatch && accountOk))
  }

  /** Exactly the usable tokens with matching claims and a good account go on to be exchanged. */
  lemma {:induction false} DecisionIsRight(v: Variant, s: Store, t: nat, accountOk: bool, claimsMatch: bool, now: int)
    ensures var decision := Decide(v, s, t, accountOk, claimsMatch, now);
      && (decision == Proceed(t) <==> Usable(v, s, t, now) && accountOk && claimsMatch)
      && (decision.Proceed? ==> decision.token == t)
      && (decision.EndSession? <==> EndsSession(v, s, t, accountOk, claimsMatch, now))
      && (decision.EndSession? ==> decision.session == s.tokens[t].session)
  {
  }

  // ---- what the steps write ------------------------------------------------------------------------

  /** The session and no other is closed; an admin's tokens of it are revoked with it. */
  predicate Closed(v: Variant, s: Store, n: Store, closes: set<nat>, now: int) {
    && |n.sessions| == |s.sessions| && |n.tokens| == |s.tokens|
    && (forall i: nat :: i < |s.sessions| ==>
          n.sessions[i] == if i in closes then s.sessions[i].(active := false) else s.sessions[i])
    && (forall i: nat :: i < |s.tokens| ==>
          n.tokens[i] == if v == Admin && s.tokens[i].session in closes && s.tokens[i].revokedAt == None
                         then s.tokens[i].(revokedAt := Some(now)) else s.tokens[i])
  }

  lemma {:induction false} RevokeIsRight(v: Variant, s: Store, session: nat, now: int)
    ensures Closed(v, s, Revoke(v, s, session, now), {session}, now)
  {
  }

  /** The sessions a logout of everything else closes. */
  function OthersOf(s: Store, user: UserId, except: nat, n: nat): set<nat>
    requires n <= |s.sessions|
  {
    set i: nat | i < n && s.sessions[i].user == user && i != except
  }

  lemma {:induction false} RevokeAllIsRight(v: Variant, s: Store, user: UserId, except: nat, n: nat, now: int)
    requires n <= |s.sessions|
    ensures Closed(v, s, RevokeAll(v, s, user, except, n, now), OthersOf(s, user, except, n), now)
  {
    if n == 0 {
      assert OthersOf(s, user, except, 0) == {};
    } else {
      RevokeAllIsRight(v, s, user, except, n - 1, now);
      var rest := RevokeAll(v, s, user, except, n - 1, now);
      if s.sessions[n - 1].user == user && n - 1 != except {
        assert OthersOf(s, user, except, n) == OthersOf(s, user, except, n - 1) + {n - 1};
        RevokeIsRight(v, rest, n - 1, now);
      } else {
        assert OthersOf(s, user, except, n) == OthersOf(s, user, except, n - 1);
      }
    }
  }

  /** Logging out of everything else closes all other sessions of the user, and nobody else's. */
  lemma {:induction false} LogoutAllIsRight(v: Variant, w: World, user: UserId, except: nat)
    ensures var n := Next(v, w, LogoutAll(user, except));
      && Closed(v, w.store, n.store, OthersOf(w.store, user, except, |w.store.sessions|), w.now)
      && n == w.(store := n.store)
  {
    RevokeAllIsRight(v, w.store, user, except, |w.store.sessions|, w.now);
  }

  /** What each step of a request does; the token given out by an exchange is of the same session. */
  lemma {:induction false} RequestsGoOn(v: Variant, w: World, k: nat, user: UserId, t: nat, accountOk: bool,
      claimsMatch: bool, expiresAt: int)
    ensures k !in w.requests ==>
      && Next(v, w, Login(k, user, expiresAt))
         == w.(store := Store(w.store.sessions + [Session(user, true, expiresAt)], w.store.tokens),
               requests := w.requests[k := LoggingIn(|w.store.sessions|)])
      && Next(v, w, Present(k, t, accountOk, claimsMatch))
         == if Usable(v, w.store, t, w.now) && accountOk && claimsMatch
            then w.(requests := w.requests[k := Rotating(t)])
            else if EndsSession(v, w.store, t, accountOk, claimsMatch, w.now)
            then w.(requests := w.requests[k := Ending(w.store.tokens[t].session)])
            else w
    ensures k in w.requests && w.requests[k].LoggingIn? ==>
      Next(v, w, FirstToken(k, expiresAt))
        == w.(store := w.store.(tokens := w.store.tokens + [Token(w.requests[k].session, expiresAt, None, None)]),
              requests := w.requests - {k})
    ensures k in w.requests && w.requests[k].Rotating? && w.requests[k].token < |w.store.tokens| ==>
      Exchanged(w, Next(v, w, Exchange(k, expiresAt)), k, w.requests[k].token, expiresAt)
    ensures k in w.requests && w.requests[k].Ending? ==> var n := Next(v, w, End(k));
      Closed(v, w.store, n.store, {w.requests[k].session}, w.now) &&
        n == w.(store := n.store, requests := n.requests) &&
        n.requests == w.requests - {k}
    ensures forall ms: nat :: Next(v, w, Wait(ms)) == w.(now := w.now + ms)
  {
    DecisionIsRight(v, w.store, t, accountOk, claimsMatch, w.now);
  }

  /** A token that is still live is replaced by a new one of its session and recorded as granted. */
  predicate Exchanged(w: World, n: World, k: nat, t: nat, expiresAt: int)
    requires t < |w.store.tokens|
  {
    if w.store.tokens[t].revokedAt.Some? then n == w.(requests := w.requests - {k})
    else
      var fresh_ := |w.store.tokens|;
      && n.store.sessions == w.store.sessions && |n.store.tokens| == fresh_ + 1
      && n.store.tokens[fresh_] == Token(w.store.tokens[t].session, expiresAt, None, None)
      && n.store.tokens[..fresh_]
           == w.store.tokens[t :=
             Token(w.store.tokens[t].session, w.store.tokens[t].expiresAt, Some(w.now), Some(fresh_))]
      && n.requests == w.requests - {k} && n.granted == w.granted + [t] && n.now == w.now
  }

  // ---- every exchange was allowed -------------------------------------------------------------------

  /** At some step the token was presented with matching claims for a good account, and was usable then. */
  ghost predicate Checked(v: Variant, start: World, steps: seq<Step>, t: nat) {
    exists i: nat :: i < |steps| && CheckedAt(v, start, steps, t, i)
  }

  ghost predicate CheckedAt(v: Variant, start: World, steps: seq<Step>, t: nat, i: nat)
    requires i < |steps|
  {
    && steps[i].Present? && steps[i].token == t && steps[i].accountOk && steps[i].claimsMatch
    && Usable(v, Run(v, start, steps[..i]).store, t, Run(v, start, steps[..i]).now)
  }

  ghost predicate AllChecked(v: Variant, start: World, steps: seq<Step>, w: World) {
    && (forall k :: k in w.requests && w.requests[k].Rotating? ==> Checked(v, start, steps, w.requests[k].token))
    && (forall i :: 0 <= i < |w.granted| ==> Checked(v, start, steps, w.granted[i]))
  }

  lemma {:induction false} StillChecked(v: Variant, start: World, steps: seq<Step>, s: Step, t: nat)
    requires Checked(v, start, steps, t)
    ensures Checked(v, start, steps + [s], t)
  {
    var i: nat :| i < |steps| && CheckedAt(v, start, steps, t, i);
    assert (steps + [s])[..i] == steps[..i];
    assert CheckedAt(v, start, steps + [s], t, i);
  }

  lemma {:induction false} NextIsChecked(v: Variant, start: World, steps: seq<Step>, s: Step)
    requires AllChecked(v, start, steps, Run(v, start, steps))
    ensures AllChecked(v, start, steps + [s], Next(v, Run(v, start, steps), s))
  {
    var w := Run(v, start, steps);
    var n, more := Next(v, w, s), steps + [s];
    forall k | k in n.requests && n.requests[k].Rotating? ensures Checked(v, start, more, n.requests[k].token) {
      if k in w.requests && w.requests[k] == n.requests[k] {
        StillChecked(v, start, steps, s, w.requests[k].token);
      } else {
        DecisionIsRight(v, w.store, s.token, s.accountOk, s.claimsMatch, w.now);
        assert more[..|steps|] == steps && more[|steps|] == s;
        assert CheckedAt(v, start, more, s.token, |steps|);
      }
    }
    forall i | 0 <= i < |n.granted| ensures Checked(v, start, more, n.granted[i]) {
      if i < |w.granted| {
        assert n.granted[i] == w.granted[i];
        StillChecked(v, start, steps, s, w.granted[i]);
      } else {
        StillChecked(v, start, steps, s, w.requests[s.request].token);
      }
    }
  }

  /**
   * Over every interleaving each exchanged token was presented before, with claims that
   * match and for an account in good standing, while it was live and unexpired and its
   * session active.
   */
  lemma {:induction false} EveryExchangeWasChecked(v: Variant, steps: seq<Step>, now: int)
    ensures AllChecked(v, Start(now), steps, Run(v, Start(now), steps))
    decreases |steps|
  {
    if steps == [] {
    } else {
      var init := steps[..|steps| - 1];
      EveryExchangeWasChecked(v, init, now);
      NextIsChecked(v, Start(now), init, steps[|steps| - 1]);
      assert init + [steps[|steps| - 1]] == steps;
    }
  }
}
