/**
 * What a dispute case does: who closes it and with which verdict, whose prizes wait for
 * it, and what carrying the verdict out does to the prizes.
 */
module CaseRules {
  import opened Common
  import opened Bracket
  import opened Disputes
  import opened Draw
  import D = Desk
  import P = Standings
  import S = Settlement

  // ---- whose prizes wait -----------------------------------------------------------------

  /** A case of the player that is not closed yet and names the tournament or, if `final` counts, its final. */
  ghost predicate Waits(cases: map<nat, Case>, ids: Ids, user: UserId, final: bool) {
    exists id :: id in cases && WaitsFor(cases[id], ids, user, final)
  }

  predicate WaitsFor(c: Case, ids: Ids, user: UserId, final: bool) {
    c.user == user && (c.status == UnderReview || c.status == AppealFiled) &&
      (c.tournament == Some(ids.tournament) || (final && c.game == Some(ids.final)))
  }

  /** A settlement holds for cases on the tournament or its final, a correction and a release only for the former. */
  lemma {:induction false} DisputedAre(cases: map<nat, Case>, ids: Ids, user: UserId)
    ensures user in HeldAtSettlement(cases, ids) <==> Waits(cases, ids, user, true)
    ensures user in HeldAtCorrection(cases, ids) <==> Waits(cases, ids, user, false)
    ensures StillOpen(cases, ids, user) <==> Waits(cases, ids, user, false)
  {
    if user in HeldAtSettlement(cases, ids) {
      var id :| id in cases && cases[id].user == user && WaitsFor(cases[id], ids, user, true);
    }
    if user in HeldAtCorrection(cases, ids) {
      var id :| id in cases && cases[id].user == user && WaitsFor(cases[id], ids, user, false);
    }
    if StillOpen(cases, ids, user) {
      var id :| id in cases && OpenOnTournament(cases[id], ids) && cases[id].user == user;
      assert WaitsFor(cases[id], ids, user, false);
    }
  }

  // ---- a release ---------------------------------------------------------------------------

  /** The player's held prizes. */
  function HeldSum(awards: seq<S.Award>, user: UserId): nat {
    if awards == [] then 0
    else
      var a := awards[|awards| - 1];
      HeldSum(awards[..|awards| - 1], user) + (if a.user == user && a.status == S.Held then a.amount else 0)
  }

  /**
   * From position `i` on the player's held prizes are credited; nothing else of any award has changed but the credit.
   */
  ghost predicate CreditedFrom(a: seq<S.Award>, b: seq<S.Award>, user: UserId, i: nat) {
    && |b| == |a|
    && forall j :: 0 <= j < |a| ==>
       if j >= i && a[j].user == user && a[j].status == S.Held
       then b[j].credit.Some? && b[j] == a[j].(status := S.Credited, credit := b[j].credit) else b[j] == a[j]
  }

  lemma {:induction false} ReleasingCredits(p: S.Purse, user: UserId, i: nat)
    requires i <= |p.awards| && S.ReleaseFrom(p, user, i).Ok?
    ensures CreditedFrom(p.awards, S.ReleaseFrom(p, user, i).value.awards, user, i)
    decreases |p.awards| - i
  {
    if i == |p.awards| {
    } else if p.awards[i].user == user && p.awards[i].status == S.Held {
      ReleasingCredits(S.ReleaseAt(p, i).value, user, i + 1);
    } else {
      ReleasingCredits(p, user, i + 1);
    }
  }

  lemma {:induction false} CreditedSums(a: seq<S.Award>, b: seq<S.Award>, user: UserId, other: UserId)
    requires CreditedFrom(a, b, user, 0)
    ensures S.CreditedTo(b, other) == S.CreditedTo(a, other) + if other == user then HeldSum(a, user) else 0
    decreases |a|
  {
    if a == [] {
    } else {
      var n := |a| - 1;
      CreditedSums(a[..n], b[..n], user, other);
      assert a[..n][..] == a[..n];
    }
  }

  /**
   * A release with no other case open credits the player every held prize in full, and
   * nobody else anything; with another case open it leaves everything as it is.
   */
  lemma {:induction false} ReleaseIsRight(p: S.Purse, user: UserId, stillOpen: bool)
    requires S.Sound(p) && S.Release(p, user, stillOpen).Ok?
    ensures var q := S.Release(p, user, stillOpen).value;
      if stillOpen then q == p
      else
        && CreditedFrom(p.awards, q.awards, user, 0)
        && q.book.balances.Keys == p.book.balances.Keys
        && (forall u :: u in p.book.balances ==>
              q.book.balances[u] == p.book.balances[u] + if u == user then HeldSum(p.awards, user) else 0)
        && (q.settled <==> p.settled || forall j :: 0 <= j < |p.awards| && p.awards[j].status == S.Held ==>
              p.awards[j].user == user)
        && q.pool == p.pool && q.version == p.version
  {
    if !stillOpen {
      S.ReleaseSound(p, user, stillOpen);
      S.ReleaseFromKeeps(p, user, 0);
      ReleasingCredits(p, user, 0);
      var q := S.Release(p, user, stillOpen).value;
      forall u | u in p.book.balances
        ensures q.book.balances[u] == p.book.balances[u] + if u == user then HeldSum(p.awards, user) else 0
      {
        assert S.Outside(q, u) == S.Outside(p, u);
        CreditedSums(p.awards, q.awards, user, u);
      }
    }
  }

  // ---- one step ------------------------------------------------------------------------------

  predicate Undecided(c: Case) {
    c.status == UnderReview || c.status == AppealFiled
  }

  /** A case after a step: filed under a free id, appealed or closed once while it is open, and else as it was. */
  function CaseAfter(cases: map<nat, Case>, a: Action, id: nat): Option<Case> {
    match a
    case File(i, c) =>
      if id in cases then Some(cases[id]) else if i == id && Undecided(c) then Some(c) else None
    case Appeal(i) =>
      if id !in cases then None
      else if i == id && Undecided(cases[id]) then Some(cases[id].(status := AppealFiled)) else Some(cases[id])
    case Resolve(i, verdict, admin, text) =>
      if id !in cases then None
      else if i == id && Undecided(cases[id]) && (verdict == Cleared || verdict == Disqualified)
      then Some(cases[id].(status := verdict, resolver := Some(admin), note := text)) else Some(cases[id])
    case _ => if id in cases then Some(cases[id]) else None
  }

  lemma {:induction false} CaseIsRight(o: Office, ids: Ids, a: Action, id: nat)
    requires |o.desk.tree.members| == |o.desk.tree.teams|
    ensures id in Act(o, ids, a).cases <==> CaseAfter(o.cases, a, id).Some?
    ensures id in Act(o, ids, a).cases ==> Some(Act(o, ids, a).cases[id]) == CaseAfter(o.cases, a, id)
  {
  }

  /** The clearance of the last open case credits the player's held prizes, and moves nothing else. */
  ghost predicate Credits(d: D.Desk, e: D.Desk, user: UserId) {
    && e == d.(purse := e.purse)
    && CreditedFrom(d.purse.awards, e.purse.awards, user, 0)
    && e.purse.book.balances.Keys == d.purse.book.balances.Keys
    && forall u :: u in d.purse.book.balances ==>
       e.purse.book.balances[u] == d.purse.book.balances[u] + if u == user then HeldSum(d.purse.awards, user) else 0
  }

  /**
   * Carrying a verdict out: an open case or one of another tournament does nothing; a
   * clearance pays the player's held prizes unless another case waits or the wallet is
   * overdrawn; a disqualification strikes the player, out of a running match as well.
   */
  lemma {:induction false} VerdictIsRight(o: Office, ids: Ids, id: nat)
    requires AllReasoned(o, ids) && id in o.cases
    ensures var c, d, e := o.cases[id], o.desk, Act(o, ids, Reconcile(id)).desk;
      if Undecided(c) || c.tournament != Some(ids.tournament) then e == d
      else if c.status == Disqualified then
        && (c.user !in d.registrations ==> e == d)
        && (c.user in d.registrations && ActiveMatchesOf(d.tree, c.user) == {} ==> e == D.Expel(d, c.user))
        && forall key :: c.user in d.registrations && key in ActiveMatchesOf(d.tree, c.user) ==>
           e == Committed(d, D.ApplyMatch(D.AfterForfeit(d, c.user, key), key, HeldAtSettlement(o.cases, ids)))
      else if Waits(o.cases, ids, c.user, false) ||
              (c.user in Holds(d.purse.awards) && d.purse.book.balances[c.user] < 0)
      then e == d
      else Credits(d, e, c.user)
  {
    var c := o.cases[id];
    if !Undecided(c) && c.tournament == Some(ids.tournament) {
      if c.status == Disqualified {
        D.DisqualifySane(o.desk, c.user, HeldAtSettlement(o.cases, ids));
      } else {
        ClearanceIsRight(o, ids, c.user);
      }
    }
  }

  lemma {:induction false} ClearanceIsRight(o: Office, ids: Ids, user: UserId)
    requires AllReasoned(o, ids)
    ensures var d, e := o.desk, Committed(o.desk, D.ReleaseDesk(o.desk, user, StillOpen(o.cases, ids, user)));
      if Waits(o.cases, ids, user, false) || (user in Holds(d.purse.awards) && d.purse.book.balances[user] < 0)
      then e == d else Credits(d, e, user)
  {
    var d, stillOpen := o.desk, StillOpen(o.cases, ids, user);
    DisputedAre(o.cases, ids, user);
    HeldForIsHolds(d.purse.awards, user);
    S.ReleaseSound(d.purse, user, stillOpen);
    if S.Release(d.purse, user, stillOpen).Ok? { ReleaseIsRight(d.purse, user, stillOpen); }
  }

  // ---- every run ----------------------------------------------------------------------------

  /** Both are about the same player and the same matter. */
  predicate SameMatter(c: Case, f: Case) {
    c.user == f.user && c.tournament == f.tournament && c.game == f.game
  }

  ghost predicate WasFiled(start: map<nat, Case>, done: seq<Action>, id: nat, c: Case) {
    || (id in start && SameMatter(c, start[id]))
    || exists k :: 0 <= k < |done| && done[k].File? && done[k].id == id && SameMatter(c, done[k].filed)
  }

  ghost predicate WasClosed(start: map<nat, Case>, done: seq<Action>, id: nat, c: Case) {
    || (id in start && start[id] == c)
    || (c.resolver.Some? && Resolve(id, c.status, c.resolver.value, c.note) in done)
  }

  /** A case was filed as it is, and a closed one was closed by the admin, with the verdict and the note it carries. */
  ghost predicate CaseJustified(start: map<nat, Case>, done: seq<Action>, cases: map<nat, Case>, id: nat) {
    id in cases ==>
      WasFiled(start, done, id, cases[id]) && (Undecided(cases[id]) || WasClosed(start, done, id, cases[id]))
  }

  /** Nobody is disqualified without a case that names the tournament and was closed with that verdict. */
  ghost predicate StrikeJustified(d: D.Desk, o: Office, ids: Ids, user: UserId) {
    user in d.registrations ==>
      && user in o.desk.registrations
      && (o.desk.registrations[user].disqualified ==>
            d.registrations[user].disqualified || exists id :: id in o.cases && Struck(o.cases[id], ids, user))
  }

  predicate Struck(c: Case, ids: Ids, user: UserId) {
    c.user == user && c.status == Disqualified && c.tournament == Some(ids.tournament)
  }

  lemma {:induction false} CaseStaysJustified(start: map<nat, Case>, done: seq<Action>, o: Office, ids: Ids, a: Action,
      id: nat)
    requires |o.desk.tree.members| == |o.desk.tree.teams| && CaseJustified(start, done, o.cases, id)
    ensures CaseJustified(start, done + [a], Act(o, ids, a).cases, id)
  {
    var more, n := done + [a], Act(o, ids, a);
    CaseIsRight(o, ids, a, id);
    assert more[|done|] == a && forall k :: 0 <= k < |done| ==> more[k] == done[k];
    if id in o.cases {
      assert WasFiled(start, done, id, o.cases[id]);
      if !(id in start && SameMatter(o.cases[id], start[id])) {
        var k :| 0 <= k < |done| && done[k].File? && done[k].id == id && SameMatter(o.cases[id], done[k].filed);
        assert more[k].File? && SameMatter(n.cases[id], more[k].filed);
      }
    } else if id in n.cases {
      assert more[|done|].File? && SameMatter(n.cases[id], more[|done|].filed);
    }
  }

  lemma {:induction false} ResultStrikesNobody(d: D.Desk, key: Key, disputed: set<UserId>, user: UserId)
    requires D.Sane(d) && user in d.registrations
    ensures var e := Committed(d, D.ApplyMatch(d, key, disputed));
      user in e.registrations && e.registrations[user].disqualified == d.registrations[user].disqualified
  {
  }

  lemma {:induction false} VerdictStrikesOne(o: Office, ids: Ids, id: nat, user: UserId)
    requires AllReasoned(o, ids) && id in o.cases && user in o.desk.registrations
    ensures var e := Act(o, ids, Reconcile(id)).desk;
      && user in e.registrations
      && (e.registrations[user].disqualified ==>
         o.desk.registrations[user].disqualified || Struck(o.cases[id], ids, user))
  {
    VerdictIsRight(o, ids, id);
    var c := o.cases[id];
    if c.user in o.desk.registrations {
      if key :| key in ActiveMatchesOf(o.desk.tree, c.user) {
        D.ForfeitedSane(o.desk, c.user, key);
        ResultStrikesNobody(D.AfterForfeit(o.desk, c.user, key), key, HeldAtSettlement(o.cases, ids), user);
      }
    }
  }

  lemma {:induction false} OnlyVerdictsStrike(o: Office, ids: Ids, a: Action, user: UserId)
    requires AllReasoned(o, ids) && user in o.desk.registrations
    ensures user in Act(o, ids, a).desk.registrations
    ensures Act(o, ids, a).desk.registrations[user].disqualified ==>
      o.desk.registrations[user].disqualified || (a.Reconcile? && a.id in o.cases && Struck(o.cases[a.id], ids, user))
  {
    match a {
      case Reconcile(id) => if id in o.cases { VerdictStrikesOne(o, ids, id, user); }
      case ApplyResult(key) => ResultStrikesNobody(o.desk, key, HeldAtSettlement(o.cases, ids), user);
      case _ =>
    }
  }

  lemma {:induction false} StrikeStaysJustified(d: D.Desk, o: Office, ids: Ids, a: Action, user: UserId)
    requires AllReasoned(o, ids) && StrikeJustified(d, o, ids, user)
    ensures StrikeJustified(d, Act(o, ids, a), ids, user)
  {
    if user in d.registrations {
      var n := Act(o, ids, a);
      OnlyVerdictsStrike(o, ids, a, user);
      if n.desk.registrations[user].disqualified && !d.registrations[user].disqualified {
        var id :| id in o.cases && Struck(o.cases[id], ids, user);
        CaseIsRight(o, ids, a, id);
        assert Struck(n.cases[id], ids, user);
      }
    }
  }

  lemma {:induction false} StepReasons(o: Office, ids: Ids, a: Action)
    requires AllReasoned(o, ids)
    ensures AllReasoned(Act(o, ids, a), ids)
  {
    if a.File? || a.Appeal? || a.Resolve? {
      CaseStepKeepsReasons(o, ids, a);
    } else if a.Reconcile? {
      ReconcileKeepsReasons(o, ids, a.id);
    } else {
      DeskStepKeepsReasons(o, ids, a);
    }
  }

  lemma {:induction false} CasesStayJustified(start: map<nat, Case>, done: seq<Action>, o: Office, ids: Ids,
      actions: seq<Action>, q: Office, id: nat)
    requires Reaches(o, ids, actions, q) && CaseJustified(start, done, o.cases, id)
    ensures CaseJustified(start, done + actions, q.cases, id)
    decreases |actions|
  {
    if actions == [] {
      assert done + actions == done;
    } else {
      CaseStaysJustified(start, done, o, ids, actions[0], id);
      CasesStayJustified(start, done + [actions[0]], Act(o, ids, actions[0]), ids, actions[1..], q, id);
      assert done + [actions[0]] + actions[1..] == done + actions;
    }
  }

  lemma {:induction false} StrikesStayJustified(d: D.Desk, o: Office, ids: Ids, actions: seq<Action>, q: Office,
      user: UserId)
    requires AllReasoned(o, ids) && Reaches(o, ids, actions, q) && StrikeJustified(d, o, ids, user)
    ensures StrikeJustified(d, q, ids, user)
    decreases |actions|
  {
    if actions != [] {
      StrikeStaysJustified(d, o, ids, actions[0], user);
      StepReasons(o, ids, actions[0]);
      StrikesStayJustified(d, Act(o, ids, actions[0]), ids, actions[1..], q, user);
    }
  }

  /**
   * Over every run from a drawn tournament each case is about the player and the matter it
   * was filed for, a closed one was closed by the admin and with the verdict and note it
   * carries, and a player is disqualified only by a case closed with that verdict.
   */
  lemma {:induction false} EveryVerdictHasItsReason(d: D.Desk, hash: (nat, UserId) -> nat, seed: nat,
      players: seq<UserId>, cases: map<nat, Case>, ids: Ids, actions: seq<Action>, q: Office, id: nat, user: UserId)
    requires P.Drawable(d, players) && Reaches(AtStart(d, hash, seed, players, cases), ids, actions, q)
    ensures CaseJustified(cases, actions, q.cases, id) && StrikeJustified(d, q, ids, user)
  {
    var o := AtStart(d, hash, seed, players, cases);
    NothingHeldAtStart(d, hash, seed, players, cases, ids);
    if user in d.registrations { StartStrikesNobody(d, hash, seed, players, user); }
    CasesStayJustified(cases, [], o, ids, actions, q, id);
    StrikesStayJustified(d, o, ids, actions, q, user);
    assert [] + actions == actions;
  }

  lemma {:induction false} StartStrikesNobody(d: D.Desk, hash: (nat, UserId) -> nat, seed: nat, players: seq<UserId>,
      user: UserId)
    requires P.Drawable(d, players) && user in d.registrations
    ensures var e := D.Started(d, hash, seed, players);
      user in e.registrations && e.registrations[user].disqualified == d.registrations[user].disqualified
  {
    var draw := StableDraw(hash, seed, players);
    assert forall i :: 0 <= i < |draw| ==> draw[i] in multiset(draw);
    AssigningStrikesNobody(d.registrations, Teams(draw), |Teams(draw)|, user);
  }

  lemma {:induction false} AssigningStrikesNobody(registrations: map<UserId, D.Registration>, members: seq<Pair>,
      n: nat,
      user: UserId)
    requires n <= |members| && user in registrations
    requires forall t :: 0 <= t < |members| ==> members[t].first in registrations && members[t].second in registrations
    ensures D.AssignTeams(registrations, members, n)[user].disqualified == registrations[user].disqualified
  {
    if n > 0 { AssigningStrikesNobody(registrations, members, n - 1, user); }
  }
}
