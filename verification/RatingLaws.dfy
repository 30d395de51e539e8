/** What a match does to the ratings. */
module RatingLaws {
  // Elo told seat by seat: who counts, how strong the sides are, what each player gains or
  // loses, in which order matches are played, and what an entry and a page show.
  import opened Common
  import opened Leaderboard
  import opened Sorting

  // ---- the strength of a side ------------------------------------------------------------

  /** The seat of an eligible player who was not disqualified. */
  predicate CountsFor(s: Seat, eligible: set<UserId>) {
    s.user in eligible && !s.disqualified
  }

  function RatingOf(table: Table, user: UserId): int {
    if user in table then table[user].rating else 1500
  }

  /** How many seats of the side count. */
  function Heads(seats: seq<Seat>, eligible: set<UserId>, team: nat): nat {
    if seats == [] then 0
    else Heads(seats[1..], eligible, team) + if CountsFor(seats[0], eligible) && seats[0].team == team then 1 else 0
  }

  /** What their players' ratings add up to. */
  function Strength(table: Table, seats: seq<Seat>, eligible: set<UserId>, team: nat): int {
    if seats == [] then 0
    else
      var mine := if CountsFor(seats[0], eligible) && seats[0].team == team then RatingOf(table, seats[0].user) else 0;
      Strength(table, seats[1..], eligible, team) + mine
  }

  /** `x` is the mean rating of the counted seats of the side, of which there is one. */
  predicate MeanIs(table: Table, m: Match, eligible: set<UserId>, team: nat, x: real) {
    Heads(m.seats, eligible, team) > 0 &&
      IsMean(x, Heads(m.seats, eligible, team), Strength(table, m.seats, eligible, team))
  }

  predicate IsMean(x: real, n: nat, sum: int) {
    x * (n as real) == sum as real
  }

  /** The integer nearest to `z`, the higher one of two. */
  predicate Nearest(k: int, z: real) {
    k as real - 0.5 <= z < k as real + 0.5
  }

  // ---- one match ---------------------------------------------------------------------------

  /** What the players of side 0 gain, from the mean ratings `x` and `y` of the sides. */
  predicate Stake(delta: int, winnerTeam: nat, expected: Expected, x: real, y: real) {
    Nearest(delta, 24.0 * ((if winnerTeam == 0 then 1.0 else 0.0) - expected(x, y)))
  }

  /** The row of a player with a counted seat after the match. */
  predicate SeatPlayed(table: Table, after: Table, s: Seat, winnerTeam: nat, delta: int) {
    && s.user in after
    && after[s.user].rating == RatingOf(table, s.user) + (if s.team == 0 then delta else 0 - delta)
    && after[s.user].wins == (if s.user in table then table[s.user].wins else 0) +
                             (if s.team == winnerTeam then 1 else 0)
    && after[s.user].results == (if s.user in table then table[s.user].results else []) + [s.team == winnerTeam]
  }

  /** Every counted player is rated, everyone else is left alone; nothing counts unless both sides have someone. */
  ghost predicate MatchPlayed(table: Table, m: Match, eligible: set<UserId>, expected: Expected, after: Table) {
    if Heads(m.seats, eligible, 0) == 0 || Heads(m.seats, eligible, 1) == 0 then after == table
    else
      && (exists delta: int, x: real, y: real :: Rated(table, m, eligible, expected, after, delta, x, y))
      && (forall u :: (forall s :: s in m.seats && CountsFor(s, eligible) ==> s.user != u) ==>
            (u in after <==> u in table) && (u in table ==> after[u] == table[u]))
  }

  ghost predicate Rated(table: Table, m: Match, eligible: set<UserId>, expected: Expected, after: Table, delta: int,
      x: real, y: real) {
    && MeanIs(table, m, eligible, 0, x) && MeanIs(table, m, eligible, 1, y)
    && Stake(delta, m.winnerTeam, expected, x, y)
    && forall s :: s in m.seats && CountsFor(s, eligible) ==> SeatPlayed(table, after, s, m.winnerTeam, delta)
  }

  lemma {:induction false} SideCounts(seats: seq<Seat>, eligible: set<UserId>, team: nat)
    ensures |Side(Counted(seats, eligible), team)| == Heads(seats, eligible, team)
  {
    if seats != [] {
      SideCounts(seats[1..], eligible, team);
      SideOfMore(seats, eligible, team);
    }
  }

  lemma {:induction false} SideOfMore(seats: seq<Seat>, eligible: set<UserId>, team: nat)
    requires seats != []
    ensures Side(Counted(seats, eligible), team)
         == (if CountsFor(seats[0], eligible) && seats[0].team == team then [seats[0]] else [])
            + Side(Counted(seats[1..], eligible), team)
  {
    var rest := Counted(seats[1..], eligible);
    if CountsFor(seats[0], eligible) {
      assert ([seats[0]] + rest)[1..] == rest;
    }
  }

  lemma {:induction false} SumOfMore(table: Table, s: Seat, rest: seq<Seat>)
    ensures RatingSum(table, [s] + rest) == RatingOf(table, s.user) + RatingSum(table, rest)
    decreases |rest|
  {
    var all := [s] + rest;
    if rest == [] {
      assert all[..0] == [];
    } else {
      SumOfMore(table, s, rest[..|rest| - 1]);
      assert all[..|all| - 1] == [s] + rest[..|rest| - 1];
    }
  }

  lemma {:induction false} SideSums(table: Table, seats: seq<Seat>, eligible: set<UserId>, team: nat)
    ensures RatingSum(table, Side(Counted(seats, eligible), team)) == Strength(table, seats, eligible, team)
  {
    if seats != [] {
      SideSums(table, seats[1..], eligible, team);
      SideOfMore(seats, eligible, team);
      var rest := Side(Counted(seats[1..], eligible), team);
      SumOfMore(table, seats[0], rest);
      assert [] + rest == rest;
    }
  }

  lemma {:induction false} MeanIsAverage(table: Table, m: Match, eligible: set<UserId>, team: nat)
    requires Side(Counted(m.seats, eligible), team) != []
    ensures MeanIs(table, m, eligible, team, Average(table, Side(Counted(m.seats, eligible), team)))
  {
    SideCounts(m.seats, eligible, team);
    SideSums(table, m.seats, eligible, team);
    var side := Side(Counted(m.seats, eligible), team);
    QuotientIsMean(RatingSum(table, side), |side|);
  }

  lemma {:induction false} QuotientIsMean(sum: int, n: nat)
    requires n > 0
    ensures IsMean(sum as real / n as real, n, sum)
  {
  }

  lemma {:induction false} MeanIsQuotient(sum: int, n: nat, x: real)
    requires n > 0 && IsMean(x, n, sum)
    ensures x == sum as real / n as real
  {
  }

  /** Each match rates its players by the strength of the sides. */
  lemma {:induction false} MatchIsRated(table: Table, m: Match, eligible: set<UserId>, expected: Expected)
    requires OneSeatEach(m.seats)
    ensures MatchPlayed(table, m, eligible, expected, AfterMatch(table, m, eligible, expected))
  {
    var seats := Counted(m.seats, eligible);
    var zero, one := Side(seats, 0), Side(seats, 1);
    SideCounts(m.seats, eligible, 0);
    SideCounts(m.seats, eligible, 1);
    if zero != [] && one != [] {
      CountedOnce(m.seats, eligible);
      MeanIsAverage(table, m, eligible, 0);
      MeanIsAverage(table, m, eligible, 1);
      var delta := DeltaZero(table, zero, one, m.winnerTeam, expected);
      var after := AfterSeats(table, seats, m.winnerTeam, delta);
      SeatsPlayed(table, m, eligible, delta);
      assert Rated(table, m, eligible, expected, after, delta, Average(table, zero), Average(table, one));
      forall u | forall s :: s in m.seats && CountsFor(s, eligible) ==> s.user != u
        ensures (u in after <==> u in table) && (u in table ==> after[u] == table[u])
      {
        OthersUntouched(table, seats, m.winnerTeam, delta, u);
      }
    }
  }

  lemma {:induction false} SeatsPlayed(table: Table, m: Match, eligible: set<UserId>, delta: int)
    requires OneSeatEach(Counted(m.seats, eligible))
    ensures var after := AfterSeats(table, Counted(m.seats, eligible), m.winnerTeam, delta);
      forall s :: s in m.seats && CountsFor(s, eligible) ==> SeatPlayed(table, after, s, m.winnerTeam, delta)
  {
    var seats := Counted(m.seats, eligible);
    var after := AfterSeats(table, seats, m.winnerTeam, delta);
    forall s | s in m.seats && CountsFor(s, eligible) ensures SeatPlayed(table, after, s, m.winnerTeam, delta) {
      var i :| 0 <= i < |seats| && seats[i] == s;
      SeatsChange(table, seats, m.winnerTeam, delta, i);
    }
  }

  /**
   * For the mean ratings of the counted seats of the two sides: a counted player of side 0
   * moves by the whole number nearest to 24 times the result less the expected score, and
   * one of side 1 by its negative.
   */
  lemma {:induction false} EachSeatMoves(table: Table, m: Match, eligible: set<UserId>, expected: Expected, x: real,
      y: real, s: Seat) returns (delta: int)
    requires OneSeatEach(m.seats) && s in m.seats && CountsFor(s, eligible)
    requires MeanIs(table, m, eligible, 0, x) && MeanIs(table, m, eligible, 1, y)
    ensures Nearest(delta, 24.0 * ((if m.winnerTeam == 0 then 1.0 else 0.0) - expected(x, y)))
    ensures var after := AfterMatch(table, m, eligible, expected);
      s.user in after && after[s.user].rating
        == RatingOf(table, s.user) + if s.team == 0 then delta else 0 - delta
  {
    MatchIsRated(table, m, eligible, expected);
    var after := AfterMatch(table, m, eligible, expected);
    var change: int, a: real, b: real :| Rated(table, m, eligible, expected, after, change, a, b);
    OneMean(table, m, eligible, 0, x, a);
    OneMean(table, m, eligible, 1, y, b);
    delta := change;
  }

  // ---- favourites and outsiders ---------------------------------------------------------------

  /** The expected score rises with the own strength and falls with the opponents'. */
  ghost predicate Fair(expected: Expected) {
    forall a, b, c, d :: a <= c && d <= b ==> expected(a, b) <= expected(c, d)
  }

  /** The mean determines what is at stake. */
  lemma {:induction false} OneMean(table: Table, m: Match, eligible: set<UserId>, team: nat, x: real, y: real)
    requires MeanIs(table, m, eligible, team, x) && MeanIs(table, m, eligible, team, y)
    ensures x == y
  {
    MeanIsQuotient(Strength(table, m.seats, eligible, team), Heads(m.seats, eligible, team), x);
    MeanIsQuotient(Strength(table, m.seats, eligible, team), Heads(m.seats, eligible, team), y);
  }

  /** A stronger side against a weaker one never gains more from a win or loses less by a defeat. */
  lemma {:induction false} StrongerNeverGainsMore(winnerTeam: nat, expected: Expected, a: real, b: real, c: real,
      d: real, weak: int, strong: int)
    requires Fair(expected) && a <= c && d <= b
    requires Stake(weak, winnerTeam, expected, a, b) && Stake(strong, winnerTeam, expected, c, d)
    ensures strong <= weak
  {
    assert expected(a, b) <= expected(c, d);
  }

  // ---- a series of matches -----------------------------------------------------------------------

  /** Completed before now, and not before the period began. */
  predicate InTime(m: Match, start: Option<int>, now: int) {
    m.completedAt < now && (start.Some? ==> m.completedAt >= start.value)
  }

  /** The matches of the period, earliest first and by id at the same time. */
  ghost predicate InOrder(ordered: seq<Match>, matches: seq<Match>, start: Option<int>, now: int) {
    && (forall m :: multiset(ordered)[m] == if InTime(m, start, now) then multiset(matches)[m] else 0)
    && (forall i, j :: 0 <= i < j < |ordered| ==>
          ordered[i].completedAt < ordered[j].completedAt
          || (ordered[i].completedAt == ordered[j].completedAt && ordered[i].id <= ordered[j].id))
  }

  /** The tables between the matches. */
  ghost predicate Played(tables: seq<Table>, ordered: seq<Match>, eligible: set<UserId>, expected: Expected) {
    && |tables| == |ordered| + 1 && tables[0] == map[]
    && forall i: nat {:trigger PlayedAt(tables, ordered, eligible, expected, i)} :: i < |ordered| ==>
         PlayedAt(tables, ordered, eligible, expected, i)
  }

  ghost predicate PlayedAt(tables: seq<Table>, ordered: seq<Match>, eligible: set<UserId>, expected: Expected, i: nat)
    requires i < |ordered| && i + 1 < |tables|
  {
    MatchPlayed(tables[i], ordered[i], eligible, expected, tables[i + 1])
  }

  lemma {:induction false} OneMorePlayed(before: seq<Table>, ordered: seq<Match>, eligible: set<UserId>,
      expected: Expected, next: Table)
    requires ordered != [] && Played(before, ordered[..|ordered| - 1], eligible, expected)
    requires MatchPlayed(before[|ordered| - 1], ordered[|ordered| - 1], eligible, expected, next)
    ensures Played(before + [next], ordered, eligible, expected)
  {
    var init := ordered[..|ordered| - 1];
    forall i: nat | i < |ordered| ensures PlayedAt(before + [next], ordered, eligible, expected, i) {
      if i < |init| { assert PlayedAt(before, init, eligible, expected, i); }
    }
  }

  lemma {:induction false} SeriesIsPlayed(ordered: seq<Match>, eligible: set<UserId>, expected: Expected)
      returns (tables: seq<Table>)
    requires forall m :: m in ordered ==> OneSeatEach(m.seats)
    ensures Played(tables, ordered, eligible, expected)
    ensures tables[|ordered|] == AfterMatches(ordered, eligible, expected)
  {
    if ordered == [] {
      tables := [map[]];
    } else {
      var init, last := ordered[..|ordered| - 1], ordered[|ordered| - 1];
      var before := SeriesIsPlayed(init, eligible, expected);
      OneMoreMatch(ordered, eligible, expected);
      MatchIsRated(before[|init|], last, eligible, expected);
      OneMorePlayed(before, ordered, eligible, expected, AfterMatches(ordered, eligible, expected));
      tables := before + [AfterMatches(ordered, eligible, expected)];
    }
  }

  lemma {:induction false} ChosenAreCounted(matches: seq<Match>, start: Option<int>, now: int, m: Match)
    ensures multiset(Chosen(matches, start, now))[m]
         == if InTime(m, start, now) then multiset(matches)[m] else 0
  {
    ChosenCounts(matches, start, now, m);
  }

  /**
   * The rating table comes from playing exactly the matches of the period, in the order
   * they were completed, each rating its players by the strength of its two sides.
   */
  lemma {:induction false} TableComesFromPlaying(matches: seq<Match>, eligible: set<UserId>, start: Option<int>,
      now: int, expected: Expected) returns (ordered: seq<Match>, tables: seq<Table>)
    requires forall m :: m in matches ==> OneSeatEach(m.seats)
    ensures InOrder(ordered, matches, start, now) && Played(tables, ordered, eligible, expected)
    ensures tables[|ordered|] == FinalTable(matches, eligible, start, now, expected)
  {
    ordered := Sort(Chosen(matches, start, now), Earlier());
    SortedInOrder(matches, start, now);
    forall m | m in ordered ensures OneSeatEach(m.seats) {
      assert multiset(ordered)[m] > 0;
    }
    tables := SeriesIsPlayed(ordered, eligible, expected);
  }

  lemma {:induction false} SortedInOrder(matches: seq<Match>, start: Option<int>, now: int)
    ensures InOrder(Sort(Chosen(matches, start, now), Earlier()), matches, start, now)
  {
    var ordered := Sort(Chosen(matches, start, now), Earlier());
    forall m ensures multiset(ordered)[m] == if InTime(m, start, now) then multiset(matches)[m] else 0 {
      ChosenAreCounted(matches, start, now, m);
    }
    EarlierIsPreorder();
    SortSorts(Chosen(matches, start, now), Earlier());
    forall i, j | 0 <= i < j < |ordered|
      ensures ordered[i].completedAt < ordered[j].completedAt
           || (ordered[i].completedAt == ordered[j].completedAt && ordered[i].id <= ordered[j].id)
    {
      assert Earlier()(ordered[i], ordered[j]);
    }
  }

  lemma {:induction false} EarlierIsPreorder()
    ensures Preorder(Earlier())
  {
    forall a, b, c | Earlier()(a, b) && Earlier()(b, c) ensures Earlier()(a, c) {}
    forall a, b ensures Earlier()(a, b) || Earlier()(b, a) {}
  }

  // ---- what is shown ------------------------------------------------------------------------------

  /** `k` is the length of the run of wins at the end. */
  predicate RunOfWins(results: seq<bool>, k: nat) {
    && k <= |results| && (forall i :: |results| - k <= i < |results| ==> results[i])
    && (k < |results| ==> !results[|results| - k - 1])
  }

  /** The percentage of games won, to the nearest point. */
  predicate ShareOfWins(percent: int, wins: nat, games: nat)
    requires games > 0
  {
    Nearest(percent, wins as real / games as real * 100.0)
  }

  /** An entry of the listing tells what the table has of its player. */
  predicate Tells(e: Entry, table: Table) {
    && e.player in table && e.rating == table[e.player].rating && e.wins == table[e.player].wins
    && e.games == |table[e.player].results| > 0 && RunOfWins(table[e.player].results, e.streak)
    && ShareOfWins(e.winRate, e.wins, e.games)
  }

  predicate Ahead(a: Entry, b: Entry) {
    a.rating > b.rating || (a.rating == b.rating && (a.wins > b.wins || (a.wins == b.wins && a.games > b.games)))
  }

  /** By rating, wins and games, then by name and id. */
  predicate Before(a: Entry, b: Entry, name: UserId -> int) {
    Ahead(a, b) || (a.rating == b.rating && a.wins == b.wins && a.games == b.games &&
      (name(a.player) < name(b.player) || (name(a.player) == name(b.player) && a.player <= b.player)))
  }

  /** The entries strictly ahead of `e`. */
  ghost function AheadOf(entries: seq<Entry>, e: Entry): set<int> {
    set j | 0 <= j < |entries| && Ahead(entries[j], e)
  }

  /** Those of them from one country. */
  ghost function AheadAtHome(entries: seq<Entry>, e: Entry, home: Option<nat>,
      country: UserId -> Option<nat>): set<int> {
    set j | 0 <= j < |entries| && country(entries[j].player) == home && Ahead(entries[j], e)
  }

  /** Everybody in the table is listed once, with what the table has of the player. */
  lemma {:induction false} ListingTells(entries: seq<Entry>, table: Table, name: UserId -> int)
    requires IsListing(entries, table, name)
    ensures forall i :: 0 <= i < |entries| ==> Tells(entries[i], table)
    ensures forall i, j :: 0 <= i < j < |entries| ==> entries[i].player != entries[j].player
    ensures forall u :: u in table ==> exists i :: 0 <= i < |entries| && entries[i].player == u
  {
    forall i | 0 <= i < |entries| ensures Tells(entries[i], table) { assert Shows(entries[i], table); }
    forall u | u in table ensures exists i :: 0 <= i < |entries| && entries[i].player == u {
      assert Has(entries, u);
    }
  }

  /** The listing is in this order, and an entry's rank is one more than the entries strictly ahead of it. */
  lemma {:induction false} ListedInOrder(entries: seq<Entry>, table: Table, name: UserId -> int)
    requires IsListing(entries, table, name)
    ensures forall i, j :: 0 <= i < j < |entries| ==> Before(entries[i], entries[j], name)
    ensures forall i :: 0 <= i < |entries| ==> entries[i].rank == 1 + |AheadOf(entries, entries[i])|
  {
    forall i, j | 0 <= i < j < |entries| ensures Before(entries[i], entries[j], name) {
      assert Listing(name)(entries[i], entries[j]);
    }
    forall i | 0 <= i < |entries| ensures entries[i].rank == 1 + |AheadOf(entries, entries[i])| {
      assert RankedAt(entries, i);
      BetterIsAhead(entries, entries[i]);
    }
  }

  lemma {:induction false} BetterIsAhead(entries: seq<Entry>, e: Entry)
    ensures BetterThan(entries, e) == AheadOf(entries, e)
  {
  }

  /** The page holds the entries from `(page - 1) * limit` on, `limit` of them unless the list ends before. */
  lemma {:induction false} PageHolds(entries: seq<Entry>, page: nat, limit: nat)
    requires page >= 1
    ensures var items := Page(entries, page, limit); var from := (page - 1) * limit;
      && (from >= |entries| ==> items == [])
      && (from <= |entries| <= from + limit ==> items == entries[from..])
      && (from + limit <= |entries| ==> items == entries[from..from + limit])
  {
  }

  /** The percentile is the least whole number that is not below the rank's share of the list. */
  predicate Percent(p: int, rank: nat, total: nat) {
    100 * rank <= p * total < 100 * rank + total
  }

  lemma {:induction false} PercentileIs(rank: nat, total: nat)
    requires 1 <= rank <= total
    ensures Percent(Percentile(rank, total), rank, total)
  {
    var q := (100 * rank + total - 1) / total;
    assert total * q <= 100 * rank + total - 1 < total * q + total;
    assert q <= 0 ==> total * q <= 0;
  }

  /** The viewer's card: the viewer's entry, its percentile, and the rank among the viewer's country. */
  lemma {:induction false} CardTells(entries: seq<Entry>, table: Table, name: UserId -> int, me: Option<Me>,
      viewer: UserId, country: UserId -> Option<nat>)
    requires IsListing(entries, table, name) && IsCard(me, entries, viewer, country)
    ensures me.Some? <==> viewer in table
    ensures me.Some? ==> var e := me.value.entry;
      && e in entries && e.player == viewer && Percent(me.value.percentile, e.rank, |entries|)
      && me.value.localRank == if country(viewer) == None then None
                               else Some(1 + |AheadAtHome(entries, e, country(viewer), country)|)
  {
    ListedExactly(entries, table, name, viewer);
    if me.Some? {
      var e := me.value.entry;
      var i :| 0 <= i < |entries| && entries[i] == e;
      assert RankedAt(entries, i);
      PercentileInRange(entries, i);
      PercentileIs(e.rank, |entries|);
      BetterAtHome(entries, e, country);
    }
  }

  /** A player's country is the one of the player's row. */
  lemma {:induction false} CountryIs(players: seq<Player>, i: nat)
    requires i < |players| && forall j, k :: 0 <= j < k < |players| ==> players[j].id != players[k].id
    ensures CountryOf(players, players[i].id) == players[i].country
  {
    if i > 0 { CountryIs(players[1..], i - 1); }
  }

  lemma {:induction false} ListedExactly(entries: seq<Entry>, table: Table, name: UserId -> int, user: UserId)
    requires IsListing(entries, table, name)
    ensures Has(entries, user) <==> user in table
  {
    if Has(entries, user) {
      var i :| 0 <= i < |entries| && entries[i].player == user;
      assert Shows(entries[i], table);
    }
  }

  lemma {:induction false} BetterAtHome(entries: seq<Entry>, e: Entry, country: UserId -> Option<nat>)
    ensures BetterLocally(entries, e, country) == AheadAtHome(entries, e, country(e.player), country)
  {
  }

  /** The active, visible players can be listed. */
  lemma {:induction false} EligibleAre(players: seq<Player>, user: UserId)
    ensures user in Eligible(players) <==>
      exists i :: 0 <= i < |players| && players[i].id == user && players[i].active && players[i].visible
  {
  }
}
