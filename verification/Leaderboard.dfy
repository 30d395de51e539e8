/** The leaderboard of ratings by team Elo. */
module Leaderboard {
  // Rating fold, competition ranking, local rank and percentile.
  import opened Common
  import opened Sorting

  datatype Seat = Seat(user: UserId, team: nat, disqualified: bool)
  datatype Match = Match(id: nat, completedAt: int, winnerTeam: nat, seats: seq<Seat>)
  datatype Player = Player(id: UserId, country: Option<nat>, active: bool, visible: bool)
  datatype Stats = Stats(rating: int, wins: nat, results: seq<bool>)

  type Table = map<UserId, Stats>

  /** Expected score of side zero against side one, from the two average ratings. */
  type Expected = (real, real) -> real

  const INITIAL_RATING := 1500
  const K_FACTOR := 24.0

  ghost predicate Probability(expected: Expected) {
    forall a, b :: 0.0 <= expected(a, b) <= 1.0
  }

  // ---- one match ---------------------------------------------------------------

  function StatsOf(table: Table, user: UserId): Stats {
    if user in table then table[user] else Stats(INITIAL_RATING, 0, [])
  }

  function Counted(seats: seq<Seat>, eligible: set<UserId>): (r: seq<Seat>)
    ensures forall i :: 0 <= i < |r| ==> r[i] in seats && r[i].user in eligible && !r[i].disqualified
    ensures forall s :: s in seats && s.user in eligible && !s.disqualified ==> s in r
  {
    if seats == [] then []
    else
      assert seats == [seats[0]] + seats[1..];
      if seats[0].user in eligible && !seats[0].disqualified then [seats[0]] + Counted(seats[1..], eligible)
      else Counted(seats[1..], eligible)
  }

  function Side(seats: seq<Seat>, team: nat): seq<Seat> {
    if seats == [] then []
    else if seats[0].team == team then [seats[0]] + Side(seats[1..], team)
    else Side(seats[1..], team)
  }

  function RatingSum(table: Table, seats: seq<Seat>): int {
    if seats == [] then 0
    else RatingSum(table, seats[..|seats| - 1]) + StatsOf(table, seats[|seats| - 1].user).rating
  }

  function Average(table: Table, seats: seq<Seat>): real
    requires seats != []
  {
    RatingSum(table, seats) as real / |seats| as real
  }

  /** `Math.round`: halves go up. */
  function RoundHalfUp(x: real): int {
    (x + 0.5).Floor
  }

  function DeltaZero(table: Table, zero: seq<Seat>, one: seq<Seat>, winnerTeam: nat, expected: Expected): int
    requires zero != [] && one != []
  {
    RoundHalfUp(K_FACTOR * ((if winnerTeam == 0 then 1.0 else 0.0) -
      expected(Average(table, zero), Average(table, one))))
  }

  function AfterSeat(table: Table, seat: Seat, winnerTeam: nat, delta: int): Table {
    var item := StatsOf(table, seat.user);
    var won := seat.team == winnerTeam;
    table[seat.user := Stats(item.rating + (if seat.team == 0 then delta else -delta),
                             item.wins + (if won then 1 else 0),
                             item.results + [won])]
  }

  function AfterSeats(table: Table, seats: seq<Seat>, winnerTeam: nat, delta: int): Table {
    if seats == [] then table
    else AfterSeat(AfterSeats(table, seats[..|seats| - 1], winnerTeam, delta), seats[|seats| - 1], winnerTeam, delta)
  }

  /** A match counts only when both sides keep at least one counted player. */
  function AfterMatch(table: Table, m: Match, eligible: set<UserId>, expected: Expected): Table {
    var seats := Counted(m.seats, eligible);
    var zero, one := Side(seats, 0), Side(seats, 1);
    if zero == [] || one == [] then table
    else AfterSeats(table, seats, m.winnerTeam, DeltaZero(table, zero, one, m.winnerTeam, expected))
  }

  function AfterMatches(matches: seq<Match>, eligible: set<UserId>, expected: Expected): Table {
    if matches == [] then map[]
    else AfterMatch(AfterMatches(matches[..|matches| - 1], eligible, expected), matches[|matches| - 1], eligible,
      expected)
  }

  // ---- choosing and ordering the matches ----------------------------------------------

  predicate InPeriod(m: Match, start: Option<int>, now: int) {
    m.completedAt < now && (start == None || start.value <= m.completedAt)
  }

  function Chosen(matches: seq<Match>, start: Option<int>, now: int): (r: seq<Match>)
    ensures forall m :: m in r <==> m in matches && InPeriod(m, start, now)
  {
    if matches == [] then []
    else
      assert matches == [matches[0]] + matches[1..];
      if InPeriod(matches[0], start, now) then [matches[0]] + Chosen(matches[1..], start, now)
      else Chosen(matches[1..], start, now)
  }

  function Earlier(): (Match, Match) -> bool {
    (a: Match, b: Match) => a.completedAt < b.completedAt || (a.completedAt == b.completedAt && a.id <= b.id)
  }

  function FinalTable(matches: seq<Match>, eligible: set<UserId>, start: Option<int>, now: int,
      expected: Expected): Table {
    AfterMatches(Sort(Chosen(matches, start, now), Earlier()), eligible, expected)
  }

  ghost predicate DistinctIds(matches: seq<Match>) {
    forall i, j :: 0 <= i < j < |matches| ==> matches[i].id != matches[j].id
  }

  lemma {:induction false} ChosenCounts(matches: seq<Match>, start: Option<int>, now: int, m: Match)
    ensures multiset(Chosen(matches, start, now))[m] == if InPeriod(m, start, now) then multiset(matches)[m] else 0
  {
    if matches != [] {
      assert matches == [matches[0]] + matches[1..];
      ChosenCounts(matches[1..], start, now, m);
    }
  }

  /** The ratings do not depend on the order in which the matches are read. */
  lemma {:induction false} OrderDoesNotMatter(a: seq<Match>, b: seq<Match>, eligible: set<UserId>, start: Option<int>,
      now: int, expected: Expected)
    requires multiset(a) == multiset(b) && DistinctIds(a)
    ensures FinalTable(a, eligible, start, now, expected) == FinalTable(b, eligible, start, now, expected)
  {
    var c, d := Chosen(a, start, now), Chosen(b, start, now);
    forall m ensures multiset(c)[m] == multiset(d)[m] {
      ChosenCounts(a, start, now, m);
      ChosenCounts(b, start, now, m);
    }
    assert multiset(c) == multiset(d);
    assert NoTies(c, Earlier()) by {
      forall x, y | x in c && y in c && Earlier()(x, y) && Earlier()(y, x) ensures x == y {
        var i :| 0 <= i < |a| && a[i] == x;
        var j :| 0 <= j < |a| && a[j] == y;
      }
    }
    SortIgnoresOrder(c, d, Earlier());
  }

  // ---- what one match does to the ratings ------------------------------------------------

  lemma {:induction false} DeltaBounds(table: Table, zero: seq<Seat>, one: seq<Seat>, winnerTeam: nat,
      expected: Expected)
    requires zero != [] && one != [] && Probability(expected)
    ensures var delta := DeltaZero(table, zero, one, winnerTeam, expected);
      && -24 <= delta <= 24
      && (winnerTeam == 0 ==> delta >= 0)
      && (winnerTeam != 0 ==> delta <= 0)
  {
    var e := expected(Average(table, zero), Average(table, one));
    assert 0.0 <= e <= 1.0;
  }

  ghost predicate OneSeatEach(seats: seq<Seat>) {
    forall i, j :: 0 <= i < j < |seats| ==> seats[i].user != seats[j].user
  }

  /** The change a counted seat brings. */
  function Change(seat: Seat, delta: int): int {
    if seat.team == 0 then delta else -delta
  }

  lemma {:induction false} SeatsChange(table: Table, seats: seq<Seat>, winnerTeam: nat, delta: int, i: nat)
    requires OneSeatEach(seats) && i < |seats|
    ensures var after := AfterSeats(table, seats, winnerTeam, delta); var u := seats[i].user;
      && u in after
      && after[u].rating == StatsOf(table, u).rating + Change(seats[i], delta)
      && after[u].wins == StatsOf(table, u).wins + (if seats[i].team == winnerTeam then 1 else 0)
      && after[u].results == StatsOf(table, u).results + [seats[i].team == winnerTeam]
    decreases |seats|
  {
    var init := seats[..|seats| - 1];
    if i < |seats| - 1 {
      SeatsChange(table, init, winnerTeam, delta, i);
    } else {
      OthersUntouched(table, init, winnerTeam, delta, seats[i].user);
    }
  }

  lemma {:induction false} OthersUntouched(table: Table, seats: seq<Seat>, winnerTeam: nat, delta: int, user: UserId)
    requires forall i :: 0 <= i < |seats| ==> seats[i].user != user
    ensures StatsOf(AfterSeats(table, seats, winnerTeam, delta), user) == StatsOf(table, user)
    ensures user in AfterSeats(table, seats, winnerTeam, delta) <==> user in table
    decreases |seats|
  {
    if seats != [] { OthersUntouched(table, seats[..|seats| - 1], winnerTeam, delta, user); }
  }

  lemma {:induction false} CountedOnce(seats: seq<Seat>, eligible: set<UserId>)
    requires OneSeatEach(seats)
    ensures OneSeatEach(Counted(seats, eligible))
  {
    if seats != [] {
      CountedOnce(seats[1..], eligible);
      forall j | 0 <= j < |Counted(seats[1..], eligible)|
        ensures Counted(seats[1..], eligible)[j].user != seats[0].user
      {
        assert Counted(seats[1..], eligible)[j] in seats[1..];
      }
    }
  }

  ghost predicate TwoSides(m: Match) {
    m.winnerTeam < 2 && OneSeatEach(m.seats) && forall i :: 0 <= i < |m.seats| ==> m.seats[i].team < 2
  }

  /** A counted winner never loses rating, a counted loser never gains, and nobody moves by more than 24. */
  lemma {:induction false} WinnersNeverLose(table: Table, m: Match, eligible: set<UserId>, expected: Expected,
      seat: Seat)
    requires Probability(expected) && TwoSides(m) && seat in Counted(m.seats, eligible)
    ensures var change := StatsOf(AfterMatch(table, m, eligible, expected), seat.user).rating -
      StatsOf(table, seat.user).rating;
      && (seat.team == m.winnerTeam ==> 0 <= change <= 24)
      && (seat.team != m.winnerTeam ==> -24 <= change <= 0)
  {
    var seats := Counted(m.seats, eligible);
    var zero, one := Side(seats, 0), Side(seats, 1);
    if zero != [] && one != [] {
      CountedOnce(m.seats, eligible);
      var i :| 0 <= i < |seats| && seats[i] == seat;
      DeltaBounds(table, zero, one, m.winnerTeam, expected);
      SeatsChange(table, seats, m.winnerTeam, DeltaZero(table, zero, one, m.winnerTeam, expected), i);
    }
  }

  // ---- what holds for every player ----------------------------------------------------------

  function Wins(results: seq<bool>): nat {
    if results == [] then 0 else Wins(results[..|results| - 1]) + (if results[|results| - 1] then 1 else 0)
  }

  lemma {:induction false} WinsWithin(results: seq<bool>)
    ensures Wins(results) <= |results|
  {
    if results != [] { WinsWithin(results[..|results| - 1]); }
  }

  ghost predicate StatsOk(item: Stats) {
    && item.wins == Wins(item.results)
    && -24 * |item.results| <= item.rating - INITIAL_RATING <= 24 * |item.results|
  }

  ghost predicate TableOk(table: Table, eligible: set<UserId>) {
    table.Keys <= eligible && forall u :: u in table ==> StatsOk(table[u]) && |table[u].results| >= 1
  }

  lemma {:induction false} SeatKeepsOk(item: Stats, won: bool, change: int)
    requires StatsOk(item) && -24 <= change <= 24
    ensures StatsOk(Stats(item.rating + change, item.wins + (if won then 1 else 0), item.results + [won]))
  {
    assert (item.results + [won])[..|item.results|] == item.results;
  }

  lemma {:induction false} SeatsKeepOk(table: Table, seats: seq<Seat>, winnerTeam: nat, delta: int,
      eligible: set<UserId>)
    requires TableOk(table, eligible) && -24 <= delta <= 24
    requires forall i :: 0 <= i < |seats| ==> seats[i].user in eligible
    ensures TableOk(AfterSeats(table, seats, winnerTeam, delta), eligible)
    decreases |seats|
  {
    if seats != [] {
      var init := AfterSeats(table, seats[..|seats| - 1], winnerTeam, delta);
      SeatsKeepOk(table, seats[..|seats| - 1], winnerTeam, delta, eligible);
      RowKeepsOk(init, seats[|seats| - 1], winnerTeam, delta, eligible);
    }
  }

  lemma {:induction false} RowKeepsOk(table: Table, seat: Seat, winnerTeam: nat, delta: int, eligible: set<UserId>)
    requires TableOk(table, eligible) && -24 <= delta <= 24 && seat.user in eligible
    ensures TableOk(AfterSeat(table, seat, winnerTeam, delta), eligible)
  {
    NewcomerIsOk();
    SeatKeepsOk(StatsOf(table, seat.user), seat.team == winnerTeam, Change(seat, delta));
  }

  lemma {:induction false} NewcomerIsOk()
    ensures StatsOk(Stats(INITIAL_RATING, 0, []))
  {
  }

  /**
   * Ratings stay within 24 points per game of 1500, wins are counted games won, and nobody without a game is listed.
   */
  lemma {:induction false} TableIsOk(matches: seq<Match>, eligible: set<UserId>, expected: Expected)
    requires Probability(expected)
    ensures TableOk(AfterMatches(matches, eligible, expected), eligible)
    decreases |matches|
  {
    if matches != [] {
      var init, m := AfterMatches(matches[..|matches| - 1], eligible, expected), matches[|matches| - 1];
      TableIsOk(matches[..|matches| - 1], eligible, expected);
      var seats := Counted(m.seats, eligible);
      var zero, one := Side(seats, 0), Side(seats, 1);
      if zero != [] && one != [] {
        DeltaBounds(init, zero, one, m.winnerTeam, expected);
        SeatsKeepOk(init, seats, m.winnerTeam, DeltaZero(init, zero, one, m.winnerTeam, expected), eligible);
      }
    }
  }

  // ---- conservation ------------------------------------------------------------------------------

  /** Ratings of all these players; whoever has not played counts 1500. */
  function TotalRating(table: Table, ids: seq<UserId>): int {
    if ids == [] then 0 else TotalRating(table, ids[..|ids| - 1]) + StatsOf(table, ids[|ids| - 1]).rating
  }

  lemma {:induction false} TotalAfterUpdate(table: Table, ids: seq<UserId>, user: UserId, item: Stats)
    requires NoRepeats(ids)
    ensures TotalRating(table[user := item], ids)
         == TotalRating(table, ids) + (if user in ids then item.rating - StatsOf(table, user).rating else 0)
    decreases |ids|
  {
    if ids != [] {
      var init := ids[..|ids| - 1];
      TotalAfterUpdate(table, init, user, item);
      assert ids == init + [ids[|ids| - 1]];
    }
  }

  /** Seats on side zero minus the others. */
  function Surplus(seats: seq<Seat>): int {
    if seats == [] then 0 else Surplus(seats[..|seats| - 1]) + (if seats[|seats| - 1].team == 0 then 1 else -1)
  }

  lemma {:induction false} SeatsShiftTotal(table: Table, seats: seq<Seat>, winnerTeam: nat, delta: int,
      ids: seq<UserId>)
    requires NoRepeats(ids) && forall i :: 0 <= i < |seats| ==> seats[i].user in ids
    ensures TotalRating(AfterSeats(table, seats, winnerTeam, delta), ids)
      == TotalRating(table, ids) + delta * Surplus(seats)
    decreases |seats|
  {
    if seats != [] {
      var init, last := seats[..|seats| - 1], seats[|seats| - 1];
      SeatsShiftTotal(table, init, winnerTeam, delta, ids);
      var before := AfterSeats(table, init, winnerTeam, delta);
      TotalAfterUpdate(before, ids, last.user, AfterSeat(before, last, winnerTeam, delta)[last.user]);
      var step := if last.team == 0 then 1 else -1;
      assert delta * (Surplus(init) + step) == delta * Surplus(init) + Change(last, delta);
    }
  }

  /** The shift of one match is its rounded delta times the difference in counted seats. */
  lemma {:induction false} MatchShiftsTotal(table: Table, m: Match, eligible: set<UserId>, expected: Expected,
      ids: seq<UserId>)
    requires NoRepeats(ids) && forall u :: u in ids <==> u in eligible
    ensures var seats := Counted(m.seats, eligible);
      TotalRating(AfterMatch(table, m, eligible, expected), ids) - TotalRating(table, ids)
      == if Side(seats, 0) == [] || Side(seats, 1) == [] then 0
         else DeltaZero(table, Side(seats, 0), Side(seats, 1), m.winnerTeam, expected) * Surplus(seats)
  {
    var seats := Counted(m.seats, eligible);
    if Side(seats, 0) != [] && Side(seats, 1) != [] {
      SeatsShiftTotal(table, seats, m.winnerTeam,
        DeltaZero(table, Side(seats, 0), Side(seats, 1), m.winnerTeam, expected), ids);
    }
  }

  ghost predicate Balanced(m: Match, eligible: set<UserId>) {
    var seats := Counted(m.seats, eligible);
    Side(seats, 0) == [] || Side(seats, 1) == [] || Surplus(seats) == 0
  }

  lemma {:induction false} TotalOfNewcomers(ids: seq<UserId>)
    ensures TotalRating(map[], ids) == INITIAL_RATING * |ids|
  {
    if ids != [] { TotalOfNewcomers(ids[..|ids| - 1]); }
  }

  lemma {:induction false} BalancedKeepsTotal(table: Table, m: Match, eligible: set<UserId>, expected: Expected,
      ids: seq<UserId>)
    requires NoRepeats(ids) && (forall u :: u in ids <==> u in eligible) && Balanced(m, eligible)
    ensures TotalRating(AfterMatch(table, m, eligible, expected), ids) == TotalRating(table, ids)
  {
    var seats := Counted(m.seats, eligible);
    MatchShiftsTotal(table, m, eligible, expected, ids);
    if Side(seats, 0) != [] && Side(seats, 1) != [] {
      NothingTimes(DeltaZero(table, Side(seats, 0), Side(seats, 1), m.winnerTeam, expected), Surplus(seats));
    }
  }

  lemma {:induction false} NothingTimes(delta: int, surplus: int)
    requires surplus == 0
    ensures delta * surplus == 0
  {
  }

  lemma {:induction false} OneMoreMatch(matches: seq<Match>, eligible: set<UserId>, expected: Expected)
    requires matches != []
    ensures AfterMatches(matches, eligible, expected)
         == AfterMatch(AfterMatches(matches[..|matches| - 1], eligible, expected), matches[|matches| - 1], eligible,
           expected)
  {
  }

  /** Rating is conserved when every counted match has equally many counted seats on both sides. */
  lemma {:induction false} RatingIsConserved(matches: seq<Match>, eligible: set<UserId>, expected: Expected,
      ids: seq<UserId>)
    requires NoRepeats(ids) && forall u :: u in ids <==> u in eligible
    requires forall m :: m in matches ==> Balanced(m, eligible)
    ensures TotalRating(AfterMatches(matches, eligible, expected), ids) == INITIAL_RATING * |ids|
    decreases |matches|
  {
    if matches == [] {
      TotalOfNewcomers(ids);
    } else {
      var init, m := matches[..|matches| - 1], matches[|matches| - 1];
      RatingIsConserved(init, eligible, expected, ids);
      BalancedKeepsTotal(AfterMatches(init, eligible, expected), m, eligible, expected, ids);
      OneMoreMatch(matches, eligible, expected);
    }
  }

  // ---- ranking --------------------------------------------------------------------------------------

  datatype Entry = Entry(player: UserId, rank: nat, rating: int, wins: nat, games: nat, winRate: int, streak: nat)

  function WinRate(wins: nat, games: nat): int
    requires games > 0
  {
    RoundHalfUp(wins as real / games as real * 100.0)
  }

  /** Length of the winning run that ends with the last game. */
  function Streak(results: seq<bool>): (r: nat)
    ensures r <= |results|
    ensures forall i :: |results| - r <= i < |results| ==> results[i]
    ensures r < |results| ==> !results[|results| - r - 1]
  {
    if results == [] || !results[|results| - 1] then 0 else Streak(results[..|results| - 1]) + 1
  }

  function EntryFor(user: UserId, item: Stats): Entry
    requires |item.results| > 0
  {
    Entry(user, 0, item.rating, item.wins, |item.results|, WinRate(item.wins, |item.results|), Streak(item.results))
  }

  /** Strictly better on rating, then wins, then games played. */
  predicate Better(a: Entry, b: Entry) {
    || a.rating > b.rating
    || (a.rating == b.rating && a.wins > b.wins)
    || (a.rating == b.rating && a.wins == b.wins && a.games > b.games)
  }

  predicate Tied(a: Entry, b: Entry) {
    a.rating == b.rating && a.wins == b.wins && a.games == b.games
  }

  /** The listing order; `name` gives each player's position by display name. */
  predicate Lists(name: UserId -> int, a: Entry, b: Entry) {
    Better(a, b) ||
      (Tied(a, b) && (name(a.player) < name(b.player) || (name(a.player) == name(b.player) && a.player <= b.player)))
  }

  function Listing(name: UserId -> int): (Entry, Entry) -> bool {
    (a: Entry, b: Entry) => Lists(name, a, b)
  }

  ghost function BetterThan(entries: seq<Entry>, e: Entry): set<int> {
    set j | 0 <= j < |entries| && Better(entries[j], e)
  }

  ghost predicate RankedAt(entries: seq<Entry>, i: int)
    requires 0 <= i < |entries|
  {
    entries[i].rank == 1 + |BetterThan(entries, entries[i])|
  }

  predicate Shows(e: Entry, table: Table) {
    e.player in table && |table[e.player].results| > 0 && e == EntryFor(e.player, table[e.player]).(rank := e.rank)
  }

  ghost predicate OnePerPlayer(entries: seq<Entry>) {
    forall i, j :: 0 <= i < j < |entries| ==> entries[i].player != entries[j].player
  }

  predicate Has(entries: seq<Entry>, user: UserId) {
    exists i :: 0 <= i < |entries| && entries[i].player == user
  }

  /** Exactly the players of the table, each once, in listing order. */
  ghost predicate InListingOrder(entries: seq<Entry>, table: Table, name: UserId -> int) {
    && Sorted(entries, Listing(name))
    && (forall i :: 0 <= i < |entries| ==> Shows(entries[i], table))
    && OnePerPlayer(entries)
    && (forall u :: u in table ==> Has(entries, u))
  }

  ghost predicate AllRanked(entries: seq<Entry>) {
    forall i {:trigger RankedAt(entries, i)} :: 0 <= i < |entries| ==> RankedAt(entries, i)
  }

  /** The listing of a table: who is in it, in which order, and with which ranks. */
  ghost predicate IsListing(entries: seq<Entry>, table: Table, name: UserId -> int) {
    InListingOrder(entries, table, name) && AllRanked(entries)
  }

  ghost function InitialRange(n: nat): (r: set<int>)
    ensures |r| == n && forall j :: j in r <==> 0 <= j < n
  {
    if n == 0 then {} else InitialRange(n - 1) + {n - 1}
  }

  lemma {:induction false} NotBetterAfter(name: UserId -> int, a: Entry, b: Entry, c: Entry)
    ensures Lists(name, a, b) && Tied(a, c) ==> !Better(b, c)
    ensures Lists(name, a, b) && Better(b, c) ==> Better(a, c)
  {
  }

  /** In a sorted listing, the better entries are exactly those before the first tied one. */
  lemma {:induction false} BetterAreBefore(entries: seq<Entry>, name: UserId -> int, i: nat, rank: nat)
    requires Sorted(entries, Listing(name)) && i < |entries| && FirstTied(entries, i, rank)
    ensures 1 + |BetterThan(entries, entries[i])| == rank
  {
    var first := rank - 1;
    forall j | 0 <= j < |entries| ensures Better(entries[j], entries[i]) <==> j < first {
      if j < first - 1 {
        assert Listing(name)(entries[j], entries[first - 1]);
        NotBetterAfter(name, entries[j], entries[first - 1], entries[i]);
      } else if first < j {
        assert Listing(name)(entries[first], entries[j]);
        NotBetterAfter(name, entries[first], entries[j], entries[i]);
      }
    }
    assert BetterThan(entries, entries[i]) == InitialRange(first);
  }

  ghost predicate SameButRanks(entries: seq<Entry>, after: seq<Entry>) {
    |after| == |entries| && forall i :: 0 <= i < |entries| ==> after[i] == entries[i].(rank := after[i].rank)
  }

  lemma {:induction false} RanksDoNotMatter(entries: seq<Entry>, after: seq<Entry>, i: nat)
    requires SameButRanks(entries, after) && i < |entries|
    ensures BetterThan(after, after[i]) == BetterThan(entries, entries[i])
  {
  }

  /** `rank - 1` is the position of the first entry tied with `i`. */
  predicate FirstTied(entries: seq<Entry>, i: nat, rank: nat)
    requires i < |entries|
  {
    && 1 <= rank <= i + 1
    && Tied(entries[rank - 1], entries[i])
    && (rank > 1 ==> Better(entries[rank - 2], entries[i]))
  }

  lemma {:induction false} NextRank(entries: seq<Entry>, name: UserId -> int, index: nat, prior: nat)
    requires Sorted(entries, Listing(name)) && 0 < index < |entries| && FirstTied(entries, index - 1, prior)
    ensures FirstTied(entries, index, if Tied(entries[index], entries[index - 1]) then prior else index + 1)
  {
    assert Listing(name)(entries[index - 1], entries[index]);
  }

  /** The first `n` ranks are handed out. */
  ghost predicate RankedUpTo(entries: seq<Entry>, ranked: seq<Entry>, n: nat)
    requires n <= |entries|
  {
    && |ranked| == n
    && (forall i :: 0 <= i < n ==> ranked[i] == entries[i].(rank := ranked[i].rank))
    && (forall i :: 0 <= i < n ==> FirstTied(entries, i, ranked[i].rank))
  }

  lemma {:induction false} OneMoreRank(entries: seq<Entry>, ranked: seq<Entry>, n: nat, rank: nat)
    requires n < |entries| && RankedUpTo(entries, ranked, n) && FirstTied(entries, n, rank)
    ensures RankedUpTo(entries, ranked + [entries[n].(rank := rank)], n + 1)
  {
  }

  lemma {:induction false} RanksAreRight(entries: seq<Entry>, ranked: seq<Entry>, name: UserId -> int)
    requires Sorted(entries, Listing(name)) && RankedUpTo(entries, ranked, |entries|)
    ensures SameButRanks(entries, ranked) && AllRanked(ranked)
  {
    forall i | 0 <= i < |ranked| ensures RankedAt(ranked, i) {
      BetterAreBefore(entries, name, i, ranked[i].rank);
      RanksDoNotMatter(entries, ranked, i);
    }
  }

  lemma {:induction false} FirstRank(entries: seq<Entry>)
    ensures entries != [] ==> FirstTied(entries, 0, 1)
  {
  }

  /** The pass that hands out ranks: a tied entry takes its predecessor's rank, any other its position. */
  method AssignRanks(entries: seq<Entry>, name: UserId -> int) returns (ranked: seq<Entry>)
    requires Sorted(entries, Listing(name))
    ensures SameButRanks(entries, ranked)
    ensures AllRanked(ranked)
  {
    ranked := [];
    FirstRank(entries);
    for index := 0 to |entries|
      invariant RankedUpTo(entries, ranked, index)
    {
      var rank := index + 1;
      if index > 0 {
        rank := NextRankAfter(entries, name, index, ranked[index - 1]);
      }
      OneMoreRank(entries, ranked, index, rank);
      ranked := ranked + [entries[index].(rank := rank)];
    }
    RanksAreRight(entries, ranked, name);
  }

  method NextRankAfter(entries: seq<Entry>, name: UserId -> int, index: nat, prior: Entry) returns (rank: nat)
    requires Sorted(entries, Listing(name)) && 0 < index < |entries|
    requires prior == entries[index - 1].(rank := prior.rank) && FirstTied(entries, index - 1, prior.rank)
    ensures FirstTied(entries, index, rank)
  {
    var entry := entries[index];
    NextRank(entries, name, index, prior.rank);
    var tied := entry.rating == prior.rating && entry.wins == prior.wins && entry.games == prior.games;
    rank := if tied then prior.rank else index + 1;
  }

  function Unranked(entries: seq<Entry>): (r: seq<Entry>)
    ensures SameButRanks(entries, r)
  {
    seq(|entries|, i requires 0 <= i < |entries| => entries[i].(rank := 0))
  }

  lemma {:induction false} Listed(a: seq<Entry>, table: Table, name: UserId -> int, e: Entry)
    requires InListingOrder(a, table, name)
    ensures e in Unranked(a) <==> Shows(e, table) && e.rank == 0
  {
    if Shows(e, table) && e.rank == 0 {
      assert Has(a, e.player);
      var i :| 0 <= i < |a| && a[i].player == e.player;
      assert Unranked(a)[i] == e;
    }
  }

  /** Without ranks, a listing has no ties and no repeats, and is still in order. */
  lemma {:induction false} UnrankedInOrder(a: seq<Entry>, table: Table, name: UserId -> int)
    requires InListingOrder(a, table, name)
    ensures NoRepeats(Unranked(a)) && Sorted(Unranked(a), Listing(name)) && NoTies(Unranked(a), Listing(name))
  {
    var c := Unranked(a);
    forall i, j | 0 <= i < j < |c| ensures Listing(name)(c[i], c[j]) {
      assert Listing(name)(a[i], a[j]);
    }
    forall x, y | x in c && y in c && Listing(name)(x, y) && Listing(name)(y, x) ensures x == y {
      Listed(a, table, name, x);
      Listed(a, table, name, y);
      SamePlace(name, x, y);
    }
  }

  lemma {:induction false} SamePlace(name: UserId -> int, a: Entry, b: Entry)
    requires Lists(name, a, b) && Lists(name, b, a)
    ensures a.player == b.player
  {
  }

  lemma {:induction false} ListingIsPreorder(name: UserId -> int)
    ensures Preorder(Listing(name))
  {
    forall a, b, c | Listing(name)(a, b) && Listing(name)(b, c) ensures Listing(name)(a, c) {
      assert Lists(name, a, b) && Lists(name, b, c);
    }
    forall a, b ensures Listing(name)(a, b) || Listing(name)(b, a) {
      assert Lists(name, a, b) || Lists(name, b, a);
    }
  }

  /** A table has exactly one listing: nothing depends on the order in which rows were inserted. */
  lemma {:induction false} OneListing(a: seq<Entry>, b: seq<Entry>, table: Table, name: UserId -> int)
    requires IsListing(a, table, name) && IsListing(b, table, name)
    ensures a == b
  {
    var c, d := Unranked(a), Unranked(b);
    UnrankedInOrder(a, table, name);
    UnrankedInOrder(b, table, name);
    forall e ensures e in c <==> e in d {
      Listed(a, table, name, e);
      Listed(b, table, name, e);
    }
    ListingIsPreorder(name);
    SameElements(c, d);
    OnlyOneSorted(c, d, Listing(name));
    SameRanks(a, b);
  }

  lemma {:induction false} SameRanks(a: seq<Entry>, b: seq<Entry>)
    requires Unranked(a) == Unranked(b) && AllRanked(a) && AllRanked(b)
    ensures a == b
  {
    forall i | 0 <= i < |a| ensures a[i] == b[i] {
      assert Unranked(a)[i] == Unranked(b)[i];
      RanksDoNotMatter(a, Unranked(a), i);
      RanksDoNotMatter(b, Unranked(b), i);
      assert RankedAt(a, i) && RankedAt(b, i);
    }
  }

  // ---- the viewer ---------------------------------------------------------------------------------

  predicate LocallyBetter(e: Entry, viewer: Entry, country: UserId -> Option<nat>) {
    country(e.player) == country(viewer.player) && Better(e, viewer)
  }

  /** Entries of the viewer's country that are strictly better. */
  ghost function BetterLocally(entries: seq<Entry>, viewer: Entry, country: UserId -> Option<nat>): set<int> {
    AmongFirst(entries, |entries|, viewer, country)
  }

  ghost function AmongFirst(entries: seq<Entry>, n: nat, viewer: Entry, country: UserId -> Option<nat>): set<int>
    requires n <= |entries|
  {
    set j | 0 <= j < n && LocallyBetter(entries[j], viewer, country)
  }

  lemma {:induction false} OneMoreLocal(entries: seq<Entry>, n: nat, viewer: Entry, country: UserId -> Option<nat>)
    requires n < |entries|
    ensures |AmongFirst(entries, n + 1, viewer, country)|
         == |AmongFirst(entries, n, viewer, country)| + (if LocallyBetter(entries[n], viewer, country) then 1 else 0)
  {
    var before := AmongFirst(entries, n, viewer, country);
    assert AmongFirst(entries, n + 1, viewer, country) == if LocallyBetter(entries[n], viewer, country)
      then before + {n} else before;
  }

  method LocalRank(entries: seq<Entry>, viewer: Entry, country: UserId -> Option<nat>) returns (rank: nat)
    ensures rank == 1 + |BetterLocally(entries, viewer, country)|
  {
    rank := 1;
    for j := 0 to |entries|
      invariant rank == 1 + |AmongFirst(entries, j, viewer, country)|
    {
      OneMoreLocal(entries, j, viewer, country);
      if country(entries[j].player) == country(viewer.player) && Better(entries[j], viewer) {
        rank := rank + 1;
      }
    }
  }

  /** The local rank never exceeds the global one, and equals it when everyone shares the country. */
  lemma {:induction false} LocalRankFits(entries: seq<Entry>, i: nat, country: UserId -> Option<nat>)
    requires i < |entries| && RankedAt(entries, i)
    ensures 1 + |BetterLocally(entries, entries[i], country)| <= entries[i].rank
    ensures (forall j :: 0 <= j < |entries| ==> country(entries[j].player) == country(entries[i].player)) ==>
      1 + |BetterLocally(entries, entries[i], country)| == entries[i].rank
  {
    SubsetSize(BetterLocally(entries, entries[i], country), BetterThan(entries, entries[i]));
    if forall j :: 0 <= j < |entries| ==> country(entries[j].player) == country(entries[i].player) {
      assert BetterLocally(entries, entries[i], country) == BetterThan(entries, entries[i]);
    }
  }

  /** `Math.max(1, Math.ceil((rank / total) * 100))`. */
  function Percentile(rank: nat, total: nat): int
    requires total > 0
  {
    var p := (100 * rank + total - 1) / total;
    if p < 1 then 1 else p
  }

  /** Ranks lie within the listing, so percentiles lie in 1..100, and only the last rank can be at 100. */
  lemma {:induction false} PercentileInRange(entries: seq<Entry>, i: nat)
    requires i < |entries| && RankedAt(entries, i)
    ensures 1 <= entries[i].rank <= |entries|
    ensures 1 <= Percentile(entries[i].rank, |entries|) <= 100
    ensures 100 * entries[i].rank <= |entries| * Percentile(entries[i].rank, |entries|)
  {
    var others := InitialRange(|entries|) - {i};
    assert |others| == |entries| - 1;
    SubsetSize(BetterThan(entries, entries[i]), others);
    CeilBounds(100 * entries[i].rank, |entries|);
  }

  lemma {:induction false} CeilBounds(a: nat, n: nat)
    requires 0 < n && 0 < a <= 100 * n
    ensures 1 <= (a + n - 1) / n <= 100 && a <= n * ((a + n - 1) / n)
  {
    var q := (a + n - 1) / n;
    assert n * q <= a + n - 1 < n * q + n;
    assert q <= 0 ==> n * q <= 0;
    assert q >= 101 ==> n * q >= n * 101;
  }

  lemma {:induction false} WinRateInRange(wins: nat, games: nat)
    requires wins <= games && games > 0
    ensures 0 <= WinRate(wins, games) <= 100
  {
    var share := wins as real / games as real;
    assert 0.0 <= share <= 1.0;
    assert 0.0 <= share * 100.0 <= 100.0;
  }

  /** What every listed entry satisfies, whatever matches were played. */
  lemma {:induction false} ListedEntriesAreSound(entries: seq<Entry>, matches: seq<Match>, eligible: set<UserId>,
      start: Option<int>, now: int, expected: Expected, name: UserId -> int, i: nat)
    requires Probability(expected) && i < |entries|
    requires IsListing(entries, FinalTable(matches, eligible, start, now, expected), name)
    ensures var e := entries[i];
      && e.player in eligible && 1 <= e.games && e.wins <= e.games
      && -24 * e.games <= e.rating - INITIAL_RATING <= 24 * e.games
      && 0 <= e.winRate <= 100 && e.streak <= e.wins
      && 1 <= e.rank <= |entries|
  {
    var table := FinalTable(matches, eligible, start, now, expected);
    TableIsOk(Sort(Chosen(matches, start, now), Earlier()), eligible, expected);
    assert Shows(entries[i], table) && RankedAt(entries, i);
    var item := table[entries[i].player];
    assert StatsOk(item);
    WinsWithin(item.results);
    WinRateInRange(item.wins, |item.results|);
    StreakWithinWins(item.results);
    PercentileInRange(entries, i);
  }

  lemma {:induction false} StreakWithinWins(results: seq<bool>)
    ensures Streak(results) <= Wins(results)
  {
    if results != [] { StreakWithinWins(results[..|results| - 1]); }
  }

  // ---- buildLeaderboard ------------------------------------------------------------------------------

  datatype Me = Me(entry: Entry, percentile: int, localRank: Option<nat>)

  datatype View = View(items: seq<Entry>, total: nat, me: Option<Me>)

  function Eligible(players: seq<Player>): set<UserId> {
    set i | 0 <= i < |players| && players[i].active && players[i].visible :: players[i].id
  }

  /** Plays the chosen matches in order over a table that starts empty. */
  method PlayMatches(matches: seq<Match>, eligible: set<UserId>, expected: Expected) returns (stats: Table)
    ensures stats == AfterMatches(matches, eligible, expected)
  {
    stats := map[];
    for n := 0 to |matches|
      invariant stats == AfterMatches(matches[..n], eligible, expected)
    {
      var m := matches[n];
      assert matches[..n + 1][..n] == matches[..n];
      var seats := Counted(m.seats, eligible);
      var zero, one := Side(seats, 0), Side(seats, 1);
      if zero != [] && one != [] {
        var deltaZero := DeltaZero(stats, zero, one, m.winnerTeam, expected);
        stats := PlaySeats(stats, seats, m.winnerTeam, deltaZero);
      }
    }
    assert matches[..|matches|] == matches;
  }

  method PlaySeats(table: Table, seats: seq<Seat>, winnerTeam: nat, delta: int) returns (stats: Table)
    ensures stats == AfterSeats(table, seats, winnerTeam, delta)
  {
    stats := table;
    for k := 0 to |seats|
      invariant stats == AfterSeats(table, seats[..k], winnerTeam, delta)
    {
      var seat := seats[k];
      assert seats[..k + 1][..k] == seats[..k];
      var won := seat.team == winnerTeam;
      var item := StatsOf(stats, seat.user);
      item := item.(results := item.results + [won]);
      if won {
        item := item.(wins := item.wins + 1);
      }
      item := item.(rating := item.rating + (if seat.team == 0 then delta else -delta));
      stats := stats[seat.user := item];
    }
    assert seats[..|seats|] == seats;
  }

  method CurrentStreak(results: seq<bool>) returns (streak: nat)
    ensures streak == Streak(results)
  {
    streak := 0;
    var index := |results|;
    while index > 0 && results[index - 1]
      invariant 0 <= index <= |results| && streak == |results| - index
      invariant Streak(results) == Streak(results[..index]) + streak
    {
      assert results[..index][..index - 1] == results[..index - 1];
      assert Streak(results[..index]) == Streak(results[..index - 1]) + 1;
      streak := streak + 1;
      index := index - 1;
    }
    assert results[..|results|] == results;
  }

  /** One unranked row for every player with a game, in any order. */
  method CollectRows(stats: Table) returns (entries: seq<Entry>)
    requires forall u :: u in stats ==> |stats[u].results| > 0
    ensures RowsListed(entries, stats, stats.Keys)
  {
    entries := [];
    var rest := stats.Keys;
    while rest != {}
      invariant rest <= stats.Keys
      invariant RowsListed(entries, stats, stats.Keys - rest)
      decreases |rest|
    {
      var user :| user in rest;
      var item := stats[user];
      var streak := CurrentStreak(item.results);
      OneMoreRow(entries, stats, stats.Keys - rest, user);
      entries := entries +
        [Entry(user, 0, item.rating, item.wins, |item.results|, WinRate(item.wins, |item.results|), streak)];
      rest := rest - {user};
      assert stats.Keys - rest == (stats.Keys - (rest + {user})) + {user};
    }
    assert stats.Keys - {} == stats.Keys;
  }

  /** One entry per row of the table, sorted and ranked. */
  method ListEntries(stats: Table, name: UserId -> int) returns (entries: seq<Entry>)
    requires forall u :: u in stats ==> |stats[u].results| > 0
    ensures IsListing(entries, stats, name)
  {
    entries := CollectRows(stats);
    ghost var rows := entries;
    entries := Sort(entries, Listing(name));
    SortedRows(rows, stats, name);
    ghost var sorted := entries;
    entries := AssignRanks(entries, name);
    RankedListing(sorted, entries, stats, name);
  }

  ghost predicate RowsListed(entries: seq<Entry>, table: Table, users: set<UserId>) {
    && (forall i :: 0 <= i < |entries| ==> Shows(entries[i], table) && entries[i].player in users)
    && OnePerPlayer(entries)
    && (forall u :: u in users ==> Has(entries, u))
  }

  lemma {:induction false} OneMoreRow(entries: seq<Entry>, table: Table, users: set<UserId>, user: UserId)
    requires RowsListed(entries, table, users) && user !in users && user in table && |table[user].results| > 0
    ensures RowsListed(entries + [EntryFor(user, table[user])], table, users + {user})
  {
    var next := entries + [EntryFor(user, table[user])];
    forall u | u in users + {user} ensures Has(next, u) {
      if u == user {
        assert next[|entries|].player == u;
      } else {
        assert Has(entries, u);
        var i :| 0 <= i < |entries| && entries[i].player == u;
        assert next[i].player == u;
      }
    }
  }

  lemma {:induction false} SortedRows(rows: seq<Entry>, table: Table, name: UserId -> int)
    requires RowsListed(rows, table, table.Keys)
    ensures InListingOrder(Sort(rows, Listing(name)), table, name)
  {
    var sorted := Sort(rows, Listing(name));
    ListingIsPreorder(name);
    SortSorts(rows, Listing(name));
    forall i | 0 <= i < |sorted| ensures Shows(sorted[i], table) {
      assert sorted[i] in multiset(sorted);
      assert sorted[i] in rows;
    }
    forall u | u in table ensures Has(sorted, u) {
      assert Has(rows, u);
      var i :| 0 <= i < |rows| && rows[i].player == u;
      assert rows[i] in multiset(rows);
      assert rows[i] in sorted;
    }
    RearrangedPlayers(rows, sorted);
  }

  lemma {:induction false} RearrangedPlayers(rows: seq<Entry>, sorted: seq<Entry>)
    requires OnePerPlayer(rows) && multiset(rows) == multiset(sorted)
    ensures OnePerPlayer(sorted)
  {
    RearrangedHasNoRepeats(rows, sorted);
    forall i, j | 0 <= i < j < |sorted| ensures sorted[i].player != sorted[j].player {
      assert sorted[i] in multiset(rows) && sorted[j] in multiset(rows);
      var k :| 0 <= k < |rows| && rows[k] == sorted[i];
      var l :| 0 <= l < |rows| && rows[l] == sorted[j];
    }
  }

  lemma {:induction false} RankedListing(sorted: seq<Entry>, ranked: seq<Entry>, table: Table, name: UserId -> int)
    requires InListingOrder(sorted, table, name) && SameButRanks(sorted, ranked) && AllRanked(ranked)
    ensures IsListing(ranked, table, name)
  {
    forall i, j | 0 <= i < j < |ranked| ensures Listing(name)(ranked[i], ranked[j]) {
      assert Listing(name)(sorted[i], sorted[j]);
    }
    forall u | u in table ensures Has(ranked, u) {
      assert Has(sorted, u);
      var i :| 0 <= i < |sorted| && sorted[i].player == u;
      assert ranked[i].player == u;
    }
  }

  function Page(entries: seq<Entry>, page: nat, limit: nat): seq<Entry>
    requires page >= 1
  {
    var from := if (page - 1) * limit < |entries| then (page - 1) * limit else |entries|;
    var to := if from + limit < |entries| then from + limit else |entries|;
    entries[from..to]
  }

  function CountryOf(players: seq<Player>, user: UserId): Option<nat> {
    if players == [] then None
    else if players[0].id == user then players[0].country
    else CountryOf(players[1..], user)
  }

  /** The viewer's own card, if the viewer is listed. */
  ghost predicate IsCard(me: Option<Me>, entries: seq<Entry>, viewer: UserId, country: UserId -> Option<nat>) {
    && (me.Some? <==> Has(entries, viewer))
    && (me.Some? ==>
          && me.value.entry in entries && me.value.entry.player == viewer
          && me.value.percentile == Percentile(me.value.entry.rank, |entries|)
          && (me.value.localRank.Some? <==> country(viewer).Some?)
          && (me.value.localRank.Some? ==>
             me.value.localRank.value == 1 + |BetterLocally(entries, me.value.entry, country)|))
  }

  /** What a view shows: a page and the number of the entries, and the viewer's card. */
  ghost predicate IsView(view: View, entries: seq<Entry>, players: seq<Player>, viewer: UserId, page: nat, limit: nat)
    requires page >= 1
  {
    && view.items == Page(entries, page, limit) && view.total == |entries|
    && IsCard(view.me, entries, viewer, u => CountryOf(players, u))
  }

  lemma {:induction false} OneCard(a: Option<Me>, b: Option<Me>, entries: seq<Entry>, viewer: UserId,
      country: UserId -> Option<nat>)
    requires OnePerPlayer(entries) && IsCard(a, entries, viewer, country) && IsCard(b, entries, viewer, country)
    ensures a == b
  {
    if a.Some? {
      var i :| 0 <= i < |entries| && entries[i] == a.value.entry;
      var j :| 0 <= j < |entries| && entries[j] == b.value.entry;
      assert i == j;
    }
  }

  /** The whole view, card included, is the same in whatever order the matches are read. */
  lemma {:induction false} ViewDoesNotDependOnOrder(players: seq<Player>, a: seq<Match>, b: seq<Match>, viewer: UserId,
      start: Option<int>, now: int, page: nat, limit: nat, expected: Expected, name: UserId -> int, v: View, w: View,
      es: seq<Entry>, fs: seq<Entry>)
    requires multiset(a) == multiset(b) && DistinctIds(a) && page >= 1
    requires IsListing(es, FinalTable(a, Eligible(players), start, now, expected), name) &&
      IsView(v, es, players, viewer, page, limit)
    requires IsListing(fs, FinalTable(b, Eligible(players), start, now, expected), name) &&
      IsView(w, fs, players, viewer, page, limit)
    ensures v == w
  {
    OrderDoesNotMatter(a, b, Eligible(players), start, now, expected);
    OneListing(es, fs, FinalTable(a, Eligible(players), start, now, expected), name);
    OneCard(v.me, w.me, es, viewer, u => CountryOf(players, u));
  }

  /** The whole view: `entries` is the one listing of the final table. */
  method BuildLeaderboard(players: seq<Player>, matches: seq<Match>, viewer: UserId, start: Option<int>, now: int,
      page: nat, limit: nat, expected: Expected, name: UserId -> int) returns (view: View, entries: seq<Entry>)
    requires Probability(expected) && page >= 1
    ensures IsListing(entries, FinalTable(matches, Eligible(players), start, now, expected), name)
    ensures IsView(view, entries, players, viewer, page, limit)
  {
    var eligible := Eligible(players);
    var chosen := Sort(Chosen(matches, start, now), Earlier());
    var stats := PlayMatches(chosen, eligible, expected);
    TableIsOk(chosen, eligible, expected);
    entries := ListEntries(stats, name);
    var me := None;
    for i := 0 to |entries|
      invariant me == None
      invariant forall j :: 0 <= j < i ==> entries[j].player != viewer
    {
      if entries[i].player == viewer {
        var localRank := None;
        if CountryOf(players, viewer).Some? {
          var rank := LocalRank(entries, entries[i], u => CountryOf(players, u));
          localRank := Some(rank);
        }
        me := Some(Me(entries[i], Percentile(entries[i].rank, |entries|), localRank));
        break;
      }
    }
    view := View(Page(entries, page, limit), |entries|, me);
  }

  // ---- entriesFor --------------------------------------------------------------------------------------

  lemma {:induction false} FewerEntriesThanPlayers(players: seq<Player>, users: set<UserId>)
    requires users <= Eligible(players)
    ensures |users| <= |players|
  {
    if players == [] {
      assert users == {};
    } else {
      var rest := users - {players[0].id};
      forall u | u in rest ensures u in Eligible(players[1..]) {
        var i :| 0 <= i < |players| && players[i].active && players[i].visible && players[i].id == u;
        assert players[1..][i - 1] == players[i];
      }
      FewerEntriesThanPlayers(players[1..], rest);
      assert users <= rest + {players[0].id};
      assert |users| <= |rest| + 1 by {
        if players[0].id in users { assert users == rest + {players[0].id}; } else { assert users == rest; }
      }
    }
  }

  lemma {:induction false} EntryPlayers(entries: seq<Entry>, table: Table, name: UserId -> int)
    requires InListingOrder(entries, table, name)
    ensures |entries| == |table.Keys|
  {
    var ids := seq(|entries|, i requires 0 <= i < |entries| => entries[i].player);
    SizeOfElements(ids);
    forall u ensures u in table.Keys <==> u in Elements(ids) {
      if u in table {
        assert Has(entries, u);
        var i :| 0 <= i < |entries| && entries[i].player == u;
        assert ids[i] == u;
      }
      if u in ids { var i :| 0 <= i < |ids| && ids[i] == u; assert Shows(entries[i], table); }
    }
    assert table.Keys == Elements(ids);
  }

  function Elements(ids: seq<UserId>): set<UserId> {
    set x | x in ids
  }

  lemma {:induction false} SizeOfElements(ids: seq<UserId>)
    requires NoRepeats(ids)
    ensures |Elements(ids)| == |ids|
    decreases |ids|
  {
    if ids != [] {
      var init, last := ids[..|ids| - 1], ids[|ids| - 1];
      SizeOfElements(init);
      assert ids == init + [last];
      assert Elements(ids) == Elements(init) + {last};
    }
  }

  /** Lifetime entries of the wanted players: asking for one page of as many entries as players misses nobody. */
  method EntriesFor(players: seq<Player>, matches: seq<Match>, wanted: set<UserId>, now: int, expected: Expected,
      name: UserId -> int)
    returns (found: map<UserId, Entry>)
    requires Probability(expected)
    ensures forall u :: u in found <==> u in wanted && u in FinalTable(matches, Eligible(players), None, now, expected)
    ensures exists entries: seq<Entry> ::
      && IsListing(entries, FinalTable(matches, Eligible(players), None, now, expected), name)
      && forall u :: u in found ==> found[u] in entries && found[u].player == u
  {
    var limit := if |players| > 1 then |players| else 1;
    var view, entries := BuildLeaderboard(players, matches, 0, None, now, 1, limit, expected, name);
    ghost var table := FinalTable(matches, Eligible(players), None, now, expected);
    TableIsOk(Sort(Chosen(matches, None, now), Earlier()), Eligible(players), expected);
    WholePage(players, entries, table, name);
    found := PickWanted(view.items, wanted);
    forall u ensures Has(entries, u) <==> u in table { ListedExactly(entries, table, name, u); }
  }

  lemma {:induction false} WholePage(players: seq<Player>, entries: seq<Entry>, table: Table, name: UserId -> int)
    requires InListingOrder(entries, table, name) && table.Keys <= Eligible(players)
    ensures Page(entries, 1, if |players| > 1 then |players| else 1) == entries
  {
    EntryPlayers(entries, table, name);
    FewerEntriesThanPlayers(players, table.Keys);
  }

  lemma {:induction false} ListedExactly(entries: seq<Entry>, table: Table, name: UserId -> int, user: UserId)
    requires InListingOrder(entries, table, name)
    ensures Has(entries, user) <==> user in table
  {
    if Has(entries, user) {
      var i :| 0 <= i < |entries| && entries[i].player == user;
      assert Shows(entries[i], table);
    }
  }

  method PickWanted(items: seq<Entry>, wanted: set<UserId>) returns (found: map<UserId, Entry>)
    ensures forall u :: u in found <==> u in wanted && Has(items, u)
    ensures forall u :: u in found ==> found[u] in items && found[u].player == u
  {
    found := map[];
    for i := 0 to |items|
      invariant forall u :: u in found <==> u in wanted && Has(items[..i], u)
      invariant forall u :: u in found ==> found[u] in items && found[u].player == u
    {
      var e := items[i];
      assert items[..i + 1] == items[..i] + [e];
      HasOneMore(items[..i], e);
      if e.player in wanted {
        found := found[e.player := e];
      }
    }
    assert items[..|items|] == items;
  }

  lemma {:induction false} HasOneMore(entries: seq<Entry>, e: Entry)
    ensures forall u :: Has(entries + [e], u) <==> Has(entries, u) || u == e.player
  {
    forall u ensures Has(entries + [e], u) <==> Has(entries, u) || u == e.player {
      assert (entries + [e])[|entries|] == e;
      if Has(entries, u) {
        var i :| 0 <= i < |entries| && entries[i].player == u;
        assert (entries + [e])[i].player == u;
      }
    }
  }
}
