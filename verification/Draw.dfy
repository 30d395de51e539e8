/** The draw: power-of-two fields, the seeded shuffle, and pairing players into teams. */
module Draw {
  import opened Common
  import opened Bracket
  import opened Sorting

  // ---- isPowerOfTwo --------------------------------------------------------

  /** Bitwise AND of two non-negative integers. */
  function BitAnd(a: nat, b: nat): nat
    decreases a
  {
    if a == 0 || b == 0 then 0
    else 2 * BitAnd(a / 2, b / 2) + (if a % 2 == 1 && b % 2 == 1 then 1 else 0)
  }

  predicate IsPowerOfTwo(value: nat) {
    value >= 1 && BitAnd(value, value - 1) == 0
  }

  lemma {:induction false} BitAndSelf(n: nat)
    ensures BitAnd(n, n) == n
  {
    if n > 0 { BitAndSelf(n / 2); }
  }

  ghost predicate PowerOfTwo(n: nat) {
    exists k: nat :: n == Pow2(k)
  }

  lemma {:induction false} DoublePower(m: nat)
    requires m >= 1
    ensures PowerOfTwo(2 * m) <==> PowerOfTwo(m)
  {
    if PowerOfTwo(m) {
      var k: nat :| m == Pow2(k);
      assert 2 * m == Pow2(k + 1);
    }
    if PowerOfTwo(2 * m) {
      var k: nat :| 2 * m == Pow2(k);
      assert k > 0;
      assert m == Pow2(k - 1);
    }
  }

  lemma {:induction false} OddIsNoPower(n: nat)
    requires n > 1 && n % 2 == 1
    ensures !PowerOfTwo(n)
  {
    forall k: nat ensures n != Pow2(k) {
      if k > 0 { assert Pow2(k) == 2 * Pow2(k - 1); }
    }
  }

  /** The bit trick accepts exactly the powers of two. */
  lemma {:induction false} PowersOfTwoExactly(n: nat)
    ensures IsPowerOfTwo(n) <==> PowerOfTwo(n)
    decreases n
  {
    if n == 0 {
      assert !PowerOfTwo(0);
    } else if n == 1 {
      assert 1 == Pow2(0);
    } else if n % 2 == 0 {
      var m := n / 2;
      PowersOfTwoExactly(m);
      DoublePower(m);
      assert (n - 1) / 2 == m - 1 && BitAnd(n, n - 1) == 2 * BitAnd(m, m - 1);
    } else {
      BitAndSelf(n / 2);
      OddIsNoPower(n);
      assert (n - 1) / 2 == n / 2;
    }
  }

  function Log2(n: nat): nat {
    if n <= 1 then 0 else 1 + Log2(n / 2)
  }

  lemma {:induction false} Log2OfPower(k: nat)
    ensures Log2(Pow2(k)) == k
  {
    if k > 0 { Log2OfPower(k - 1); }
  }

  // ---- stableDraw ----------------------------------------------------------

  /** Order of the draw: by the hash of seed and id, then by id. */
  function DrawOrder(hash: (nat, UserId) -> nat, seed: nat): (UserId, UserId) -> bool {
    (a: UserId, b: UserId) => hash(seed, a) < hash(seed, b) || (hash(seed, a) == hash(seed, b) && a <= b)
  }

  function StableDraw(hash: (nat, UserId) -> nat, seed: nat, ids: seq<UserId>): (draw: seq<UserId>)
    ensures multiset(draw) == multiset(ids)
  {
    Sort(ids, DrawOrder(hash, seed))
  }

  lemma {:induction false} DrawOrderIsTotal(hash: (nat, UserId) -> nat, seed: nat)
    ensures Preorder(DrawOrder(hash, seed))
    ensures forall s: seq<UserId> :: NoTies(s, DrawOrder(hash, seed))
  {
  }

  /** The draw is a rearrangement of the players that depends on the seed and on who plays, not on the order given. */
  lemma {:induction false} DrawDependsOnlyOnSet(hash: (nat, UserId) -> nat, seed: nat, a: seq<UserId>, b: seq<UserId>)
    requires multiset(a) == multiset(b)
    ensures StableDraw(hash, seed, a) == StableDraw(hash, seed, b)
    ensures multiset(StableDraw(hash, seed, a)) == multiset(b)
  {
    DrawOrderIsTotal(hash, seed);
    SortIgnoresOrder(a, b, DrawOrder(hash, seed));
  }

  /** Who is drawn earlier has the smaller hash of seed and id, or the same hash and the smaller id. */
  lemma {:induction false} DrawIsByHash(hash: (nat, UserId) -> nat, seed: nat, ids: seq<UserId>, i: nat, j: nat)
    requires i < j < |ids|
    ensures |StableDraw(hash, seed, ids)| == |ids|
    ensures var draw := StableDraw(hash, seed, ids);
      hash(seed, draw[i]) < hash(seed, draw[j]) || (hash(seed, draw[i]) == hash(seed, draw[j]) && draw[i] <= draw[j])
  {
    var draw := StableDraw(hash, seed, ids);
    assert |multiset(draw)| == |draw| && |multiset(ids)| == |ids|;
    DrawOrderIsTotal(hash, seed);
    SortSorts(ids, DrawOrder(hash, seed));
    assert DrawOrder(hash, seed)(draw[i], draw[j]);
  }

  // ---- teams ---------------------------------------------------------------

  function Teams(draw: seq<UserId>): seq<Pair> {
    seq(|draw| / 2, i requires 0 <= i < |draw| / 2 => Pair(draw[2 * i], draw[2 * i + 1]))
  }

  ghost predicate On(p: Pair, user: UserId) {
    p.first == user || p.second == user
  }

  /** Every player is on one of the two-player teams, and on no other. */
  ghost predicate Partitions(teams: seq<Pair>, ids: seq<UserId>) {
    && (forall t :: 0 <= t < |teams| ==>
       teams[t].first != teams[t].second && teams[t].first in ids && teams[t].second in ids)
    && (forall u :: u in ids ==> OnSome(teams, u))
    && (forall t, t' :: 0 <= t < t' < |teams| ==> Apart(teams[t], teams[t']))
  }

  ghost predicate OnSome(teams: seq<Pair>, user: UserId) {
    exists t :: 0 <= t < |teams| && On(teams[t], user)
  }

  ghost predicate Apart(p: Pair, q: Pair) {
    p.first != q.first && p.first != q.second && p.second != q.first && p.second != q.second
  }

  lemma {:induction false} PairingPartitions(draw: seq<UserId>)
    requires NoRepeats(draw) && |draw| % 2 == 0
    ensures Partitions(Teams(draw), draw)
  {
    var teams := Teams(draw);
    forall u | u in draw ensures OnSome(teams, u) {
      var i :| 0 <= i < |draw| && draw[i] == u;
      assert On(teams[i / 2], u);
    }
    forall t, t' | 0 <= t < t' < |teams| ensures Apart(teams[t], teams[t']) {
      var i, j := 2 * t, 2 * t';
      assert draw[i] != draw[j] && draw[i] != draw[j + 1] && draw[i + 1] != draw[j] && draw[i + 1] != draw[j + 1];
      assert teams[t] == Pair(draw[i], draw[i + 1]) && teams[t'] == Pair(draw[j], draw[j + 1]);
    }
    forall t | 0 <= t < |teams|
      ensures teams[t].first != teams[t].second && teams[t].first in draw && teams[t].second in draw
    {
      var i := 2 * t;
      assert teams[t] == Pair(draw[i], draw[i + 1]);
    }
  }

  /** Team t is the two players drawn at places 2t and 2t + 1, in that order, and no other team has them. */
  lemma {:induction false} TeamsAreNeighbours(hash: (nat, UserId) -> nat, seed: nat, ids: seq<UserId>, i: nat, t: nat)
    requires NoRepeats(ids) && |ids| % 2 == 0 && i < |ids| && t < |ids| / 2
    ensures |StableDraw(hash, seed, ids)| == |ids| && |Teams(StableDraw(hash, seed, ids))| == |ids| / 2
    ensures var draw := StableDraw(hash, seed, ids);
      && (Teams(draw)[t].first == draw[i] <==> i == 2 * t)
      && (Teams(draw)[t].second == draw[i] <==> i == 2 * t + 1)
  {
    var draw := StableDraw(hash, seed, ids);
    assert |multiset(draw)| == |draw| && |multiset(ids)| == |ids|;
    RearrangedHasNoRepeats(ids, draw);
    assert Teams(draw)[t] == Pair(draw[2 * t], draw[2 * t + 1]);
  }

  /** Every drawn registrant is on exactly one two-player team. */
  lemma {:induction false} EveryPlayerOnOneTeam(hash: (nat, UserId) -> nat, seed: nat, ids: seq<UserId>)
    requires NoRepeats(ids) && |ids| % 2 == 0
    ensures |Teams(StableDraw(hash, seed, ids))| == |ids| / 2
    ensures Partitions(Teams(StableDraw(hash, seed, ids)), ids)
  {
    var draw := StableDraw(hash, seed, ids);
    RearrangedHasNoRepeats(ids, draw);
    assert |multiset(draw)| == |draw| && |multiset(ids)| == |ids|;
    PairingPartitions(draw);
    forall u ensures u in draw <==> u in ids {
      assert u in draw <==> u in multiset(draw);
      assert u in ids <==> u in multiset(ids);
    }
  }
}
