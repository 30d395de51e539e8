/** Result and option types shared by every component. */
module Common {
  datatype Option<+T> = None | Some(value: T)

  /** `Err` stands for an exception that rolls the surrounding database transaction back. */
  datatype Result<+T, +E> = Ok(value: T) | Err(error: E)

  /** The state a transaction leaves: the new one, or the old one when it was refused. */
  function Committed<T, E>(before: T, outcome: Result<T, E>): T {
    match outcome case Ok(after) => after case Err(_) => before
  }

  function WhyRefused<T, E>(outcome: Result<T, E>): Option<E> {
    match outcome case Ok(_) => None case Err(why) => Some(why)
  }

  function Init<T>(s: seq<T>): seq<T>
    requires s != []
  {
    s[..|s| - 1]
  }

  function Last<T>(s: seq<T>): T
    requires s != []
  {
    s[|s| - 1]
  }

  lemma {:induction false} OneMore<T>(s: seq<T>, x: T)
    ensures Init(s + [x]) == s && Last(s + [x]) == x
  {
  }

  lemma {:induction false} SubsetSize<T>(a: set<T>, b: set<T>)
    requires a <= b
    ensures |a| <= |b|
  {
    assert b == a + (b - a);
  }

  /** There is always a number that is not in use. */
  lemma {:induction false} FreeNumber(taken: set<nat>) returns (k: nat)
    ensures forall j :: j in taken ==> j < k
  {
    if taken == {} {
      k := 0;
    } else {
      var some :| some in taken;
      var above := FreeNumber(taken - {some});
      k := if above > some then above else some + 1;
      forall j | j in taken ensures j < k { assert j == some || j in taken - {some}; }
    }
  }

  /** User ids; only equality and the database's `ORDER BY "userId"` order matter. */
  type UserId = nat
}
