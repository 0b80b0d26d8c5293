/**
 * The participant data: Go's `User` (just an integer ID) and the element
 * type of `Retweets`, a struct holding one `User`.
 */
module Participants {
  import opened Decimal

  datatype User = User(id: Int64)

  datatype Retweet = Retweet(user: User)

  /** Go's `Retweets`, a slice of retweet records. */
  type Retweets = seq<Retweet>

  /** The set of user IDs occurring in a list. */
  function IdSet(rs: Retweets): set<int> {
    set i | 0 <= i < |rs| :: rs[i].user.id as int
  }

  /** No user ID occurs twice. */
  predicate NoDuplicateIds(rs: Retweets) {
    forall i, j :: 0 <= i < j < |rs| ==> rs[i].user.id != rs[j].user.id
  }

  /** A retweet record for the given user ID. */
  function RetweetBy(id: Int64): (r: Retweet)
    ensures r.user.id == id
  {
    Retweet(User(id))
  }

  lemma IdSetAppend(a: Retweets, b: Retweets)
    ensures IdSet(a + b) == IdSet(a) + IdSet(b)
  {
    var ab := a + b;
    forall x | x in IdSet(a) + IdSet(b) ensures x in IdSet(ab) {
      if x in IdSet(a) {
        var i :| 0 <= i < |a| && a[i].user.id == x;
        assert ab[i] == a[i];
      } else {
        var i :| 0 <= i < |b| && b[i].user.id == x;
        assert ab[|a| + i] == b[i];
      }
    }
  }

  /** A member's ID is in the list's ID set. */
  lemma InIdSet(rs: Retweets, r: Retweet)
    requires r in rs
    ensures r.user.id in IdSet(rs)
  {
    var i :| 0 <= i < |rs| && rs[i] == r;
  }
}
