/**
 * `PickWinner`: one retweet's user, at an index chosen by `rand.Intn`. The
 * random draw is outside the model; the index is a parameter that must lie
 * in `[0, len)`, since `rand.Intn` panics on an empty list.
 */
module Winner {
  import opened Wrappers
  import opened Participants

  /** Go's `(User, error)` result of `PickWinner`. */
  datatype Pick = Pick(winner: User, err: Option<string>)

  /** The participant at the drawn index `n`; the error is always nil. */
  function PickWinner(retweets: Retweets, n: int): (p: Pick)
    requires 0 <= n < |retweets|
    ensures p.err == None
    ensures p.winner.id in IdSet(retweets)
  {
    Pick(retweets[n].user, None)
  }

  /** A single participant always wins. */
  lemma OnlyParticipantWins(r: Retweet, n: int)
    requires 0 <= n < 1
    ensures PickWinner([r], n) == Pick(r.user, None)
  {
  }

  /** Every participant is the winner for some draw, and only participants win. */
  lemma WinnersAreParticipants(retweets: Retweets, u: User)
    ensures (exists n :: 0 <= n < |retweets| && PickWinner(retweets, n).winner == u)
        <==> Retweet(u) in retweets
  {
    if Retweet(u) in retweets {
      var k :| 0 <= k < |retweets| && retweets[k] == Retweet(u);
      assert PickWinner(retweets, k).winner == u;
    }
  }
}
