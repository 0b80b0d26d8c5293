/**
 * `mergeRetweets`: the persisted list followed by each incoming retweet whose
 * user ID the persisted list does not already hold. Incoming retweets are
 * checked against the persisted list only, never against one another.
 */
module Merge {
  import opened Participants

  /** The incoming retweets whose ID is not among `existing`'s, in incoming order. */
  function Unseen(existing: Retweets, incoming: Retweets): (unseen: Retweets)
    ensures |unseen| <= |incoming|
    ensures forall k :: 0 <= k < |unseen| ==> unseen[k].user.id !in IdSet(existing)
    decreases |incoming|
  {
    if incoming == [] then []
    else
      var last := incoming[|incoming| - 1];
      Unseen(existing, incoming[..|incoming| - 1]) + (if last.user.id in IdSet(existing) then [] else [last])
  }

  /** The list `mergeRetweets(existing, incoming)` returns. */
  function Merged(existing: Retweets, incoming: Retweets): (merged: Retweets)
    ensures |existing| <= |merged| <= |existing| + |incoming|
  {
    existing + Unseen(existing, incoming)
  }

  /**
   * The nested loops of `mergeRetweets`: for each incoming retweet, a scan of
   * `existing` with a `found` flag that stops at the first equal ID.
   */
  method MergeRetweets(existing: Retweets, incoming: Retweets) returns (merged: Retweets)
    ensures merged == Merged(existing, incoming)
  {
    merged := existing;
    for i := 0 to |incoming|
      invariant merged == existing + Unseen(existing, incoming[..i])
    {
      var retweet := incoming[i];
      var found := false;
      for j := 0 to |existing|
        invariant found <==> exists k :: 0 <= k < j && existing[k].user.id == retweet.user.id
      {
        if retweet.user.id == existing[j].user.id {
          found := true;
          break;
        }
      }
      assert found <==> retweet.user.id in IdSet(existing);
      assert incoming[..i + 1][..i] == incoming[..i];
      if !found {
        merged := merged + [retweet];
      }
    }
    assert incoming[..|incoming|] == incoming;
  }

  /** What `Unseen` keeps: exactly the incoming retweets whose ID is new. */
  lemma {:induction false} UnseenMembers(existing: Retweets, incoming: Retweets)
    ensures forall r :: r in Unseen(existing, incoming) <==> r in incoming && r.user.id !in IdSet(existing)
    ensures |Unseen(existing, incoming)| <= |incoming|
  {
    if incoming != [] {
      var init := incoming[..|incoming| - 1];
      UnseenMembers(existing, init);
      assert incoming == init + [incoming[|incoming| - 1]];
    }
  }

  /** `Unseen` keeps incoming order: it maps a concatenation to a concatenation. */
  lemma {:induction false} UnseenAppend(existing: Retweets, a: Retweets, b: Retweets)
    ensures Unseen(existing, a + b) == Unseen(existing, a) + Unseen(existing, b)
    decreases |b|
  {
    if b == [] {
      assert a + b == a;
    } else {
      var init := b[..|b| - 1];
      var last := b[|b| - 1];
      assert (a + b)[..|a + b| - 1] == a + init;
      assert (a + b)[|a + b| - 1] == last;
      UnseenAppend(existing, a, init);
    }
  }

  /** The persisted list is a prefix of the result, which is no longer than both inputs together. */
  lemma MergedKeepsExisting(existing: Retweets, incoming: Retweets)
    ensures |Merged(existing, incoming)| <= |existing| + |incoming|
    ensures Merged(existing, incoming)[..|existing|] == existing
  {
    UnseenMembers(existing, incoming);
  }

  /** The IDs of the result are the union of the IDs of both inputs. */
  lemma MergedIds(existing: Retweets, incoming: Retweets)
    ensures IdSet(Merged(existing, incoming)) == IdSet(existing) + IdSet(incoming)
  {
    var unseen := Unseen(existing, incoming);
    UnseenMembers(existing, incoming);
    IdSetAppend(existing, unseen);
    forall x | x in IdSet(incoming) ensures x in IdSet(existing) + IdSet(unseen) {
      var i :| 0 <= i < |incoming| && incoming[i].user.id == x;
      if x !in IdSet(existing) {
        assert incoming[i] in unseen;
        InIdSet(unseen, incoming[i]);
      }
    }
    forall x | x in IdSet(unseen) ensures x in IdSet(incoming) {
      var i :| 0 <= i < |unseen| && unseen[i].user.id == x;
      assert unseen[i] in incoming;
      InIdSet(incoming, unseen[i]);
    }
  }

  /** Merging a list into itself changes nothing. */
  lemma MergedIdempotent(list: Retweets)
    ensures Merged(list, list) == list
  {
    UnseenMembers(list, list);
    var unseen := Unseen(list, list);
    if unseen != [] {
      assert unseen[0] in list;
      InIdSet(list, unseen[0]);
      assert false;
    }
  }

  /** Merging nothing in changes nothing. */
  lemma MergedNothing(list: Retweets)
    ensures Merged(list, []) == list
  {
  }

  /** When no incoming ID is already present, every incoming retweet is appended, duplicates included. */
  lemma MergedDisjoint(existing: Retweets, incoming: Retweets)
    requires IdSet(existing) !! IdSet(incoming)
    ensures Merged(existing, incoming) == existing + incoming
  {
    UnseenDisjoint(existing, incoming);
  }

  lemma {:induction false} UnseenDisjoint(existing: Retweets, incoming: Retweets)
    requires IdSet(existing) !! IdSet(incoming)
    ensures Unseen(existing, incoming) == incoming
  {
    if incoming != [] {
      var init := incoming[..|incoming| - 1];
      var last := incoming[|incoming| - 1];
      assert IdSet(init) <= IdSet(incoming) by {
        forall x | x in IdSet(init) ensures x in IdSet(incoming) {
          var i :| 0 <= i < |init| && init[i].user.id == x;
          assert incoming[i] == init[i];
        }
      }
      assert last in incoming;
      InIdSet(incoming, last);
      UnseenDisjoint(existing, init);
      assert incoming == init + [last];
    }
  }

  /** Into an empty store the incoming list goes unchanged. */
  lemma MergedIntoEmpty(incoming: Retweets)
    ensures Merged([], incoming) == incoming
  {
    MergedDisjoint([], incoming);
  }

  /** Duplicates inside the incoming list are not removed: two retweets by user 5 stay two. */
  lemma IncomingDuplicatesKept()
    ensures Merged([], [RetweetBy(5), RetweetBy(5)]) == [RetweetBy(5), RetweetBy(5)]
  {
    MergedIntoEmpty([RetweetBy(5), RetweetBy(5)]);
  }

  /** Unseen retweets are drawn from a duplicate-free list without repeating one. */
  lemma {:induction false} UnseenNoDuplicates(existing: Retweets, incoming: Retweets)
    requires NoDuplicateIds(incoming)
    ensures NoDuplicateIds(Unseen(existing, incoming))
  {
    if incoming != [] {
      var init := incoming[..|incoming| - 1];
      var last := incoming[|incoming| - 1];
      assert NoDuplicateIds(init) by {
        forall i, j | 0 <= i < j < |init| ensures init[i].user.id != init[j].user.id {
          assert init[i] == incoming[i] && init[j] == incoming[j];
        }
      }
      UnseenNoDuplicates(existing, init);
      UnseenMembers(existing, init);
      var u := Unseen(existing, init);
      if last.user.id !in IdSet(existing) {
        forall i | 0 <= i < |u| ensures u[i].user.id != last.user.id {
          assert u[i] in init;
          var k :| 0 <= k < |init| && init[k] == u[i];
          assert incoming[k] == init[k];
        }
      }
    }
  }

  /** Duplicate-free inputs give a duplicate-free result. */
  lemma MergedNoDuplicates(existing: Retweets, incoming: Retweets)
    requires NoDuplicateIds(existing) && NoDuplicateIds(incoming)
    ensures NoDuplicateIds(Merged(existing, incoming))
  {
    var u := Unseen(existing, incoming);
    UnseenNoDuplicates(existing, incoming);
    UnseenMembers(existing, incoming);
    var m := existing + u;
    forall i, j | 0 <= i < j < |m| ensures m[i].user.id != m[j].user.id {
      if j >= |existing| {
        assert m[j] == u[j - |existing|];
        if i < |existing| {
          assert m[j] in u;
          InIdSet(existing, m[i]);
        } else {
          assert m[i] == u[i - |existing|];
        }
      }
    }
  }

  /** Merge commutes on the set of IDs, though not on order. */
  lemma MergedCommutesOnIds(a: Retweets, b: Retweets)
    ensures IdSet(Merged(a, b)) == IdSet(Merged(b, a))
  {
    MergedIds(a, b);
    MergedIds(b, a);
  }
}
