/**
 * retweets.txt as one piece of state, and the `readFile` and `Store`
 * operations on it. Opening, creating and closing the file are not modelled
 * as handles: `os.Create` is the truncation of the contents to empty text.
 */
module RetweetStore {
  import opened Wrappers
  import opened Decimal
  import opened Participants
  import opened LineFormat
  import opened Merge

  class RetweetsFile {
    /** The text retweets.txt holds. */
    var contents: string

    constructor (text: string)
      ensures contents == text
    {
      contents := text;
    }

    /**
     * `readFile`: scan the lines in order, parse each with Atoi, and return
     * an error and no list at the first line that does not parse.
     */
    method ReadFile() returns (r: Result<Retweets, ReadError>)
      ensures r == ParseFile(contents)
    {
      var lines := Lines(contents);
      var retweets: Retweets := [];
      PrependNothing(ParseLines(lines));
      assert lines[0..] == lines;
      for i := 0 to |lines|
        invariant ParseLines(lines) == Prepend(retweets, ParseLines(lines[i..]))
      {
        ParseLinesAt(lines, i);
        var id := Atoi(lines[i]);
        if id.Failure? {
          return Failure(ParseRetweetId(id.error));
        }
        PrependPrepend(retweets, [RetweetBy(id.value)], ParseLines(lines[i + 1..]));
        retweets := retweets + [RetweetBy(id.value)];
      }
      assert lines[|lines|..] == [] && retweets + [] == retweets;
      return Success(retweets);
    }

    /** The write loop of `Store` on the freshly truncated file: one `"%d\n"` line per retweet, in order. */
    method WriteAll(rs: Retweets)
      requires contents == ""
      modifies this
      ensures contents == Serialize(rs)
    {
      for i := 0 to |rs|
        invariant contents == Serialize(rs[..i])
      {
        ghost var written := rs[..i];
        assert rs[..i + 1] == written + [rs[i]];
        SerializeAppend(written, rs[i]);
        contents := contents + Line(rs[i].user.id);
      }
      assert rs[..|rs|] == rs;
    }

    /**
     * `Store` as written: `os.Create` truncates the file BEFORE `readFile`
     * reads it, so the merge always starts from an empty list and the file
     * ends up holding the incoming list alone, whatever it held before.
     */
    method Store(retweets: Retweets) returns (err: Option<ReadError>)
      modifies this
      ensures err == None
      ensures contents == Serialize(retweets)
      ensures ParseFile(contents) == Success(retweets)
    {
      contents := "";
      var existing := ReadFile();
      match existing
      case Failure(e) =>
        return Some(e);
      case Success(prior) =>
        assert prior == [];
        var merged := MergeRetweets(prior, retweets);
        MergedIntoEmpty(retweets);
        WriteAll(merged);
        ReadAfterWrite(retweets);
        return None;
    }

    /**
     * `Store` as evidently intended: read the persisted list first, merge,
     * and only then truncate and write. A file that does not parse is left
     * as it was and its error returned.
     */
    method StoreMerged(retweets: Retweets) returns (err: Option<ReadError>)
      modifies this
      ensures ParseFile(old(contents)).Failure? ==>
        err == Some(ParseFile(old(contents)).error) && contents == old(contents)
      ensures ParseFile(old(contents)).Success? ==>
        err == None && contents == Serialize(Merged(ParseFile(old(contents)).value, retweets))
    {
      var existing := ReadFile();
      match existing
      case Failure(e) =>
        return Some(e);
      case Success(prior) =>
        var merged := MergeRetweets(prior, retweets);
        contents := "";
        WriteAll(merged);
        return None;
    }
  }

  /**
   * `Store` as written on a file holding 10, 20 and 30 that receives
   * retweets by 20 and 40: afterwards the file holds only 20 and 40, not
   * 10, 20, 30 and 40.
   */
  method TruncationScenario() {
    var prior := [RetweetBy(10), RetweetBy(20), RetweetBy(30)];
    var incoming := [RetweetBy(20), RetweetBy(40)];
    var file := new RetweetsFile(Serialize(prior));
    var err := file.Store(incoming);
    assert err == None && file.contents == Serialize(incoming);
    TruncationLosesPriorIds();
    assert file.contents != Serialize([RetweetBy(10), RetweetBy(20), RetweetBy(30), RetweetBy(40)]);
  }

  /** The same scenario with the corrected store: the file holds 10, 20, 30 and 40, in that order. */
  method MergedStoreScenario() {
    var prior := [RetweetBy(10), RetweetBy(20), RetweetBy(30)];
    var incoming := [RetweetBy(20), RetweetBy(40)];
    var file := new RetweetsFile(Serialize(prior));
    ReadAfterWrite(prior);
    var err := file.StoreMerged(incoming);
    MergeScenario();
    assert err == None;
    assert file.contents == Serialize([RetweetBy(10), RetweetBy(20), RetweetBy(30), RetweetBy(40)]);
  }

  /** Merging retweets by 20 and 40 into 10, 20, 30 gives 10, 20, 30, 40. */
  lemma MergeScenario()
    ensures Merged([RetweetBy(10), RetweetBy(20), RetweetBy(30)], [RetweetBy(20), RetweetBy(40)])
      == [RetweetBy(10), RetweetBy(20), RetweetBy(30), RetweetBy(40)]
  {
    var existing := [RetweetBy(10), RetweetBy(20), RetweetBy(30)];
    var incoming := [RetweetBy(20), RetweetBy(40)];
    assert 20 in IdSet(existing) by {
      assert existing[1].user.id == 20;
    }
    assert 40 !in IdSet(existing);
    var none: Retweets := [];
    assert incoming[..1] == [RetweetBy(20)] && incoming[..1][..0] == [];
    assert Unseen(existing, incoming[..1]) == none;
    assert Unseen(existing, incoming) == [RetweetBy(40)];
  }

  /**
   * What the truncation costs in that scenario: the file `Store` writes
   * differs from, and reads back differently than, the merge of the prior
   * contents with the incoming retweets.
   */
  lemma TruncationLosesPriorIds()
    ensures var prior := [RetweetBy(10), RetweetBy(20), RetweetBy(30)];
            var incoming := [RetweetBy(20), RetweetBy(40)];
            ParseFile(Serialize(prior)) == Success(prior) &&
            Serialize(incoming) != Serialize(Merged(prior, incoming))
  {
    var prior := [RetweetBy(10), RetweetBy(20), RetweetBy(30)];
    var incoming := [RetweetBy(20), RetweetBy(40)];
    ReadAfterWrite(prior);
    ReadAfterWrite(incoming);
    MergeScenario();
    ReadAfterWrite(Merged(prior, incoming));
  }
}
