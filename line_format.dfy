/**
 * The text of retweets.txt: one `"%d\n"` per participant as `Store` writes
 * it, and how `readFile` reads it back, splitting lines the way
 * `bufio.ScanLines` does and parsing each with `strconv.Atoi`.
 */
module LineFormat {
  import opened Wrappers
  import opened Decimal
  import opened Participants
  import opened Text

  /** The error `readFile` returns for a bad line: "error parsing retweet ID: <Atoi's error>". */
  datatype ReadError = ParseRetweetId(cause: NumError)

  /** `bufio`'s dropCR: one trailing carriage return is not part of the line. */
  function DropCR(s: string): string {
    if |s| > 0 && s[|s| - 1] == '\r' then s[..|s| - 1] else s
  }

  /**
   * The tokens a `bufio.Scanner` with the default `ScanLines` split yields:
   * the text up to each newline, and the rest after the last newline if it is
   * not empty. A text ending in a newline has no empty last line.
   */
  function Lines(text: string): (lines: seq<string>)
    ensures |lines| <= |text|
    ensures text == [] <==> lines == []
    decreases |text|
  {
    if text == [] then []
    else
      var i := IndexOf(text, '\n');
      if i < |text| then [DropCR(text[..i])] + Lines(text[i + 1..])
      else [DropCR(text)]
  }

  /** One line as `Store` writes it: `fmt.Sprintf("%d\n", id)`. */
  function Line(id: int): string {
    Format(id) + "\n"
  }

  /** What the write loop of `Store` leaves in the file: one line per retweet, in order. */
  function Serialize(rs: Retweets): string {
    if rs == [] then "" else Line(rs[0].user.id) + Serialize(rs[1..])
  }

  /** Puts `front` before a successful parse; passes an error through. */
  function Prepend(front: Retweets, r: Result<Retweets, ReadError>): Result<Retweets, ReadError> {
    match r
    case Success(rest) => Success(front + rest)
    case Failure(e) => Failure(e)
  }

  /** The scan loop of `readFile`: one retweet per line, stopping at the first line Atoi refuses. */
  function ParseLines(lines: seq<string>): (r: Result<Retweets, ReadError>)
    ensures r.Success? ==> |r.value| == |lines|
    ensures r.Failure? ==> lines != []
  {
    if lines == [] then Success([])
    else
      match Atoi(lines[0])
      case Failure(e) => Failure(ParseRetweetId(e))
      case Success(id) => Prepend([RetweetBy(id)], ParseLines(lines[1..]))
  }

  lemma PrependNothing(r: Result<Retweets, ReadError>)
    ensures Prepend([], r) == r
  {
    if r.Success? {
      assert [] + r.value == r.value;
    }
  }

  lemma PrependPrepend(a: Retweets, b: Retweets, r: Result<Retweets, ReadError>)
    ensures Prepend(a, Prepend(b, r)) == Prepend(a + b, r)
  {
    if r.Success? {
      assert a + (b + r.value) == (a + b) + r.value;
    }
  }

  /** One step of the scan loop, at line `i`. */
  lemma ParseLinesAt(lines: seq<string>, i: nat)
    requires i < |lines|
    ensures Atoi(lines[i]).Failure? ==> ParseLines(lines[i..]) == Failure(ParseRetweetId(Atoi(lines[i]).error))
    ensures Atoi(lines[i]).Success? ==>
      ParseLines(lines[i..]) == Prepend([RetweetBy(Atoi(lines[i]).value)], ParseLines(lines[i + 1..]))
  {
    assert lines[i..][0] == lines[i] && lines[i..][1..] == lines[i + 1..];
  }

  /** What `readFile` returns for a file holding `text`. */
  function ParseFile(text: string): (r: Result<Retweets, ReadError>)
    ensures r.Success? ==> |r.value| <= |text|
    ensures text == [] ==> r == Success([])
  {
    ParseLines(Lines(text))
  }

  /** The text of each retweet's line. */
  function FormatIds(rs: Retweets): (lines: seq<string>)
    ensures |lines| == |rs|
  {
    if rs == [] then [] else [Format(rs[0].user.id)] + FormatIds(rs[1..])
  }

  /** When `readFile` succeeds it holds one retweet per line, in file order, each line's Atoi value. */
  lemma {:induction false} ParseLinesRecords(lines: seq<string>)
    ensures ParseLines(lines).Success? ==>
      |ParseLines(lines).value| == |lines| &&
      forall i :: 0 <= i < |lines| ==> Atoi(lines[i]) == Success(ParseLines(lines).value[i].user.id)
  {
    if lines != [] && ParseLines(lines).Success? {
      var rest := lines[1..];
      var head := Atoi(lines[0]);
      var tail := ParseLines(rest);
      var rs := ParseLines(lines).value;
      assert head.Success? && tail.Success? && rs == [RetweetBy(head.value)] + tail.value;
      ParseLinesRecords(rest);
      forall i | 0 <= i < |lines| ensures Atoi(lines[i]) == Success(rs[i].user.id) {
        if i > 0 {
          assert lines[i] == rest[i - 1];
        }
      }
    }
  }

  /** `readFile` succeeds whenever every line is an Atoi number. */
  lemma {:induction false} ParseLinesSucceeds(lines: seq<string>)
    requires forall i :: 0 <= i < |lines| ==> Atoi(lines[i]).Success?
    ensures ParseLines(lines).Success?
  {
    if lines != [] {
      var rest := lines[1..];
      assert forall i :: 0 <= i < |rest| ==> Atoi(rest[i]).Success? by {
        forall i | 0 <= i < |rest| ensures Atoi(rest[i]).Success? {
          assert rest[i] == lines[i + 1];
        }
      }
      ParseLinesSucceeds(rest);
    }
  }

  /** When `readFile` fails, its error is Atoi's error for the first line Atoi refuses. */
  lemma {:induction false} ParseLinesRefuses(lines: seq<string>)
    ensures ParseLines(lines).Failure? ==>
      exists k :: 0 <= k < |lines| && Atoi(lines[k]).Failure? &&
        (forall j :: 0 <= j < k ==> Atoi(lines[j]).Success?) &&
        ParseLines(lines).error == ParseRetweetId(Atoi(lines[k]).error)
  {
    if lines != [] && ParseLines(lines).Failure? {
      var rest := lines[1..];
      var head := Atoi(lines[0]);
      if head.Failure? {
        assert ParseLines(lines).error == ParseRetweetId(Atoi(lines[0]).error);
      } else {
        var tail := ParseLines(rest);
        assert ParseLines(lines) == Prepend([RetweetBy(head.value)], tail);
        ParseLinesRefuses(rest);
        var k :| 0 <= k < |rest| && Atoi(rest[k]).Failure? &&
          (forall j :: 0 <= j < k ==> Atoi(rest[j]).Success?) &&
          tail.error == ParseRetweetId(Atoi(rest[k]).error);
        assert lines[k + 1] == rest[k];
        forall j | 0 <= j < k + 1 ensures Atoi(lines[j]).Success? {
          if j > 0 {
            assert lines[j] == rest[j - 1];
          }
        }
      }
    }
  }

  lemma {:induction false} SerializeAppend(rs: Retweets, r: Retweet)
    ensures Serialize(rs + [r]) == Serialize(rs) + Line(r.user.id)
  {
    var rs' := rs + [r];
    if rs == [] {
      assert rs' == [r] && rs'[1..] == [];
    } else {
      assert rs'[0] == rs[0] && rs'[1..] == rs[1..] + [r];
      SerializeAppend(rs[1..], r);
    }
  }

  /**
   * The scanner cuts the text at its first newline: what comes before it,
   * less a trailing carriage return, is the first line.
   */
  lemma LinesCons(line: string, rest: string)
    requires forall j :: 0 <= j < |line| ==> line[j] != '\n'
    ensures Lines(line + "\n" + rest) == [DropCR(line)] + Lines(rest)
  {
    var text := line + "\n" + rest;
    var i := IndexOf(text, '\n');
    assert text[|line|] == '\n';
    assert i == |line|;
    assert text[..i] == line;
    assert text[i + 1..] == rest;
  }

  /** A written line comes back from the scanner as the number's text. */
  lemma LinesAfterLine(id: int, rest: string)
    ensures Lines(Line(id) + rest) == [Format(id)] + Lines(rest)
  {
    FormatIsOneLine(id);
    assert Line(id) + rest == Format(id) + "\n" + rest;
    LinesCons(Format(id), rest);
  }

  /** The scanner gives back exactly the lines `Store` wrote, one per retweet, in order. */
  lemma {:induction false} LinesOfSerialize(rs: Retweets)
    ensures Lines(Serialize(rs)) == FormatIds(rs)
  {
    if rs != [] {
      LinesAfterLine(rs[0].user.id, Serialize(rs[1..]));
      LinesOfSerialize(rs[1..]);
    }
  }

  /** Text after the last newline is one more line. */
  lemma LastLine(s: string)
    requires s != [] && forall j :: 0 <= j < |s| ==> s[j] != '\n'
    ensures Lines(s) == [DropCR(s)]
  {
    assert IndexOf(s, '\n') == |s|;
  }

  /** A number printed without its newline scans as one line. */
  lemma LastFormattedLine(x: Int64)
    ensures Lines(Format(x)) == [Format(x)]
  {
    FormatIsOneLine(x);
    LastLine(Format(x));
  }

  lemma {:induction false} LinesWithoutFinalNewline(rs: Retweets, x: Int64)
    ensures Lines(Serialize(rs) + Format(x)) == FormatIds(rs + [RetweetBy(x)])
  {
    if rs == [] {
      assert Serialize(rs) + Format(x) == Format(x);
      LastFormattedLine(x);
    } else {
      var rest := Serialize(rs[1..]) + Format(x);
      assert Serialize(rs) + Format(x) == Line(rs[0].user.id) + rest;
      LinesAfterLine(rs[0].user.id, rest);
      LinesWithoutFinalNewline(rs[1..], x);
      assert (rs + [RetweetBy(x)])[0] == rs[0];
      assert (rs + [RetweetBy(x)])[1..] == rs[1..] + [RetweetBy(x)];
    }
  }

  lemma {:induction false} ParseFormatted(rs: Retweets)
    ensures ParseLines(FormatIds(rs)) == Success(rs)
  {
    if rs != [] {
      var lines := FormatIds(rs);
      AtoiFormat(rs[0].user.id);
      assert lines[1..] == FormatIds(rs[1..]);
      ParseFormatted(rs[1..]);
      assert [RetweetBy(rs[0].user.id)] + rs[1..] == rs;
    }
  }

  /**
   * Round trip: reading back what `Store` writes yields the same IDs in the
   * same order, negative ones included; the empty list is the empty file.
   */
  lemma ReadAfterWrite(rs: Retweets)
    ensures ParseFile(Serialize(rs)) == Success(rs)
    ensures rs == [] <==> Serialize(rs) == ""
  {
    LinesOfSerialize(rs);
    ParseFormatted(rs);
    if rs != [] {
      FormatIsOneLine(rs[0].user.id);
    }
  }

  /** Any empty line, wherever it is, makes `readFile` fail. */
  lemma BlankLineRejected(text: string, k: nat)
    requires k < |Lines(text)| && Lines(text)[k] == ""
    ensures ParseFile(text).Failure?
  {
    ParseLinesRecords(Lines(text));
    AtoiEmpty();
  }

  /** A last line without its newline still counts as a line. */
  lemma FinalNewlineOptional(rs: Retweets, x: Int64)
    ensures ParseFile(Serialize(rs) + Format(x)) == Success(rs + [RetweetBy(x)])
  {
    LinesWithoutFinalNewline(rs, x);
    ParseFormatted(rs + [RetweetBy(x)]);
  }

  /** A non-numeric line is refused with Atoi's syntax error naming it. */
  lemma NonNumericLineExample()
    ensures ParseFile("abc\n") == Failure(ParseRetweetId(NumError("abc", ErrSyntax)))
  {
    assert Lines("abc\n") == ["abc"] by {
      assert IndexOf("abc\n", '\n') == 3;
      assert "abc\n"[..3] == "abc" && "abc\n"[4..] == "";
    }
  }

  /**
   * A blank line after a good one makes the whole read fail: the IDs already
   * read are dropped and the empty text is named as the culprit.
   */
  lemma BlankLineAfterId(a: Int64)
    ensures ParseFile(Line(a) + "\n") == Failure(ParseRetweetId(NumError("", ErrSyntax)))
  {
    LinesAfterLine(a, "\n");
    assert Lines("\n") == [""] by {
      assert IndexOf("\n", '\n') == 0;
      assert "\n"[..0] == "" && "\n"[1..] == "";
    }
    AtoiFormat(a);
    AtoiEmpty();
    var lines := [Format(a), ""];
    assert Lines(Line(a) + "\n") == lines;
    assert lines[1..] == [""];
    assert ParseLines([""]) == Failure(ParseRetweetId(NumError("", ErrSyntax)));
  }
}
