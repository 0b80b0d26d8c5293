# Retweet contest store, modelled in Dafny

The program fetches the accounts that retweeted a post and keeps their user
IDs in `retweets.txt`, one decimal number per line. It can also draw one of
them as a winner. This project models the part of `main.go` that is not HTTP,
JSON or environment plumbing:

- `mergeRetweets`: a deduplicating append. It is the `MergeRetweets` method,
  with the nested loops and the `found` flag, proved against the function `Merged`.
- The file's line format:
  - `Store` writes one `"%d\n"` per ID (`Serialize`, `Decimal.Format`).
  - `readFile` splits the text the way `bufio.ScanLines` does (`Lines`). It
    parses each line with `strconv.Atoi` (`Decimal.Atoi`) and stops at the
    first line that does not parse (`ParseLines`, and the method
    `RetweetsFile.ReadFile`).
- `Store` as a state change of the file. The class `RetweetsFile` holds the
  file's text in `contents`. `Store` truncates that text, then reads it,
  merges and writes, exactly as `main.go` orders these steps.
- `PickWinner`, with the random index as a parameter.
- The request strings: the lookup URL and the `key:secret` text.

User IDs have type `Int64` (Go's `int` on a 64-bit platform). `Atoi` keeps
Go's overflow behaviour:
- A digit run that overflows uint64 is `ErrRange`, even when a non-digit follows.
- Otherwise any non-digit is `ErrSyntax`.
- Otherwise a magnitude outside the int64 range is `ErrRange`.

The program is meant to skip empty lines of the file, to keep the IDs of
earlier runs, and to report an error when there is no one to pick. The code
does none of these, and the model follows the code:
- Every scanned line goes to `Atoi`, so an empty line is an error
  (`BlankLineRejected`).
- `Store` truncates the file before reading it, so the earlier IDs are lost
  (see "## Findings").
- `PickWinner` on an empty list panics in `rand.Intn`, so the model takes a
  precondition instead of an error result.

## Model

| member | source | states |
|---|---|---|
| Merge.Unseen | main.go:157-168 | the incoming retweets the loop appends: at most `|new|` of them, none with an ID in `existing`; `UnseenMembers` and `UnseenAppend` state exactly which, in which order |
| Merge.Merged | main.go:154-171 | what `mergeRetweets` returns: `existing` followed by `Unseen`, so no shorter than `existing` and no longer than both inputs together; properties in the `Merged*` lemmas below |
| Merge.MergeRetweets | main.go:154-171 | the loop's result is `existing` followed by the incoming retweets whose ID is not in `existing`, in incoming order (`Merged`) |
| Merge.UnseenMembers | main.go:157-168 | a retweet is appended iff it is in `new` and its ID does not occur in `existing`; no more than `|new|` are appended |
| Merge.UnseenAppend | main.go:157-168 | the appended part keeps the order of `new`: filtering a concatenation gives the concatenation of the filtered parts |
| Merge.MergedKeepsExisting | main.go:155-166 | `existing` is unchanged as a prefix of the result; the result is at most `|existing| + |new|` long |
| Merge.MergedIds | main.go:154-171 | the IDs of the result are the union of the IDs of `existing` and `new` |
| Merge.MergedIdempotent | main.go:154-171 | merging a list into itself returns that list |
| Merge.MergedNothing | main.go:155 | merging an empty `new` returns `existing` |
| Merge.MergedDisjoint | main.go:159-166 | when no ID of `new` is in `existing`, all of `new` is appended, repeated IDs included |
| Merge.MergedIntoEmpty | main.go:155-168 | merging into an empty list returns `new` unchanged |
| Merge.IncomingDuplicatesKept | main.go:159-166 | duplicates are checked against `existing` only: merging two retweets by user 5 into an empty list keeps both |
| Merge.MergedNoDuplicates | main.go:154-171 | if `existing` and `new` are each duplicate-free, so is the result |
| Merge.MergedCommutesOnIds | main.go:154-171 | the ID set of the result does not depend on the order of the two arguments |
| Decimal.Format | main.go:144 | `%d` of a Go int: non-empty, starting with `-` exactly for negatives; `FormatIsOneLine` and `AtoiFormat` state that it is one line that `Atoi` reads back |
| Decimal.Atoi | main.go:110 | `strconv.Atoi`: every error names the whole input, and accepted text ends in a digit; `AtoiAccepts` states exactly which texts it accepts and the value |
| Decimal.AtoiAccepts | main.go:110 | Atoi succeeds iff the line is an optional sign and at least one digit whose value fits Go's int, and then returns that value; every error carries the whole line |
| Decimal.AtoiEmpty | main.go:110 | the empty line is a syntax error |
| Decimal.AtoiFormat | main.go:144 | Atoi gives back every Go int that `%d` printed, negative ones included |
| Decimal.FormatIsOneLine | main.go:144 | what `%d` prints is non-empty, ends in a digit and holds no newline or carriage return |
| LineFormat.Line | main.go:144 | one `fmt.Sprintf("%d\n", id)` line; `LinesAfterLine` states that the scanner reads it back as the number's text |
| LineFormat.Serialize | main.go:143-144 | the text the write loop leaves: one `Line` per retweet, in order; `SerializeAppend`, `LinesOfSerialize` and `ReadAfterWrite` state its properties |
| LineFormat.SerializeAppend | main.go:143-144 | each loop step appends one `"%d\n"` line for the next retweet |
| LineFormat.Lines | main.go:107-109 | the tokens of a `bufio.Scanner` with `ScanLines`: no more tokens than characters, and none exactly for empty text; `LinesCons` and `LastLine` state the split |
| LineFormat.LinesCons | main.go:107-109 | the scanner's first line is the text up to the first newline, less one trailing carriage return |
| LineFormat.LinesAfterLine | main.go:107-109 | a line written by `Store` is read back by the scanner as the number's text |
| LineFormat.LastLine | main.go:107-109 | text after the last newline is one more line |
| LineFormat.LinesOfSerialize | main.go:107-109 | the scanner yields exactly the written lines, one per retweet, in order |
| LineFormat.LinesWithoutFinalNewline | main.go:107-109 | a last line without a newline is still yielded |
| LineFormat.ParseLines | main.go:108-119 | the scan loop over given lines: a success has one retweet per line, a failure needs a line; `ParseLinesRecords`, `ParseLinesSucceeds` and `ParseLinesRefuses` state both outcomes exactly |
| LineFormat.ParseFile | main.go:105-126 | what `readFile` returns for a file's text: an empty file reads as an empty list with no error, and a success holds no more retweets than the text has characters; `ReadAfterWrite` states the round trip |
| LineFormat.ParseLinesRecords | main.go:107-119 | on success the result has one retweet per line, in file order, each with its line's Atoi value |
| LineFormat.ParseLinesSucceeds | main.go:107-119 | the read succeeds whenever every line is an Atoi number |
| LineFormat.ParseLinesRefuses | main.go:108-113 | on failure the error wraps Atoi's error for the first refused line, and every earlier line parsed |
| LineFormat.ParseLinesAt | main.go:108-119 | one loop step: a refused line ends the read with its error; an accepted one adds its retweet before the rest |
| LineFormat.ParseFormatted | main.go:108-119 | parsing the texts of a list's IDs gives that list back |
| LineFormat.ReadAfterWrite | main.go:105-126 | reading back what `Store` writes gives the same IDs in the same order; only the empty list is the empty file, which reads as an empty list with no error |
| LineFormat.FinalNewlineOptional | main.go:107-119 | a file whose last line lacks its newline reads that line too |
| LineFormat.BlankLineRejected | main.go:110-113 | an empty line anywhere makes the read fail |
| LineFormat.BlankLineAfterId | main.go:108-113 | a blank line after a valid ID fails the read with Atoi's syntax error on `""`, and the ID already read is dropped |
| LineFormat.NonNumericLineExample | main.go:110-113 | a file holding the line `abc` fails with Atoi's syntax error naming `abc` |
| RetweetStore.RetweetsFile.ReadFile | main.go:97-127 | the scan loop returns what `ParseFile` says of the file's current contents: the parsed list, or the error of the first bad line |
| RetweetStore.RetweetsFile.WriteAll | main.go:143-149 | after truncation the write loop leaves exactly one `"%d\n"` line per retweet in the file |
| RetweetStore.RetweetsFile.Store | main.go:129-152 | whatever the file held before, it ends up holding exactly the serialisation of the incoming list; the error is nil and the file reads back as that list |
| RetweetStore.RetweetsFile.StoreMerged | main.go:129-152 | corrected order: a file that does not parse is left alone and its error returned; otherwise the file holds the merge of its old list with the incoming one |
| RetweetStore.MergeScenario | main.go:154-171 | merging retweets by 20 and 40 into 10, 20, 30 gives 10, 20, 30, 40 |
| RetweetStore.TruncationLosesPriorIds | main.go:130-141 | for the file 10, 20, 30 and incoming 20, 40, what `Store` writes differs from the merge of the prior contents with the incoming list |
| Winner.PickWinner | main.go:173-177 | for an index in `[0, len)` the winner's ID is one of the list's IDs and the error is nil |
| Winner.OnlyParticipantWins | main.go:173-177 | a one-element list always yields its only user |
| Winner.WinnersAreParticipants | main.go:173-177 | a user wins for some index iff one of the list's retweets is that user's |
| Endpoints.RetweetsLookupUrl | main.go:74 | the URL `getRetweets` requests: it starts with `RetweetsUrl` and is longer than the fixed prefix and query together; `LookupUrlNamesPost` and `LookupUrlInjective` state that it names the post |
| Endpoints.LookupUrlNamesPost | main.go:74 | the lookup URL is the fixed prefix, the post ID in decimal and the fixed query, and Atoi recovers the ID from the middle |
| Endpoints.LookupUrlInjective | main.go:74 | different post IDs give different lookup URLs |
| Endpoints.BasicCredentials | main.go:43 | the text `getEncodingCredentials` encodes: key, one colon at position `|key|`, secret; `CredentialsSplit` states that it splits back |
| Endpoints.CredentialsSplit | main.go:43 | when the key has no colon, splitting `key:secret` at its first colon gives back the key and the secret |

## Left out

- HTTP in `login` and `getRetweets` (main.go:48-95): network I/O, and `log.Fatalf` on transport errors. Only the URL string is modelled (`Endpoints`). The header strings and the form body are not.
- JSON decoding with `json.Unmarshal` (main.go:66, 90): a foreign library. The model starts from an already-decoded `Retweets` list.
- `getEncodingCredentials` (main.go:37-46): `godotenv.Load` and `os.Getenv` read the environment, and the base64 encoding (section 4 of RFC 4648) is done by `encoding/base64`. Only the `key + ":" + secret` concatenation is modelled.
- `rand.Intn` (main.go:174): randomness and its distribution. The index is a parameter, and its range `0 <= n < len` is a precondition. An empty list has no valid index, matching the panic.
- File handles (`os.Create`, `os.Open`, `defer f.Close()`): the file is one `string` field. `os.Create` is modelled as setting it to empty text. The `log.Fatalf` paths for open, create and write failures are not modelled: the model assumes these calls succeed.
- `bufio.Scanner` beyond `ScanLines`: the 64 KiB token limit (`ErrTooLong`) and other `scanner.Err()` read errors (main.go:122-124) are not modelled. So `ReadFile` has no scan-error outcome. The file is text over `char` rather than bytes. That gives the same results: `Atoi` refuses a non-ASCII byte in a line just as it refuses any other non-digit character, and the bytes of `\n` and `\r` never occur inside a UTF-8 multibyte sequence, so lines split at the same places.
- Error message text: `fmt.Errorf` wrapping is the constructor `ParseRetweetId` around Atoi's `NumError(num, kind)`. The rendered message is not modelled.
- `main` (main.go:179-196): flag parsing, printing and the call sequence. The default post ID literal at main.go:180 fits `Int64`.
- Winner.PickWinner: the contract states membership and a nil error. That the winner is exactly `list[n].User` is the function's body, which callers see because `PickWinner` is transparent. `OnlyParticipantWins` and `WinnersAreParticipants` state two consequences: a single participant always wins, and the possible winners are exactly the list's users.

## Findings

| source | as written | input that shows it | evidently intended | confidence | as-written member | corrected member |
|---|---|---|---|---|---|---|
| main.go:130-136 | `os.Create` truncates retweets.txt before `readFile` reads it, so the existing list is always empty and the file ends up holding only the incoming IDs | file `10\n20\n30\n`, incoming retweets by 20 and 40: the file afterwards is `20\n40\n` | read the existing IDs first, merge, then truncate and write: `10\n20\n30\n40\n` | not executed | RetweetStore.TruncationLosesPriorIds | RetweetStore.RetweetsFile.StoreMerged |

`RetweetStore.RetweetsFile.Store` models the code as written. The client
methods `TruncationScenario` and `MergedStoreScenario` call `Store` and
`StoreMerged` on the scenario above, and the verifier proves the file
contents each one leaves.
