# rcue: a verified model of the CUE-sheet line parser

This project models the core of rcue, a Rust reader for CUE sheets. A CUE sheet is a text
file that describes the layout of a disc: the audio files it is made of, the tracks in each
file, and their titles, performers and index points. The model covers three parts.

- **The line tokenizer and record assembler of `src/parser.rs`** (modules `Text`, `Parser`,
  `ParserOutline`).
  - `tokenize_line` trims a line and splits it into whitespace-separated words. It then
    classifies the line by its first word, REM, TITLE, FILE, PERFORMER, TRACK or INDEX,
    compared exactly. Any other first word gives `Unknown(line)`, and a blank line gives
    `None`.
  - `parse` reads the lines in order and routes each token into a nested record: disc, then
    files, then tracks. It uses two positional helpers, the last file and the last track of
    the last file.
  - `Parser.Parse` is that loop. It is proved equal to the left fold `Build` of one-step
    routing (`Apply`).
  - `ParserOutline.BuildIsOutline` proves that the fold builds exactly the record obtained
    by grouping the tokens. Each FILE line opens a file that owns the lines up to the next
    FILE line. Inside it, each TRACK line opens a track that owns the lines up to the next
    TRACK line.
- **The public data model of `src/cue.rs`** (module `CueSheet`): the `Command` enum, the
  `Track`, `CueFile` and `Cue` records, their `new` constructors, and the derived `Default`.
- **`unescape_string` of `src/util.rs`** (module `Util`). It removes a leading `"` and a
  trailing `"`, then turns each `\"` into `"`.

Some modelling choices follow the Rust code closely.

- `char::is_whitespace` is the Unicode `White_Space` property, written out as its list of
  code points. `str::trim`, `split_whitespace` and `join(" ")` are defined over it in
  `Text`.
- A call to `unwrap()` on a missing word makes the program panic. The model represents
  this as the `Outcome.Panic` value. A panic in any line ends the whole parse, so
  `Assemble` is then `Panic`.
- An item of `buf_reader.lines()` that is an I/O error is skipped by `if let Ok(l)`. The
  model represents it as `ReadLine.ReadError`.

The data model follows the Rust types one for one.

- `Parser.Token` is the private `Token` enum of `src/parser.rs:10-19`. `Parser.Track`,
  `Parser.CueFile` and `Parser.Cue` are the private records of `src/parser.rs:21-63`,
  which are the ones `parse` fills.
- `Parser.Outcome` is what a function that may `unwrap` gives: a value or a panic.
  `Parser.ReadLine` is one item of `buf_reader.lines()` (`src/parser.rs:95-96`).
- `CueSheet.Command`, `CueSheet.Track`, `CueSheet.CueFile` and `CueSheet.Cue` are the
  public types of `src/cue.rs:5-41`, `45-76`, `99-110` and `125-143`.
- `CueSheet.Duration` is `std::time::Duration`: whole seconds and fewer than 10^9
  nanoseconds.

Where the crate's own documentation and its code differ, the model follows the code.

- The example in `src/lib.rs:26-35` calls `parse_from_file(path, true)` and
  `parse(&mut reader, true)` and gets the record back. The `parse` of
  `src/parser.rs:81-138` takes no arguments, opens `test.cue` itself and returns `Ok(())`.
- `src/cue.rs:33-36` and `src/cue.rs:56-59` describe gaps converted from frames into a
  `Duration`. The parser keeps index times as the raw strings of the INDEX line
  (`src/parser.rs:125-128`).

## Model

| member | source | states |
|---|---|---|
| Parser.TokenizeNoneIffBlank | src/parser.rs:140-143 | a line tokenizes to `Token::None` exactly when it is empty or all whitespace |
| Parser.TokenizeUnknownIff | src/parser.rs:143-173 | a line gives `Unknown` exactly when its first word is not one of the six keywords (case-sensitive), and the token holds the original untrimmed line |
| Parser.TokenizePanicIff | src/parser.rs:143-172 | `tokenize_line` panics exactly when REM has no key, FILE has no argument, or TRACK or INDEX has fewer than two arguments |
| Parser.TokenizeKeepsWords | src/parser.rs:140-172 | every token produced is well formed, carries the keyword of its line, and keeps every word after the keyword in order (REM, TITLE, PERFORMER, FILE) or exactly the next two (TRACK, INDEX) |
| Parser.TokenizeRender | src/parser.rs:140-176 | tokenizing the canonical line of a well-formed token gives that token back (the partner of the tokenizer) |
| Parser.TokenizeRenderIdempotent | src/parser.rs:140-176 | re-tokenizing the canonical form of any produced token gives the same token |
| Parser.Tokenize | src/parser.rs:140-141 | trimming before `split_whitespace` does not change the words: the token is the dispatch of the words of the untrimmed line |
| Parser.Dispatch | src/parser.rs:143-175 | only an empty word list gives `None`; `Unknown` keeps the line and comes only from a first word outside the six keywords; every other token carries the first word as its keyword |
| Parser.TokenizeValueTrimmed | src/parser.rs:141-160 | REM, TITLE and PERFORMER values and FILE paths never start or end with whitespace |
| Parser.NewTrack | src/parser.rs:30-40 | `Track::new` keeps number and format verbatim, with no title, no performer and no indices |
| Parser.NewCueFile | src/parser.rs:48-55 | `CueFile::new` keeps the format and has no tracks |
| Parser.NewCue | src/parser.rs:65-74 | `Cue::new` has no files, no title, no performer and no comments |
| Parser.HasTrack | src/parser.rs:91-93 | `last_track` is `Some` only when `last_file` is |
| Parser.LastTrack | src/parser.rs:91-93 | the last track is a track of the last file |
| Parser.Apply | src/parser.rs:100-131 | only REM changes the disc's comments, by appending its pair; only FILE changes the number of files, by one; no token changes any file but the last |
| Parser.Build | src/parser.rs:95-131 | the disc's comments are the REM pairs of the tokens, in order, and there are never more files than tokens |
| Parser.ApplyRem | src/parser.rs:101 | REM appends `(key, value)` to the disc's comments and changes nothing else, whatever file or track is open |
| Parser.ApplyFile | src/parser.rs:102-104 | FILE appends one file with the line's format and no tracks, leaves everything else alone, and discards the path |
| Parser.ApplyTrack | src/parser.rs:105-109 | TRACK appends a fresh track to the last file only; without a file the record is unchanged |
| Parser.ApplyTitle | src/parser.rs:110-116 | TITLE sets the title of the last track of the last file if there is one, else the disc's title; nothing else changes |
| Parser.ApplyPerformer | src/parser.rs:117-124 | PERFORMER sets the performer of the last track if there is one, else the disc's performer; nothing else changes |
| Parser.ApplyIndex | src/parser.rs:125-129 | INDEX appends `(number, time)` to the last track's indices; without a track the record is unchanged |
| Parser.ApplyIgnored | src/parser.rs:130 | `Unknown` and `None` tokens leave the record unchanged |
| Parser.TitleLastWins | src/parser.rs:110-116 | a second TITLE in the same context overwrites the first |
| Parser.AfterFileToDisc | src/parser.rs:102-124 | right after a FILE line no track is open, so TITLE and PERFORMER go to the disc |
| Parser.Route | src/parser.rs:100-131 | the `match token` of the loop, written with index updates through last file and last track, equals one routing step `Apply` |
| Parser.Parse | src/parser.rs:85-133 | the loop of `parse` over the lines yields `Assemble(lines)`: the fold of `Apply` over the tokens of the readable lines, or a panic |
| Parser.Tokens | src/parser.rs:95-97 | a parse that does not panic has at most one token per line |
| Parser.Assemble | src/parser.rs:85-133 | the parse panics exactly when some readable line panics in `tokenize_line`; otherwise the disc's comments are the REM pairs of its tokens, in order |
| Parser.TokensPanicIff | src/parser.rs:95-97 | the parse panics exactly when some readable line panics in the tokenizer |
| ParserOutline.OutlineSnoc | src/parser.rs:100-131 | the grouping reading of the tokens changes under one more token exactly as `Apply` does |
| ParserOutline.BuildIsOutline | src/parser.rs:85-133 | the assembled record is the grouping reading: files in FILE order, each with the tracks of the TRACK lines that followed it; each track with its last TITLE and PERFORMER and its INDEX lines in order; the disc title and performer from lines read while no track was open; every REM as a disc comment |
| ParserOutline.FilesInOrder | src/parser.rs:102-104 | the record has exactly one file per FILE line, in input order, each with that line's format |
| ParserOutline.GroupHeads | src/parser.rs:102-109 | there is one group per opening line, and the groups start with those lines in order |
| ParserOutline.AssembleIsOutline | src/parser.rs:81-138 | when no line panics, the parse result is the grouping reading of the tokens |
| Text.WordLen | src/parser.rs:141 | the first word of a string ends at the first whitespace character |
| Text.Words | src/parser.rs:141 | every piece `split_whitespace` yields is non-empty and holds no whitespace |
| Text.IsSpace | src/parser.rs:141 | tab to carriage return and the space are whitespace, and no character above U+3000 is |
| Text.TrimStart | src/parser.rs:141 | `trim_start` keeps a suffix of its input that is empty or starts with a non-whitespace character |
| Text.TrimStartSpec | src/parser.rs:141 | what `trim_start` removes is whitespace only |
| Text.TrimEnd | src/parser.rs:141 | `trim_end` keeps a prefix of its input that is empty or ends with a non-whitespace character |
| Text.TrimEndSpec | src/parser.rs:141 | what `trim_end` removes is whitespace only |
| Text.Trim | src/parser.rs:141 | `trim` never lengthens, and its result is empty or has no whitespace at either end |
| Text.WordsTrim | src/parser.rs:141 | trimming does not change the words of a line |
| Text.WordsEmptyIffBlank | src/parser.rs:141-143 | a string has no words exactly when it is blank |
| Text.WordsJoin | src/parser.rs:146-160 | splitting a space-joined list of words gives the list back (`join(" ")` is inverted by `split_whitespace`) |
| Text.Join | src/parser.rs:146-160 | a non-empty `join(" ")` starts with the first word and ends with the last |
| Text.JoinEnds | src/parser.rs:146-160 | a non-empty join of words neither starts nor ends with whitespace |
| CueSheet.NewTrack | src/cue.rs:79-94 | `Track::new` keeps number and format verbatim; every optional field is `None` and every list is empty |
| CueSheet.NewCueFile | src/cue.rs:113-120 | `CueFile::new` keeps path and format verbatim, with no tracks and no comments |
| CueSheet.NewCue | src/cue.rs:146-157 | `Cue::new` has every optional field `None` and no files, comments or unknown lines |
| CueSheet.DefaultCue | src/cue.rs:124 | the derived `Default` sheet records nothing |
| CueSheet.NewCueIsDefault | src/cue.rs:124 | `Cue::new()` equals the derived `Cue::default()` |
| CueSheet.BlankTrackIsNew | src/cue.rs:79-94 | a track records nothing beyond its number and format exactly when it is the one `Track::new` builds |
| CueSheet.BlankCueIsNew | src/cue.rs:146-157 | a sheet records nothing exactly when it is `Cue::new()` |
| Util.UnescapeExample | src/util.rs:20-25 | `unescape_string` of `"lmao \"i\"cons"` (with the surrounding quotes) is `lmao "i"cons` |
| Util.StripQuotes | src/util.rs:6-10 | the first pass keeps a contiguous part of its input and removes at most one character at each end |
| Util.Unescape | src/util.rs:4-14 | the result of `unescape_string` is never longer than its input |
| Util.UnescapeNoQuote | src/util.rs:6-11 | a string without `"` is returned unchanged |
| Util.StripQuotesEnds | src/util.rs:6-10 | only the first and the last character can be removed, each when it is `"`, independently of the other; the middle is kept verbatim |
| Util.StripQuotesShort | src/util.rs:6-10 | a lone `"` disappears; the empty string and any other single character are kept |
| Util.StripQuotesKeeps | src/util.rs:6-10 | a string that neither starts nor ends with `"` loses nothing in the first pass |
| Util.UnescapeEscapedEnd | src/util.rs:10-11 | quotes are stripped before unescaping, so an input ending in `\"` gives a result ending in the backslash |
| Util.ReplaceEscaped | src/util.rs:7-11 | the second pass never makes a string longer |
| Util.ReplaceEscapedOnlyDropsBackslashes | src/util.rs:7-11 | the second pass deletes backslashes and nothing else: every other character survives, in order |
| Util.ReplaceEscapedNoPair | src/util.rs:7-11 | a string without a `\"` pair is left as it is |
| Util.ReplaceEscapedConcat | src/util.rs:7-11 | matches never straddle the end of a piece that does not end in a backslash, so the pass works piece by piece |
| Util.ReplaceEscapedTwoPairs | src/util.rs:7-11 | in three pieces without backslashes joined by `\"`, each pair becomes `"` and the pieces are kept |
| Util.ReplaceEscapedLastBackslash | src/util.rs:7-11 | a trailing backslash is never part of a match and is kept |
| Util.ReplaceEscapedEscape | src/util.rs:7-11 | the second pass undoes escaping every `"` as `\"`, for every string |
| Util.UnescapeQuote | src/util.rs:4-14 | `unescape_string` recovers any string from its escaped and quoted form |

## Left out

- Opening `test.cue` and reading it with `BufReader` are not modelled. `parse` is modelled
  over a sequence of already-read lines, in which an unreadable line is
  `ReadLine.ReadError`. How `lines()` splits bytes at line endings is not modelled.
- The `println!` calls in `parse` (the echo of each line and token, the "Did not parse
  line" message, the final dump) are not modelled because they only write to the console.
- `parse` returns `Ok(())` and drops the record it built. The model returns the record,
  so that what the loop builds can be stated.
- A panic is one value, `Panic`. The message and the unwinding are not modelled.
- The regular expressions and `lazy_static` of `src/util.rs` are not modelled as a regex
  engine. `StripQuotes` and `ReplaceEscaped` state directly the replacements the two fixed
  patterns perform.
- `Duration` in `src/cue.rs` is whole seconds and nanoseconds below one second, with no
  arithmetic on it. Converting a timestamp or a frame count into a `Duration` does not
  appear in the code.
- The parser does not use the `Command` variants beyond those of `Token`, so their
  dispatch (CATALOG, CDTEXTFILE, FLAGS, ISRC, SONGWRITER, PREGAP, POSTGAP), strict mode
  and case-insensitive keywords are not modelled.
- The test `check_string_between_quotes` in `src/parser.rs` opens a file and then
  `assert!(false)`. It describes no property of the parser.
- `src/errors.rs` and `src/lib.rs` are not part of this model.
