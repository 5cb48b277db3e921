/** The line tokenizer and the record assembler of `src/parser.rs`, with the parser's own
    (private) `Track`, `CueFile` and `Cue` records. */
module Parser {
  import opened Wrappers
  import opened Text

  // ---------------------------------------------------------------------------
  // Tokens and the tokenizer

  /** One classified line. */
  datatype Token =
    | Rem(key: string, value: string)
    | Performer(value: string)
    | Title(value: string)
    | File(path: string, format: string)
    | Track(no: string, mode: string)
    | Index(no: string, time: string)
    | Unknown(line: string)
    | None

  /** What an operation that may `unwrap` a missing value gives: a value, or a panic. */
  datatype Outcome<+T> = Ok(value: T) | Panic

  /** The first words the tokenizer recognises; the comparison is exact (case-sensitive). */
  const Keywords: set<string> := {"REM", "TITLE", "FILE", "PERFORMER", "TRACK", "INDEX"}

  /** `tokenize_line`: split the trimmed line into words and dispatch on the first one. */
  function Tokenize(line: string): (r: Outcome<Token>)
    ensures r == Dispatch(Words(line), line)
  {
    WordsTrim(line);
    Dispatch(Words(Trim(line)), line)
  }

  /** The `match` of `tokenize_line` over the word list `ws` of `line`. REM takes a key
      word and the space-joined rest; TITLE and PERFORMER the space-joined rest; FILE its
      last word as format and the space-joined words before it as path; TRACK and INDEX
      the next two words. A missing word is an `unwrap` on `None`: a panic. */
  function Dispatch(ws: seq<string>, line: string): (r: Outcome<Token>)
    ensures r == Ok(Token.None) <==> ws == []
    ensures r.Ok? && r.value.Unknown? ==> r.value.line == line && ws != [] && ws[0] !in Keywords
    ensures r.Ok? && !r.value.Unknown? && !r.value.None? ==> ws != [] && ws[0] == KeywordOf(r.value)
  {
    if ws == [] then Ok(Token.None)
    else
      var keyword, args := ws[0], ws[1..];
      if keyword == "REM" then
        if |args| == 0 then Panic else Ok(Token.Rem(args[0], Join(args[1..])))
      else if keyword == "TITLE" then
        Ok(Token.Title(Join(args)))
      else if keyword == "FILE" then
        if |args| == 0 then Panic else Ok(Token.File(Join(args[..|args| - 1]), args[|args| - 1]))
      else if keyword == "PERFORMER" then
        Ok(Token.Performer(Join(args)))
      else if keyword == "TRACK" then
        if |args| < 2 then Panic else Ok(Token.Track(args[0], args[1]))
      else if keyword == "INDEX" then
        if |args| < 2 then Panic else Ok(Token.Index(args[0], args[1]))
      else
        Ok(Token.Unknown(line))
  }

  // ---------------------------------------------------------------------------
  // Lemmas about the tokenizer

  lemma DispatchUnknown(ws: seq<string>, line: string)
    ensures Dispatch(ws, line) == Ok(Token.Unknown(line)) <==> ws != [] && ws[0] !in Keywords
  {
  }

  lemma DispatchPanic(ws: seq<string>, line: string)
    ensures Dispatch(ws, line).Panic? <==>
              |ws| > 0 &&
              (((ws[0] == "REM" || ws[0] == "FILE") && |ws| < 2) ||
               ((ws[0] == "TRACK" || ws[0] == "INDEX") && |ws| < 3))
  {
  }

  /** A line that is empty or only whitespace, and only such a line, gives `Token::None`. */
  lemma TokenizeNoneIffBlank(line: string)
    ensures Tokenize(line) == Ok(Token.None) <==> Blank(line)
  {
    WordsEmptyIffBlank(line);
  }

  /** Keywords are matched exactly: a line whose first word is not one of them, compared
      case-sensitively, gives `Unknown` holding the original, untrimmed line. */
  lemma TokenizeUnknownIff(line: string)
    ensures Tokenize(line) == Ok(Token.Unknown(line)) <==>
            Words(line) != [] && Words(line)[0] !in Keywords
    ensures Tokenize(line).Ok? && Tokenize(line).value.Unknown? ==>
            Tokenize(line).value.line == line
  {
    DispatchUnknown(Words(line), line);
  }

  /** `tokenize_line` panics exactly when REM has no key, FILE has no argument, or TRACK
      or INDEX has fewer than two arguments. */
  lemma TokenizePanicIff(line: string)
    ensures var ws := Words(line);
      Tokenize(line).Panic? <==>
        |ws| > 0 &&
        (((ws[0] == "REM" || ws[0] == "FILE") && |ws| < 2) ||
         ((ws[0] == "TRACK" || ws[0] == "INDEX") && |ws| < 3))
  {
    DispatchPanic(Words(line), line);
  }

  /** The argument words a token holds, in line order. */
  function Arguments(t: Token): seq<string> {
    match t
    case Rem(key, value) => [key] + Words(value)
    case Title(value) => Words(value)
    case Performer(value) => Words(value)
    case File(path, format) => Words(path) + [format]
    case Track(no, mode) => [no, mode]
    case Index(no, time) => [no, time]
    case Unknown(_) => []
    case None => []
  }

  /** The keyword that produces a token, or "" for `Unknown` and `None`. */
  function KeywordOf(t: Token): string {
    match t
    case Rem(_, _) => "REM"
    case Title(_) => "TITLE"
    case Performer(_) => "PERFORMER"
    case File(_, _) => "FILE"
    case Track(_, _) => "TRACK"
    case Index(_, _) => "INDEX"
    case Unknown(_) => ""
    case None => ""
  }

  /** A token the tokenizer can produce: keys, formats, numbers, modes and times are
      single words; values and paths are their words joined by single spaces (runs of
      whitespace collapsed, quotes left in place); an unknown line starts with a word
      that is not a keyword. */
  predicate WellFormed(t: Token) {
    match t
    case Rem(key, value) => IsWord(key) && Canonical(value)
    case Title(value) => Canonical(value)
    case Performer(value) => Canonical(value)
    case File(path, format) => Canonical(path) && IsWord(format)
    case Track(no, mode) => IsWord(no) && IsWord(mode)
    case Index(no, time) => IsWord(no) && IsWord(time)
    case Unknown(line) => Words(line) != [] && Words(line)[0] !in Keywords
    case None => true
  }

  /** A value made of the words `ws`: canonical, and its words are `ws` again. */
  lemma JoinKeeps(ws: seq<string>)
    requires AllWords(ws)
    ensures Canonical(Join(ws)) && Words(Join(ws)) == ws
  {
    JoinCanonical(ws);
    WordsJoin(ws);
  }

  lemma DispatchKeepsWords(ws: seq<string>, line: string)
    requires AllWords(ws) && Dispatch(ws, line).Ok?
    ensures var t := Dispatch(ws, line).value;
      (t.Rem? || t.Title? || t.Performer? || t.File? ==> |ws| >= 1 && Arguments(t) == ws[1..]) &&
      (t.Track? || t.Index? ==> |ws| >= 3 && Arguments(t) == ws[1..3]) &&
      (!t.Unknown? ==> WellFormed(t))
  {
    if ws != [] {
      var args := ws[1..];
      if ws[0] == "REM" {
        KeepsRem(args);
      } else if ws[0] == "TITLE" || ws[0] == "PERFORMER" {
        JoinKeeps(args);
      } else if ws[0] == "FILE" {
        KeepsFile(args);
      } else if ws[0] == "TRACK" || ws[0] == "INDEX" {
        assert IsWord(args[0]) && IsWord(args[1]);
      } else {
        assert ws[0] !in Keywords;
      }
    }
  }

  lemma KeepsRem(args: seq<string>)
    requires AllWords(args) && |args| >= 1
    ensures var t := Token.Rem(args[0], Join(args[1..]));
      WellFormed(t) && Arguments(t) == args
  {
    JoinKeeps(args[1..]);
    assert args == [args[0]] + args[1..];
  }

  lemma KeepsFile(args: seq<string>)
    requires AllWords(args) && |args| >= 1
    ensures var t := Token.File(Join(args[..|args| - 1]), args[|args| - 1]);
      WellFormed(t) && Arguments(t) == args
  {
    JoinKeeps(args[..|args| - 1]);
    assert args == args[..|args| - 1] + [args[|args| - 1]];
  }

  /** Nothing is lost or reordered: REM, TITLE, PERFORMER and FILE keep every word after
      the keyword, and TRACK and INDEX keep the next two and ignore the rest. Every token
      produced is well formed. */
  lemma TokenizeKeepsWords(line: string)
    requires Tokenize(line).Ok?
    ensures var t, ws := Tokenize(line).value, Words(line);
      WellFormed(t) &&
      (!t.Unknown? && !t.None? ==> ws != [] && ws[0] == KeywordOf(t)) &&
      (t.Rem? || t.Title? || t.Performer? || t.File? ==> |ws| >= 1 && Arguments(t) == ws[1..]) &&
      (t.Track? || t.Index? ==> |ws| >= 3 && Arguments(t) == ws[1..3])
  {
    DispatchKeepsWords(Words(line), line);
  }

  /** Values and paths carry no whitespace at either end: REM, TITLE and PERFORMER values
      and FILE paths are trimmed by the split and join. */
  lemma TokenizeValueTrimmed(line: string)
    requires Tokenize(line).Ok?
    ensures var t := Tokenize(line).value;
      ((t.Rem? || t.Title? || t.Performer?) && t.value != [] ==>
         !IsSpace(t.value[0]) && !IsSpace(t.value[|t.value| - 1])) &&
      (t.File? && t.path != [] ==> !IsSpace(t.path[0]) && !IsSpace(t.path[|t.path| - 1]))
  {
    TokenizeKeepsWords(line);
    var t := Tokenize(line).value;
    if t.Rem? || t.Title? || t.Performer? {
      CanonicalEnds(t.value);
    } else if t.File? {
      CanonicalEnds(t.path);
    }
  }

  /** Two pieces of a line separated by one space. */
  function Spaced(a: string, b: string): string {
    a + " " + b
  }

  /** The canonical line for a token. */
  function Render(t: Token): string {
    match t
    case Rem(key, value) => Spaced("REM", Spaced(key, value))
    case Title(value) => Spaced("TITLE", value)
    case Performer(value) => Spaced("PERFORMER", value)
    case File(path, format) => Spaced("FILE", Spaced(path, format))
    case Track(no, mode) => Spaced("TRACK", Spaced(no, mode))
    case Index(no, time) => Spaced("INDEX", Spaced(no, time))
    case Unknown(line) => line
    case None => ""
  }

  lemma KeywordsAreWords()
    ensures IsWord("REM") && IsWord("TITLE") && IsWord("FILE")
    ensures IsWord("PERFORMER") && IsWord("TRACK") && IsWord("INDEX")
  {
  }

  lemma WordsSpaced(a: string, b: string)
    ensures Words(Spaced(a, b)) == Words(a) + Words(b)
  {
    WordsSplit(a, ' ', b);
  }

  /** Words of a word followed by one space and the rest. */
  lemma WordsAfterWord(w: string, rest: string)
    requires IsWord(w)
    ensures Words(Spaced(w, rest)) == [w] + Words(rest)
  {
    WordsSpaced(w, rest);
    WordsOfWord(w);
  }

  /** Words of two words separated by one space. */
  lemma WordsOfPair(a: string, b: string)
    requires IsWord(a) && IsWord(b)
    ensures Words(Spaced(a, b)) == [a, b]
  {
    WordsAfterWord(a, b);
    WordsOfWord(b);
  }

  /** The words of the canonical line: the keyword, then the argument words. */
  lemma {:induction false} WordsOfRender(t: Token)
    requires WellFormed(t) && !t.Unknown? && !t.None?
    ensures Words(Render(t)) == [KeywordOf(t)] + Arguments(t)
  {
    KeywordsAreWords();
    match t
    case Rem(key, value) =>
      WordsAfterWord("REM", Spaced(key, value));
      WordsAfterWord(key, value);
    case Title(value) =>
      WordsAfterWord("TITLE", value);
    case Performer(value) =>
      WordsAfterWord("PERFORMER", value);
    case File(path, format) =>
      WordsAfterWord("FILE", Spaced(path, format));
      WordsSpaced(path, format);
      WordsOfWord(format);
    case Track(no, mode) =>
      WordsAfterWord("TRACK", Spaced(no, mode));
      WordsOfPair(no, mode);
    case Index(no, time) =>
      WordsAfterWord("INDEX", Spaced(no, time));
      WordsOfPair(no, time);
  }

  /** The words of a canonical line dispatch back to the token they came from. */
  lemma DispatchKeyword(t: Token, line: string)
    requires WellFormed(t) && !t.Unknown? && !t.None?
    ensures Dispatch([KeywordOf(t)] + Arguments(t), line) == Ok(t)
  {
  }

  /** Tokenizing the canonical line of a well-formed token gives the token back. */
  lemma TokenizeRender(t: Token)
    requires WellFormed(t)
    ensures Tokenize(Render(t)) == Ok(t)
  {
    if t.Unknown? {
      DispatchUnknown(Words(t.line), t.line);
    } else if t.None? {
      assert Words("") == [];
    } else {
      WordsOfRender(t);
      DispatchKeyword(t, Render(t));
    }
  }

  /** Re-tokenizing the canonical line of any token the tokenizer produced gives that
      token again. */
  lemma TokenizeRenderIdempotent(line: string)
    requires Tokenize(line).Ok?
    ensures Tokenize(Render(Tokenize(line).value)) == Tokenize(line)
  {
    TokenizeKeepsWords(line);
    TokenizeRender(Tokenize(line).value);
  }

  // ---------------------------------------------------------------------------
  // The parser's records

  datatype Track = Track(no: string, format: string, title: Option<string>,
                         performer: Option<string>, indices: seq<(string, string)>)

  datatype CueFile = CueFile(format: string, tracks: seq<Track>)

  datatype Cue = Cue(files: seq<CueFile>, title: Option<string>, performer: Option<string>,
                     comments: seq<(string, string)>)

  /** `Track::new`: the number and format as given, nothing else recorded yet. */
  function NewTrack(no: string, format: string): (t: Track)
    ensures t.no == no && t.format == format
    ensures t.title == Option.None && t.performer == Option.None && t.indices == []
  {
    Track.Track(no, format, Option.None, Option.None, [])
  }

  /** `CueFile::new`: the format as given and no tracks. */
  function NewCueFile(format: string): (f: CueFile)
    ensures f.format == format && f.tracks == []
  {
    CueFile(format, [])
  }

  /** `Cue::new`: no files, no title, no performer, no comments. */
  function NewCue(): (c: Cue)
    ensures c.files == [] && c.comments == []
    ensures c.title == Option.None && c.performer == Option.None
  {
    Cue([], Option.None, Option.None, [])
  }

  // ---------------------------------------------------------------------------
  // The current file and the current track

  /** `last_file(cue).is_some()`. */
  predicate HasFile(c: Cue) {
    |c.files| > 0
  }

  /** `last_track(cue).is_some()`: there is a file and the last file has a track. */
  predicate HasTrack(c: Cue)
    ensures HasTrack(c) ==> HasFile(c)
  {
    |c.files| > 0 && |c.files[|c.files| - 1].tracks| > 0
  }

  /** `last_file(cue)`. */
  function LastFile(c: Cue): CueFile
    requires HasFile(c)
  {
    c.files[|c.files| - 1]
  }

  /** `last_track(cue)`. */
  function LastTrack(c: Cue): (t: Track)
    requires HasTrack(c)
    ensures t in LastFile(c).tracks
  {
    var f := LastFile(c);
    f.tracks[|f.tracks| - 1]
  }

  /** Writing through `last_file(cue)`: replace the last file. */
  function WithLastFile(c: Cue, f: CueFile): Cue
    requires HasFile(c)
  {
    c.(files := c.files[|c.files| - 1 := f])
  }

  /** Writing through `last_track(cue)`: replace the last track of the last file. */
  function WithLastTrack(c: Cue, t: Track): Cue
    requires HasTrack(c)
  {
    var f := LastFile(c);
    WithLastFile(c, f.(tracks := f.tracks[|f.tracks| - 1 := t]))
  }

  // ---------------------------------------------------------------------------
  // The assembler

  /** One turn of the loop in `parse`: route a token to the record. */
  function Apply(c: Cue, token: Token): (r: Cue)
    ensures r.comments == c.comments + if token.Rem? then [(token.key, token.value)] else []
    ensures |r.files| == |c.files| + if token.File? then 1 else 0
    ensures forall i :: 0 <= i < |c.files| - 1 ==> r.files[i] == c.files[i]
  {
    match token
    case Rem(key, value) => c.(comments := c.comments + [(key, value)])
    case File(_, format) => c.(files := c.files + [NewCueFile(format)])
    case Track(no, mode) =>
      if HasFile(c) then
        var f := LastFile(c);
        WithLastFile(c, f.(tracks := f.tracks + [NewTrack(no, mode)]))
      else c
    case Title(title) =>
      if HasTrack(c) then WithLastTrack(c, LastTrack(c).(title := Some(title)))
      else c.(title := Some(title))
    case Performer(performer) =>
      if HasTrack(c) then WithLastTrack(c, LastTrack(c).(performer := Some(performer)))
      else c.(performer := Some(performer))
    case Index(no, time) =>
      if HasTrack(c) then
        var t := LastTrack(c);
        WithLastTrack(c, t.(indices := t.indices + [(no, time)]))
      else c
    case Unknown(_) => c
    case None => c
  }

  /** The record after the given tokens, in order, starting from `Cue::new()`. */
  function Build(tokens: seq<Token>): (r: Cue)
    ensures r.comments == RemsIn(tokens)
    ensures |r.files| <= |tokens|
  {
    if tokens == [] then NewCue()
    else Apply(Build(tokens[..|tokens| - 1]), tokens[|tokens| - 1])
  }

  /** The `(key, value)` of every REM among `ts`, in order. */
  function RemsIn(ts: seq<Token>): seq<(string, string)> {
    if ts == [] then []
    else
      var t := ts[|ts| - 1];
      RemsIn(ts[..|ts| - 1]) + if t.Rem? then [(t.key, t.value)] else []
  }

  // ---------------------------------------------------------------------------
  // Lemmas: what one token does to the record

  /** `r` differs from `c` at most in the last track of the last file. */
  predicate SameButLastTrack(c: Cue, r: Cue)
    requires HasTrack(c) && HasTrack(r)
  {
    var n := |c.files|;
    var m := |LastFile(c).tracks|;
    |r.files| == n && r.files[..n - 1] == c.files[..n - 1] &&
    LastFile(r).format == LastFile(c).format &&
    |LastFile(r).tracks| == m && LastFile(r).tracks[..m - 1] == LastFile(c).tracks[..m - 1] &&
    r.title == c.title && r.performer == c.performer && r.comments == c.comments
  }

  /** REM always appends to the disc's comments, whatever file or track is open. */
  lemma ApplyRem(c: Cue, key: string, value: string)
    ensures Apply(c, Token.Rem(key, value)) == c.(comments := c.comments + [(key, value)])
  {
  }

  /** FILE appends exactly one new file, with the format and no tracks; earlier files and
      the disc fields are unchanged and the path is discarded. */
  lemma ApplyFile(c: Cue, path: string, format: string)
    ensures var r := Apply(c, Token.File(path, format));
      |r.files| == |c.files| + 1 && r.files[..|c.files|] == c.files &&
      r.files[|c.files|] == CueFile(format, []) &&
      r.title == c.title && r.performer == c.performer && r.comments == c.comments
    ensures forall other :: Apply(c, Token.File(other, format)) == Apply(c, Token.File(path, format))
  {
    var r := Apply(c, Token.File(path, format));
    assert r.files[..|c.files|] == c.files;
  }

  /** TRACK appends one new track to the last file only, and is dropped when there is no
      file. */
  lemma ApplyTrack(c: Cue, no: string, mode: string)
    ensures var r := Apply(c, Token.Track(no, mode));
      if !HasFile(c) then r == c
      else
        var n := |c.files|;
        HasTrack(r) && |r.files| == n && r.files[..n - 1] == c.files[..n - 1] &&
        LastFile(r).format == LastFile(c).format &&
        LastFile(r).tracks == LastFile(c).tracks + [Track.Track(no, mode, Option.None, Option.None, [])] &&
        r.title == c.title && r.performer == c.performer && r.comments == c.comments
  {
    if HasFile(c) {
      var r := Apply(c, Token.Track(no, mode));
      assert r.files[..|c.files| - 1] == c.files[..|c.files| - 1];
    }
  }

  /** TITLE overwrites the title of the last track of the last file if there is one, and
      the disc's title otherwise. */
  lemma ApplyTitle(c: Cue, title: string)
    ensures var r := Apply(c, Token.Title(title));
      if HasTrack(c) then
        HasTrack(r) && SameButLastTrack(c, r) && LastTrack(r) == LastTrack(c).(title := Some(title))
      else r == c.(title := Some(title))
  {
    if HasTrack(c) {
      var r := Apply(c, Token.Title(title));
      assert r.files[..|c.files| - 1] == c.files[..|c.files| - 1];
      var m := |LastFile(c).tracks|;
      assert LastFile(r).tracks[..m - 1] == LastFile(c).tracks[..m - 1];
    }
  }

  /** PERFORMER overwrites the performer of the last track of the last file if there is
      one, and the disc's performer otherwise. */
  lemma ApplyPerformer(c: Cue, performer: string)
    ensures var r := Apply(c, Token.Performer(performer));
      if HasTrack(c) then
        HasTrack(r) && SameButLastTrack(c, r) &&
        LastTrack(r) == LastTrack(c).(performer := Some(performer))
      else r == c.(performer := Some(performer))
  {
    if HasTrack(c) {
      var r := Apply(c, Token.Performer(performer));
      assert r.files[..|c.files| - 1] == c.files[..|c.files| - 1];
      var m := |LastFile(c).tracks|;
      assert LastFile(r).tracks[..m - 1] == LastFile(c).tracks[..m - 1];
    }
  }

  /** INDEX appends `(number, time)` to the indices of the last track, and is dropped when
      there is no track. */
  lemma ApplyIndex(c: Cue, no: string, time: string)
    ensures var r := Apply(c, Token.Index(no, time));
      if HasTrack(c) then
        HasTrack(r) && SameButLastTrack(c, r) &&
        LastTrack(r) == LastTrack(c).(indices := LastTrack(c).indices + [(no, time)])
      else r == c
  {
    if HasTrack(c) {
      var r := Apply(c, Token.Index(no, time));
      assert r.files[..|c.files| - 1] == c.files[..|c.files| - 1];
      var m := |LastFile(c).tracks|;
      assert LastFile(r).tracks[..m - 1] == LastFile(c).tracks[..m - 1];
    }
  }

  /** Lines that are not understood, and blank lines, leave the record as it was. */
  lemma ApplyIgnored(c: Cue, token: Token)
    requires token.Unknown? || token.None?
    ensures Apply(c, token) == c
  {
  }

  /** Last wins: a second TITLE in the same context replaces the first. */
  lemma {:induction false} TitleLastWins(c: Cue, first: string, second: string)
    ensures Apply(Apply(c, Token.Title(first)), Token.Title(second)) == Apply(c, Token.Title(second))
  {
    ApplyTitle(c, first);
    if HasTrack(c) {
      var r := Apply(c, Token.Title(first));
      var f := LastFile(c);
      var g := LastFile(r);
      var m := |f.tracks|;
      assert g == f.(tracks := f.tracks[m - 1 := LastTrack(c).(title := Some(first))]);
      var t2 := LastTrack(c).(title := Some(second));
      assert LastTrack(r).(title := Some(second)) == t2;
      assert g.tracks[m - 1 := t2] == f.tracks[m - 1 := t2];
      var n := |c.files|;
      assert r.files[n - 1 := f.(tracks := f.tracks[m - 1 := t2])]
          == c.files[n - 1 := f.(tracks := f.tracks[m - 1 := t2])];
    }
  }

  /** Right after a FILE (which has no tracks yet) TITLE and PERFORMER go to the disc. */
  lemma AfterFileToDisc(c: Cue, path: string, format: string, value: string)
    ensures var d := Apply(c, Token.File(path, format));
      !HasTrack(d) &&
      Apply(d, Token.Title(value)) == d.(title := Some(value)) &&
      Apply(d, Token.Performer(value)) == d.(performer := Some(value))
  {
  }

  /** One item of `buf_reader.lines()`: a line, or a read error. */
  datatype ReadLine = Read(text: string) | ReadError

  /** The tokens of the lines that could be read, in order, or a panic if any of them
      panics in the tokenizer. */
  function Tokens(lines: seq<ReadLine>): (r: Outcome<seq<Token>>)
    ensures r.Ok? ==> |r.value| <= |lines|
  {
    if lines == [] then Ok([])
    else
      match Tokens(lines[..|lines| - 1])
      case Panic => Panic
      case Ok(tokens) =>
        match lines[|lines| - 1]
        case ReadError => Ok(tokens)
        case Read(text) =>
          match Tokenize(text)
          case Panic => Panic
          case Ok(token) => Ok(tokens + [token])
  }

  /** The whole of `parse` over a sequence of lines: the record built, or a panic. */
  function Assemble(lines: seq<ReadLine>): (r: Outcome<Cue>)
    ensures r.Panic? <==> exists i :: 0 <= i < |lines| && PanicLine(lines[i])
    ensures r.Ok? ==> Tokens(lines).Ok? && r.value.comments == RemsIn(Tokens(lines).value)
  {
    TokensPanicIff(lines);
    match Tokens(lines)
    case Panic => Panic
    case Ok(tokens) => Ok(Build(tokens))
  }

  /** The `match token` in the loop of `parse`: push onto and assign through
      `last_file`/`last_track` of the record. */
  method Route(c: Cue, token: Token) returns (cue: Cue)
    ensures cue == Apply(c, token)
  {
    cue := c;
    match token {
    case Rem(field, value) =>
      cue := cue.(comments := cue.comments + [(field, value)]);
    case File(_, format) =>
      cue := cue.(files := cue.files + [NewCueFile(format)]);
    case Track(idx, mode) =>
      if |cue.files| > 0 {
        var fi := |cue.files| - 1;
        var file := cue.files[fi];
        cue := cue.(files := cue.files[fi := file.(tracks := file.tracks + [NewTrack(idx, mode)])]);
      }
    case Title(title) =>
      if HasTrack(cue) {
        var fi := |cue.files| - 1;
        var file := cue.files[fi];
        var ti := |file.tracks| - 1;
        var track := file.tracks[ti].(title := Some(title));
        cue := cue.(files := cue.files[fi := file.(tracks := file.tracks[ti := track])]);
      } else {
        cue := cue.(title := Some(title));
      }
    case Performer(performer) =>
      if HasTrack(cue) {
        var fi := |cue.files| - 1;
        var file := cue.files[fi];
        var ti := |file.tracks| - 1;
        var track := file.tracks[ti].(performer := Some(performer));
        cue := cue.(files := cue.files[fi := file.(tracks := file.tracks[ti := track])]);
      } else {
        cue := cue.(performer := Some(performer));
      }
    case Index(idx, time) =>
      if HasTrack(cue) {
        var fi := |cue.files| - 1;
        var file := cue.files[fi];
        var ti := |file.tracks| - 1;
        var track := file.tracks[ti];
        track := track.(indices := track.indices + [(idx, time)]);
        cue := cue.(files := cue.files[fi := file.(tracks := file.tracks[ti := track])]);
      }
    case _ =>
    }
  }

  /** The loop of `parse`, in place on one mutable record. */
  method Parse(lines: seq<ReadLine>) returns (r: Outcome<Cue>)
    ensures r == Assemble(lines)
  {
    var cue := NewCue();
    ghost var tokens: seq<Token> := [];
    var i := 0;
    while i < |lines|
      invariant 0 <= i <= |lines|
      invariant Tokens(lines[..i]) == Ok(tokens)
      invariant cue == Build(tokens)
    {
      TokensStep(lines, i);
      match lines[i] {
      case ReadError =>
      case Read(l) =>
        var token := Tokenize(l);
        if token.Panic? {
          TokensPanicExists(lines, i);
          return Panic;
        }
        cue := Route(cue, token.value);
        BuildStep(tokens, token.value);
        tokens := tokens + [token.value];
      }
      i := i + 1;
    }
    assert lines[..i] == lines;
    r := Ok(cue);
  }

  // ---------------------------------------------------------------------------
  // Lemmas: one more line, and when the whole parse panics

  lemma BuildStep(tokens: seq<Token>, token: Token)
    ensures Build(tokens + [token]) == Apply(Build(tokens), token)
  {
    assert (tokens + [token])[..|tokens|] == tokens;
  }

  lemma TokensStep(lines: seq<ReadLine>, i: nat)
    requires i < |lines|
    ensures Tokens(lines[..i + 1]) ==
            match Tokens(lines[..i])
            case Panic => Panic
            case Ok(tokens) =>
              match lines[i]
              case ReadError => Ok(tokens)
              case Read(text) =>
                match Tokenize(text)
                case Panic => Panic
                case Ok(token) => Ok(tokens + [token])
  {
    assert lines[..i + 1][..i] == lines[..i];
  }

  /** A line that makes `tokenize_line` panic. */
  predicate PanicLine(l: ReadLine) {
    l.Read? && Tokenize(l.text).Panic?
  }

  /** The parse panics exactly when some line that could be read panics in the
      tokenizer. */
  lemma {:induction false} TokensPanicIff(lines: seq<ReadLine>)
    ensures Tokens(lines).Panic? <==> exists i :: 0 <= i < |lines| && PanicLine(lines[i])
  {
    if lines != [] {
      var n := |lines| - 1;
      var init := lines[..n];
      TokensPanicIff(init);
      TokensPanicSnoc(lines);
      if Tokens(init).Panic? {
        var i :| 0 <= i < |init| && PanicLine(init[i]);
        assert lines[i] == init[i];
      } else if !PanicLine(lines[n]) {
        forall i | 0 <= i < |lines| ensures !PanicLine(lines[i]) {
          if i < n { assert lines[i] == init[i]; } else { assert i == n; }
        }
      }
    }
  }

  /** One more line panics the parse exactly when the parse so far panicked or that line
      panics in the tokenizer. */
  lemma TokensPanicSnoc(lines: seq<ReadLine>)
    requires lines != []
    ensures Tokens(lines).Panic? <==>
            Tokens(lines[..|lines| - 1]).Panic? || PanicLine(lines[|lines| - 1])
  {
  }

  lemma TokensPanicExists(lines: seq<ReadLine>, i: nat)
    requires i < |lines| && PanicLine(lines[i])
    ensures Tokens(lines) == Panic
  {
    TokensPanicIff(lines);
  }
}
