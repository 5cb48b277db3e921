/** A declarative reading of the record that `parse` builds: each FILE line opens a file
    that owns the lines up to the next FILE; inside it each TRACK line opens a track that
    owns the lines up to the next TRACK. The theorem `BuildIsOutline` shows that the
    assembler in `src/parser.rs` builds exactly this record. */
module ParserOutline {
  import opened Wrappers
  import opened Parser

  /** The two levels at which a token opens a new entity. */
  datatype Level = Files | Tracks

  predicate Opens(level: Level, t: Token) {
    match level
    case Files => t.File?
    case Tracks => t.Track?
  }

  /** The lines owned by one opening line: the two fields of that line (path and format of
      a FILE, number and mode of a TRACK) and the tokens read after it. */
  datatype Group = Group(first: string, second: string, body: seq<Token>)

  /** The group an opening line starts, before anything follows it. */
  function Opened(t: Token): Group
    requires t.File? || t.Track?
  {
    if t.File? then Group(t.path, t.format, []) else Group(t.no, t.mode, [])
  }

  /** A group with one more token read after its opening line. */
  function Extend(g: Group, t: Token): Group {
    g.(body := g.body + [t])
  }

  /** The tokens cut into groups: one per token that opens an entity at `level`, holding
      every token after it up to the next one that opens. Tokens before the first opening
      token belong to no group. */
  function Groups(ts: seq<Token>, level: Level): seq<Group> {
    if ts == [] then []
    else
      var gs := Groups(ts[..|ts| - 1], level);
      var t := ts[|ts| - 1];
      if Opens(level, t) then gs + [Opened(t)]
      else if gs == [] then []
      else gs[..|gs| - 1] + [Extend(gs[|gs| - 1], t)]
  }

  /** The value of the last TITLE among `ts`, if any. */
  function TitleIn(ts: seq<Token>): Option<string> {
    if ts == [] then Option.None
    else if ts[|ts| - 1].Title? then Some(ts[|ts| - 1].value)
    else TitleIn(ts[..|ts| - 1])
  }

  /** The value of the last PERFORMER among `ts`, if any. */
  function PerformerIn(ts: seq<Token>): Option<string> {
    if ts == [] then Option.None
    else if ts[|ts| - 1].Performer? then Some(ts[|ts| - 1].value)
    else PerformerIn(ts[..|ts| - 1])
  }

  /** The `(number, time)` of every INDEX among `ts`, in order. */
  function IndicesIn(ts: seq<Token>): seq<(string, string)> {
    if ts == [] then []
    else
      var t := ts[|ts| - 1];
      IndicesIn(ts[..|ts| - 1]) + if t.Index? then [(t.no, t.time)] else []
  }

  /** A track group read as a track: number and mode from its TRACK line, the last TITLE
      and PERFORMER and every INDEX that follow it. */
  function TrackOf(g: Group): Track {
    Track.Track(g.first, g.second, TitleIn(g.body), PerformerIn(g.body), IndicesIn(g.body))
  }

  function TracksOf(gs: seq<Group>): (r: seq<Track>)
    ensures |r| == |gs|
  {
    if gs == [] then [] else TracksOf(gs[..|gs| - 1]) + [TrackOf(gs[|gs| - 1])]
  }

  /** A file group read as a file: the format from its FILE line, and one track per track
      group among the lines that follow it. */
  function FileOf(g: Group): CueFile {
    CueFile(g.second, TracksOf(Groups(g.body, Tracks)))
  }

  function FilesOf(gs: seq<Group>): (r: seq<CueFile>)
    ensures |r| == |gs|
  {
    if gs == [] then [] else FilesOf(gs[..|gs| - 1]) + [FileOf(gs[|gs| - 1])]
  }

  /** After `ts`, a track is open: some FILE has been read and a TRACK followed the last
      FILE. */
  predicate TrackOpen(ts: seq<Token>) {
    var fs := Groups(ts, Files);
    fs != [] && Groups(fs[|fs| - 1].body, Tracks) != []
  }

  /** The tokens that were read while no track was open. */
  function DiscLevel(ts: seq<Token>): seq<Token> {
    if ts == [] then []
    else
      var p := ts[..|ts| - 1];
      DiscLevel(p) + if TrackOpen(p) then [] else [ts[|ts| - 1]]
  }

  /** The record described by the tokens: files and tracks by grouping, disc title and
      performer from the last TITLE and PERFORMER read while no track was open, comments
      from every REM. */
  function Outline(ts: seq<Token>): Cue {
    var fs := Groups(ts, Files);
    Cue(FilesOf(fs), TitleIn(DiscLevel(ts)), PerformerIn(DiscLevel(ts)), RemsIn(ts))
  }

  // ---------------------------------------------------------------------------
  // Sequence facts, proved apart from the token context

  lemma SnocPrefix<T>(s: seq<T>, x: T)
    ensures (s + [x])[..|s|] == s
  {
  }

  lemma SplitLast<T>(s: seq<T>)
    requires s != []
    ensures s == s[..|s| - 1] + [s[|s| - 1]]
  {
  }

  lemma UpdateSame<T>(s: seq<T>, i: nat)
    requires i < |s|
    ensures s[i := s[i]] == s
  {
  }

  lemma UpdateLast<T>(p: seq<T>, a: T, b: T)
    ensures (p + [a])[|p| := b] == p + [b]
  {
  }

  // ---------------------------------------------------------------------------
  // One more token

  lemma GroupsSnoc(ts: seq<Token>, t: Token, level: Level)
    ensures var gs := Groups(ts, level);
      Groups(ts + [t], level) ==
        if Opens(level, t) then gs + [Opened(t)]
        else if gs == [] then []
        else gs[..|gs| - 1] + [Extend(gs[|gs| - 1], t)]
  {
    SnocPrefix(ts, t);
  }

  lemma TracksOfSnoc(gs: seq<Group>, g: Group)
    ensures TracksOf(gs + [g]) == TracksOf(gs) + [TrackOf(g)]
  {
    SnocPrefix(gs, g);
  }

  lemma FilesOfSnoc(gs: seq<Group>, g: Group)
    ensures FilesOf(gs + [g]) == FilesOf(gs) + [FileOf(g)]
  {
    SnocPrefix(gs, g);
  }

  /** Replacing the last track group replaces the last track and nothing else. */
  lemma TracksOfReplaceLast(gs: seq<Group>, g: Group)
    requires gs != []
    ensures TracksOf(gs[..|gs| - 1] + [g]) == TracksOf(gs)[|gs| - 1 := TrackOf(g)]
  {
    var init, l := gs[..|gs| - 1], gs[|gs| - 1];
    SplitLast(gs);
    TracksOfSnoc(init, l);
    TracksOfSnoc(init, g);
    UpdateLast(TracksOf(init), TrackOf(l), TrackOf(g));
  }

  /** Replacing the last file group replaces the last file and nothing else. */
  lemma FilesOfReplaceLast(gs: seq<Group>, g: Group)
    requires gs != []
    ensures FilesOf(gs[..|gs| - 1] + [g]) == FilesOf(gs)[|gs| - 1 := FileOf(g)]
  {
    var init, l := gs[..|gs| - 1], gs[|gs| - 1];
    SplitLast(gs);
    FilesOfSnoc(init, l);
    FilesOfSnoc(init, g);
    UpdateLast(FilesOf(init), FileOf(l), FileOf(g));
  }

  lemma InSnoc(ts: seq<Token>, t: Token)
    ensures TitleIn(ts + [t]) == if t.Title? then Some(t.value) else TitleIn(ts)
    ensures PerformerIn(ts + [t]) == if t.Performer? then Some(t.value) else PerformerIn(ts)
    ensures IndicesIn(ts + [t]) == IndicesIn(ts) + if t.Index? then [(t.no, t.time)] else []
    ensures RemsIn(ts + [t]) == RemsIn(ts) + if t.Rem? then [(t.key, t.value)] else []
    ensures DiscLevel(ts + [t]) == DiscLevel(ts) + if TrackOpen(ts) then [] else [t]
  {
    SnocPrefix(ts, t);
  }

  /** What a token read inside a track does to that track. */
  function Touch(r: Track, t: Token): Track {
    match t
    case Title(v) => r.(title := Some(v))
    case Performer(v) => r.(performer := Some(v))
    case Index(no, time) => r.(indices := r.indices + [(no, time)])
    case _ => r
  }

  /** A track group extended by one more token that does not open a file or a track. */
  lemma TrackOfSnoc(g: Group, t: Token)
    ensures TrackOf(Extend(g, t)) == Touch(TrackOf(g), t)
  {
    InSnoc(g.body, t);
  }

  lemma WithLastTrackSame(c: Cue)
    requires HasTrack(c)
    ensures WithLastTrack(c, LastTrack(c)) == c
  {
    var f := LastFile(c);
    UpdateSame(f.tracks, |f.tracks| - 1);
    UpdateSame(c.files, |c.files| - 1);
  }

  /** With a track open, `Apply` of a token that opens neither a file nor a track touches
      only the open track. */
  lemma ApplyInTrack(c: Cue, t: Token)
    requires HasTrack(c) && !t.File? && !t.Track?
    ensures Apply(c, t).files == WithLastTrack(c, Touch(LastTrack(c), t)).files
  {
    if !t.Title? && !t.Performer? && !t.Index? {
      WithLastTrackSame(c);
    }
  }

  /** The record of the tokens has a current track exactly when a track is open. */
  lemma HasTrackIffOpen(ts: seq<Token>)
    ensures HasTrack(Outline(ts)) <==> TrackOpen(ts)
  {
    var fs := Groups(ts, Files);
    if fs != [] {
      SplitLast(fs);
      FilesOfSnoc(fs[..|fs| - 1], fs[|fs| - 1]);
    }
  }

  /** The group of the last FILE read. */
  function LastFileGroup(ts: seq<Token>): Group
    requires Groups(ts, Files) != []
  {
    var fs := Groups(ts, Files);
    fs[|fs| - 1]
  }

  /** The group of the TRACK that is open. */
  function OpenTrackGroup(ts: seq<Token>): Group
    requires TrackOpen(ts)
  {
    var tg := Groups(LastFileGroup(ts).body, Tracks);
    tg[|tg| - 1]
  }

  /** A file group extended by a token that opens neither a file nor a track: only the
      last track, if there is one, changes. */
  lemma FileOfSnoc(g: Group, t: Token)
    requires !t.File? && !t.Track?
    ensures var tg := Groups(g.body, Tracks);
      FileOf(Extend(g, t)) ==
        if tg == [] then FileOf(g)
        else FileOf(g).(tracks := FileOf(g).tracks[|tg| - 1 := TrackOf(Extend(tg[|tg| - 1], t))])
  {
    GroupsSnoc(g.body, t, Tracks);
    var tg := Groups(g.body, Tracks);
    if tg != [] {
      TracksOfReplaceLast(tg, Extend(tg[|tg| - 1], t));
    }
  }

  /** A file group extended by a TRACK gains one new track. */
  lemma FileOfSnocTrack(g: Group, t: Token)
    requires t.Track?
    ensures FileOf(Extend(g, t)) == FileOf(g).(tracks := FileOf(g).tracks + [NewTrack(t.no, t.mode)])
  {
    GroupsSnoc(g.body, t, Tracks);
    TracksOfSnoc(Groups(g.body, Tracks), Opened(t));
  }

  /** The files described by `ts + [t]` when `t` is not a FILE: the last file, if any, is
      the reading of its group extended by `t`. */
  lemma FilesSnocInner(ts: seq<Token>, t: Token)
    requires !t.File?
    ensures var fs := Groups(ts, Files);
      FilesOf(Groups(ts + [t], Files)) ==
        if fs == [] then []
        else FilesOf(fs)[|fs| - 1 := FileOf(Extend(fs[|fs| - 1], t))]
  {
    var fs := Groups(ts, Files);
    GroupsSnoc(ts, t, Files);
    if fs != [] {
      FilesOfReplaceLast(fs, Extend(fs[|fs| - 1], t));
    }
  }

  /** The last file of the described record is the reading of the last file group. */
  lemma LastFileIsGroup(ts: seq<Token>)
    requires Groups(ts, Files) != []
    ensures HasFile(Outline(ts)) && LastFile(Outline(ts)) == FileOf(LastFileGroup(ts))
  {
    var fs := Groups(ts, Files);
    SplitLast(fs);
    FilesOfSnoc(fs[..|fs| - 1], fs[|fs| - 1]);
  }

  /** With no track open, a token that opens neither a file nor a track leaves every file
      and track as it was. */
  lemma OutlineSnocNoTrack(ts: seq<Token>, t: Token)
    requires !t.File? && !t.Track? && !TrackOpen(ts)
    ensures Outline(ts + [t]).files == Outline(ts).files
  {
    FilesSnocInner(ts, t);
    if Groups(ts, Files) != [] {
      LastFileIsGroup(ts);
      FileOfSnoc(LastFileGroup(ts), t);
    }
  }

  /** With a track open, a token that opens neither a file nor a track only replaces the
      open track by the reading of its group extended by that token. */
  lemma OutlineSnocInTrack(ts: seq<Token>, t: Token)
    requires !t.File? && !t.Track? && TrackOpen(ts)
    ensures HasTrack(Outline(ts))
    ensures Outline(ts + [t]).files ==
            WithLastTrack(Outline(ts), TrackOf(Extend(OpenTrackGroup(ts), t))).files
  {
    HasTrackIffOpen(ts);
    FilesSnocInner(ts, t);
    LastFileIsGroup(ts);
    FileOfSnoc(LastFileGroup(ts), t);
  }

  /** A TRACK adds a new track to the last file, if there is one. */
  lemma OutlineSnocTrack(ts: seq<Token>, no: string, mode: string)
    ensures Outline(ts + [Token.Track(no, mode)]).files == Apply(Outline(ts), Token.Track(no, mode)).files
  {
    var t := Token.Track(no, mode);
    var o, fs := Outline(ts), Groups(ts, Files);
    FilesSnocInner(ts, t);
    ApplyTrackFiles(o, no, mode);
    if fs != [] {
      LastFileIsGroup(ts);
      FileOfSnocTrack(LastFileGroup(ts), t);
    }
  }

  /** `Apply` of a TRACK, on the files only. */
  lemma ApplyTrackFiles(c: Cue, no: string, mode: string)
    ensures Apply(c, Token.Track(no, mode)).files ==
      if HasFile(c) then
        c.files[|c.files| - 1 := LastFile(c).(tracks := LastFile(c).tracks + [NewTrack(no, mode)])]
      else c.files
  {
  }

  /** The disc's own fields after one more token: TITLE and PERFORMER count only when no
      track is open; every REM is a comment. */
  lemma OutlineSnocDisc(ts: seq<Token>, t: Token)
    ensures var o, o' := Outline(ts), Outline(ts + [t]);
      o'.title == (if t.Title? && !TrackOpen(ts) then Some(t.value) else o.title) &&
      o'.performer == (if t.Performer? && !TrackOpen(ts) then Some(t.value) else o.performer) &&
      o'.comments == o.comments + (if t.Rem? then [(t.key, t.value)] else [])
  {
    InSnoc(DiscLevel(ts), t);
    InSnoc(ts, t);
    if TrackOpen(ts) {
      assert DiscLevel(ts + [t]) == DiscLevel(ts);
    }
  }

  /** A FILE adds one new file with no tracks. */
  lemma OutlineSnocFile(ts: seq<Token>, path: string, format: string)
    ensures Outline(ts + [Token.File(path, format)]).files ==
            Outline(ts).files + [NewCueFile(format)]
  {
    var t := Token.File(path, format);
    GroupsSnoc(ts, t, Files);
    FilesOfSnoc(Groups(ts, Files), Opened(t));
  }

  /** Reading one more token changes the described record exactly as `Apply` does. */
  lemma OutlineSnoc(ts: seq<Token>, t: Token)
    ensures Outline(ts + [t]) == Apply(Outline(ts), t)
  {
    OutlineSnocDisc(ts, t);
    HasTrackIffOpen(ts);
    if t.File? {
      OutlineSnocFile(ts, t.path, t.format);
    } else if t.Track? {
      OutlineSnocTrack(ts, t.no, t.mode);
    } else if TrackOpen(ts) {
      OutlineSnocInTrackFull(ts, t);
    } else {
      OutlineSnocNoTrack(ts, t);
    }
  }

  lemma OutlineSnocInTrackFull(ts: seq<Token>, t: Token)
    requires !t.File? && !t.Track? && TrackOpen(ts)
    ensures Outline(ts + [t]).files == Apply(Outline(ts), t).files
  {
    var o, g := Outline(ts), OpenTrackGroup(ts);
    OutlineSnocInTrack(ts, t);
    TrackOfSnoc(g, t);
    LastTrackIsGroup(ts);
    ApplyInTrack(o, t);
  }

  /** The open track of the described record is the reading of the open track group. */
  lemma LastTrackIsGroup(ts: seq<Token>)
    requires TrackOpen(ts)
    ensures HasTrack(Outline(ts)) && LastTrack(Outline(ts)) == TrackOf(OpenTrackGroup(ts))
  {
    HasTrackIffOpen(ts);
    LastFileIsGroup(ts);
    var tg := Groups(LastFileGroup(ts).body, Tracks);
    SplitLast(tg);
    TracksOfSnoc(tg[..|tg| - 1], tg[|tg| - 1]);
  }

  /** The assembler builds exactly the record the grouping describes: files in FILE order,
      each with the tracks of the TRACK lines that followed it in TRACK order, each track
      with its last TITLE and PERFORMER and its INDEX lines in order; disc title and
      performer from lines read while no track was open; every REM as a disc comment. */
  lemma {:induction false} BuildIsOutline(ts: seq<Token>)
    ensures Build(ts) == Outline(ts)
  {
    if ts != [] {
      var p := ts[..|ts| - 1];
      BuildIsOutline(p);
      SplitLast(ts);
      OutlineSnoc(p, ts[|ts| - 1]);
    }
  }

  // ---------------------------------------------------------------------------
  // Consequences: order preservation

  /** The tokens that open an entity at `level`, in order. */
  function Openers(ts: seq<Token>, level: Level): seq<Token> {
    if ts == [] then []
    else
      var t := ts[|ts| - 1];
      Openers(ts[..|ts| - 1], level) + if Opens(level, t) then [t] else []
  }

  /** The groups `gs` start, in order, with the opening tokens `os`. */
  predicate HeadsMatch(gs: seq<Group>, os: seq<Token>, level: Level) {
    |gs| == |os| &&
    forall k :: 0 <= k < |gs| ==> Opens(level, os[k]) && gs[k].(body := []) == Opened(os[k])
  }

  lemma HeadsMatchOpen(gs: seq<Group>, os: seq<Token>, level: Level, t: Token)
    requires HeadsMatch(gs, os, level) && Opens(level, t)
    ensures HeadsMatch(gs + [Opened(t)], os + [t], level)
  {
    var gs', os' := gs + [Opened(t)], os + [t];
    forall k | 0 <= k < |gs'|
      ensures Opens(level, os'[k]) && gs'[k].(body := []) == Opened(os'[k])
    {
      if k < |gs| { assert gs'[k] == gs[k] && os'[k] == os[k]; }
    }
  }

  lemma HeadsMatchExtend(gs: seq<Group>, os: seq<Token>, level: Level, t: Token)
    requires HeadsMatch(gs, os, level) && gs != []
    ensures HeadsMatch(gs[..|gs| - 1] + [Extend(gs[|gs| - 1], t)], os, level)
  {
    var gs' := gs[..|gs| - 1] + [Extend(gs[|gs| - 1], t)];
    forall k | 0 <= k < |gs'|
      ensures Opens(level, os[k]) && gs'[k].(body := []) == Opened(os[k])
    {
      if k < |gs| - 1 { assert gs'[k] == gs[k]; }
    }
  }

  lemma OpenersSnoc(ts: seq<Token>, t: Token, level: Level)
    ensures Openers(ts + [t], level) == Openers(ts, level) + if Opens(level, t) then [t] else []
  {
    SnocPrefix(ts, t);
  }

  /** There is one group per opening token, and the groups start with those tokens in
      order. */
  lemma {:induction false} GroupHeads(ts: seq<Token>, level: Level)
    ensures HeadsMatch(Groups(ts, level), Openers(ts, level), level)
  {
    if ts != [] {
      var p, t := ts[..|ts| - 1], ts[|ts| - 1];
      GroupHeads(p, level);
      SplitLast(ts);
      GroupsSnoc(p, t, level);
      OpenersSnoc(p, t, level);
      var gs, os := Groups(p, level), Openers(p, level);
      if Opens(level, t) {
        HeadsMatchOpen(gs, os, level, t);
      } else if gs != [] {
        HeadsMatchExtend(gs, os, level, t);
      } else {
        assert os + [] == os;
      }
    }
  }

  lemma {:induction false} FilesOfAt(gs: seq<Group>, k: nat)
    requires k < |gs|
    ensures FilesOf(gs)[k] == FileOf(gs[k])
  {
    if k < |gs| - 1 {
      FilesOfAt(gs[..|gs| - 1], k);
    }
  }

  /** Order preservation: the record has one file per FILE line, in input order, each
      with that line's format. */
  lemma FilesInOrder(ts: seq<Token>)
    ensures var files, heads := Build(ts).files, Openers(ts, Files);
      |files| == |heads| &&
      forall k :: 0 <= k < |files| ==> heads[k].File? && files[k].format == heads[k].format
  {
    BuildIsOutline(ts);
    GroupHeads(ts, Files);
    var gs := Groups(ts, Files);
    var heads := Openers(ts, Files);
    forall k | 0 <= k < |gs| ensures Build(ts).files[k].format == heads[k].format {
      FilesOfAt(gs, k);
      assert gs[k].(body := []) == Opened(heads[k]);
    }
  }

  /** The whole parse: when no line panics, the record is the one the grouping of the
      tokens describes. */
  lemma AssembleIsOutline(lines: seq<ReadLine>)
    requires Assemble(lines).Ok?
    ensures Tokens(lines).Ok? && Assemble(lines).value == Outline(Tokens(lines).value)
  {
    BuildIsOutline(Tokens(lines).value);
  }
}
