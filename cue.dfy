/** The public data model of `src/cue.rs`: the `Command` enum, the `Track`, `CueFile` and
    `Cue` records and their constructors. */
module CueSheet {
  import opened Wrappers

  /** Nanoseconds below one second. */
  type Nanos = n: nat | n < 1_000_000_000

  /** `std::time::Duration`: whole seconds and the nanoseconds below one second. */
  datatype Duration = Duration(secs: nat, nanos: Nanos)

  /** One command of a CUE sheet. */
  datatype Command =
    | Rem(key: string, value: string)
    | Catalog(catalog: string)
    | CdTextFile(path: string)
    | Flags(flags: seq<string>)
    | Isrc(isrc: string)
    | Songwriter(songwriter: string)
    | Performer(performer: string)
    | Title(title: string)
    | File(file: string, format: string)
    | Track(no: string, format: string)
    | Index(no: string, time: string)
    | Pregap(pregap: string)
    | Postgap(postgap: string)
    | Unknown(line: string)
    | None

  /** A TRACK in a file. */
  datatype Track = Track(
    no: string,
    format: string,
    title: Option<string>,
    performer: Option<string>,
    indices: seq<(string, Duration)>,
    pregap: Option<Duration>,
    postgap: Option<Duration>,
    comments: seq<(string, string)>,
    isrc: Option<string>,
    flags: seq<string>,
    songwriter: Option<string>,
    unknown: seq<string>)

  /** A FILE of a CUE sheet. */
  datatype CueFile = CueFile(file: string, format: string, tracks: seq<Track>,
                             comments: seq<(string, string)>)

  /** A whole CUE sheet. */
  datatype Cue = Cue(
    files: seq<CueFile>,
    title: Option<string>,
    performer: Option<string>,
    songwriter: Option<string>,
    cd_text_file: Option<string>,
    catalog: Option<string>,
    comments: seq<(string, string)>,
    unknown: seq<string>)

  /** A track that records nothing beyond its number and format. */
  predicate BlankTrack(t: Track) {
    t.title.None? && t.performer.None? && t.songwriter.None? &&
    t.pregap.None? && t.postgap.None? && t.isrc.None? &&
    t.indices == [] && t.comments == [] && t.unknown == [] && t.flags == []
  }

  /** `Track::new(no, format)`. */
  function NewTrack(no: string, format: string): (t: Track)
    ensures t.no == no && t.format == format && BlankTrack(t)
  {
    Track.Track(no, format, Option.None, Option.None, [], Option.None, Option.None, [], Option.None,
          [], Option.None, [])
  }

  /** `CueFile::new(file, format)`. */
  function NewCueFile(file: string, format: string): (f: CueFile)
    ensures f.file == file && f.format == format && f.tracks == [] && f.comments == []
  {
    CueFile(file, format, [], [])
  }

  /** A sheet that records nothing. */
  predicate BlankCue(c: Cue) {
    c.files == [] && c.title.None? && c.performer.None? && c.songwriter.None? &&
    c.cd_text_file.None? && c.catalog.None? && c.comments == [] && c.unknown == []
  }

  /** `Cue::new()`. */
  function NewCue(): (c: Cue)
    ensures BlankCue(c)
  {
    Cue([], Option.None, Option.None, Option.None, Option.None, Option.None, [], [])
  }

  /** The derived `Default` for `Cue`: each field at its type's default, `None` for an
      `Option` and empty for a `Vec`. */
  function DefaultCue(): (c: Cue)
    ensures BlankCue(c)
  {
    Cue(DefaultVec(), DefaultOption(), DefaultOption(), DefaultOption(), DefaultOption(),
        DefaultOption(), DefaultVec(), DefaultVec())
  }

  function DefaultOption<T>(): Option<T> {
    Option.None
  }

  function DefaultVec<T>(): seq<T> {
    []
  }

  /** `Cue::new()` and `Cue::default()` are the same sheet. */
  lemma NewCueIsDefault()
    ensures NewCue() == DefaultCue()
  {
  }

  /** A fresh track is determined by its number and format: a blank track is exactly the
      one `Track::new` builds from them. */
  lemma BlankTrackIsNew(t: Track)
    ensures BlankTrack(t) <==> t == NewTrack(t.no, t.format)
  {
  }

  /** A blank sheet is exactly `Cue::new()`. */
  lemma BlankCueIsNew(c: Cue)
    ensures BlankCue(c) <==> c == NewCue()
  {
  }
}
