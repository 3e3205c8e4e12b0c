/**
 * The records shared between the main process and the renderer: projects and
 * their metadata, the transcript's words, the playable cuts, and the small
 * enumerations. TypeScript's `T | null` is `Option<T>`; numbers holding times
 * are exact reals (seconds), counts and sizes are integers.
 */
module SharedTypes {
  import opened Wrappers

  /** A project's media kind: only audio or video. */
  datatype MediaType = Audio | Video

  /** The only audio extension is mp3 and the only video extension is mp4. */
  datatype MediaFileExtension = Mp3 | Mp4

  /** A calendar date as `Date`'s local getters report it: `getDate()`, `getMonth()`, `getFullYear()`. */
  datatype Date = Date(date: int, month: int, fullYear: int)

  /**
   * One span of the transcript: a recognised word or a silence (whose text is a
   * single space). `startTime` and `duration` are on the source timeline,
   * `outputStartTime` on the edited output timeline.
   */
  datatype Word = Word(
    word: string,
    startTime: real,
    duration: real,
    outputStartTime: real,
    deleted: bool,
    key: string,
    fileName: string)

  /** A transcript: a confidence score and the words in source order, with no separate index. */
  datatype Transcription = Transcription(confidence: real, words: seq<Word>)

  /** A contiguous playable run: where it starts in the source and in the output, and its place in the cut list. */
  datatype Cut = Cut(startTime: real, duration: real, outputStartTime: real, index: int)

  datatype Project = Project(
    id: string,
    schemaVersion: int,
    name: string,
    projectFilePath: Option<string>,
    exportFilePath: Option<string>,
    audioExtractFilePath: Option<string>,
    mediaFilePath: Option<string>,
    transcription: Option<Transcription>,
    mediaType: MediaType,
    mediaFileExtension: MediaFileExtension,
    thumbnailFilePath: Option<string>,
    isEdited: bool)

  /** `mediaSize` is in bytes. */
  datatype ProjectMetadata = ProjectMetadata(dateModified: Option<Date>, mediaSize: Option<int>)

  /** Exactly the project's id, name and three paths, plus the metadata fields. */
  datatype RecentProject = RecentProject(
    id: string,
    name: string,
    projectFilePath: Option<string>,
    mediaFilePath: Option<string>,
    thumbnailFilePath: Option<string>,
    dateModified: Option<Date>,
    mediaSize: Option<int>)

  datatype OperatingSystems = MacOS | Windows | Linux {
    /** The string value of each enum member (what `os.platform()` reports). */
    function Value(): string {
      match this
      case MacOS => "darwin"
      case Windows => "win32"
      case Linux => "linux"
    }
  }

  datatype AsyncState = Ready | Loading | Done | Error {
    function Value(): string {
      match this
      case Ready => "READY"
      case Loading => "LOADING"
      case Done => "DONE"
      case Error => "ERROR"
    }
  }

  /** Distinct enum members have distinct string values. */
  lemma EnumValuesDistinct(a: OperatingSystems, b: OperatingSystems, x: AsyncState, y: AsyncState)
    ensures a != b ==> a.Value() != b.Value()
    ensures x != y ==> x.Value() != y.Value()
  {
  }

  /** A word of the recogniser's output, before renaming `start_time`. */
  datatype SnakeCaseWord = SnakeCaseWord(word: string, duration: real, start_time: real)

  /** The recogniser's output for one media file. */
  datatype JSONTranscription = JSONTranscription(confidence: real, words: seq<SnakeCaseWord>)
}
