# mlvet core, modelled in Dafny

mlvet is a desktop editor in which a speech transcript is the editing surface.
Deleting a word of the transcript removes that span of media from playback; the
media file itself never changes. This project models the core of that editor and
proves properties of it:

- **Output-time reflow** (`LiveProcess`, `src/main/editDelete/liveProcess.ts`).
  After every edit, one in-order pass over the words rewrites each word's
  `outputStartTime` in place. It works on an `array<Word>`, and is proved against
  `Reflowed`: each visible word starts where the visible words before it end.
- **Silence insertion** (`PreProcess`, `src/main/editDelete/preProcess.ts`). The
  recogniser's word list is turned into a gapless transcript: a leading silence,
  then every word followed by a silence, keyed `"0".."2n"`. The `reduce` is a loop
  whose invariant is the layout reached so far.
- **Playback clock** (`VideoPreviewController`). The component's refs become a
  `class PlaybackController`. Wall-clock readings are a `now` parameter. Commands
  to the media element and notifications to the UI are kept in ghost logs. The
  pure cut lookup `getCutFromSystemTime` is a function.
- **Formatting** (`TimeUtils`, `Export`, `RendererUtil`). This covers:
  - zero padding and floor division;
  - the `hh:mm:ss:cc` timestamp and the UI clock;
  - the edit decision list (EDL) text;
  - file-extension parsing, media classification, the `makeProject` validation
    chain and the `dd/mm/yy` date label.
- **Recent-projects store** (`StoreActions`, `RecentProjectsActions`,
  `RecentProjectsReducer`). This covers the action tags, the action creators, and
  the reducer over the list of recent projects.

`Strings` and `JsMath` give the JavaScript built-ins the source relies on:
- `String(n)`, `padStart`, `split` on one character, and `join`;
- `Math.floor`, `Math.round`, and the truncating `%`.

Each of these comes with its inverse (a decimal reader, split after join) so that
the round-trip lemmas can be stated. Times are exact `real` seconds.

## Model

| member | source | states |
|---|---|---|
| SharedTypes.EnumValuesDistinct | src/sharedTypes.ts:54-65 | distinct operating systems report distinct platform strings (`darwin`, `win32`, `linux`), and the four async states have distinct values |
| Strings.NatToStringInjective | src/main/editDelete/preProcess.ts:29 | decimal keys `i.toString()` of distinct indices differ, so index keys identify words |
| Strings.PadStartRoundTrip | src/main/timeUtils.ts:2 | a zero-padded non-negative number is all digits and reads back as the number |
| Strings.SplitJoin | src/main/timeUtils.ts:11-13 | splitting a join of separator-free parts on the separator recovers the parts |
| Strings.SplitLast | src/renderer/util.ts:14-15 | the last part of a split is a suffix of the string that holds no separator; it is preceded by the separator unless it is the whole string, and it is the whole string exactly when the string holds no separator |
| JsMath.Round | src/main/timeUtils.ts:29 | `Math.round` gives the integer within half of x, with halves going up |
| JsMath.Rem | src/main/timeUtils.ts:21-24 | `%` is a minus a whole multiple of b, smaller than b in size and of the sign of a: in [0, abs(b)) for a ≥ 0, in (-abs(b), 0] for a < 0. With b > 0 it is a - b·floor(a/b) for a ≥ 0 and a + b·floor(-a/b) for a < 0 |
| JsMath.RemInt | src/renderer/util.ts:83 | integer `%` agrees with the mathematical remainder for a non-negative dividend. For a negative one it lies in (-b, 0] and differs from a by a multiple of b, which fixes it as the truncated remainder |
| LiveProcess.CalculateTime | src/main/editDelete/liveProcess.ts:12-37 | the words before i are already reflowed. A deleted word keeps its `outputStartTime`. A visible word gets the total duration of the visible words before it: 0 at index 0 or when every predecessor is deleted, otherwise the end of the nearest visible predecessor (found by the backwards scan) |
| LiveProcess.ProcessWord | src/main/editDelete/liveProcess.ts:46-49 | only word i changes, and only its `outputStartTime`, to the value calculateTime gives |
| LiveProcess.LiveProcessTranscript | src/main/editDelete/liveProcess.ts:56-61 | the array afterwards is `Reflowed` of the array before. The result has the same confidence over the rewritten words |
| LiveProcess.Reflowed | src/main/editDelete/liveProcess.ts:46-60 | the count and order of words are unchanged; each word differs from its input at most in `outputStartTime` |
| LiveProcess.ReflowedStartsAfterVisible | src/main/editDelete/liveProcess.ts:46-60 | after a reflow every visible word starts at the sum of the durations of the visible words before it |
| LiveProcess.ReflowFixesConsistent | src/main/editDelete/liveProcess.ts:12-37 | a transcript that already satisfies that invariant is left exactly as it is |
| LiveProcess.ReflowIdempotent | src/main/editDelete/liveProcess.ts:12-60 | reflowing twice gives the same transcript as reflowing once |
| LiveProcess.DeleteShortensOutput | src/main/editDelete/liveProcess.ts:46-60 | deleting a visible word shortens the output by exactly its duration, and leaves every earlier word's reflowed start unchanged |
| LiveProcess.UndoRestoresOutput | src/main/editDelete/liveProcess.ts:46-60 | delete, reflow, undo, reflow gives the same transcript as reflowing the original |
| PreProcess.CamelCase | src/main/editDelete/preProcess.ts:14-18 | copies `word` and `duration`, and renames `start_time` to `startTime` |
| PreProcess.InjectAttributes | src/main/editDelete/preProcess.ts:26-32 | the word is visible, its output time equals its source time, its key is its index, and its file name is the placeholder |
| PreProcess.Injected | src/main/editDelete/preProcess.ts:114-115 | word i of the mapped list is `injectAttributes(camelCase(raw[i]), i)` |
| PreProcess.AddSpaces | src/main/editDelete/preProcess.ts:43-98 | keeps the result so far and appends the word rekeyed `2i+1`, then a silence keyed `2i+2`. The silence runs from the word's end to the next word's start, or to the total duration after the last word. Before word 0 it also appends a silence from 0 to that word's start, keyed `0`, even when that silence is empty |
| PreProcess.AddSpacesStep | src/main/editDelete/preProcess.ts:43-98 | one fold step extends the layout of the first i words to the layout of the first i+1 words |
| PreProcess.PreProcessTranscript | src/main/editDelete/preProcess.ts:106-118 | confidence passes through; no input words give no words; otherwise the output is the full layout: a leading silence, then word i at position 2i+1 and its silence at 2i+2 |
| PreProcess.WordAt | src/main/editDelete/preProcess.ts:65-80 | position 2i+1 holds a visible word keyed `2i+1`, with output time equal to source time, starting where the silence before it ends |
| PreProcess.SilenceAt | src/main/editDelete/preProcess.ts:65-95 | position 2i+2 holds a visible silence keyed `2i+2`, starting at its word's end and ending at the next word's start, or at the total duration after the last word |
| PreProcess.AtPosition | src/main/editDelete/preProcess.ts:43-98 | every position p is keyed `p`, is visible and starts where position p-1 ends; the last position ends at the total duration |
| PreProcess.LaidOutProperties | src/main/editDelete/preProcess.ts:43-118 | a preprocessed transcript is fresh (keys `"0".."2n"`, nothing deleted, output time = source time, placeholder file name), tiles [0, total duration] without gaps, and has pairwise distinct keys |
| PreProcess.FreshTilingIsReflowed | src/main/editDelete/preProcess.ts:43-98 | a fresh gapless transcript is already reflowed: the reflow pass leaves the preprocessor's output unchanged |
| PreProcess.SingleWordExample | src/main/editDelete/preProcess.ts:43-118 | the word "hi" at 2 s lasting 1 s, in 5 s of media, becomes [silence 0-2, "hi" 2-3, silence 3-5] with keys 0, 1, 2 |
| VideoPreviewController.FindFrom | src/renderer/components/VideoPreview/VideoPreviewController.tsx:41-45 | `find` from k returns the first index whose cut's closed output interval contains t, or nothing when none from k does |
| VideoPreviewController.GetCutFromSystemTime | src/renderer/components/VideoPreview/VideoPreviewController.tsx:39-47 | the lookup yields a cut exactly when there are cuts (over no cuts `cuts[-1]` is undefined) |
| VideoPreviewController.GetCutFirstOrLast | src/renderer/components/VideoPreview/VideoPreviewController.tsx:40-47 | the cut found is the first cut containing t, or the last cut when no cut contains t |
| VideoPreviewController.OutputLengthNonNegative | src/renderer/components/VideoPreview/VideoPreviewController.tsx:207-208 | the length of well-formed cuts (the end of the last cut) is never negative |
| VideoPreviewController.CutsCover | src/renderer/components/VideoPreview/VideoPreviewController.tsx:40-47 | for well-formed cuts every time in [0, length] lies in some cut, so the fallback to the last cut is never taken there |
| VideoPreviewController.BoundaryResolvesEarlier | src/renderer/components/VideoPreview/VideoPreviewController.tsx:41-45 | a time on the boundary between cut k and cut k+1 resolves to cut k or an earlier one |
| VideoPreviewController.SeekTargetInCut | src/renderer/components/VideoPreview/VideoPreviewController.tsx:172-176 | within the output, the resolved cut is the cut at its own index, and the source position seeked to lies within that cut's source span |
| VideoPreviewController.ResolvedConsistent | src/renderer/components/VideoPreview/VideoPreviewController.tsx:161-165 | resolving a time within the output gives a current cut consistent with the cut list |
| VideoPreviewController.PlaybackController.constructor | src/renderer/components/VideoPreview/VideoPreviewController.tsx:63-84 | stopped, never run, time 0, both interval marks at the reading of the clock, the placeholder current cut (index 0, duration 1), no cuts, length 0, empty logs |
| VideoPreviewController.PlaybackController.StopTimer | src/renderer/components/VideoPreview/VideoPreviewController.tsx:87-92 | no timer and not running, stop time recorded as now, everything else unchanged |
| VideoPreviewController.PlaybackController.Pause | src/renderer/components/VideoPreview/VideoPreviewController.tsx:95-99 | logs a pause to the media player and `setIsPlaying(false)` to the UI, then stops the timer |
| VideoPreviewController.PlaybackController.OnFrame | src/renderer/components/VideoPreview/VideoPreviewController.tsx:102-127 | if stopped, nothing changes. If running, the time becomes now minus the interval start and the UI is told. At the end of the current cut the clock moves to the next cut and seeks the media to its source start, or, after the last cut, pauses (recording now as the stop time). While it keeps running the stop time is untouched |
| VideoPreviewController.PlaybackController.StartTimer | src/renderer/components/VideoPreview/VideoPreviewController.tsx:130-143 | running with a timer. The first start begins the interval now and records now as the stop time, whatever time was set before. A later start shifts the interval start by the time since the last recorded stop, which is the last call of stopTimer, not the first |
| VideoPreviewController.PlaybackController.Play | src/renderer/components/VideoPreview/VideoPreviewController.tsx:146-154 | runs afterwards iff it ran before or the time is before the end of the output. Only in the second case are the play command and `setIsPlaying(true)` logged and the timer started: on a first start the interval start and the stop time both become now, on a later one the interval start moves by the time since the recorded stop and the stop time is kept |
| VideoPreviewController.PlaybackController.ResumeTimer | src/renderer/components/VideoPreview/VideoPreviewController.tsx:130-143 | the intended start: running with a timer and an interval start of now minus the time shown, so the next frame continues from that time however often the clock was paused or set before |
| VideoPreviewController.PlaybackController.PlayFromShownTime | src/renderer/components/VideoPreview/VideoPreviewController.tsx:146-154 | play over the intended start: starts exactly when play would, with the same logs, and then the interval start is now minus the time shown |
| VideoPreviewController.PlaybackController.SetPlaybackTime | src/renderer/components/VideoPreview/VideoPreviewController.tsx:157-184 | the time is the target clamped to [0, length] (the target itself when inside), and the current cut is the lookup of that time. `time + intervalStartTime` is unchanged, so a running clock continues from the target. Before the end it seeks into the cut and keeps running iff it was running; at the end it pauses. The stop time becomes now if the clock was running or it paused, and is kept otherwise |
| VideoPreviewController.PlaybackController.MoveTo | src/renderer/components/VideoPreview/VideoPreviewController.tsx:161-170 | clamps, resolves the cut, shifts the interval start by the jump and tells the UI the new time; the timer state and command log are untouched |
| VideoPreviewController.PlaybackController.SeekForward | src/renderer/components/VideoPreview/VideoPreviewController.tsx:187-189 | setPlaybackTime at the time plus 10 s: the clamped time, the re-resolved cut, `time + intervalStartTime` kept, the seek or pause with its notifications, the stop time, and the cuts, length and first-run flag unchanged |
| VideoPreviewController.PlaybackController.SeekBack | src/renderer/components/VideoPreview/VideoPreviewController.tsx:192-194 | setPlaybackTime at the time minus 10 s: the clamped time, the re-resolved cut, `time + intervalStartTime` kept, the seek or pause with its notifications, the stop time, and the cuts, length and first-run flag unchanged |
| VideoPreviewController.PlaybackController.LoadCuts | src/renderer/components/VideoPreview/VideoPreviewController.tsx:204-212 | the new cuts are loaded and the length becomes the end of their last cut. Then setPlaybackTime at the current time: it is kept (clamped into the new length), not reset, re-resolved against the new cuts, with the same running state, logs and stop time as setPlaybackTime |
| VideoPreviewController.PausedTwiceCountsStoppedTime | src/renderer/components/VideoPreview/VideoPreviewController.tsx:87-143 | over one 100 s cut: played from 0, a frame at 11 s, pauses at 11 s and 41 s, play at 50 s; the next frame reads 41 s, so the 30 s between the pauses count as playback |
| VideoPreviewController.PausedTwiceResumesFromPause | src/renderer/components/VideoPreview/VideoPreviewController.tsx:87-154 | the same steps over the intended start read 11 s, the time shown at the pause |
| VideoPreviewController.SeekBeforeFirstPlayLost | src/renderer/components/VideoPreview/VideoPreviewController.tsx:130-184 | over one 100 s cut: set to 50 s at 1 s, first play at 2 s; the media is seeked to 50 s but the frame at 3 s reads 1 s |
| VideoPreviewController.SeekBeforeFirstPlayKept | src/renderer/components/VideoPreview/VideoPreviewController.tsx:130-184 | the same steps over the intended start read 51 s at 3 s |
| TimeUtils.PadZeros | src/main/timeUtils.ts:1-3 | the result ends with `String(num)`, is preceded only by '0's, and has length max(len, the length of `String(num)`) |
| TimeUtils.PadZerosRoundTrip | src/main/timeUtils.ts:1-3 | a padded non-negative number is all digits, at least len long, and reads back as the number |
| TimeUtils.IntegerDivide | src/main/timeUtils.ts:5-7 | the quotient is floor(a / b); for b > 0, b·q ≤ a < b·q + b |
| TimeUtils.SecondToTimestamp | src/main/timeUtils.ts:10-14 | the `hh:mm:ss:cc` timestamp: the four padded fields of `TimestampFields` joined by ':'. That the fields read back is `TimestampRoundTrip` |
| TimeUtils.TimestampFields | src/main/timeUtils.ts:11-12 | four fields, field i being the padded floor of num over 3600, 60, 1 and 0.01 |
| TimeUtils.TimestampRoundTrip | src/main/timeUtils.ts:10-14 | splitting the timestamp of a non-negative time on ':' gives four digit fields of at least two characters. They read back as floor(t/3600), floor(t/60), floor(t) and floor(100t), none reduced modulo 60 |
| TimeUtils.UIFields | src/main/timeUtils.ts:19-29 | for t ≥ 0: hours = floor(t/3600); minutes and seconds are in 0..59; the whole seconds are within 1 s below t; the hundredths are the rounded fraction, in 0..100 |
| TimeUtils.RenderUI | src/main/timeUtils.ts:31-36 | the UI clock's text: the four two-digit fields as `hh:mm:ss.cc`, with `hh:` dropped unless the hours are positive. Its properties are in `RenderWithoutHours`, `UIUnderAnHour` and `UIHundredthsOverflow` |
| TimeUtils.SecondToTimestampUI | src/main/timeUtils.ts:16-37 | the step-by-step reduction gives the rendering of `UIFields(time)` |
| TimeUtils.Pad2Small | src/main/timeUtils.ts:17 | a number below 100 pads to two digits that read back as the number |
| TimeUtils.RenderWithoutHours | src/main/timeUtils.ts:31-36 | with no hours the leading `hh:` is dropped, leaving `mm:ss.` and the hundredths |
| TimeUtils.UIUnderAnHour | src/main/timeUtils.ts:19-36 | under an hour the UI clock reads `mm:ss.` followed by the padded hundredths |
| TimeUtils.UIHundredthsOverflow | src/main/timeUtils.ts:29-36 | 0.999 s rounds to 100 hundredths and prints as `00:00.100` |
| TimeUtils.UIFieldsTruncated | src/main/timeUtils.ts:26-29 | with the fraction truncated the hundredths are in 0..99, and 100·(whole seconds) + hundredths = floor(100t) |
| TimeUtils.UITruncatedUnderAnHour | src/main/timeUtils.ts:31-36 | with truncated hundredths the clock under an hour is `mm:ss.cc`, three two-digit fields that read back |
| Export.WordsOf | src/main/export/export.ts:16-17 | words are found exactly when there is a transcript list, it is not empty, and its first transcript has words; otherwise reading them throws |
| Export.SecondToTimestamp | src/main/export/export.ts:6-11 | the local timestamp as written: the four fields separated by ':', a line break and ten spaces. `TimestampSpansLines` states the break |
| Export.TimestampSpansLines | src/main/export/export.ts:6-11 | whatever the helpers return, the local timestamp has a ':' then a line break right after its first field |
| Export.CorrectedTimestampOneLine | src/main/export/export.ts:6-11 | the one-line timestamp (timeUtils' secondToTimestamp) holds no line break and, for t ≥ 0, splits into four fields |
| Export.Header | src/main/export/export.ts:14 | the `TITLE:` and `FCM: NON-DROP FRAME` header lines the list starts with; `ConstructEDL` states that it does |
| Export.Entry | src/main/export/export.ts:19-27 | the event line of word i of n: padded number, fixed fields, start and end timestamps, clip trailer. Its shape is `EntryShape`, its numbering `EntryNumberWidth` |
| Export.Events | src/main/export/export.ts:18-28 | one event per word, in order, event i being the numbered entry of word i |
| Export.BuildEntry | src/main/export/export.ts:19-27 | one loop step builds event i of `Events`, so the loop appends the events in order. The line begins with the number padded to width n and ends with the clip trailer |
| Export.Edl | src/main/export/export.ts:13-33 | the whole list: the header, then the events of every word, or the header alone when the words cannot be read. `ConstructEDL` is proved to build it, and `ConcatExtend` states its order |
| Export.AppendEvents | src/main/export/export.ts:18-28 | the loop appends the events of all words, in order, after the header |
| Export.ConstructEDL | src/main/export/export.ts:13-33 | the list is the header followed by every word's event; it is the header alone when reading the words throws |
| Export.ConcatExtend | src/main/export/export.ts:18-28 | the events of the first j words are a prefix of those of the first k ≥ j, so the list keeps the words' order |
| Export.EntryShape | src/main/export/export.ts:19-27 | every event starts with its padded number and ends with the clip trailer |
| Export.EntryNumberWidth | src/main/export/export.ts:19 | with zero padding to the word count, event i is numbered i+1 in exactly that many digits, which read back as i+1 |
| RendererUtil.ExtractFileExtension | src/renderer/util.ts:11-20 | null exactly when the last '.'-separated part is empty, otherwise that part |
| RendererUtil.ExtensionIsLastPart | src/renderer/util.ts:11-20 | the extension holds no '.', ends the path, is preceded by '.' unless it is the whole path, and is the whole path exactly when the path holds no '.' |
| RendererUtil.NoExtension | src/renderer/util.ts:16-18 | there is no extension exactly when the path is empty or ends with '.' |
| RendererUtil.ExtensionAfterDot | src/renderer/util.ts:14-19 | for any base, `base + "." + ext` with a '.'-free non-empty ext has extension ext |
| RendererUtil.GetMediaType | src/renderer/util.ts:22-36 | audio iff `mp3`, video iff `mp4`, null for every other string (case-sensitive) |
| RendererUtil.AsMediaFileExtension | src/renderer/util.ts:65-67 | the narrowing cast keeps the extension's name |
| RendererUtil.MediaTypeOfExtension | src/renderer/util.ts:22-36 | the mp3 extension classifies as audio and mp4 as video, and the cast maps each name back to its extension |
| RendererUtil.MakeProject | src/renderer/util.ts:38-77 | null iff the path is null, has no extension, has an extension of no media kind, or yields no thumbnail. Otherwise the project has the given id, name, schema version and path, the extension and kind detected from the path, the thumbnail found, and no transcription, project file or export file |
| RendererUtil.MakeProjectAccepts | src/renderer/util.ts:42-76 | any path ending in `.mp3` or `.mp4` whose thumbnail is found makes a project of the matching extension and kind |
| RendererUtil.MakeProjectNeedsExtension | src/renderer/util.ts:46-54 | a project is only made for a path ending in `.mp3` or `.mp4`, or for the dotless path `mp3` or `mp4` |
| RendererUtil.PadField | src/renderer/util.ts:85-86 | a one-character field gets exactly one leading '0'; any other field is kept |
| RendererUtil.FormatDate | src/renderer/util.ts:79-89 | `dd/mm/yy`: the day, the month counted from 1 and the year modulo 100 (the truncating `%`), each padded by `PadField`, joined by '/'. That the fields read back is `FormatDateRoundTrip` |
| RendererUtil.FormatDateRoundTrip | src/renderer/util.ts:79-89 | for a real date (day 1..31, month index 0..11, year ≥ 0) the label splits on '/' into three two-digit fields. They read back as the day, the month counted from 1, and the year modulo 100 |
| RecentProjectsActions.RecentProjectAdded | src/renderer/store/recentProjects/actions.ts:8-13 | tagged `RECENT_PROJECT_ADDED`, with the project unchanged as payload |
| RecentProjectsActions.RecentProjectsLoaded | src/renderer/store/recentProjects/actions.ts:15-20 | tagged `RECENT_PROJECTS_LOADED`, with the list unchanged as payload |
| RecentProjectsActions.ProjectDeleted | src/renderer/store/recentProjects/actions.ts:22-27 | tagged `PROJECT_DELETED`, with payload `{id}` |
| RecentProjectsActions.TagsDistinct | src/renderer/store/recentProjects/actions.ts:4-6 | the three tags are pairwise distinct |
| StoreActions.ProjectCreated | src/renderer/store/actions.ts:29-34 | tagged `PROJECT_CREATED`, with the project unchanged as payload |
| StoreActions.ProjectOpened | src/renderer/store/actions.ts:36-45 | tagged `PROJECT_OPENED`, pairing the project with its file path, which may be null |
| StoreActions.ProjectSaved | src/renderer/store/actions.ts:47-56 | tagged `PROJECT_SAVED`, packing only the project id and file path |
| StoreActions.ProjectSavedFirstTime | src/renderer/store/actions.ts:58-69 | tagged `PROJECT_SAVED_FIRST_TIME`, packing project, metadata and file path |
| StoreActions.CurrentProjectClosed | src/renderer/store/actions.ts:71-74 | tagged `CURRENT_PROJECT_CLOSED` (null payload) |
| StoreActions.RecentProjectAdded | src/renderer/store/actions.ts:76-81 | tagged `RECENT_PROJECT_ADDED`, with the recent project unchanged as payload |
| StoreActions.TranscriptionCreated | src/renderer/store/actions.ts:83-88 | tagged `TRANSCRIPTION_CREATED`, with the transcription unchanged as payload |
| StoreActions.PageChanged | src/renderer/store/actions.ts:90-95 | tagged `PAGE_CHANGED`, with the page unchanged as payload |
| StoreActions.RecentProjectsLoaded | src/renderer/store/actions.ts:97-102 | tagged `RECENT_PROJECTS_LOADED`, with the list unchanged as payload |
| StoreActions.UndoStackPushed | src/renderer/store/actions.ts:104-109 | tagged `UNDO_STACK_PUSHED`, with the operation unchanged as payload |
| StoreActions.UndoStackPopped | src/renderer/store/actions.ts:111-114 | tagged `UNDO_STACK_POPPED` (null payload) |
| StoreActions.OpRedone | src/renderer/store/actions.ts:116-119 | tagged `OP_REDONE` (null payload) |
| StoreActions.StartExport | src/renderer/store/actions.ts:121-124 | tagged `START_EXPORT` (null payload) |
| StoreActions.UpdateExportProgress | src/renderer/store/actions.ts:126-131 | tagged `EXPORT_PROGRESS_UPDATE`, with the progress unchanged as payload |
| StoreActions.FinishExport | src/renderer/store/actions.ts:133-136 | tagged with the string `FINISH_UPDATE` (null payload) |
| StoreActions.TagsDistinct | src/renderer/store/actions.ts:10-27 | all sixteen tags are pairwise distinct, `FINISH_UPDATE` included |
| StoreActions.SharedTagsAgree | src/renderer/store/actions.ts:14-17 | the two tags shared with the recent-projects slice are the same strings there, and both files' creators build identical actions |
| RecentProjectsReducer.Reduce | src/renderer/store/recentProjects/reducer.ts:16-62 | the branches in the source's order. Apart from a load, an action grows the list by at most one entry, and only an added or saved project grows it at all. Per-tag behaviour is in `AddedPrepends` … `OtherActionsKeepState` |
| RecentProjectsReducer.AddedPrepends | src/renderer/store/recentProjects/reducer.ts:17-19 | `RECENT_PROJECT_ADDED` puts the project first and keeps the rest in order |
| RecentProjectsReducer.LoadedReplaces | src/renderer/store/recentProjects/reducer.ts:21-23 | `RECENT_PROJECTS_LOADED` replaces the list by the payload |
| RecentProjectsReducer.OpenedUpdatesById | src/renderer/store/recentProjects/reducer.ts:25-36 | `PROJECT_OPENED` keeps length, order and ids. Entries with the opened id get the new project file path and nothing else; every other entry is untouched |
| RecentProjectsReducer.OpenedIdempotent | src/renderer/store/recentProjects/reducer.ts:25-36 | opening the same project from the same file twice equals opening it once |
| RecentProjectsReducer.SavedAppends | src/renderer/store/recentProjects/reducer.ts:38-53 | `PROJECT_SAVED` appends exactly one entry, made from the payload, after the unchanged list |
| RecentProjectsReducer.StoreProjectSavedDoesNotFit | src/renderer/store/recentProjects/reducer.ts:38-44 | if the reducer's `PROJECT_SAVED` is the store's string, the store creator's `{projectId, filePath}` payload is not the shape this branch reads |
| RecentProjectsReducer.WithoutIdSpec | src/renderer/store/recentProjects/reducer.ts:58 | the filter keeps no entry with the id, keeps every other entry as often as it occurred, and keeps their order |
| RecentProjectsReducer.DeletedFilters | src/renderer/store/recentProjects/reducer.ts:55-59 | `PROJECT_DELETED` removes every entry with the id and keeps the others, with their multiplicity, in order |
| RecentProjectsReducer.OtherActionsKeepState | src/renderer/store/recentProjects/reducer.ts:61 | any action with another tag fits the reducer and leaves the list unchanged |

## Where the code and the design description differ

The model follows the code in each case:

- **Zero input words.** The preprocessor returns an empty word list; the design
  description calls for a single silence spanning the media.
- **Leading silence.** The preprocessor always emits it, even with zero length
  when the first word starts at 0 (`AddSpaces`). The description emits it only
  when the first word starts later.
- **Steps the code does not have.** There is no mean-gap estimate and no
  re-segmentation of long silences. Every emitted word carries the file name
  `PLACEHOLDER FILENAME`, not the media file's identifier.
- **Cut lookup on a boundary.** The lookup uses the closed interval
  [outputStart, outputStart + duration] and takes the first match. So a time on
  the boundary between two cuts resolves to the earlier cut
  (`BoundaryResolvesEarlier`), not to the later one as a half-open interval would.
- **Stopping at the end of the output.** When a frame passes the end of the last
  cut, the clock pauses with the time it read, now minus the interval start
  (VideoPreviewController.tsx:104-118). That time can lie past the output
  length, and `OnFrame` allows it. The description stops the clock at exactly the
  output length.
- **No cuts.** When the cut list is empty, the reload effect reads the fields of
  an undefined last cut and throws (VideoPreviewController.tsx:207-208). The
  description expects play over such an edit to do nothing. `LoadCuts` requires
  a non-empty cut list, so the model never reaches that throw.
- **Resuming after a pause.** The description resumes from the time at the pause.
  The code resumes from the last call of stopTimer, so a second pause (or a
  setPlaybackTime that ends in one) makes the time between the pauses count as
  playback. The first start also discards a time set before it (see Findings).

## Left out

- **Wall clock.** `performance.now()` is the `now` parameter of each operation. It
  is read once per call, whereas the source reads it afresh at each use within a
  call.
- **Effects of the playback clock.** `setInterval`/`clearInterval` become the
  `intervalActive` flag. The video element's play, pause and seek, and the UI's
  `setTime`/`setIsPlaying`, are appended to ghost logs. The frames-per-second
  period is not modelled.
- **Video source effect.** The base64-encoded source URL and the JSX rendering
  (VideoPreviewController.tsx:214-229) are not modelled.
- **Cut compiler.** `convertTranscriptToCuts` (main/processing/transcriptToCuts)
  is not part of this model. `LoadCuts` requires its result to be well formed:
  non-empty, indexed, non-negative durations, gapless from 0.
- **`clamp`.** VideoPreviewController.tsx:13 imports it from `main/timeUtils`, but
  timeUtils.ts does not define it, so its definition is not part of this model.
  It is a function value assumed to satisfy the contract of a clamp (`IsClamp`).
- **Cut list.** The `cuts.current ?? []` fallback is not modelled, since the list
  is never null here.
- **Floating point.** Numbers are exact reals; IEEE rounding is not modelled.
  `roundToMs` (main/util) is not part of this model and is taken as the identity.
- **`export/utils.ts`.** This file is not part of this model. Its `padZeros` and
  `integerDivide` are the function fields of `EdlHelpers`, and nothing is claimed
  about them except in `EntryNumberWidth` and `CorrectedTimestampOneLine`, which
  use timeUtils' versions.
- **Word entries.** The words of the export data are assumed to be objects with
  a start time and a duration. A throw in the middle of the loop, which would keep
  the events appended so far, is not modelled.
- **EDL output.** `exportEDL` (directory creation, file writing) and the
  `console.log` of the catch are I/O and are left out.
- **`makeProject` inputs.** `uuidv4()` is the `id` parameter, the asynchronous
  `extractThumbnail` is a function parameter, and `CURRENT_SCHEMA_VERSION`
  (constants.ts, not part of this model) is the `schemaVersion` parameter.
- **Project literal.** The `makeProject` literal omits `audioExtractFilePath` and
  `isEdited`; the model reads them as absent and false.
- **Reducer collaborators.** `makeRecentProject` (sharedUtils) is a function
  parameter. The string values of `PROJECT_OPENED` and `PROJECT_SAVED`
  (currentProject/actions.ts) are the fields of `CurrentProjectTags`. Neither file
  is part of this model.
- **Reducer inputs.** The default state `initialStore.recentProjects` is not
  modelled: the state is always passed in. A payload whose shape does not match
  its tag is excluded by `Fits`, since the source's casts assume the shape.
- **Untyped tags and payloads.** `PROJECT_NAME_SUBMITTED` is a tag without a
  creator. The undo-stack operation type (opPayloads.ts, not part of this model)
  is a type parameter.
- **Shared word objects.** In liveProcess the words are rewritten in place in an
  array, so sharing of word objects between arrays is not modelled. In preProcess
  the accumulator's `push` and the `word.key` assignment are modelled on values;
  the word objects there are fresh copies, so nothing else observes them.
- TimeUtils.TimestampRoundTrip: covers non-negative times only. Floor division of
  a negative time gives a leading '-' that does not read back as digits.
- RendererUtil.FormatDateRoundTrip: covers real calendar dates with a year of at
  least 0. A negative year gives a negative remainder, which prints with a '-'.
- VideoPreviewController.GetCutFromSystemTime: its own contract says only when a
  cut is found. The first-containing-or-last characterisation is the lemma
  GetCutFirstOrLast.

## Findings

| source | as written | input that shows it | evidently intended | confidence | as-written member | corrected member |
|---|---|---|---|---|---|---|
| src/main/export/export.ts:6-11 | the template literal spans four lines, so each ':' of the EDL timestamp is followed by a line break and ten spaces of indentation | any time, e.g. 0: the timestamp is `00:` then a line break, then ten spaces and `00:` …, which splits every event line | a one-line `hh:mm:ss:cc`, as timeUtils' secondToTimestamp builds | high (not executed) | Export.TimestampSpansLines | Export.CorrectedTimestampOneLine |
| src/renderer/components/VideoPreview/VideoPreviewController.tsx:87-99 | stopTimer, and so pause, records now as the stop time on every call, even when the clock is already stopped; startTimer then resumes from the last recorded stop | run to 11 s, pause at 11 s and again at 41 s, play at 50 s: the next frame reads 41 s | resume from the time at the first pause, 11 s | high (not executed) | VideoPreviewController.PausedTwiceCountsStoppedTime | VideoPreviewController.PausedTwiceResumesFromPause |
| src/renderer/components/VideoPreview/VideoPreviewController.tsx:131-135 | the first startTimer sets the interval start to now, discarding the `time + intervalStartTime` that setPlaybackTime kept | set 50 s at 1 s before the first play at 2 s: the media is seeked to 50 s, but the frame at 3 s reads 1 s | continue from the time set, 51 s at 3 s | high (not executed) | VideoPreviewController.SeekBeforeFirstPlayLost | VideoPreviewController.SeekBeforeFirstPlayKept |
| src/main/timeUtils.ts:29 | `Math.round(timeRemaining * 100)` rounds the fraction of a second, which reaches 100 for fractions of 0.995 or more | time 0.999: the clock prints `00:00.100`, a three-digit hundredths field, where `00:01.00` or `00:00.99` is meant | hundredths in 0..99 (truncate, or carry into the seconds) | high (not executed) | TimeUtils.UIHundredthsOverflow | TimeUtils.UITruncatedUnderAnHour |
