/**
 * The renderer's helpers for a new project: reading a media path's extension,
 * classifying it as audio or video, the validation chain that turns a name and
 * a chosen path into a project, and the `dd/mm/yy` date label.
 *
 * `makeProject` draws its id from `uuidv4()` and its thumbnail from the main
 * process; both arrive here as parameters (the id as a value, the thumbnail
 * extraction as a function of the media path).
 */
module RendererUtil {
  import opened Wrappers
  import opened Strings
  import opened JsMath
  import opened SharedTypes

  /** extractFileExtension: the last '.'-separated part of the path, or nothing when that part is empty. */
  function ExtractFileExtension(filePath: string): (r: Option<string>)
    ensures r.None? <==> Last(Split(filePath, '.')) == ""
    ensures r.Some? ==> r.value == Last(Split(filePath, '.'))
  {
    var filePathSplit := Split(filePath, '.');
    var extension := filePathSplit[|filePathSplit| - 1];
    if extension == "" then None else Some(extension)
  }

  /**
   * The extension found is the text after the last '.', or the whole path when
   * it has none: a suffix of the path that holds no '.' and is preceded by one
   * unless it is the whole path.
   */
  lemma ExtensionIsLastPart(filePath: string)
    ensures var r := ExtractFileExtension(filePath);
      r.Some? ==>
        && Free(r.value, '.')
        && EndsWith(filePath, r.value)
        && (Free(filePath, '.') <==> r.value == filePath)
        && (|r.value| < |filePath| ==> filePath[|filePath| - |r.value| - 1] == '.')
  {
    SplitLast(filePath, '.');
    var e := Last(Split(filePath, '.'));
    if |e| == |filePath| {
      assert filePath == filePath[|filePath| - |e|..];
    }
  }

  /** There is no extension exactly when the path is empty or ends with a '.'. */
  lemma NoExtension(filePath: string)
    ensures ExtractFileExtension(filePath).None? <==> filePath == "" || filePath[|filePath| - 1] == '.'
  {
    SplitLast(filePath, '.');
    var e := Last(Split(filePath, '.'));
    if e != "" {
      assert filePath[|filePath| - 1] == e[|e| - 1];
    }
  }

  /** Whatever comes before the last '.', the extension is the '.'-free text after it. */
  lemma ExtensionAfterDot(base: string, ext: string)
    requires Free(ext, '.') && ext != ""
    ensures ExtractFileExtension(base + "." + ext) == Some(ext)
  {
    var s := base + "." + ext;
    SplitLast(s, '.');
    var e := Last(Split(s, '.'));
    assert s[|s| - |ext| - 1] == '.';
    assert e == s[|s| - |e|..] == ext;
  }

  /** getMediaType: `mp3` is audio, `mp4` is video, anything else (compared case-sensitively) is neither. */
  function GetMediaType(extension: string): (r: Option<MediaType>)
    ensures r == Some(Audio) <==> extension == "mp3"
    ensures r == Some(Video) <==> extension == "mp4"
    ensures r.None? <==> extension != "mp3" && extension != "mp4"
  {
    var audioFileExtensions := ["mp3"];
    var videoFileExtensions := ["mp4"];
    if extension in audioFileExtensions then Some(Audio)
    else if extension in videoFileExtensions then Some(Video)
    else None
  }

  /** The extension's name as the file system shows it. */
  function ExtensionName(e: MediaFileExtension): string {
    match e
    case Mp3 => "mp3"
    case Mp4 => "mp4"
  }

  /** The narrowing cast of a string to the extension type, for the strings getMediaType accepts. */
  function AsMediaFileExtension(extension: string): (e: MediaFileExtension)
    requires GetMediaType(extension).Some?
    ensures ExtensionName(e) == extension
  {
    if extension == "mp3" then Mp3 else Mp4
  }

  /** Each extension's name classifies back to its own media kind: mp3 is audio and mp4 video. */
  lemma MediaTypeOfExtension(e: MediaFileExtension)
    ensures GetMediaType(ExtensionName(e)) == Some(if e == Mp3 then Audio else Video)
    ensures AsMediaFileExtension(ExtensionName(e)) == e
  {
  }

  /**
   * makeProject: give up (null) when there is no path, no extension, no media
   * kind for it, or no thumbnail; otherwise a fresh project for that media.
   * The source's object literal leaves out `audioExtractFilePath` and
   * `isEdited`; they are read as absent and false.
   */
  function MakeProject(
    projectName: string,
    mediaFilePath: Option<string>,
    id: string,
    schemaVersion: int,
    extractThumbnail: string -> Option<string>): (r: Option<Project>)
    ensures r.Some? <==>
      && mediaFilePath.Some?
      && ExtractFileExtension(mediaFilePath.value).Some?
      && GetMediaType(ExtractFileExtension(mediaFilePath.value).value).Some?
      && extractThumbnail(mediaFilePath.value).Some?
    ensures r.Some? ==>
      && r.value.id == id
      && r.value.name == projectName
      && r.value.schemaVersion == schemaVersion
      && r.value.mediaFilePath == mediaFilePath
      && ExtensionName(r.value.mediaFileExtension) == ExtractFileExtension(mediaFilePath.value).value
      && Some(r.value.mediaType) == GetMediaType(ExtensionName(r.value.mediaFileExtension))
      && r.value.thumbnailFilePath == extractThumbnail(mediaFilePath.value)
      && r.value.transcription.None?
      && r.value.projectFilePath.None?
      && r.value.exportFilePath.None?
  {
    match mediaFilePath
    case None => None
    case Some(path) =>
      match ExtractFileExtension(path)
      case None => None
      case Some(mediaFileExtension) =>
        match GetMediaType(mediaFileExtension)
        case None => None
        case Some(mediaType) =>
          match extractThumbnail(path)
          case None => None
          case Some(thumbnailPath) =>
            Some(Project(
              id := id,
              schemaVersion := schemaVersion,
              name := projectName,
              projectFilePath := None,
              exportFilePath := None,
              audioExtractFilePath := None,
              mediaFilePath := mediaFilePath,
              transcription := None,
              mediaType := mediaType,
              mediaFileExtension := AsMediaFileExtension(mediaFileExtension),
              thumbnailFilePath := Some(thumbnailPath),
              isEdited := false))
  }

  /** A path ending in `.mp3` or `.mp4` whose thumbnail is found makes a project of the matching kind. */
  lemma MakeProjectAccepts(
    projectName: string, base: string, e: MediaFileExtension, id: string, schemaVersion: int,
    extractThumbnail: string -> Option<string>)
    requires extractThumbnail(base + "." + ExtensionName(e)).Some?
    ensures var r := MakeProject(projectName, Some(base + "." + ExtensionName(e)), id, schemaVersion, extractThumbnail);
      && r.Some?
      && r.value.mediaFileExtension == e
      && r.value.mediaType == (if e == Mp3 then Audio else Video)
  {
    ExtensionAfterDot(base, ExtensionName(e));
    MediaTypeOfExtension(e);
  }

  /**
   * A project is only made for a path ending in `.mp3` or `.mp4`, or for a
   * path that is exactly `mp3` or `mp4` (a dotless path is its own extension).
   */
  lemma MakeProjectNeedsExtension(
    projectName: string, path: string, id: string, schemaVersion: int,
    extractThumbnail: string -> Option<string>)
    ensures MakeProject(projectName, Some(path), id, schemaVersion, extractThumbnail).Some? ==>
      || path == "mp3" || path == "mp4" || EndsWith(path, ".mp3") || EndsWith(path, ".mp4")
  {
    ExtensionIsLastPart(path);
    var ext := Last(Split(path, '.'));
    if ext == "mp3" || ext == "mp4" {
      if |ext| < |path| {
        assert path[|path| - 4..] == "." + ext;
      }
    }
  }

  /** The `pad` of formatDate: a one-character field gets one leading '0'. */
  function PadField(val: string): (r: string)
    ensures |val| == 1 ==> r == "0" + val
    ensures |val| != 1 ==> r == val
  {
    if |val| == 1 then "0" + val else val
  }

  /** formatDate: the day, the month counted from 1 and the year modulo 100, each padded, joined by '/'. */
  function FormatDate(date: Date): string {
    var dd := IntToString(date.date);
    var mm := IntToString(date.month + 1);
    var yy := IntToString(RemInt(date.fullYear, 100));
    Join([PadField(dd), PadField(mm), PadField(yy)], "/")
  }

  /** A two-digit field for a number below 100: digits that read back as the number. */
  lemma PadFieldSmall(n: int)
    requires 0 <= n < 100
    ensures var f := PadField(IntToString(n));
      |f| == 2 && IsDigits(f) && ParseDecimal(f) == n
  {
    var s := NatToString(n);
    ParseNatToString(n);
    if n < 10 {
      assert "0" == Repeat('0', 1);
      ParseLeadingZeros(1, s);
    }
  }

  /**
   * For a real calendar date (day 1..31, month index 0..11, a year not before
   * year 0) the label splits on '/' into three two-digit fields that read back
   * as the day, the month counted from 1 and the last two digits of the year.
   */
  lemma FormatDateRoundTrip(date: Date)
    requires 1 <= date.date <= 31 && 0 <= date.month <= 11 && date.fullYear >= 0
    ensures var parts := Split(FormatDate(date), '/');
      && |parts| == 3
      && (forall i :: 0 <= i < 3 ==> |parts[i]| == 2 && IsDigits(parts[i]))
      && ParseDecimal(parts[0]) == date.date
      && ParseDecimal(parts[1]) == date.month + 1
      && ParseDecimal(parts[2]) == date.fullYear % 100
  {
    var fields := [PadField(IntToString(date.date)), PadField(IntToString(date.month + 1)),
                   PadField(IntToString(date.fullYear % 100))];
    PadFieldSmall(date.date);
    PadFieldSmall(date.month + 1);
    PadFieldSmall(date.fullYear % 100);
    forall i | 0 <= i < 3
      ensures Free(fields[i], '/')
    {
      assert IsDigits(fields[i]);
    }
    assert FormatDate(date) == Join(fields, "/");
    SplitJoin(fields, '/');
  }
}
