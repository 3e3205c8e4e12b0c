/**
 * The edit decision list (EDL) text built for export: a title header, then one
 * numbered event per recognised word, each naming the word's source interval
 * as a pair of timestamps.
 *
 * export/utils.ts, which supplies this file's `padZeros` and `integerDivide`,
 * is not part of this model: they are the function fields of `EdlHelpers`.
 * The recogniser output arrives untyped. Of the failures the builder's `try`
 * catches, the model covers those that happen before the loop: a missing
 * transcript list, an empty one, or a transcript without words. Words are
 * taken to be well-formed, so no throw happens inside the loop.
 */
module Export {
  import opened Wrappers
  import opened Strings
  import opened SharedTypes
  import TimeUtils

  datatype EdlHelpers = EdlHelpers(padZeros: (int, int) -> string, integerDivide: (real, real) -> int)

  /** One transcript of the untyped export data: its words may be missing. */
  datatype EdlTranscript = EdlTranscript(words: Option<seq<SnakeCaseWord>>)

  /** The untyped export data: its transcript list may be missing. */
  datatype EdlData = EdlData(transcripts: Option<seq<EdlTranscript>>)

  /** `data.transcripts[0].words`, or nothing where reading it throws. */
  function WordsOf(data: EdlData): (r: Option<seq<SnakeCaseWord>>)
    ensures r.Some? <==> data.transcripts.Some? && data.transcripts.value != [] && data.transcripts.value[0].words.Some?
    ensures r.Some? ==> r.value == data.transcripts.value[0].words.value
  {
    match data.transcripts
    case None => None
    case Some(ts) => if ts == [] then None else ts[0].words
  }

  /**
   * What separates the fields of the local timestamp: the template literal
   * spans four source lines, so after each ':' come a line break and the ten
   * spaces of indentation.
   */
  const FIELD_BREAK := ":\n          "

  /** The local secondToTimestamp, as written. */
  function SecondToTimestamp(num: real, u: EdlHelpers): string {
    u.padZeros(u.integerDivide(num, 3600.0), 2) + FIELD_BREAK
    + u.padZeros(u.integerDivide(num, 60.0), 2) + FIELD_BREAK
    + u.padZeros(u.integerDivide(num, 1.0), 2) + FIELD_BREAK
    + u.padZeros(u.integerDivide(num, 0.01), 2)
  }

  /** Whatever the helpers return, the local timestamp contains a line break right after its first field. */
  lemma TimestampSpansLines(num: real, u: EdlHelpers)
    ensures var s := SecondToTimestamp(num, u); var k := |u.padZeros(u.integerDivide(num, 3600.0), 2)|;
      && k + 1 < |s| && s[k] == ':' && s[k + 1] == '\n'
      && !Free(s, '\n')
  {
    var first := u.padZeros(u.integerDivide(num, 3600.0), 2);
    var s := SecondToTimestamp(num, u);
    var rest := s[|first| + |FIELD_BREAK|..];
    assert s == first + FIELD_BREAK + rest;
    assert s[|first| + 1] == FIELD_BREAK[1] == '\n';
  }

  /**
   * The one-line timestamp the event lines need: timeUtils' secondToTimestamp,
   * which joins the same four fields with a bare ':'. It never contains a line break.
   */
  lemma CorrectedTimestampOneLine(num: real)
    ensures Free(TimeUtils.SecondToTimestamp(num), '\n')
    ensures num >= 0.0 ==> |Split(TimeUtils.SecondToTimestamp(num), ':')| == 4
  {
    FieldsOneLine(num);
    JoinFree(TimeUtils.TimestampFields(num), ":", '\n');
    if num >= 0.0 {
      TimeUtils.TimestampRoundTrip(num);
    }
  }

  lemma FieldsOneLine(num: real)
    ensures forall i :: 0 <= i < 4 ==> Free(TimeUtils.TimestampFields(num)[i], '\n')
  {
    var fields := TimeUtils.TimestampFields(num);
    forall i | 0 <= i < 4
      ensures Free(fields[i], '\n')
    {
      var d := IntToString(TimeUtils.IntegerDivide(num, TimeUtils.MULTIPLIERS[i]));
      IntToStringOneLine(TimeUtils.IntegerDivide(num, TimeUtils.MULTIPLIERS[i]));
      PadStartFree(d, 2, '0', '\n');
    }
  }

  lemma IntToStringOneLine(q: int)
    ensures Free(IntToString(q), '\n')
  {
    if q < 0 {
      var d := IntToString(q);
      assert forall j :: 1 <= j < |d| ==> d[j] == NatToString(-q)[j - 1];
    }
  }

  lemma PadStartFree(s: string, len: int, pad: char, c: char)
    requires Free(s, c) && pad != c
    ensures Free(PadStart(s, len, pad), c)
  {
    var r := PadStart(s, len, pad);
    forall j | 0 <= j < |r|
      ensures r[j] != c
    {
      if j >= |r| - |s| {
        assert r[j] == r[|r| - |s|..][j - (|r| - |s|)];
      }
    }
  }

  lemma {:induction false} JoinFree(parts: seq<string>, sep: string, c: char)
    requires Free(sep, c) && forall i :: 0 <= i < |parts| ==> Free(parts[i], c)
    ensures Free(Join(parts, sep), c)
    decreases |parts|
  {
    if |parts| > 1 {
      JoinFree(parts[1..], sep, c);
      var tail := Join(parts[1..], sep);
      var s := parts[0] + sep + tail;
      forall j | 0 <= j < |s|
        ensures s[j] != c
      {
        if j < |parts[0]| {
          assert s[j] == parts[0][j];
        } else if j < |parts[0]| + |sep| {
          assert s[j] == sep[j - |parts[0]|];
        } else {
          assert s[j] == tail[j - |parts[0]| - |sep|];
        }
      }
    }
  }

  function Header(title: string): string {
    "TITLE: " + title + "\nFCM: NON-DROP FRAME\n\n"
  }

  const EVENT_FIELDS := "\tAX\tAA/V\tC"
  const CLIP_TRAILER := "\n* FROM CLIP NAME: sample\n\n"

  /** Event i of n: its number padded to width n, the fixed fields, then the word's start and end. */
  function Entry(i: nat, n: nat, w: SnakeCaseWord, u: EdlHelpers): string {
    u.padZeros(i + 1, n) + EVENT_FIELDS + "\t" + SecondToTimestamp(w.start_time, u)
    + "\t" + SecondToTimestamp(w.start_time + w.duration, u) + CLIP_TRAILER
  }

  /** The event of every word, in order. */
  function Events(ws: seq<SnakeCaseWord>, u: EdlHelpers): (es: seq<string>)
    ensures |es| == |ws|
    ensures forall i :: 0 <= i < |ws| ==> es[i] == Entry(i, |ws|, ws[i], u)
  {
    seq(|ws|, i requires 0 <= i < |ws| => Entry(i, |ws|, ws[i], u))
  }

  /** The first k texts, one after another. */
  function Concat(parts: seq<string>, k: nat): string
    requires k <= |parts|
  {
    if k == 0 then "" else Concat(parts, k - 1) + parts[k - 1]
  }

  /** The whole list: the header, then the events of every word, or the header alone when there are no words to read. */
  function Edl(title: string, data: EdlData, u: EdlHelpers): string {
    Header(title) + match WordsOf(data) case None => "" case Some(ws) => Concat(Events(ws, u), |ws|)
  }

  /** constructEDL: start from the header and append one event per word. */
  method ConstructEDL(title: string, data: EdlData, u: EdlHelpers) returns (output: string)
    ensures output == Edl(title, data, u)
  {
    output := "TITLE: " + title + "\nFCM: NON-DROP FRAME\n\n";
    var found := WordsOf(data);
    if found.Some? {
      output := AppendEvents(output, found.value, u);
    }
  }

  /** The loop of constructEDL: append the event of each word in turn. */
  method AppendEvents(start: string, words: seq<SnakeCaseWord>, u: EdlHelpers) returns (output: string)
    ensures output == start + Concat(Events(words, u), |words|)
  {
    output := start;
    var entries := |words|;
    ghost var events := Events(words, u);
    for i := 0 to entries
      invariant output == start + Concat(events, i)
    {
      var entry := BuildEntry(i, entries, words[i], u);
      ConcatStep(start, events, i, entry);
      output := output + entry;
    }
  }

  /** One loop step of constructEDL: the numbered event line of word i of n. */
  method BuildEntry(i: nat, n: nat, currWord: SnakeCaseWord, u: EdlHelpers) returns (entry: string)
    ensures entry == Entry(i, n, currWord, u)
    ensures entry[..|u.padZeros(i + 1, n)|] == u.padZeros(i + 1, n)
    ensures EndsWith(entry, CLIP_TRAILER)
  {
    var edlEntry := u.padZeros(i + 1, n) + EVENT_FIELDS;
    var editStart := SecondToTimestamp(currWord.start_time, u);
    var editEnd := SecondToTimestamp(currWord.start_time + currWord.duration, u);
    entry := edlEntry + "\t" + editStart + "\t" + editEnd + CLIP_TRAILER;
  }

  lemma ConcatStep(head: string, parts: seq<string>, i: nat, e: string)
    requires i < |parts| && e == parts[i]
    ensures head + Concat(parts, i) + e == head + Concat(parts, i + 1)
  {
  }

  /** The texts of the first j parts are followed by those of parts j..k-1: the list keeps the words' order. */
  lemma {:induction false} ConcatExtend(parts: seq<string>, j: nat, k: nat)
    requires j <= k <= |parts|
    ensures IsPrefix(Concat(parts, j), Concat(parts, k))
    decreases k - j
  {
    if j < k {
      ConcatExtend(parts, j, k - 1);
      PrefixAppend(Concat(parts, j), Concat(parts, k - 1), parts[k - 1]);
    }
  }

  predicate IsPrefix(a: string, b: string) {
    |a| <= |b| && b[..|a|] == a
  }

  lemma PrefixAppend(a: string, b: string, e: string)
    requires IsPrefix(a, b)
    ensures IsPrefix(a, b + e)
  {
    assert (b + e)[..|a|] == b[..|a|];
  }

  /** Every event starts with its number and ends with the clip trailer. */
  lemma EntryShape(ws: seq<SnakeCaseWord>, k: nat, u: EdlHelpers)
    requires 0 < k <= |ws|
    ensures var e := Events(ws, u)[k - 1];
      && e[..|u.padZeros(k, |ws|)|] == u.padZeros(k, |ws|)
      && EndsWith(e, CLIP_TRAILER)
  {
    var e := Entry(k - 1, |ws|, ws[k - 1], u);
    var n := u.padZeros(k, |ws|);
    var middle := EVENT_FIELDS + "\t" + SecondToTimestamp(ws[k - 1].start_time, u)
      + "\t" + SecondToTimestamp(ws[k - 1].start_time + ws[k - 1].duration, u);
    assert e == n + middle + CLIP_TRAILER;
  }

  /**
   * With timeUtils' padZeros, event i of n is numbered i+1 in exactly n digits:
   * the numbers have a uniform width and read back in order.
   */
  lemma EntryNumberWidth(i: nat, n: nat)
    requires i < n
    ensures |TimeUtils.PadZeros(i + 1, n)| == n
    ensures IsDigits(TimeUtils.PadZeros(i + 1, n)) && ParseDecimal(TimeUtils.PadZeros(i + 1, n)) == i + 1
  {
    TimeUtils.PadZerosRoundTrip(i + 1, n);
    NatToStringShort(i + 1);
  }
}
