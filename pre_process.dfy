/**
 * The one-time ingestion of the recogniser's output: rename `start_time`, give
 * every word the full set of attributes, then fold over the words inserting a
 * silence (a word whose text is a single space) before the first word and after
 * every word, so that the spans tile the media from 0 to its total duration.
 * The total duration, a module-level variable in the source, is a parameter.
 */
module PreProcess {
  import opened Strings
  import opened SharedTypes
  import LiveProcess

  const PLACEHOLDER_FILE_NAME := "PLACEHOLDER FILENAME"

  /** The text of a silence. */
  const SPACE := " "

  /** A word with only the fields the recogniser supplies. */
  datatype PartialWord = PartialWord(word: string, startTime: real, duration: real)

  /** camelCase: copy `word` and `duration` and rename `start_time` to `startTime`. */
  function CamelCase(w: SnakeCaseWord): (p: PartialWord)
    ensures p.word == w.word && p.duration == w.duration && p.startTime == w.start_time
  {
    PartialWord(w.word, w.start_time, w.duration)
  }

  /** injectAttributes: a visible word whose output time is its source time and whose key is its index. */
  function InjectAttributes(p: PartialWord, i: nat): (w: Word)
    ensures w.word == p.word && w.startTime == p.startTime && w.duration == p.duration
    ensures w.outputStartTime == w.startTime && !w.deleted
    ensures w.key == NatToString(i) && w.fileName == PLACEHOLDER_FILE_NAME
  {
    Word(p.word, p.startTime, p.duration, p.startTime, false, NatToString(i), PLACEHOLDER_FILE_NAME)
  }

  /** A visible silence over [start, start + duration] of the source. */
  function Silence(start: real, duration: real, key: string): Word {
    Word(SPACE, start, duration, start, false, key, PLACEHOLDER_FILE_NAME)
  }

  function End(w: Word): real {
    w.startTime + w.duration
  }

  /** Where the silence after word i of n ends: at the next word's start, or at the end of the media. */
  function NextStart(words: seq<Word>, index: nat, totalDuration: real): real
    requires index < |words|
  {
    if index < |words| - 1 then words[index + 1].startTime else totalDuration
  }

  /**
   * addSpaces: the reducer step for word `index`. It appends the word, rekeyed
   * 2*index+1, and the silence after it, keyed 2*index+2; before the first word
   * it also appends a silence from 0 to that word's start, keyed 0.
   */
  function AddSpaces(result: seq<Word>, word: Word, index: nat, words: seq<Word>, totalDuration: real): (r: seq<Word>)
    requires index < |words|
    ensures |r| == |result| + (if index == 0 then 3 else 2) && r[..|result|] == result
    ensures index == 0 ==> r[|result|] == Silence(0.0, words[0].startTime, "0")
    ensures r[|r| - 2] == word.(key := NatToString(2 * index + 1))
    ensures r[|r| - 1] == Silence(End(word), NextStart(words, index, totalDuration) - word.startTime - word.duration,
      NatToString(2 * index + 2))
  {
    var preSilence := if index == 0 then [Silence(0.0, words[index].startTime, NatToString(index))] else [];
    var silence := Silence(word.startTime + word.duration,
      NextStart(words, index, totalDuration) - word.startTime - word.duration,
      NatToString(index * 2 + 2));
    result + preSilence + [word.(key := NatToString(index * 2 + 1)), silence]
  }

  /** Recognised word i as emitted: visible, output time equal to source time, key `p`. */
  function Spoken(w: SnakeCaseWord, p: nat): Word {
    Word(w.word, w.start_time, w.duration, w.start_time, false, NatToString(p), PLACEHOLDER_FILE_NAME)
  }

  /** The silence after recognised word i: up to the next word's start, or to the end of the media. */
  function SilenceAfter(raw: seq<SnakeCaseWord>, i: nat, totalDuration: real): Word
    requires i < |raw|
  {
    var next := if i < |raw| - 1 then raw[i + 1].start_time else totalDuration;
    Silence(raw[i].start_time + raw[i].duration, next - raw[i].start_time - raw[i].duration, NatToString(2 * i + 2))
  }

  /** Recognised word i sits at position 2i+1, and its silence at 2i+2. */
  ghost predicate PairAt(raw: seq<SnakeCaseWord>, totalDuration: real, ws: seq<Word>, i: nat)
    requires i < |raw| && 2 * i + 2 < |ws|
  {
    ws[2 * i + 1] == Spoken(raw[i], 2 * i + 1) && ws[2 * i + 2] == SilenceAfter(raw, i, totalDuration)
  }

  /** The layout after the first n recognised words have been folded in. */
  ghost predicate LaidOutUpTo(raw: seq<SnakeCaseWord>, totalDuration: real, ws: seq<Word>, n: nat)
    requires 1 <= n <= |raw|
  {
    && |ws| == 2 * n + 1
    && ws[0] == Silence(0.0, raw[0].start_time, "0")
    && forall i :: 0 <= i < n ==> PairAt(raw, totalDuration, ws, i)
  }

  /** The words after camelCase and injectAttributes, still keyed by their index. */
  function Injected(raw: seq<SnakeCaseWord>): (ws: seq<Word>)
    ensures |ws| == |raw|
    ensures forall i :: 0 <= i < |raw| ==> ws[i] == InjectAttributes(CamelCase(raw[i]), i)
  {
    seq(|raw|, i requires 0 <= i < |raw| => InjectAttributes(CamelCase(raw[i]), i))
  }

  /** One step of the fold extends the layout by one word and its silence. */
  lemma AddSpacesStep(raw: seq<SnakeCaseWord>, totalDuration: real, result: seq<Word>, i: nat)
    requires i < |raw|
    requires if i == 0 then result == [] else LaidOutUpTo(raw, totalDuration, result, i)
    ensures LaidOutUpTo(raw, totalDuration, AddSpaces(result, Injected(raw)[i], i, Injected(raw), totalDuration), i + 1)
  {
    var words := Injected(raw);
    var next := AddSpaces(result, words[i], i, words, totalDuration);
    assert |next| == 2 * i + 3;
    forall k | 0 <= k < i + 1
      ensures PairAt(raw, totalDuration, next, k)
    {
      if k < i {
        assert PairAt(raw, totalDuration, result, k);
        assert next[2 * k + 1] == next[..|result|][2 * k + 1];
        assert next[2 * k + 2] == next[..|result|][2 * k + 2];
      } else {
        assert next[|next| - 2] == next[2 * k + 1];
      }
    }
    if i > 0 {
      assert next[0] == next[..|result|][0];
    }
  }

  /**
   * preProcessTranscript: the confidence passes through; no words give no words;
   * otherwise a leading silence, then each word followed by its silence.
   */
  method PreProcessTranscript(json: JSONTranscription, duration: real) returns (t: Transcription)
    ensures t.confidence == json.confidence
    ensures json.words == [] ==> t.words == []
    ensures json.words != [] ==> LaidOutUpTo(json.words, duration, t.words, |json.words|)
  {
    var raw := json.words;
    var words := Injected(raw);
    var result: seq<Word> := [];
    var i := 0;
    while i < |words|
      invariant 0 <= i <= |words|
      invariant if i == 0 then result == [] else LaidOutUpTo(raw, duration, result, i)
    {
      AddSpacesStep(raw, duration, result, i);
      result := AddSpaces(result, words[i], i, words, duration);
      i := i + 1;
    }
    t := Transcription(json.confidence, result);
  }

  /** Every emitted word is visible, keyed by its position, and starts in the output where it starts in the source. */
  ghost predicate Fresh(ws: seq<Word>) {
    forall p :: 0 <= p < |ws| ==>
      && ws[p].key == NatToString(p)
      && !ws[p].deleted
      && ws[p].outputStartTime == ws[p].startTime
      && ws[p].fileName == PLACEHOLDER_FILE_NAME
  }

  /** The spans tile [0, totalDuration]: each starts where the previous one ends. */
  ghost predicate Tiles(ws: seq<Word>, totalDuration: real) {
    && |ws| > 0
    && ws[0].startTime == 0.0
    && End(ws[|ws| - 1]) == totalDuration
    && forall p :: 0 < p < |ws| ==> ws[p].startTime == End(ws[p - 1])
  }

  /** Position 2i+1 of a complete layout: recognised word i, starting where the silence before it ends. */
  lemma WordAt(raw: seq<SnakeCaseWord>, totalDuration: real, ws: seq<Word>, i: nat)
    requires |raw| >= 1 && LaidOutUpTo(raw, totalDuration, ws, |raw|) && i < |raw|
    ensures ws[2 * i + 1].key == NatToString(2 * i + 1) && !ws[2 * i + 1].deleted
    ensures ws[2 * i + 1].outputStartTime == ws[2 * i + 1].startTime
    ensures ws[2 * i + 1].fileName == PLACEHOLDER_FILE_NAME
    ensures ws[2 * i + 1].startTime == End(ws[2 * i])
  {
    assert PairAt(raw, totalDuration, ws, i);
    if i > 0 {
      assert PairAt(raw, totalDuration, ws, i - 1);
      assert 2 * i == 2 * (i - 1) + 2;
    }
  }

  /** Position 2i+2 of a complete layout: the silence after word i, ending where the next span starts. */
  lemma SilenceAt(raw: seq<SnakeCaseWord>, totalDuration: real, ws: seq<Word>, i: nat)
    requires |raw| >= 1 && LaidOutUpTo(raw, totalDuration, ws, |raw|) && i < |raw|
    ensures ws[2 * i + 2].key == NatToString(2 * i + 2) && !ws[2 * i + 2].deleted
    ensures ws[2 * i + 2].outputStartTime == ws[2 * i + 2].startTime
    ensures ws[2 * i + 2].fileName == PLACEHOLDER_FILE_NAME
    ensures ws[2 * i + 2].startTime == End(ws[2 * i + 1])
    ensures i == |raw| - 1 ==> End(ws[2 * i + 2]) == totalDuration
    ensures i < |raw| - 1 ==> End(ws[2 * i + 2]) == ws[2 * i + 3].startTime
  {
    assert PairAt(raw, totalDuration, ws, i);
    if i < |raw| - 1 {
      assert PairAt(raw, totalDuration, ws, i + 1);
      assert 2 * i + 3 == 2 * (i + 1) + 1;
    }
  }

  /** What position p of a complete layout holds: its key, its flags, and where it starts. */
  lemma AtPosition(raw: seq<SnakeCaseWord>, totalDuration: real, ws: seq<Word>, p: nat)
    requires |raw| >= 1 && LaidOutUpTo(raw, totalDuration, ws, |raw|) && p < |ws|
    ensures ws[p].key == NatToString(p) && !ws[p].deleted && ws[p].outputStartTime == ws[p].startTime
    ensures ws[p].fileName == PLACEHOLDER_FILE_NAME
    ensures 0 < p ==> ws[p].startTime == End(ws[p - 1])
    ensures p == |ws| - 1 ==> End(ws[p]) == totalDuration
  {
    if p % 2 == 1 {
      var i := (p - 1) / 2;
      assert p == 2 * i + 1;
      WordAt(raw, totalDuration, ws, i);
    } else if p > 0 {
      var i := (p - 2) / 2;
      assert p == 2 * i + 2;
      SilenceAt(raw, totalDuration, ws, i);
    } else {
      assert PairAt(raw, totalDuration, ws, 0);
    }
  }

  /** The layout of a preprocessed transcript: fresh, gapless, with unique keys. */
  lemma LaidOutProperties(raw: seq<SnakeCaseWord>, totalDuration: real, ws: seq<Word>)
    requires |raw| >= 1 && LaidOutUpTo(raw, totalDuration, ws, |raw|)
    ensures Fresh(ws)
    ensures Tiles(ws, totalDuration)
    ensures forall p, q :: 0 <= p < q < |ws| ==> ws[p].key != ws[q].key
  {
    forall p | 0 <= p < |ws|
      ensures ws[p].key == NatToString(p) && !ws[p].deleted && ws[p].outputStartTime == ws[p].startTime
      ensures ws[p].fileName == PLACEHOLDER_FILE_NAME
      ensures 0 < p ==> ws[p].startTime == End(ws[p - 1])
    {
      AtPosition(raw, totalDuration, ws, p);
    }
    AtPosition(raw, totalDuration, ws, 0);
    AtPosition(raw, totalDuration, ws, |ws| - 1);
    forall p, q | 0 <= p < q < |ws|
      ensures ws[p].key != ws[q].key
    {
      NatToStringInjective(p, q);
    }
  }

  /** A gapless, fresh transcript is already reflowed: with nothing deleted the reflow changes nothing. */
  lemma FreshTilingIsReflowed(ws: seq<Word>, totalDuration: real)
    requires Fresh(ws) && Tiles(ws, totalDuration)
    ensures LiveProcess.Reflowed(ws) == ws
  {
    forall j | 0 <= j < |ws|
      ensures LiveProcess.VisibleDuration(ws[..j]) == ws[j].startTime
    {
      VisibleDurationOfTiling(ws, totalDuration, j);
    }
    LiveProcess.ReflowFixesConsistent(ws);
  }

  lemma {:induction false} VisibleDurationOfTiling(ws: seq<Word>, totalDuration: real, j: nat)
    requires Fresh(ws) && Tiles(ws, totalDuration) && j < |ws|
    ensures LiveProcess.VisibleDuration(ws[..j]) == ws[j].startTime
  {
    if j > 0 {
      VisibleDurationOfTiling(ws, totalDuration, j - 1);
      assert ws[..j][..j - 1] == ws[..j - 1];
    }
  }

  /** One word "hi" from 2 s lasting 1 s in 5 s of media: silence 0-2, "hi" 2-3, silence 3-5. */
  lemma SingleWordExample(ws: seq<Word>)
    requires LaidOutUpTo([SnakeCaseWord("hi", 1.0, 2.0)], 5.0, ws, 1)
    ensures ws == [
      Word(" ", 0.0, 2.0, 0.0, false, "0", PLACEHOLDER_FILE_NAME),
      Word("hi", 2.0, 1.0, 2.0, false, "1", PLACEHOLDER_FILE_NAME),
      Word(" ", 3.0, 2.0, 3.0, false, "2", PLACEHOLDER_FILE_NAME)]
  {
    assert PairAt([SnakeCaseWord("hi", 1.0, 2.0)], 5.0, ws, 0);
  }
}
