/**
 * The output-time reflow that runs after every edit of the transcript: one
 * in-order pass over the words that rewrites each word's `outputStartTime` in
 * place. A deleted word keeps its stale value; a visible word starts where its
 * nearest visible predecessor ends (or at 0), found by scanning backwards over
 * words the same pass has already rewritten.
 *
 * The specification is `Reflowed`: every visible word starts at the total
 * duration of the visible words before it.
 */
module LiveProcess {
  import opened SharedTypes

  /** Total duration of the words of ws that are not deleted. */
  function VisibleDuration(ws: seq<Word>): real
    decreases |ws|
  {
    if ws == [] then 0.0
    else VisibleDuration(ws[..|ws| - 1]) + (if ws[|ws| - 1].deleted then 0.0 else ws[|ws| - 1].duration)
  }

  /** The transcript after a reflow: only visible words move, to the end of the visible words before them. */
  function Reflowed(ws: seq<Word>): (r: seq<Word>)
    ensures |r| == |ws|
    ensures forall i :: 0 <= i < |ws| ==> r[i] == ws[i].(outputStartTime := r[i].outputStartTime)
  {
    seq(|ws|, i requires 0 <= i < |ws| =>
      if ws[i].deleted then ws[i] else ws[i].(outputStartTime := VisibleDuration(ws[..i])))
  }

  /** The reflow invariant on the first n words: each visible one starts where the visible words before it end. */
  ghost predicate StartsAfterVisible(ws: seq<Word>, n: nat)
    requires n <= |ws|
  {
    forall j :: 0 <= j < n && !ws[j].deleted ==> ws[j].outputStartTime == VisibleDuration(ws[..j])
  }

  /** a and b agree on every field the reflow reads: the deleted flags and the durations. */
  ghost predicate SameShape(a: seq<Word>, b: seq<Word>) {
    |a| == |b| && forall i :: 0 <= i < |a| ==> a[i].deleted == b[i].deleted && a[i].duration == b[i].duration
  }

  lemma {:induction false} VisibleDurationSameShape(a: seq<Word>, b: seq<Word>)
    requires SameShape(a, b)
    ensures VisibleDuration(a) == VisibleDuration(b)
    decreases |a|
  {
    if a != [] {
      VisibleDurationSameShape(a[..|a| - 1], b[..|b| - 1]);
    }
  }

  /** Prefixes of equally shaped sequences have the same visible duration. */
  lemma PrefixesSameShape(a: seq<Word>, b: seq<Word>)
    requires SameShape(a, b)
    ensures forall j :: 0 <= j <= |a| ==> VisibleDuration(a[..j]) == VisibleDuration(b[..j])
  {
    forall j | 0 <= j <= |a|
      ensures VisibleDuration(a[..j]) == VisibleDuration(b[..j])
    {
      VisibleDurationSameShape(a[..j], b[..j]);
    }
  }

  /** Deleted words between j and i add nothing to the visible duration. */
  lemma {:induction false} SkipDeleted(ws: seq<Word>, j: nat, i: nat)
    requires j <= i <= |ws|
    requires forall k :: j <= k < i ==> ws[k].deleted
    ensures VisibleDuration(ws[..i]) == VisibleDuration(ws[..j])
    decreases i - j
  {
    if j < i {
      SkipDeleted(ws, j, i - 1);
      assert ws[..i][..i - 1] == ws[..i - 1];
    }
  }

  /**
   * calculateTime: the new `outputStartTime` of word i, given that the words
   * before it have been rewritten already.
   */
  method CalculateTime(words: array<Word>, i: nat) returns (t: real)
    requires i < words.Length
    requires StartsAfterVisible(words[..], i)
    ensures t == if words[i].deleted then words[i].outputStartTime else VisibleDuration(words[..i])
  {
    if words[i].deleted {
      return words[i].outputStartTime;
    }
    if i == 0 {
      return 0.0;
    }
    var nextNotDeleted := i - 1;
    while nextNotDeleted > -1 && words[nextNotDeleted].deleted
      invariant -1 <= nextNotDeleted < i
      invariant forall k :: nextNotDeleted < k < i ==> words[k].deleted
    {
      nextNotDeleted := nextNotDeleted - 1;
    }
    SkipDeleted(words[..], nextNotDeleted + 1, i);
    if nextNotDeleted == -1 {
      return 0.0;
    }
    assert words[..][..nextNotDeleted + 1][..nextNotDeleted] == words[..][..nextNotDeleted];
    t := words[nextNotDeleted].outputStartTime + words[nextNotDeleted].duration;
  }

  /** processWord: rewrite word i's `outputStartTime` in place. */
  method ProcessWord(words: array<Word>, i: nat)
    requires i < words.Length
    requires StartsAfterVisible(words[..], i)
    modifies words
    ensures words[..] == old(words[..])[i := old(words[i]).(outputStartTime :=
      if old(words[i]).deleted then old(words[i]).outputStartTime else VisibleDuration(old(words[..i])))]
  {
    var t := CalculateTime(words, i);
    words[i] := words[i].(outputStartTime := t);
  }

  /**
   * liveProcessTranscript: reflow every word in order, in place, and return a
   * transcript with the same confidence over the rewritten words.
   */
  method LiveProcessTranscript(confidence: real, words: array<Word>) returns (r: Transcription)
    modifies words
    ensures words[..] == Reflowed(old(words[..]))
    ensures r == Transcription(confidence, words[..])
  {
    ghost var original := words[..];
    var i := 0;
    while i < words.Length
      invariant 0 <= i <= words.Length
      invariant forall k :: 0 <= k < i ==> words[k] == Reflowed(original)[k]
      invariant forall k :: i <= k < words.Length ==> words[k] == original[k]
    {
      assert SameShape(words[..], original);
      PrefixesSameShape(words[..], original);
      assert StartsAfterVisible(words[..], i);
      ProcessWord(words, i);
      i := i + 1;
    }
    assert words[..] == Reflowed(original);
    r := Transcription(confidence, words[..]);
  }

  /** After a reflow every visible word starts where the visible words before it end. */
  lemma ReflowedStartsAfterVisible(ws: seq<Word>)
    ensures StartsAfterVisible(Reflowed(ws), |ws|)
  {
    var r := Reflowed(ws);
    assert SameShape(r, ws);
    PrefixesSameShape(r, ws);
  }

  /** A transcript that already satisfies the invariant is left as it is. */
  lemma ReflowFixesConsistent(ws: seq<Word>)
    requires StartsAfterVisible(ws, |ws|)
    ensures Reflowed(ws) == ws
  {
  }

  /** Reflowing twice gives the same transcript as reflowing once. */
  lemma ReflowIdempotent(ws: seq<Word>)
    ensures Reflowed(Reflowed(ws)) == Reflowed(ws)
  {
    ReflowedStartsAfterVisible(ws);
    ReflowFixesConsistent(Reflowed(ws));
  }

  lemma {:induction false} VisibleDurationAppend(a: seq<Word>, b: seq<Word>)
    ensures VisibleDuration(a + b) == VisibleDuration(a) + VisibleDuration(b)
    decreases |b|
  {
    if b == [] {
      assert a + b == a;
    } else {
      assert (a + b)[..|a + b| - 1] == a + b[..|b| - 1];
      VisibleDurationAppend(a, b[..|b| - 1]);
    }
  }

  /** Flip the deleted flag of word k (a delete or its undo). */
  function SetDeleted(ws: seq<Word>, k: nat, deleted: bool): (r: seq<Word>)
    requires k < |ws|
    ensures |r| == |ws| && r[k].deleted == deleted
    ensures forall i :: 0 <= i < |ws| && i != k ==> r[i] == ws[i]
  {
    ws[k := ws[k].(deleted := deleted)]
  }

  /**
   * Deleting a visible word and reflowing shortens the output by exactly that
   * word's duration and leaves every word before it where it was.
   */
  lemma DeleteShortensOutput(ws: seq<Word>, k: nat)
    requires k < |ws| && !ws[k].deleted
    ensures VisibleDuration(SetDeleted(ws, k, true)) == VisibleDuration(ws) - ws[k].duration
    ensures forall i :: 0 <= i < k ==> Reflowed(SetDeleted(ws, k, true))[i] == Reflowed(ws)[i]
  {
    DeleteDuration(ws, k);
    var d := SetDeleted(ws, k, true);
    forall i | 0 <= i < k
      ensures Reflowed(d)[i] == Reflowed(ws)[i]
    {
      assert d[..i] == ws[..i];
    }
  }

  lemma DeleteDuration(ws: seq<Word>, k: nat)
    requires k < |ws| && !ws[k].deleted
    ensures VisibleDuration(SetDeleted(ws, k, true)) == VisibleDuration(ws) - ws[k].duration
  {
    var d := SetDeleted(ws, k, true);
    var before, after := ws[..k], ws[k + 1..];
    assert ws == (before + [ws[k]]) + after;
    assert d == (before + [d[k]]) + after;
    VisibleDurationAppend(before + [ws[k]], after);
    VisibleDurationAppend(before + [d[k]], after);
    VisibleDurationAppend(before, [ws[k]]);
    VisibleDurationAppend(before, [d[k]]);
    SingleDuration(ws[k]);
    SingleDuration(d[k]);
  }

  lemma SingleDuration(w: Word)
    ensures VisibleDuration([w]) == if w.deleted then 0.0 else w.duration
  {
    assert [w][..0] == [];
  }

  /** Undoing a delete restores every output start time the transcript had before it. */
  lemma UndoRestoresOutput(ws: seq<Word>, k: nat)
    requires k < |ws| && !ws[k].deleted
    ensures Reflowed(SetDeleted(Reflowed(SetDeleted(ws, k, true)), k, false)) == Reflowed(ws)
  {
    var a := SetDeleted(Reflowed(SetDeleted(ws, k, true)), k, false);
    assert SameShape(a, ws);
    PrefixesSameShape(a, ws);
  }
}
