/**
 * The playback clock behind the video preview. The edited video is a list of
 * cuts laid end to end on the output timeline; the clock measures output time
 * from wall-clock readings, tracks which cut is playing, and tells the media
 * player when to play, pause and seek.
 *
 * Wall-clock readings (`performance.now()` in seconds) are a `now` parameter of
 * each operation; the repeating frame timer is a flag; the commands sent to
 * the media player and the notifications sent to the UI are ghost logs.
 * `clamp` and the cut compiler are not part of this model: clamp is a function
 * value with the contract of a clamp, and a loaded cut list is well formed.
 */
module VideoPreviewController {
  import opened Wrappers
  import opened SharedTypes

  /** Seconds skipped by seekForward and seekBack. */
  const SKIP: real := 10.0

  function CutEnd(c: Cut): real {
    c.outputStartTime + c.duration
  }

  /** The closed output interval of c contains t. */
  predicate Contains(c: Cut, t: real) {
    c.outputStartTime <= t && CutEnd(c) >= t
  }

  /** Cut j is the first cut containing t. */
  predicate IsFirstContaining(cuts: seq<Cut>, t: real, j: int) {
    0 <= j < |cuts| && Contains(cuts[j], t) && forall i :: 0 <= i < j ==> !Contains(cuts[i], t)
  }

  /** `cuts.find(...)` started at k: the first index from k on whose cut contains t. */
  function FindFrom(t: real, cuts: seq<Cut>, k: nat): (r: Option<nat>)
    requires k <= |cuts|
    ensures r.Some? ==> k <= r.value < |cuts| && Contains(cuts[r.value], t)
    ensures forall i :: k <= i < |cuts| && (r.None? || i < r.value) ==> !Contains(cuts[i], t)
    decreases |cuts| - k
  {
    if k == |cuts| then None
    else if Contains(cuts[k], t) then Some(k)
    else FindFrom(t, cuts, k + 1)
  }

  /**
   * getCutFromSystemTime: the first cut whose closed interval contains t, or the
   * last cut when none does (nothing when there are no cuts).
   */
  function GetCutFromSystemTime(t: real, cuts: seq<Cut>): (r: Option<Cut>)
    ensures cuts == [] <==> r.None?
  {
    match FindFrom(t, cuts, 0)
    case Some(j) => Some(cuts[j])
    case None => if cuts == [] then None else Some(cuts[|cuts| - 1])
  }

  /** The cut found is the first one containing t, or the last cut when no cut contains t. */
  lemma GetCutFirstOrLast(t: real, cuts: seq<Cut>)
    requires cuts != []
    ensures var c := GetCutFromSystemTime(t, cuts).value;
      || (exists j :: IsFirstContaining(cuts, t, j) && c == cuts[j])
      || ((forall i :: 0 <= i < |cuts| ==> !Contains(cuts[i], t)) && c == cuts[|cuts| - 1])
  {
    var r := FindFrom(t, cuts, 0);
    if r.Some? {
      assert IsFirstContaining(cuts, t, r.value);
    }
  }

  /**
   * What the cut compiler is trusted to deliver: at least one cut, each knowing
   * its own index, none of negative duration, laid end to end from output time 0.
   */
  ghost predicate WellFormedCuts(cuts: seq<Cut>) {
    && |cuts| >= 1
    && cuts[0].outputStartTime == 0.0
    && (forall k :: 0 <= k < |cuts| ==> cuts[k].index == k && cuts[k].duration >= 0.0)
    && (forall k :: 0 < k < |cuts| ==> cuts[k].outputStartTime == CutEnd(cuts[k - 1]))
  }

  /** The length of the edited output: where the last cut ends. */
  function OutputLength(cuts: seq<Cut>): real
    requires |cuts| >= 1
  {
    CutEnd(cuts[|cuts| - 1])
  }

  lemma {:induction false} StartsNonNegative(cuts: seq<Cut>, k: nat)
    requires WellFormedCuts(cuts) && k < |cuts|
    ensures 0.0 <= cuts[k].outputStartTime <= CutEnd(cuts[k])
  {
    if k > 0 {
      StartsNonNegative(cuts, k - 1);
    }
  }

  /** The output of well-formed cuts is never of negative length. */
  lemma OutputLengthNonNegative(cuts: seq<Cut>)
    requires WellFormedCuts(cuts)
    ensures OutputLength(cuts) >= 0.0
  {
    StartsNonNegative(cuts, |cuts| - 1);
  }

  lemma {:induction false} CoveredFrom(cuts: seq<Cut>, t: real, k: nat)
    requires WellFormedCuts(cuts) && k < |cuts|
    requires cuts[k].outputStartTime <= t <= OutputLength(cuts)
    ensures exists j :: k <= j < |cuts| && Contains(cuts[j], t)
    decreases |cuts| - k
  {
    if !Contains(cuts[k], t) {
      CoveredFrom(cuts, t, k + 1);
    }
  }

  /** Every time from 0 to the output length lies in some cut, so the fallback is never taken there. */
  lemma CutsCover(cuts: seq<Cut>, t: real)
    requires WellFormedCuts(cuts) && 0.0 <= t <= OutputLength(cuts)
    ensures FindFrom(t, cuts, 0).Some?
    ensures Contains(GetCutFromSystemTime(t, cuts).value, t)
  {
    CoveredFrom(cuts, t, 0);
  }

  /** A time on the boundary between cut k and cut k+1 resolves to cut k or earlier. */
  lemma BoundaryResolvesEarlier(cuts: seq<Cut>, k: nat)
    requires WellFormedCuts(cuts) && k + 1 < |cuts|
    ensures GetCutFromSystemTime(CutEnd(cuts[k]), cuts).value.index <= k
  {
    var t := CutEnd(cuts[k]);
    assert Contains(cuts[k], t);
  }

  /**
   * For a time within the output, the resolved cut is the cut at its own index,
   * and the source position seeked to lies within that cut's source span.
   */
  lemma SeekTargetInCut(cuts: seq<Cut>, t: real)
    requires WellFormedCuts(cuts) && 0.0 <= t <= OutputLength(cuts)
    ensures var c := GetCutFromSystemTime(t, cuts).value;
      && 0 <= c.index < |cuts| && cuts[c.index] == c
      && c.startTime <= c.startTime + (t - c.outputStartTime) <= c.startTime + c.duration
  {
    CutsCover(cuts, t);
  }

  /** The current cut is one of the loaded cuts, the one at its own index. */
  ghost predicate CutConsistent(cuts: seq<Cut>, current: Option<Cut>) {
    cuts != [] ==> current.Some? && 0 <= current.value.index < |cuts| && cuts[current.value.index] == current.value
  }

  /** Resolving a time within the output gives a consistent current cut (and nothing over no cuts). */
  lemma ResolvedConsistent(cuts: seq<Cut>, t: real)
    requires cuts == [] || (WellFormedCuts(cuts) && 0.0 <= t <= OutputLength(cuts))
    ensures CutConsistent(cuts, GetCutFromSystemTime(t, cuts))
  {
    if cuts != [] {
      SeekTargetInCut(cuts, t);
    }
  }

  /** The contract of the clamp the controller applies to requested times. */
  ghost predicate IsClamp(clamp: (real, real, real) -> real) {
    forall t, lo, hi :: lo <= hi ==>
      && lo <= clamp(t, lo, hi) <= hi
      && (lo <= t <= hi ==> clamp(t, lo, hi) == t)
  }

  lemma ClampBounds(clamp: (real, real, real) -> real, t: real, lo: real, hi: real)
    requires IsClamp(clamp) && lo <= hi
    ensures lo <= clamp(t, lo, hi) <= hi
    ensures lo <= t <= hi ==> clamp(t, lo, hi) == t
  {
  }

  /** Commands sent to the media player. */
  datatype MediaCommand = PlayMedia | PauseMedia | SeekMedia(position: real)

  /** Notifications sent to the UI: `setTime` and `setIsPlaying`. */
  datatype UiEvent = SetTime(time: real) | SetIsPlaying(playing: bool)

  /** The controller's refs: the clock record, the current cut, the cut list and the output length. */
  class PlaybackController {
    var hasRunBefore: bool
    var time: real
    var isRunning: bool
    /** Whether a frame timer is scheduled (`intervalRef` is not null). */
    var intervalActive: bool
    var prevIntervalEndTime: real
    var intervalStartTime: real
    /** Nothing once a lookup has run over an empty cut list. */
    var currentCut: Option<Cut>
    var cuts: seq<Cut>
    var outputVideoLength: real
    const clamp: (real, real, real) -> real

    ghost var commands: seq<MediaCommand>
    ghost var notifications: seq<UiEvent>

    /**
     * The clock's invariant: a timer is scheduled exactly while the clock runs;
     * it runs only after it has first been started and only over loaded cuts;
     * the length is the end of the loaded cuts (0 before any load, when the time
     * stays at 0).
     */
    ghost predicate ClockValid()
      reads this
    {
      && IsClamp(clamp)
      && intervalActive == isRunning
      && (isRunning ==> hasRunBefore)
      && (cuts == [] ==> outputVideoLength == 0.0 && time == 0.0 && !isRunning)
      && (cuts != [] ==> WellFormedCuts(cuts) && outputVideoLength == OutputLength(cuts))
      && outputVideoLength >= 0.0
    }

    /** ClockValid, and the current cut is the loaded cut at its own index. */
    ghost predicate Valid()
      reads this
    {
      && ClockValid()
      && CutConsistent(cuts, currentCut)
    }

    /** The refs' initial values, reading the wall clock once. */
    constructor (now: real, clamp: (real, real, real) -> real)
      requires IsClamp(clamp)
      ensures Valid()
      ensures !hasRunBefore && !isRunning && !intervalActive && time == 0.0
      ensures prevIntervalEndTime == now && intervalStartTime == now
      ensures currentCut == Some(Cut(0.0, 1.0, 0.0, 0))
      ensures cuts == [] && outputVideoLength == 0.0 && this.clamp == clamp
      ensures commands == [] && notifications == []
    {
      hasRunBefore := false;
      isRunning := false;
      intervalActive := false;
      prevIntervalEndTime := now;
      intervalStartTime := now;
      time := 0.0;
      currentCut := Some(Cut(0.0, 1.0, 0.0, 0));
      cuts := [];
      outputVideoLength := 0.0;
      this.clamp := clamp;
      commands := [];
      notifications := [];
    }

    /** stopTimer: cancel the frame timer, stop, and remember when. */
    method StopTimer(now: real)
      requires ClockValid()
      modifies this
      ensures ClockValid()
      ensures !isRunning && !intervalActive && prevIntervalEndTime == now
      ensures hasRunBefore == old(hasRunBefore) && time == old(time) && intervalStartTime == old(intervalStartTime)
      ensures currentCut == old(currentCut) && cuts == old(cuts) && outputVideoLength == old(outputVideoLength)
      ensures commands == old(commands) && notifications == old(notifications)
    {
      intervalActive := false;
      isRunning := false;
      prevIntervalEndTime := now;
    }

    /** pause: pause the media, tell the UI, stop the timer. */
    method Pause(now: real)
      requires ClockValid()
      modifies this
      ensures ClockValid()
      ensures !isRunning && !intervalActive && prevIntervalEndTime == now
      ensures hasRunBefore == old(hasRunBefore) && time == old(time) && intervalStartTime == old(intervalStartTime)
      ensures currentCut == old(currentCut) && cuts == old(cuts) && outputVideoLength == old(outputVideoLength)
      ensures commands == old(commands) + [PauseMedia]
      ensures notifications == old(notifications) + [SetIsPlaying(false)]
    {
      commands := commands + [PauseMedia];
      notifications := notifications + [SetIsPlaying(false)];
      StopTimer(now);
    }

    /**
     * onFrame: while running, the time is the wall clock minus the start of the
     * interval. Once it reaches the end of the current cut the clock moves to the
     * next cut and seeks to its source start, or pauses after the last cut.
     */
    method OnFrame(now: real)
      requires Valid()
      modifies this
      ensures Valid()
      ensures !old(isRunning) ==>
        && time == old(time) && isRunning == old(isRunning) && currentCut == old(currentCut)
        && commands == old(commands) && notifications == old(notifications) && prevIntervalEndTime == old(prevIntervalEndTime)
      ensures old(isRunning) ==> time == now - old(intervalStartTime)
      ensures old(isRunning) && time < CutEnd(old(currentCut).value) ==>
        && isRunning && currentCut == old(currentCut) && commands == old(commands) && notifications == old(notifications) + [SetTime(time)]
      ensures old(isRunning) && time >= CutEnd(old(currentCut).value) && old(currentCut).value.index + 1 >= |cuts| ==>
        && !isRunning && currentCut == old(currentCut) && prevIntervalEndTime == now
        && commands == old(commands) + [PauseMedia] && notifications == old(notifications) + [SetTime(time), SetIsPlaying(false)]
      ensures old(isRunning) && time >= CutEnd(old(currentCut).value) && old(currentCut).value.index + 1 < |cuts| ==>
        && isRunning && currentCut == Some(cuts[old(currentCut).value.index + 1])
        && commands == old(commands) + [SeekMedia(currentCut.value.startTime)] && notifications == old(notifications) + [SetTime(time)]
      ensures isRunning ==> prevIntervalEndTime == old(prevIntervalEndTime)
      ensures hasRunBefore == old(hasRunBefore) && intervalStartTime == old(intervalStartTime)
      ensures cuts == old(cuts) && outputVideoLength == old(outputVideoLength)
    {
      if isRunning {
        time := now - intervalStartTime;
        notifications := notifications + [SetTime(time)];
        var cut := currentCut.value;
        if time >= cut.outputStartTime + cut.duration {
          if cut.index + 1 >= |cuts| {
            Pause(now);
          } else {
            currentCut := Some(cuts[cut.index + 1]);
            commands := commands + [SeekMedia(currentCut.value.startTime)];
          }
        }
      }
    }

    /**
     * startTimer: on the very first start the interval begins now, whatever
     * time was set before. Later, the time since the last recorded stop is
     * added to the interval start; that is the last call of stopTimer, so a
     * second pause makes the time between the pauses count as playback.
     */
    method StartTimer(now: real)
      requires ClockValid() && cuts != []
      modifies this
      ensures ClockValid()
      ensures isRunning && intervalActive && hasRunBefore
      ensures old(hasRunBefore) ==>
        && intervalStartTime == old(intervalStartTime) + (now - old(prevIntervalEndTime))
        && prevIntervalEndTime == old(prevIntervalEndTime)
      ensures !old(hasRunBefore) ==> intervalStartTime == now && prevIntervalEndTime == now
      ensures time == old(time) && currentCut == old(currentCut) && cuts == old(cuts) && outputVideoLength == old(outputVideoLength)
      ensures commands == old(commands) && notifications == old(notifications)
    {
      if !hasRunBefore {
        hasRunBefore := true;
        prevIntervalEndTime := now;
        intervalStartTime := now;
      }
      intervalActive := true;
      intervalStartTime := intervalStartTime + (now - prevIntervalEndTime);
      isRunning := true;
    }

    /** play: when stopped before the end of the output, play the media, start the timer and tell the UI. */
    method Play(now: real)
      requires Valid()
      modifies this
      ensures Valid()
      ensures isRunning <==> old(isRunning) || old(time) < outputVideoLength
      ensures old(isRunning) || old(time) >= outputVideoLength ==>
        hasRunBefore == old(hasRunBefore) && intervalStartTime == old(intervalStartTime)
        && prevIntervalEndTime == old(prevIntervalEndTime) && intervalActive == old(intervalActive)
        && commands == old(commands) && notifications == old(notifications)
      ensures !old(isRunning) && old(time) < outputVideoLength ==>
        commands == old(commands) + [PlayMedia] && notifications == old(notifications) + [SetIsPlaying(true)]
        && hasRunBefore && intervalActive
        && (old(hasRunBefore) ==> intervalStartTime == old(intervalStartTime) + (now - old(prevIntervalEndTime)))
        && (old(hasRunBefore) ==> prevIntervalEndTime == old(prevIntervalEndTime))
        && (!old(hasRunBefore) ==> intervalStartTime == now && prevIntervalEndTime == now)
      ensures time == old(time) && currentCut == old(currentCut) && cuts == old(cuts) && outputVideoLength == old(outputVideoLength)
    {
      if !isRunning {
        if time < outputVideoLength {
          commands := commands + [PlayMedia];
          StartTimer(now);
          notifications := notifications + [SetIsPlaying(true)];
        }
      }
    }

    /**
     * startTimer as intended: the interval starts so that the clock continues
     * from the time it shows, whether it was paused once or several times, and
     * whether or not the time was set before the first start.
     */
    method ResumeTimer(now: real)
      requires ClockValid() && cuts != []
      modifies this
      ensures ClockValid()
      ensures isRunning && intervalActive && hasRunBefore
      ensures intervalStartTime == now - time
      ensures prevIntervalEndTime == old(prevIntervalEndTime)
      ensures time == old(time) && currentCut == old(currentCut) && cuts == old(cuts) && outputVideoLength == old(outputVideoLength)
      ensures commands == old(commands) && notifications == old(notifications)
    {
      hasRunBefore := true;
      intervalActive := true;
      intervalStartTime := now - time;
      isRunning := true;
    }

    /** play over the intended start: a frame at a later reading shows the current time plus the time since. */
    method PlayFromShownTime(now: real)
      requires Valid()
      modifies this
      ensures Valid()
      ensures isRunning <==> old(isRunning) || old(time) < outputVideoLength
      ensures !old(isRunning) && old(time) < outputVideoLength ==>
        && intervalStartTime == now - time
        && commands == old(commands) + [PlayMedia] && notifications == old(notifications) + [SetIsPlaying(true)]
      ensures old(isRunning) || old(time) >= outputVideoLength ==>
        intervalStartTime == old(intervalStartTime) && commands == old(commands) && notifications == old(notifications)
      ensures prevIntervalEndTime == old(prevIntervalEndTime)
      ensures time == old(time) && currentCut == old(currentCut) && cuts == old(cuts) && outputVideoLength == old(outputVideoLength)
    {
      if !isRunning {
        if time < outputVideoLength {
          commands := commands + [PlayMedia];
          ResumeTimer(now);
          notifications := notifications + [SetIsPlaying(true)];
        }
      }
    }

    /**
     * setPlaybackTime: stop if running, clamp the target into the output, move
     * the current cut and the time there, keeping `time + intervalStartTime`.
     * Before the end of the output seek the media into the cut and resume if it
     * was running; at the end pause instead.
     */
    method SetPlaybackTime(now: real, target: real)
      requires ClockValid()
      modifies this
      ensures Valid()
      ensures time == clamp(target, 0.0, outputVideoLength) && 0.0 <= time <= outputVideoLength
      ensures 0.0 <= target <= outputVideoLength ==> time == target
      ensures time + intervalStartTime == old(time + intervalStartTime)
      ensures currentCut == GetCutFromSystemTime(time, cuts)
      ensures isRunning <==> old(isRunning) && time < outputVideoLength
      ensures time < outputVideoLength ==>
        && commands == old(commands) + [SeekMedia(currentCut.value.startTime + (time - currentCut.value.outputStartTime))]
        && notifications == old(notifications) + [SetTime(time)]
      ensures time >= outputVideoLength ==>
        && commands == old(commands) + [PauseMedia]
        && notifications == old(notifications) + [SetTime(time), SetIsPlaying(false)]
      ensures old(isRunning) || time >= outputVideoLength ==> prevIntervalEndTime == now
      ensures !old(isRunning) && time < outputVideoLength ==> prevIntervalEndTime == old(prevIntervalEndTime)
      ensures hasRunBefore == old(hasRunBefore) && cuts == old(cuts) && outputVideoLength == old(outputVideoLength)
    {
      var wasRunning := isRunning;
      if wasRunning {
        StopTimer(now);
      }
      MoveTo(target);
      if time < outputVideoLength {
        var cut := currentCut.value;
        commands := commands + [SeekMedia(cut.startTime + (time - cut.outputStartTime))];
        if wasRunning {
          StartTimer(now);
        }
      } else {
        Pause(now);
      }
    }

    /**
     * The middle of setPlaybackTime: clamp the target into the output, resolve
     * its cut, shift the interval start by the jump and set the time.
     */
    method MoveTo(target: real)
      requires ClockValid()
      modifies this
      ensures ClockValid() && CutConsistent(cuts, currentCut)
      ensures time == clamp(target, 0.0, outputVideoLength) && 0.0 <= time <= outputVideoLength
      ensures 0.0 <= target <= outputVideoLength ==> time == target
      ensures time + intervalStartTime == old(time + intervalStartTime)
      ensures currentCut == GetCutFromSystemTime(time, cuts)
      ensures notifications == old(notifications) + [SetTime(time)]
      ensures hasRunBefore == old(hasRunBefore) && isRunning == old(isRunning) && intervalActive == old(intervalActive)
      ensures prevIntervalEndTime == old(prevIntervalEndTime) && commands == old(commands)
      ensures cuts == old(cuts) && outputVideoLength == old(outputVideoLength)
    {
      var newSystemTime := clamp(target, 0.0, outputVideoLength);
      ClampBounds(clamp, target, 0.0, outputVideoLength);
      ResolvedConsistent(cuts, newSystemTime);
      currentCut := GetCutFromSystemTime(newSystemTime, cuts);
      intervalStartTime := intervalStartTime - (newSystemTime - time);
      time := newSystemTime;
      notifications := notifications + [SetTime(time)];
    }

    /** seekForward: setPlaybackTime ten seconds later. */
    method SeekForward(now: real)
      requires ClockValid()
      modifies this
      ensures Valid()
      ensures time == clamp(old(time) + SKIP, 0.0, outputVideoLength)
      ensures 0.0 <= old(time) + SKIP <= outputVideoLength ==> time == old(time) + SKIP
      ensures time + intervalStartTime == old(time + intervalStartTime)
      ensures currentCut == GetCutFromSystemTime(time, cuts)
      ensures isRunning <==> old(isRunning) && time < outputVideoLength
      ensures time < outputVideoLength ==>
        && commands == old(commands) + [SeekMedia(currentCut.value.startTime + (time - currentCut.value.outputStartTime))]
        && notifications == old(notifications) + [SetTime(time)]
      ensures time >= outputVideoLength ==>
        && commands == old(commands) + [PauseMedia]
        && notifications == old(notifications) + [SetTime(time), SetIsPlaying(false)]
      ensures old(isRunning) || time >= outputVideoLength ==> prevIntervalEndTime == now
      ensures !old(isRunning) && time < outputVideoLength ==> prevIntervalEndTime == old(prevIntervalEndTime)
      ensures hasRunBefore == old(hasRunBefore) && cuts == old(cuts) && outputVideoLength == old(outputVideoLength)
    {
      SetPlaybackTime(now, time + SKIP);
    }

    /** seekBack: setPlaybackTime ten seconds earlier. */
    method SeekBack(now: real)
      requires ClockValid()
      modifies this
      ensures Valid()
      ensures time == clamp(old(time) - SKIP, 0.0, outputVideoLength)
      ensures 0.0 <= old(time) - SKIP <= outputVideoLength ==> time == old(time) - SKIP
      ensures time + intervalStartTime == old(time + intervalStartTime)
      ensures currentCut == GetCutFromSystemTime(time, cuts)
      ensures isRunning <==> old(isRunning) && time < outputVideoLength
      ensures time < outputVideoLength ==>
        && commands == old(commands) + [SeekMedia(currentCut.value.startTime + (time - currentCut.value.outputStartTime))]
        && notifications == old(notifications) + [SetTime(time)]
      ensures time >= outputVideoLength ==>
        && commands == old(commands) + [PauseMedia]
        && notifications == old(notifications) + [SetTime(time), SetIsPlaying(false)]
      ensures old(isRunning) || time >= outputVideoLength ==> prevIntervalEndTime == now
      ensures !old(isRunning) && time < outputVideoLength ==> prevIntervalEndTime == old(prevIntervalEndTime)
      ensures hasRunBefore == old(hasRunBefore) && cuts == old(cuts) && outputVideoLength == old(outputVideoLength)
    {
      SetPlaybackTime(now, time - SKIP);
    }

    /**
     * The effect on a new transcription: load its cuts, make the length the end
     * of the last cut, and re-resolve the current time against them.
     */
    method LoadCuts(now: real, newCuts: seq<Cut>)
      requires ClockValid() && WellFormedCuts(newCuts)
      modifies this
      ensures Valid()
      ensures cuts == newCuts && outputVideoLength == OutputLength(newCuts)
      ensures time == clamp(old(time), 0.0, outputVideoLength)
      ensures 0.0 <= old(time) <= outputVideoLength ==> time == old(time)
      ensures currentCut == GetCutFromSystemTime(time, cuts)
      ensures time + intervalStartTime == old(time + intervalStartTime)
      ensures isRunning <==> old(isRunning) && time < outputVideoLength
      ensures time < outputVideoLength ==>
        && commands == old(commands) + [SeekMedia(currentCut.value.startTime + (time - currentCut.value.outputStartTime))]
        && notifications == old(notifications) + [SetTime(time)]
      ensures time >= outputVideoLength ==>
        && commands == old(commands) + [PauseMedia]
        && notifications == old(notifications) + [SetTime(time), SetIsPlaying(false)]
      ensures old(isRunning) || time >= outputVideoLength ==> prevIntervalEndTime == now
      ensures !old(isRunning) && time < outputVideoLength ==> prevIntervalEndTime == old(prevIntervalEndTime)
      ensures hasRunBefore == old(hasRunBefore)
    {
      cuts := newCuts;
      var lastCut := cuts[|cuts| - 1];
      outputVideoLength := lastCut.outputStartTime + lastCut.duration;
      OutputLengthNonNegative(cuts);
      SetPlaybackTime(now, time);
    }
  }

  /** A clamp to [lo, hi], for the scenarios below. */
  function Clamp(t: real, lo: real, hi: real): real {
    if t < lo then lo else if t > hi then hi else t
  }

  /** One cut of 100 s, played from the start of the media. */
  function OneCut(): seq<Cut> {
    [Cut(0.0, 100.0, 0.0, 0)]
  }

  lemma ScenarioSetup()
    ensures IsClamp(Clamp) && WellFormedCuts(OneCut()) && OutputLength(OneCut()) == 100.0
    ensures forall t :: 0.0 <= t <= 100.0 ==> GetCutFromSystemTime(t, OneCut()) == Some(OneCut()[0])
  {
  }

  /**
   * Paused a second time, the clock counts the time between the two pauses as
   * playback: run to 11 s, pause at 11 s and again at 41 s, play at 50 s, and
   * the next frame reads 41 s.
   */
  method PausedTwiceCountsStoppedTime() returns (reading: real)
    ensures reading == 41.0
  {
    ScenarioSetup();
    var c := new PlaybackController(0.0, Clamp);
    c.LoadCuts(0.0, OneCut());
    c.Play(0.0);
    c.OnFrame(11.0);
    c.Pause(11.0);
    c.Pause(41.0);
    c.Play(50.0);
    c.OnFrame(50.0);
    reading := c.time;
  }

  /** The same steps over the intended start: the next frame reads the 11 s shown at the pause. */
  method PausedTwiceResumesFromPause() returns (reading: real)
    ensures reading == 11.0
  {
    ScenarioSetup();
    var c := new PlaybackController(0.0, Clamp);
    c.LoadCuts(0.0, OneCut());
    c.PlayFromShownTime(0.0);
    c.OnFrame(11.0);
    c.Pause(11.0);
    c.Pause(41.0);
    c.PlayFromShownTime(50.0);
    c.OnFrame(50.0);
    reading := c.time;
  }

  /**
   * A time set before the first play is lost: set 50 s at 1 s, play at 2 s,
   * and the frame at 3 s reads 1 s while the media was seeked to 50 s.
   */
  method SeekBeforeFirstPlayLost() returns (reading: real, ghost seekedTo: real)
    ensures reading == 1.0 && seekedTo == 50.0
  {
    ScenarioSetup();
    var c := new PlaybackController(0.0, Clamp);
    c.LoadCuts(0.0, OneCut());
    c.SetPlaybackTime(1.0, 50.0);
    seekedTo := c.commands[|c.commands| - 1].position;
    c.Play(2.0);
    c.OnFrame(3.0);
    reading := c.time;
  }

  /** The same steps over the intended start: the frame at 3 s reads 51 s. */
  method SeekBeforeFirstPlayKept() returns (reading: real)
    ensures reading == 51.0
  {
    ScenarioSetup();
    var c := new PlaybackController(0.0, Clamp);
    c.LoadCuts(0.0, OneCut());
    c.SetPlaybackTime(1.0, 50.0);
    c.PlayFromShownTime(2.0);
    c.OnFrame(3.0);
    reading := c.time;
  }
}
