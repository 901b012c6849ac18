/** The voice-activity detector of static/script.js: the module-level flag
    `isRecording` and the nullable timestamps `speechStartTime` and
    `silenceStartTime`, updated once per animation frame by
    `checkAudioLevel`. */
module Vad {
  import opened Config
  import opened LevelMeter

  datatype Option<T> = None | Some(value: T)

  /** What a tick asks of the media recorder: `start()` or `stop()`. */
  datatype Event = Start | Stop

  /** The detector's three variables, as the source stores them
      (static/script.js:18-20); `None` is `null`. */
  datatype Flags = Flags(isRecording: bool, speechStartTime: Option<int>, silenceStartTime: Option<int>)

  /** The values the variables are declared with. */
  const Initial := Flags(false, None, None)

  /** JavaScript truthiness of a nullable timestamp: `null` and `0` are both
      falsy, so a timer started at time 0 reads as absent. */
  predicate Truthy(t: Option<int>)
  {
    t.Some? && t.value != 0
  }

  /** The state after a tick and the recorder call it makes. */
  datatype Outcome = Outcome(state: Flags, event: Option<Event>)

  /** One tick of `checkAudioLevel` after the level has been measured
      (static/script.js:107-138): `speech` is `average > START_THRESHOLD`,
      `now` is `Date.now()`. */
  function Next(s: Flags, speech: bool, now: int): Outcome
  {
    if speech then
      if !s.isRecording then
        if !Truthy(s.speechStartTime) then
          Outcome(s.(speechStartTime := Some(now)), None)
        else if now - s.speechStartTime.value > MIN_SPEECH_DURATION then
          Outcome(Flags(true, None, None), Some(Start))
        else
          Outcome(s, None)
      else
        Outcome(s.(silenceStartTime := None), None)
    else
      if s.isRecording then
        if !Truthy(s.silenceStartTime) then
          Outcome(s.(silenceStartTime := Some(now)), None)
        else if now - s.silenceStartTime.value > MIN_SILENCE_DURATION then
          Outcome(s.(isRecording := false, silenceStartTime := None), Some(Stop))
        else
          Outcome(s, None)
      else
        Outcome(s.(speechStartTime := None), None)
  }

  /** The timers are mutually exclusive: while recording no speech timer runs,
      and while idle no silence timer runs. */
  predicate Inv(s: Flags)
  {
    (s.isRecording ==> s.speechStartTime == None) &&
    (!s.isRecording ==> s.silenceStartTime == None)
  }

  lemma InitialInv()
    ensures Inv(Initial)
    ensures !Initial.isRecording && !Truthy(Initial.speechStartTime) && !Truthy(Initial.silenceStartTime)
  {
  }

  /** Every tick keeps the timers exclusive, so at most one is ever set. */
  lemma NextPreservesInv(s: Flags, speech: bool, now: int)
    requires Inv(s)
    ensures Inv(Next(s, speech, now).state)
    ensures Next(s, speech, now).state.speechStartTime == None || Next(s, speech, now).state.silenceStartTime == None
  {
  }

  /** A tick flips `isRecording` exactly when it calls the recorder, and the
      call matches the direction: start only from idle, stop only while
      recording. */
  lemma NextEventFlipsRecording(s: Flags, speech: bool, now: int)
    ensures var o := Next(s, speech, now);
      && (o.event == Some(Start) <==> !s.isRecording && o.state.isRecording)
      && (o.event == Some(Stop) <==> s.isRecording && !o.state.isRecording)
      && (o.event == None <==> o.state.isRecording == s.isRecording)
  {
  }

  /** Idle with a speech level and no running speech timer: the tick only
      starts the speech timer (static/script.js:107-110). */
  lemma SpeechStartsTimer(s: Flags, now: int)
    requires !s.isRecording && !Truthy(s.speechStartTime)
    ensures Next(s, true, now) == Outcome(s.(speechStartTime := Some(now)), None)
    ensures Next(s, true, now).state.silenceStartTime == s.silenceStartTime
  {
  }

  /** Recording starts exactly when the detector is idle, the level is speech,
      the speech timer is set, and strictly more than MIN_SPEECH_DURATION has
      passed; afterwards it records with both timers cleared
      (static/script.js:111-117). */
  lemma StartIff(s: Flags, speech: bool, now: int)
    ensures Next(s, speech, now).event == Some(Start) <==>
      !s.isRecording && speech && Truthy(s.speechStartTime) &&
      now - s.speechStartTime.value > MIN_SPEECH_DURATION
    ensures Next(s, speech, now).event == Some(Start) ==>
      Next(s, speech, now).state == Flags(true, None, None)
  {
  }

  /** Idle with a silence level: the speech timer is cleared and nothing else
      changes, so a short blip resets debounce progress; a second blip does
      the same as one (static/script.js:134-137). */
  lemma SilenceWhileIdleResets(s: Flags, now: int, later: int)
    requires !s.isRecording
    ensures Next(s, false, now) == Outcome(s.(speechStartTime := None), None)
    ensures Next(Next(s, false, now).state, false, later) == Next(s, false, now)
  {
  }

  /** Recording with a speech level: the silence timer is cleared, recording
      continues, and the recorder is not called (static/script.js:119-122). */
  lemma SpeechWhileRecordingClearsSilence(s: Flags, now: int)
    requires s.isRecording
    ensures Next(s, true, now) == Outcome(s.(silenceStartTime := None), None)
    ensures Next(s, true, now).state.isRecording
  {
  }

  /** Recording with a silence level and no running silence timer: the tick
      only starts the silence timer (static/script.js:124-126). */
  lemma SilenceStartsTimer(s: Flags, now: int)
    requires s.isRecording && !Truthy(s.silenceStartTime)
    ensures Next(s, false, now) == Outcome(s.(silenceStartTime := Some(now)), None)
  {
  }

  /** Recording stops exactly when the detector records, the level is silence,
      the silence timer is set, and strictly more than MIN_SILENCE_DURATION
      has passed; afterwards it is idle with no silence timer
      (static/script.js:127-133). */
  lemma StopIff(s: Flags, speech: bool, now: int)
    ensures Next(s, speech, now).event == Some(Stop) <==>
      s.isRecording && !speech && Truthy(s.silenceStartTime) &&
      now - s.silenceStartTime.value > MIN_SILENCE_DURATION
    ensures Next(s, speech, now).event == Some(Stop) ==>
      var t := Next(s, speech, now).state;
      !t.isRecording && t.silenceStartTime == None && t.speechStartTime == s.speechStartTime
  {
  }

  /** STOP_THRESHOLD is never read: while recording, a level whose mean lies
      between STOP_THRESHOLD and START_THRESHOLD (here 28) already counts as
      silence and starts the silence timer. */
  lemma StopThresholdUnused(s: Flags, now: int)
    requires s.isRecording && !Truthy(s.silenceStartTime)
    ensures STOP_THRESHOLD < 28 <= START_THRESHOLD
    ensures !IsSpeech(28 * BIN_COUNT, BIN_COUNT)
    ensures Next(s, IsSpeech(28 * BIN_COUNT, BIN_COUNT), now).state.silenceStartTime == Some(now)
  {
  }

  /** An explicit four-state machine (idle, pending speech, recording,
      pending silence) whose pending states carry the clock reading at which
      their run began; `PhaseOf` reads it off the flag and the timestamps. */
  datatype Phase = Idle | PendingSpeech(since: int) | Recording | PendingSilence(since: int)

  function Transition(p: Phase, speech: bool, now: int): (Phase, Option<Event>)
  {
    match p
    case Idle =>
      if speech then (PendingSpeech(now), None) else (Idle, None)
    case PendingSpeech(t) =>
      if !speech then (Idle, None)
      else if now - t > MIN_SPEECH_DURATION then (Recording, Some(Start))
      else (p, None)
    case Recording =>
      if speech then (Recording, None) else (PendingSilence(now), None)
    case PendingSilence(t) =>
      if speech then (Recording, None)
      else if now - t > MIN_SILENCE_DURATION then (Idle, Some(Stop))
      else (p, None)
  }

  /** The phase the source's flag and timestamps encode. */
  function PhaseOf(s: Flags): Phase
  {
    if !s.isRecording then
      if Truthy(s.speechStartTime) then PendingSpeech(s.speechStartTime.value) else Idle
    else
      if Truthy(s.silenceStartTime) then PendingSilence(s.silenceStartTime.value) else Recording
  }

  /** The source's two-flag encoding implements the four-state machine, for
      every reachable state and every non-zero clock reading (a timer started
      at 0 would read as absent). */
  lemma NextRefinesTransition(s: Flags, speech: bool, now: int)
    requires Inv(s) && now != 0
    ensures (PhaseOf(Next(s, speech, now).state), Next(s, speech, now).event) == Transition(PhaseOf(s), speech, now)
  {
  }

  /** The detector's state, owned by one object instead of module scope. */
  class Detector {
    var isRecording: bool
    var speechStartTime: Option<int>
    var silenceStartTime: Option<int>

    function State(): Flags
      reads this
    {
      Flags(isRecording, speechStartTime, silenceStartTime)
    }

    ghost predicate Valid()
      reads this
    {
      Inv(State())
    }

    constructor ()
      ensures Valid() && State() == Initial
    {
      isRecording := false;
      speechStartTime := None;
      silenceStartTime := None;
    }

    /** The decision part of `checkAudioLevel` for a frame whose samples sum
        to `sum` over `n` bins, at clock reading `now`
        (static/script.js:103-138). */
    method Tick(sum: int, n: nat, now: int) returns (ev: Option<Event>)
      requires Valid()
      modifies this
      ensures Valid()
      ensures Outcome(State(), ev) == Next(old(State()), IsSpeech(sum, n), now)
    {
      NextPreservesInv(State(), IsSpeech(sum, n), now);
      ev := None;
      if sum > START_THRESHOLD * n {
        if !isRecording {
          if !Truthy(speechStartTime) {
            speechStartTime := Some(now);
          } else if now - speechStartTime.value > MIN_SPEECH_DURATION {
            ev := Some(Start);
            isRecording := true;
            speechStartTime := None;
            silenceStartTime := None;
          }
        } else {
          silenceStartTime := None;
        }
      } else {
        if isRecording {
          if !Truthy(silenceStartTime) {
            silenceStartTime := Some(now);
          } else if now - silenceStartTime.value > MIN_SILENCE_DURATION {
            ev := Some(Stop);
            isRecording := false;
            silenceStartTime := None;
          }
        } else {
          speechStartTime := None;
        }
      }
    }

    /** One whole `checkAudioLevel` call on the analyser's frame
        (static/script.js:95-138). */
    method CheckAudioLevel(frame: array<Byte>, now: int) returns (ev: Option<Event>)
      requires Valid()
      modifies this
      ensures Valid()
      ensures Outcome(State(), ev) == Next(old(State()), IsSpeech(Sum(frame[..]), frame.Length), now)
    {
      var sum := FrameSum(frame);
      ev := Tick(sum, frame.Length, now);
    }
  }
}
