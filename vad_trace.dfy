/** Runs of the detector over a whole sequence of frames, one call of
    `checkAudioLevel` per animation frame (static/script.js:140), starting
    from the declared values of its variables (static/script.js:18-20). */
module VadTrace {
  import opened Config
  import opened LevelMeter
  import opened Vad

  /** One frame as the detector sees it: the sum of its bins, the number of
      bins, and the clock reading of the tick. */
  datatype Input = Input(sum: int, bins: nat, now: int)

  predicate Loud(x: Input)
  {
    IsSpeech(x.sum, x.bins)
  }

  /** The state after a run and the recorder calls made along it, in order. */
  datatype Trace = Trace(state: Flags, events: seq<Event>)

  function EventList(e: Option<Event>): seq<Event>
  {
    if e.Some? then [e.value] else []
  }

  function Run(inputs: seq<Input>): Trace
  {
    if inputs == [] then Trace(Initial, [])
    else
      var t := Run(inputs[..|inputs| - 1]);
      var x := inputs[|inputs| - 1];
      var o := Next(t.state, Loud(x), x.now);
      Trace(o.state, t.events + EventList(o.event))
  }

  /** The recorder call made by tick k of a run. */
  function EmittedAt(inputs: seq<Input>, k: nat): Option<Event>
    requires k < |inputs|
  {
    Next(Run(inputs[..k]).state, Loud(inputs[k]), inputs[k].now).event
  }

  /** Start and stop alternate, beginning with start. */
  predicate Alternating(evs: seq<Event>)
  {
    forall i :: 0 <= i < |evs| ==> evs[i] == (if i % 2 == 0 then Start else Stop)
  }

  lemma RunSnoc(inputs: seq<Input>, x: Input)
    ensures Run(inputs + [x]) ==
      var o := Next(Run(inputs).state, Loud(x), x.now);
      Trace(o.state, Run(inputs).events + EventList(o.event))
  {
  }

  /** Along every run the timers stay exclusive, start and stop alternate
      beginning with start (so no second start before a stop and no stop
      without a start), and the detector records exactly when an odd number
      of calls has been made. */
  lemma {:induction false} RunAlternates(inputs: seq<Input>)
    ensures Inv(Run(inputs).state)
    ensures Alternating(Run(inputs).events)
    ensures Run(inputs).state.isRecording <==> |Run(inputs).events| % 2 == 1
  {
    if inputs != [] {
      var p := inputs[..|inputs| - 1];
      var x := inputs[|inputs| - 1];
      RunAlternates(p);
      var t := Run(p);
      NextPreservesInv(t.state, Loud(x), x.now);
      NextEventFlipsRecording(t.state, Loud(x), x.now);
    }
  }

  /** A running speech timer holds the clock reading of a frame from which
      every frame up to now was speech. */
  lemma {:induction false} SpeechTimerHistory(inputs: seq<Input>)
    ensures Run(inputs).state.speechStartTime.Some? ==>
      exists j :: 0 <= j < |inputs| && inputs[j].now == Run(inputs).state.speechStartTime.value &&
        forall i :: j <= i < |inputs| ==> Loud(inputs[i])
  {
    if inputs != [] {
      var p := inputs[..|inputs| - 1];
      var x := inputs[|inputs| - 1];
      var s := Run(p).state;
      SpeechTimerHistory(p);
      RunAlternates(p);
      var u := Run(inputs).state;
      if u.speechStartTime.Some? {
        if Loud(x) && !s.isRecording && !Truthy(s.speechStartTime) {
          var j := |inputs| - 1;
          assert inputs[j].now == u.speechStartTime.value;
        } else {
          assert u.speechStartTime == s.speechStartTime && Loud(x);
          var j :| 0 <= j < |p| && p[j].now == s.speechStartTime.value &&
            forall i :: j <= i < |p| ==> Loud(p[i]);
          assert inputs[j].now == u.speechStartTime.value;
          assert forall i :: j <= i < |inputs| ==> Loud(inputs[i]) by {
            forall i | j <= i < |inputs|
              ensures Loud(inputs[i])
            {
              if i < |p| { assert inputs[i] == p[i]; }
            }
          }
        }
      }
    }
  }

  /** A running silence timer holds the clock reading of a frame from which
      every frame up to now was silence. */
  lemma {:induction false} SilenceTimerHistory(inputs: seq<Input>)
    ensures Run(inputs).state.silenceStartTime.Some? ==>
      exists j :: 0 <= j < |inputs| && inputs[j].now == Run(inputs).state.silenceStartTime.value &&
        forall i :: j <= i < |inputs| ==> !Loud(inputs[i])
  {
    if inputs != [] {
      var p := inputs[..|inputs| - 1];
      var x := inputs[|inputs| - 1];
      var s := Run(p).state;
      SilenceTimerHistory(p);
      RunAlternates(p);
      var u := Run(inputs).state;
      if u.silenceStartTime.Some? {
        if !Loud(x) && s.isRecording && !Truthy(s.silenceStartTime) {
          var j := |inputs| - 1;
          assert inputs[j].now == u.silenceStartTime.value;
        } else {
          assert u.silenceStartTime == s.silenceStartTime && !Loud(x);
          var j :| 0 <= j < |p| && p[j].now == s.silenceStartTime.value &&
            forall i :: j <= i < |p| ==> !Loud(p[i]);
          assert inputs[j].now == u.silenceStartTime.value;
          assert forall i :: j <= i < |inputs| ==> !Loud(inputs[i]) by {
            forall i | j <= i < |inputs|
              ensures !Loud(inputs[i])
            {
              if i < |p| { assert inputs[i] == p[i]; }
            }
          }
        }
      }
    }
  }

  /** No start without a run of speech frames, ending at the starting tick,
      whose first frame is strictly more than MIN_SPEECH_DURATION older. */
  lemma StartNeedsSustainedSpeech(inputs: seq<Input>, k: nat)
    requires k < |inputs|
    requires EmittedAt(inputs, k) == Some(Start)
    ensures exists j :: 0 <= j < k && inputs[k].now - inputs[j].now > MIN_SPEECH_DURATION &&
                        (forall i :: j <= i <= k ==> Loud(inputs[i]))
  {
    var p := inputs[..k];
    SpeechTimerHistory(p);
    StartIff(Run(p).state, Loud(inputs[k]), inputs[k].now);
    var j :| 0 <= j < |p| && p[j].now == Run(p).state.speechStartTime.value &&
      forall i :: j <= i < |p| ==> Loud(p[i]);
    assert forall i :: j <= i <= k ==> Loud(inputs[i]) by {
      forall i | j <= i <= k
        ensures Loud(inputs[i])
      {
        if i < k { assert inputs[i] == p[i]; }
      }
    }
  }

  /** No stop without a run of silence frames while recording, ending at the
      stopping tick, whose first frame is strictly more than
      MIN_SILENCE_DURATION older. */
  lemma StopNeedsSustainedSilence(inputs: seq<Input>, k: nat)
    requires k < |inputs|
    requires EmittedAt(inputs, k) == Some(Stop)
    ensures Run(inputs[..k]).state.isRecording
    ensures exists j :: 0 <= j < k && inputs[k].now - inputs[j].now > MIN_SILENCE_DURATION &&
                        (forall i :: j <= i <= k ==> !Loud(inputs[i]))
  {
    var p := inputs[..k];
    SilenceTimerHistory(p);
    StopIff(Run(p).state, Loud(inputs[k]), inputs[k].now);
    var j :| 0 <= j < |p| && p[j].now == Run(p).state.silenceStartTime.value &&
      forall i :: j <= i < |p| ==> !Loud(p[i]);
    assert forall i :: j <= i <= k ==> !Loud(inputs[i]) by {
      forall i | j <= i <= k
        ensures !Loud(inputs[i])
      {
        if i < k { assert inputs[i] == p[i]; }
      }
    }
  }

  /** A run of silent frames from the start never calls the recorder. */
  lemma {:induction false} QuietRunIsIdle(inputs: seq<Input>)
    requires forall i :: 0 <= i < |inputs| ==> !Loud(inputs[i])
    ensures Run(inputs) == Trace(Initial, [])
  {
    if inputs != [] {
      QuietRunIsIdle(inputs[..|inputs| - 1]);
    }
  }

  /** An analyser frame of BIN_COUNT bins, every bin at `level`, so that its
      mean is `level`. */
  function Level(level: nat, now: int): Input
  {
    Input(level * BIN_COUNT, BIN_COUNT, now)
  }

  /** Speech held from 1000 ms: no start at 1500 ms (exactly
      MIN_SPEECH_DURATION elapsed), one start at 1550 ms. */
  lemma SustainedSpeechStartsOnce()
    ensures Run([Level(40, 1000), Level(40, 1250), Level(40, 1500)]).events == []
    ensures Run([Level(40, 1000), Level(40, 1250), Level(40, 1500), Level(40, 1550)]) ==
      Trace(Flags(true, None, None), [Start])
  {
    var a1 := [Level(40, 1000)];
    var a2 := a1 + [Level(40, 1250)];
    var a3 := a2 + [Level(40, 1500)];
    var a4 := a3 + [Level(40, 1550)];
    RunSnoc([], Level(40, 1000));
    assert [] + a1 == a1;
    RunSnoc(a1, Level(40, 1250));
    RunSnoc(a2, Level(40, 1500));
    RunSnoc(a3, Level(40, 1550));
    assert a3 == [Level(40, 1000), Level(40, 1250), Level(40, 1500)];
    assert a4 == [Level(40, 1000), Level(40, 1250), Level(40, 1500), Level(40, 1550)];
  }

  /** A level equal to the threshold is silence and resets the debounce. */
  lemma BlipResetsDebounce()
    ensures Run([Level(40, 1000), Level(30, 1400), Level(40, 1600)]) ==
      Trace(Flags(false, Some(1600), None), [])
  {
    var a1 := [Level(40, 1000)];
    var a2 := a1 + [Level(30, 1400)];
    var a3 := a2 + [Level(40, 1600)];
    RunSnoc([], Level(40, 1000));
    assert [] + a1 == a1;
    RunSnoc(a1, Level(30, 1400));
    RunSnoc(a2, Level(40, 1600));
    assert a3 == [Level(40, 1000), Level(30, 1400), Level(40, 1600)];
  }

  /** While recording: silence held for exactly MIN_SILENCE_DURATION does not
      stop, one more millisecond does. */
  lemma SustainedSilenceStops()
    ensures var r := Flags(true, None, None);
      var s1 := Next(r, false, 5000);
      var s2 := Next(s1.state, false, 7000);
      var s3 := Next(s2.state, false, 7001);
      && s1.event == None && s2.event == None
      && s3 == Outcome(Flags(false, None, None), Some(Stop))
  {
  }

  /** While recording: a second of silence followed by speech does not stop,
      and returns the detector to plain recording. */
  lemma ShortSilenceKeepsRecording()
    ensures var r := Flags(true, None, None);
      var s1 := Next(r, false, 5000);
      var s2 := Next(s1.state, false, 6000);
      var s3 := Next(s2.state, true, 6050);
      && s1.event == None && s2.event == None
      && s3 == Outcome(r, None)
  {
  }

  /** The animation-frame loop: one `checkAudioLevel` decision per frame
      (static/script.js:140), driving a freshly initialised detector. */
  method Animate(d: Detector, inputs: seq<Input>) returns (evs: seq<Event>)
    requires d.Valid() && d.State() == Initial
    modifies d
    ensures d.Valid() && Trace(d.State(), evs) == Run(inputs)
    ensures Alternating(evs)
  {
    evs := [];
    var i := 0;
    while i < |inputs|
      invariant 0 <= i <= |inputs|
      invariant d.Valid() && Trace(d.State(), evs) == Run(inputs[..i])
    {
      RunSnoc(inputs[..i], inputs[i]);
      assert inputs[..i + 1] == inputs[..i] + [inputs[i]];
      var ev := d.Tick(inputs[i].sum, inputs[i].bins, inputs[i].now);
      evs := evs + EventList(ev);
      i := i + 1;
    }
    assert inputs[..i] == inputs;
    RunAlternates(inputs);
  }
}
