/** process_video and remove_audio_from_video: the external calls each one
    makes, in order, and how an exception raised by any of them ends the
    item with a False result. The libraries (moviepy, Spleeter, the file
    system) are not modelled; an oracle says which calls raise. */
module Pipeline {
  import opened PathOps
  import opened Naming

  datatype Option<T> = None | Some(value: T)

  /** One call into a media library or the file system, with the arguments
      app.py passes to it. */
  datatype Effect =
    | OpenVideo(source: string)                               // VideoFileClip(path)
    | WriteAudio(target: string, audioCodec: string, sampleRate: nat)  // video.audio.write_audiofile
    | MakeDirs(dir: string)                                   // os.makedirs(dir, exist_ok=True)
    | SetGpuMemoryLimit(limit: nat)                           // separator.set_gpu_memory_limit
    | SetForwardDevice(device: string)                        // separator.set_forward_device
    | SeparateToFile(audio: string, destination: string)      // separator.separate_to_file
    | WriteVideo(target: string, videoCodec: string)          // video.without_audio().write_videofile
    | Rename(source: string, target: string)                  // os.rename
    | SaveUpload(target: string)                              // writing an uploaded file to disk

  /** Which calls raise an exception. The same call always behaves the same. */
  type Oracle = Effect -> bool

  const AudioCodec: string := "pcm_s16le"
  const SampleRate: nat := 16000
  /** The argument process_video passes to set_gpu_memory_limit. */
  const GpuMemoryLimit: nat := 8

  /** What running a sequence of calls under one try/except gives: whether
      the end was reached, and the calls that were attempted. */
  datatype Outcome = Outcome(ok: bool, attempted: seq<Effect>)

  /** Reference semantics of a try block: the calls run in order and the
      first one that raises ends the block with False. */
  function Run(plan: seq<Effect>, raises: Oracle): Outcome
  {
    if plan == [] then Outcome(true, [])
    else if raises(plan[0]) then Outcome(false, [plan[0]])
    else
      var rest := Run(plan[1..], raises);
      Outcome(rest.ok, [plan[0]] + rest.attempted)
  }

  /** No call of the plan raises. */
  predicate Succeeds(plan: seq<Effect>, raises: Oracle)
  {
    forall i :: 0 <= i < |plan| ==> !raises(plan[i])
  }

  /** The try block reaches its end exactly when no call raises; it attempts
      a prefix of the plan in which only the last call may raise, and when
      it fails that last call is the first one of the plan that raises. */
  lemma {:induction false} RunStopsAtFirstRaise(plan: seq<Effect>, raises: Oracle)
    ensures var r := Run(plan, raises);
      && (r.ok <==> Succeeds(plan, raises))
      && |r.attempted| <= |plan| && r.attempted == plan[..|r.attempted|]
      && (forall i :: 0 <= i < |r.attempted| - 1 ==> !raises(r.attempted[i]))
      && (r.ok ==> r.attempted == plan)
      && (!r.ok ==> r.attempted != [] && raises(r.attempted[|r.attempted| - 1]))
  {
    if plan != [] && !raises(plan[0]) {
      var tail := plan[1..];
      RunStopsAtFirstRaise(tail, raises);
      var r := Run(tail, raises);
      assert Succeeds(plan, raises) <==> Succeeds(tail, raises) by {
        if Succeeds(tail, raises) {
          forall i | 0 <= i < |plan| ensures !raises(plan[i]) {
            if i > 0 { assert plan[i] == tail[i - 1]; }
          }
        }
        if Succeeds(plan, raises) {
          forall i | 0 <= i < |tail| ensures !raises(tail[i]) {
            assert tail[i] == plan[i + 1];
          }
        }
      }
      assert [plan[0]] + r.attempted == plan[..|r.attempted| + 1];
    } else if plan != [] {
      assert !Succeeds(plan, raises) by {
        assert raises(plan[0]);
      }
    }
  }

  /** Running two plans one after the other is running their concatenation:
      the second starts only when the first finished without raising. */
  lemma {:induction false} RunAppend(first: seq<Effect>, second: seq<Effect>, raises: Oracle)
    ensures Run(first + second, raises)
         == if Run(first, raises).ok
            then Outcome(Run(second, raises).ok, first + Run(second, raises).attempted)
            else Run(first, raises)
  {
    if first == [] {
      assert first + second == second;
    } else {
      assert (first + second)[0] == first[0];
      assert (first + second)[1..] == first[1..] + second;
      RunAppend(first[1..], second, raises);
      if !raises(first[0]) && Run(first[1..], raises).ok {
        RunStopsAtFirstRaise(first[1..], raises);
        assert [first[0]] + (first[1..] + Run(second, raises).attempted)
            == first + Run(second, raises).attempted;
      }
    }
  }

  /** The calls of remove_audio_from_video. */
  function SilentPlan(videoPath: string, outputFormat: string): seq<Effect>
  {
    [OpenVideo(videoPath), WriteVideo(NoAudioPath(videoPath, outputFormat), Codec(outputFormat))]
  }

  /** The calls of process_video's first stage: open the clip and write its
      audio track as 16 kHz PCM. */
  function ExtractPlan(videoPath: string, audioPath: string): seq<Effect>
  {
    [OpenVideo(videoPath), WriteAudio(audioPath, AudioCodec, SampleRate)]
  }

  /** How process_video sets up the separator. */
  function DevicePlan(useGpu: bool): seq<Effect>
  {
    if useGpu then [SetGpuMemoryLimit(GpuMemoryLimit), SetForwardDevice("gpu")]
    else [SetForwardDevice("cpu")]
  }

  /** The calls of process_video's second stage: create the output
      directory, choose the device and separate the audio into it. */
  function SeparatePlan(audioPath: string, outputDir: string, useGpu: bool): seq<Effect>
  {
    [MakeDirs(outputDir)] + (DevicePlan(useGpu) + [SeparateToFile(audioPath, outputDir)])
  }

  /** The calls of process_video's try block, in order: the two stages,
      remove_audio_from_video with its default format, and the move of the
      silent video into the output directory. */
  function Plan(videoPath: string, useGpu: bool): seq<Effect>
  {
    ExtractPlan(videoPath, AudioPath(videoPath))
    + (SeparatePlan(AudioPath(videoPath), OutputDir(videoPath), useGpu)
    + (SilentPlan(videoPath, DefaultFormat)
    + [Rename(NoAudioPath(videoPath, DefaultFormat), FinalNoAudioPath(videoPath))]))
  }

  /** The stages of process_video hand files to each other: Spleeter reads
      the audio file the first stage wrote and separates it into the
      directory just created; the file moved at the end is the silent video
      just written, encoded with VP8, and it lands in that same directory
      under its own file name. */
  lemma PlanDataFlow(videoPath: string, useGpu: bool)
    ensures var plan := Plan(videoPath, useGpu);
      var k := |DevicePlan(useGpu)|;
      && |plan| == 7 + k
      && plan[0] == OpenVideo(videoPath) && plan[4 + k] == OpenVideo(videoPath)
      && plan[1] == WriteAudio(AudioPath(videoPath), AudioCodec, SampleRate)
      && plan[2] == MakeDirs(OutputDir(videoPath))
      && plan[3 + k] == SeparateToFile(plan[1].target, plan[2].dir)
      && plan[5 + k].WriteVideo? && plan[5 + k].videoCodec == "libvpx"
      && plan[6 + k] == Rename(plan[5 + k].target, Join(plan[2].dir, Basename(plan[5 + k].target)))
  {
    StagesLayout(videoPath, AudioPath(videoPath), OutputDir(videoPath), useGpu,
      NoAudioPath(videoPath, DefaultFormat), Codec(DefaultFormat), FinalNoAudioPath(videoPath));
  }

  /** Where each call sits in process_video's sequence of calls, for any
      names of the files involved. */
  lemma StagesLayout(videoPath: string, audioPath: string, outputDir: string, useGpu: bool,
                     silentPath: string, codec: string, finalPath: string)
    ensures var plan := ExtractPlan(videoPath, audioPath)
        + (SeparatePlan(audioPath, outputDir, useGpu)
        + ([OpenVideo(videoPath), WriteVideo(silentPath, codec)] + [Rename(silentPath, finalPath)]));
      var k := |DevicePlan(useGpu)|;
      && |plan| == 7 + k
      && plan[0] == OpenVideo(videoPath) && plan[1] == WriteAudio(audioPath, AudioCodec, SampleRate)
      && plan[2] == MakeDirs(outputDir) && plan[3 + k] == SeparateToFile(audioPath, outputDir)
      && plan[4 + k] == OpenVideo(videoPath) && plan[5 + k] == WriteVideo(silentPath, codec)
      && plan[6 + k] == Rename(silentPath, finalPath)
  {
    var k := |DevicePlan(useGpu)|;
    var separate := SeparatePlan(audioPath, outputDir, useGpu);
    assert |separate| == 2 + k && separate[1 + k] == SeparateToFile(audioPath, outputDir);
  }

  /** remove_audio_from_video: opens the clip, writes it without its audio
      track next to the input, and returns the path written; None stands
      for the exception that escapes to the caller. */
  method RemoveAudioFromVideo(videoPath: string, outputFormat: string, raises: Oracle)
    returns (outputPath: Option<string>, trace: seq<Effect>)
    ensures Outcome(outputPath.Some?, trace) == Run(SilentPlan(videoPath, outputFormat), raises)
    ensures outputPath.Some? ==> outputPath.value == NoAudioPath(videoPath, outputFormat)
  {
    var open := OpenVideo(videoPath);
    trace := [open];
    if raises(open) {
      return None, trace;
    }
    var path := NoAudioPath(videoPath, outputFormat);
    var write := WriteVideo(path, Codec(outputFormat));
    assert SilentPlan(videoPath, outputFormat)[1..] == [write];
    assert [write][1..] == [];
    trace := trace + [write];
    if raises(write) {
      return None, trace;
    }
    assert Run([write], raises) == Outcome(true, [write]);
    outputPath := Some(path);
  }

  /** Part-way through a try block: the calls of `done` have run without
      raising, and `group` comes next. If the group raises, the block ends
      with False after the calls attempted so far. */
  lemma RunGroupRaises(plan: seq<Effect>, done: seq<Effect>, group: seq<Effect>, rest: seq<Effect>, raises: Oracle)
    requires plan == done + (group + rest)
    requires Succeeds(done, raises) && !Run(group, raises).ok
    ensures Run(plan, raises) == Outcome(false, done + Run(group, raises).attempted)
    ensures !Succeeds(plan, raises)
  {
    RunStopsAtFirstRaise(plan, raises);
    RunStopsAtFirstRaise(done, raises);
    RunAppend(done, group + rest, raises);
    RunAppend(group, rest, raises);
  }

  /** If the group does not raise, the try block goes on after it. */
  lemma Advance(plan: seq<Effect>, done: seq<Effect>, group: seq<Effect>, rest: seq<Effect>, raises: Oracle)
    requires plan == done + (group + rest)
    requires Succeeds(done, raises) && Succeeds(group, raises)
    ensures plan == (done + group) + rest && Succeeds(done + group, raises)
  {
    forall i | 0 <= i < |done + group| ensures !raises((done + group)[i]) {
      if i >= |done| {
        assert (done + group)[i] == group[i - |done|];
      }
    }
  }

  /** The last call of a try block decides its result. */
  lemma RunLast(plan: seq<Effect>, done: seq<Effect>, call: Effect, raises: Oracle)
    requires plan == done + [call] && Succeeds(done, raises)
    ensures Run(plan, raises) == Outcome(!raises(call), plan)
    ensures !raises(call) <==> Succeeds(plan, raises)
  {
    RunStopsAtFirstRaise(plan, raises);
    RunStopsAtFirstRaise(done, raises);
    RunAppend(done, [call], raises);
    assert [call][1..] == [];
  }

  /** First stage of process_video (app.py:37-39). */
  method ExtractAudio(videoPath: string, audioPath: string, raises: Oracle) returns (ok: bool, trace: seq<Effect>)
    ensures Outcome(ok, trace) == Run(ExtractPlan(videoPath, audioPath), raises)
  {
    var open := OpenVideo(videoPath);
    trace := [open];
    if raises(open) {
      return false, trace;
    }
    var write := WriteAudio(audioPath, AudioCodec, SampleRate);
    RunLast(ExtractPlan(videoPath, audioPath), trace, write, raises);
    trace := trace + [write];
    ok := !raises(write);
  }

  /** Second stage of process_video (app.py:42-50). */
  method SeparateMusic(audioPath: string, outputDir: string, useGpu: bool, raises: Oracle)
    returns (ok: bool, trace: seq<Effect>)
    ensures Outcome(ok, trace) == Run(SeparatePlan(audioPath, outputDir, useGpu), raises)
  {
    ghost var plan := SeparatePlan(audioPath, outputDir, useGpu);
    var makeDirs := MakeDirs(outputDir);
    var separate := SeparateToFile(audioPath, outputDir);
    trace := [];
    assert plan == trace + ([makeDirs] + (DevicePlan(useGpu) + [separate]));
    if raises(makeDirs) {
      RunGroupRaises(plan, trace, [makeDirs], DevicePlan(useGpu) + [separate], raises);
      return false, trace + [makeDirs];
    }
    Advance(plan, trace, [makeDirs], DevicePlan(useGpu) + [separate], raises);
    trace := trace + [makeDirs];
    if useGpu {
      var limit := SetGpuMemoryLimit(GpuMemoryLimit);
      if raises(limit) {
        RunGroupRaises(plan, trace, DevicePlan(useGpu), [separate], raises);
        return false, trace + [limit];
      }
      var device := SetForwardDevice("gpu");
      if raises(device) {
        assert DevicePlan(useGpu)[1..] == [device];
        RunGroupRaises(plan, trace, DevicePlan(useGpu), [separate], raises);
        return false, trace + [limit, device];
      }
    } else {
      var device := SetForwardDevice("cpu");
      if raises(device) {
        RunGroupRaises(plan, trace, DevicePlan(useGpu), [separate], raises);
        return false, trace + [device];
      }
    }
    Advance(plan, trace, DevicePlan(useGpu), [separate], raises);
    trace := trace + DevicePlan(useGpu);
    RunLast(plan, trace, separate, raises);
    trace := trace + [separate];
    ok := !raises(separate);
  }

  /** process_video: extracts the audio track to a .wav file, separates it
      with Spleeter into the item's output directory, writes a silent copy
      of the video and moves it into that directory. Any exception ends the
      item with False. */
  method ProcessVideo(videoPath: string, useGpu: bool, raises: Oracle) returns (ok: bool, trace: seq<Effect>)
    ensures Outcome(ok, trace) == Run(Plan(videoPath, useGpu), raises)
    ensures ok <==> Succeeds(Plan(videoPath, useGpu), raises)
  {
    ghost var plan := Plan(videoPath, useGpu);
    var audioPath := AudioPath(videoPath);
    var outputDir := OutputDir(videoPath);
    ghost var rename := Rename(NoAudioPath(videoPath, DefaultFormat), FinalNoAudioPath(videoPath));
    ghost var afterSeparate := SilentPlan(videoPath, DefaultFormat) + [rename];
    ghost var afterExtract := SeparatePlan(audioPath, outputDir, useGpu) + afterSeparate;
    trace := [];
    assert plan == trace + (ExtractPlan(videoPath, audioPath) + afterExtract);

    var extracted, extractTrace := ExtractAudio(videoPath, audioPath, raises);
    if !extracted {
      RunGroupRaises(plan, trace, ExtractPlan(videoPath, audioPath), afterExtract, raises);
      return false, trace + extractTrace;
    }
    RunStopsAtFirstRaise(ExtractPlan(videoPath, audioPath), raises);
    Advance(plan, trace, extractTrace, afterExtract, raises);
    trace := trace + extractTrace;

    var separated, separateTrace := SeparateMusic(audioPath, outputDir, useGpu, raises);
    if !separated {
      RunGroupRaises(plan, trace, SeparatePlan(audioPath, outputDir, useGpu), afterSeparate, raises);
      return false, trace + separateTrace;
    }
    RunStopsAtFirstRaise(SeparatePlan(audioPath, outputDir, useGpu), raises);
    Advance(plan, trace, separateTrace, afterSeparate, raises);
    trace := trace + separateTrace;

    var silentPath, silentTrace := RemoveAudioFromVideo(videoPath, DefaultFormat, raises);
    if silentPath.None? {
      RunGroupRaises(plan, trace, SilentPlan(videoPath, DefaultFormat), [rename], raises);
      return false, trace + silentTrace;
    }
    RunStopsAtFirstRaise(SilentPlan(videoPath, DefaultFormat), raises);
    Advance(plan, trace, silentTrace, [rename], raises);
    trace := trace + silentTrace;

    var move := Rename(silentPath.value, Join(outputDir, Basename(silentPath.value)));
    RunLast(plan, trace, move, raises);
    trace := trace + [move];
    ok := !raises(move);
  }
}
