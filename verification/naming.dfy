/** The names app.py derives from an input video path, the codec it picks
    for the silent video, and the file-name test that selects the videos
    of an extracted archive. */
module Naming {
  import opened PathOps

  /** Default `output_format` of remove_audio_from_video. */
  const DefaultFormat: string := "webm"
  /** Directory under which every item gets its own output directory. */
  const OutputRoot: string := "output"
  const AudioSuffix: string := ".wav"
  const NoAudioMarker: string := "_no_audio"

  /** The input's file name without its extension. */
  function Stem(videoPath: string): string
  {
    SplitExt(Basename(videoPath)).root
  }

  /** Where the extracted audio is written: the input's root plus `.wav`. */
  function AudioPath(videoPath: string): string
  {
    SplitExt(videoPath).root + AudioSuffix
  }

  /** The extension of the silent video: a dot and the output format. */
  function FormatExt(outputFormat: string): string
  {
    [ExtSep] + outputFormat
  }

  /** Where remove_audio_from_video writes the silent video: the input's
      root, then `_no_audio.` and the output format. */
  function NoAudioPath(videoPath: string, outputFormat: string): string
  {
    (SplitExt(videoPath).root + NoAudioMarker) + FormatExt(outputFormat)
  }

  /** The video codec of the silent video: VP8 for webm, H.264 otherwise. */
  function Codec(outputFormat: string): (codec: string)
    ensures codec == "libvpx" <==> outputFormat == "webm"
    ensures codec == "libvpx" || codec == "libx264"
  {
    if outputFormat == "webm" then "libvpx" else "libx264"
  }

  /** The per-item output directory: `output` joined with the input's stem. */
  function OutputDir(videoPath: string): string
  {
    Join(OutputRoot, Stem(videoPath))
  }

  /** Where the silent video ends up: the output directory joined with the
      silent video's file name. */
  function FinalNoAudioPath(videoPath: string): string
  {
    Join(OutputDir(videoPath), Basename(NoAudioPath(videoPath, DefaultFormat)))
  }

  /** The archive and URL modes process a walked file exactly when its name
      ends with `.mp4` or `.mkv` (case-sensitive). */
  predicate IsVideoName(name: string)
  {
    EndsWith(name, ".mp4") || EndsWith(name, ".mkv")
  }

  lemma StemIsName(videoPath: string)
    ensures Sep !in Stem(videoPath)
  {
    var b := Basename(videoPath);
    var s := SplitExt(b);
    PrefixNoSep(b, s.root);
  }

  lemma LiteralsHaveNoSep()
    ensures Sep !in AudioSuffix && Sep !in NoAudioMarker && Sep !in DefaultFormat
  {
    assert forall k :: 0 <= k < |AudioSuffix| ==> AudioSuffix[k] != Sep;
    assert forall k :: 0 <= k < |NoAudioMarker| ==> NoAudioMarker[k] != Sep;
    assert forall k :: 0 <= k < |DefaultFormat| ==> DefaultFormat[k] != Sep;
  }

  lemma FormatExtIsExtension(outputFormat: string)
    requires Sep !in outputFormat && ExtSep !in outputFormat
    ensures FormatExt(outputFormat) != [] && IsExtension(FormatExt(outputFormat))
  {
    var ext := FormatExt(outputFormat);
    assert forall k :: 0 < k < |ext| ==> ext[k] == outputFormat[k - 1];
  }

  /** Both derived paths keep the input path, directories included, up to
      its extension; only the extension is replaced. */
  lemma DerivedPathsKeepRoot(videoPath: string, outputFormat: string)
    ensures var n := |videoPath| - |SplitExt(videoPath).ext|;
      AudioPath(videoPath) == videoPath[..n] + AudioSuffix &&
      NoAudioPath(videoPath, outputFormat) == videoPath[..n] + NoAudioMarker + FormatExt(outputFormat)
  {
    var s := SplitExt(videoPath);
    assert videoPath[..|videoPath| - |s.ext|] == s.root;
  }

  /** The extracted audio is named after the input's stem. */
  lemma AudioPathBasename(videoPath: string)
    ensures Basename(AudioPath(videoPath)) == Stem(videoPath) + AudioSuffix
  {
    LiteralsHaveNoSep();
    BasenameConcat(SplitExt(videoPath).root, AudioSuffix);
    BasenameOfSplit(videoPath);
  }

  /** Splitting the audio path gives back the input's root and the `.wav`
      extension, whenever the stem is not made of dots only. */
  lemma AudioPathSplit(videoPath: string)
    requires HasNonDot(Stem(videoPath))
    ensures SplitExt(AudioPath(videoPath)) == Split(SplitExt(videoPath).root, AudioSuffix)
  {
    BasenameOfSplit(videoPath);
    AudioSuffixIsExtension();
    SplitExtAppend(SplitExt(videoPath).root, AudioSuffix);
  }

  lemma AudioSuffixIsExtension()
    ensures AudioSuffix != [] && IsExtension(AudioSuffix)
  {
    assert forall k :: 0 < k < |AudioSuffix| ==> AudioSuffix[k] != ExtSep && AudioSuffix[k] != Sep;
  }

  /** The silent video is written next to the input, named after its stem. */
  lemma NoAudioPathBasename(videoPath: string, outputFormat: string)
    requires Sep !in outputFormat
    ensures Basename(NoAudioPath(videoPath, outputFormat)) == (Stem(videoPath) + NoAudioMarker) + FormatExt(outputFormat)
  {
    var root := SplitExt(videoPath).root;
    LiteralsHaveNoSep();
    ConcatNoSep([ExtSep], outputFormat);
    BasenameConcat(root + NoAudioMarker, FormatExt(outputFormat));
    BasenameConcat(root, NoAudioMarker);
    BasenameOfSplit(videoPath);
  }

  lemma MarkerHasNonDot(s: string)
    ensures HasNonDot(s + NoAudioMarker)
  {
    assert (s + NoAudioMarker)[|s|] != ExtSep;
  }

  /** Splitting the silent-video path gives the input's root with
      `_no_audio` appended, and the output format as extension. */
  lemma NoAudioPathSplit(videoPath: string, outputFormat: string)
    requires Sep !in outputFormat && ExtSep !in outputFormat
    ensures SplitExt(NoAudioPath(videoPath, outputFormat))
         == Split(SplitExt(videoPath).root + NoAudioMarker, FormatExt(outputFormat))
  {
    var root := SplitExt(videoPath).root;
    FormatExtIsExtension(outputFormat);
    LiteralsHaveNoSep();
    BasenameConcat(root, NoAudioMarker);
    MarkerHasNonDot(Basename(root));
    SplitExtAppend(root + NoAudioMarker, FormatExt(outputFormat));
  }

  /** The output directory is `output/` followed by the input's stem. */
  lemma OutputDirIsOutputSlashStem(videoPath: string)
    ensures OutputDir(videoPath) == OutputRoot + [Sep] + Stem(videoPath)
  {
    StemIsName(videoPath);
    JoinName(OutputRoot, Stem(videoPath));
  }

  /** Two inputs share an output directory exactly when they have the same
      stem, wherever their directories are. */
  lemma OutputDirSharedByStem(p: string, q: string)
    ensures OutputDir(p) == OutputDir(q) <==> Stem(p) == Stem(q)
  {
    OutputDirIsOutputSlashStem(p);
    OutputDirIsOutputSlashStem(q);
    var n := |OutputRoot| + 1;
    assert Stem(p) == OutputDir(p)[n..];
    assert Stem(q) == OutputDir(q)[n..];
  }

  /** The output directory depends on the input's file name only. */
  lemma OutputDirOfBasename(p: string, q: string)
    requires Basename(p) == Basename(q)
    ensures OutputDir(p) == OutputDir(q)
  {
  }

  lemma SilentNameIsName(videoPath: string)
    ensures var name := (Stem(videoPath) + NoAudioMarker) + FormatExt(DefaultFormat);
      Sep !in name && name != []
  {
    StemIsName(videoPath);
    LiteralsHaveNoSep();
    ConcatNoSep([ExtSep], DefaultFormat);
    ConcatNoSep(Stem(videoPath), NoAudioMarker);
    ConcatNoSep(Stem(videoPath) + NoAudioMarker, FormatExt(DefaultFormat));
  }

  /** The silent video is moved into the item's output directory and keeps
      its file name, `<stem>_no_audio.webm`. */
  lemma FinalNoAudioPathInOutputDir(videoPath: string)
    ensures Basename(FinalNoAudioPath(videoPath)) == Basename(NoAudioPath(videoPath, DefaultFormat))
    ensures var name := (Stem(videoPath) + NoAudioMarker) + FormatExt(DefaultFormat);
      FinalNoAudioPath(videoPath)
        == if Stem(videoPath) == [] then OutputDir(videoPath) + name else OutputDir(videoPath) + [Sep] + name
  {
    var stem := Stem(videoPath);
    var dir := OutputDir(videoPath);
    var name := (stem + NoAudioMarker) + FormatExt(DefaultFormat);
    assert FinalNoAudioPath(videoPath) == Join(dir, name) by {
      LiteralsHaveNoSep();
      NoAudioPathBasename(videoPath, DefaultFormat);
    }
    assert Basename(Join(dir, name)) == name by {
      SilentNameIsName(videoPath);
      JoinBasename(dir, name);
      BasenameOfName(name);
    }
    assert Join(dir, name) == if stem == [] then dir + name else dir + [Sep] + name by {
      SilentNameIsName(videoPath);
      JoinName(dir, name);
      OutputDirIsOutputSlashStem(videoPath);
      StemIsName(videoPath);
      LastCharOfDir(stem, dir);
    }
  }

  lemma LastCharOfDir(stem: string, dir: string)
    requires Sep !in stem && dir == OutputRoot + [Sep] + stem
    ensures dir != [] && (dir[|dir| - 1] == Sep <==> stem == [])
  {
    if stem != [] {
      assert dir[|dir| - 1] == stem[|stem| - 1];
      assert stem[|stem| - 1] in stem;
    }
  }

  /** A name ending in one of the two extensions is selected. */
  lemma VideoNamesSelected(stem: string)
    ensures IsVideoName(stem + ".mp4") && IsVideoName(stem + ".mkv")
  {
    assert (stem + ".mp4")[|stem|..] == ".mp4";
    assert (stem + ".mkv")[|stem|..] == ".mkv";
  }

  /** The suffix test is case-sensitive: upper-case extensions are skipped. */
  lemma UpperCaseNotSelected(stem: string)
    ensures !IsVideoName(stem + ".MP4") && !IsVideoName(stem + ".MKV")
  {
    assert (stem + ".MP4")[|stem|..] == ".MP4";
    assert (stem + ".MKV")[|stem|..] == ".MKV";
    assert ".MP4"[1] != ".mp4"[1] && ".MP4"[1] != ".mkv"[1];
  }

  /** The suffix of a selected name is a splitext extension. */
  lemma VideoSuffixIsExtension(name: string)
    requires IsVideoName(name)
    ensures |name| >= 4 && name[|name| - 4..] != [] && IsExtension(name[|name| - 4..])
  {
    var ext := name[|name| - 4..];
    assert ext == ".mp4" || ext == ".mkv";
  }

  /** splitext of a selected file name: the four-character suffix comes
      off unless only dots precede it. */
  lemma WalkedNameSplit(name: string)
    requires Sep !in name && IsVideoName(name)
    ensures SplitExt(name).root == if HasNonDot(name[..|name| - 4]) then name[..|name| - 4] else name
  {
    var prefix := name[..|name| - 4];
    var ext := name[|name| - 4..];
    VideoSuffixIsExtension(name);
    assert prefix + ext == name;
    if HasNonDot(prefix) {
      PrefixNoSep(name, prefix);
      BasenameOfName(prefix);
      SplitExtAppend(prefix, ext);
    } else {
      ExtensionStartsAtLastDot(name, prefix, ext);
      HasExtensionAtLastDot(name);
      SplitExtHasExtension(name);
      BasenameOfName(name);
    }
  }

  /** The stem of a walked file `name` in directory `root`: `name` minus
      its four-character extension, or the whole of `name` when only dots
      precede that extension (`.mp4`, `..mkv`), since splitext then finds no
      extension. The output directory and the audio file are named after
      that stem. */
  lemma WalkedFileNaming(root: string, name: string)
    requires Sep !in name && IsVideoName(name)
    ensures var stem := if HasNonDot(name[..|name| - 4]) then name[..|name| - 4] else name;
      && Stem(Join(root, name)) == stem
      && OutputDir(Join(root, name)) == OutputRoot + [Sep] + stem
      && Basename(AudioPath(Join(root, name))) == stem + AudioSuffix
  {
    var path := Join(root, name);
    var prefix := name[..|name| - 4];
    var stem := if HasNonDot(prefix) then prefix else name;
    assert Basename(path) == name by {
      JoinBasename(root, name);
      BasenameOfName(name);
    }
    WalkedNameSplit(name);
    OutputDirIsOutputSlashStem(path);
    AudioPathBasename(path);
  }

  /** A walked file named just `.mp4` is selected and keeps its whole name
      as stem, so its output directory is `output/.mp4`. */
  lemma DotOnlyNameIsItsOwnStem(root: string)
    ensures IsVideoName(".mp4")
    ensures Stem(Join(root, ".mp4")) == ".mp4" && OutputDir(Join(root, ".mp4")) == OutputRoot + [Sep] + ".mp4"
  {
    var name := ".mp4";
    assert IsVideoName(name) by {
      assert name[|name| - 4..] == ".mp4";
    }
    assert Sep !in name by {
      assert forall k :: 0 <= k < |name| ==> name[k] != Sep;
    }
    assert !HasNonDot(name[..|name| - 4]) by {
      assert name[..|name| - 4] == [];
    }
    WalkedFileNaming(root, name);
  }
}
