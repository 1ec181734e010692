# MusicDel processing core in Dafny

MusicDel is a Streamlit app (`app.py`). It takes videos in one of four ways:
a single uploaded file, several uploaded files, an uploaded zip archive, or a
zip archive downloaded from a URL. For each video, `process_video` does four things:

- extracts the audio track to a `.wav` file;
- separates that audio with Spleeter into a per-video directory under `output/`;
- writes a silent copy of the video;
- moves the silent copy into the same directory.

It reports success or failure per video and goes on to the next one.

This project models that core:

- **`PathOps`** (`path_ops.dfy`): the parts of Python's `os.path` that the
  app relies on, over strings. These are `splitext`, `basename` and two-argument
  `join` (POSIX flavour, `/` as separator), plus `str.endswith`. They
  follow CPython's `posixpath` and `genericpath._splitext`:
  - the extension starts at the last dot of the last component, and only
    when some non-dot character precedes that dot within the component;
  - an absolute second argument to `join` replaces the first.
- **`Naming`** (`naming.dfy`): the names derived from an input path and the
  codec choice. The derived names are:
  - the `.wav` path;
  - the `<root>_no_audio.<format>` path;
  - the output directory `output/<stem>`;
  - the final location of the silent video.

  This module also holds the case-sensitive `.mp4`/`.mkv` filter used by the
  archive modes.
- **`Pipeline`** (`pipeline.dfy`): `process_video` and
  `remove_audio_from_video` as methods that make their library calls in
  source order. The calls are moviepy, Spleeter, `os.makedirs` and
  `os.rename`; each is an `Effect` value. An oracle `raises: Effect -> bool`
  says which calls throw. `Run` is the reference semantics of a
  `try`/`except` block: the calls run in order, and the first one that raises
  ends the block with `False`. The methods are proved equal to `Run` of their
  plan of calls. `process_video` is written in the three stages its comments
  name:
  - extract audio: `ExtractAudio`;
  - separate music: `SeparateMusic`;
  - remove audio: `RemoveAudioFromVideo` and the final move.
- **`Batch`** (`batch.dfy`): the loops of `main`.
  - The multi-upload loop saves each file, then processes it. Saving happens
    outside `process_video`'s `try`, so a failed save ends the whole batch.
    The model keeps this.
  - The archive and URL modes walk the extracted tree and process the files
    that pass the suffix filter.

  Each loop is proved to give exactly one message per processed item, in
  order. Each message is what `process_video` returns for that item alone,
  so a failed item never affects the messages of the others.

## Model

| member | source | states |
|---|---|---|
| PathOps.Join | app.py:42 | `os.path.join` with two arguments; characterised by `PathOps.JoinShape` and `PathOps.JoinBasename` |
| PathOps.EndsWith | app.py:115 | `str.endswith`: the string has the suffix as its last characters; used by `Naming.IsVideoName` |
| PathOps.Basename | app.py:42 | `os.path.basename` gives a string without any separator |
| PathOps.BasenameIsLastComponent | app.py:42 | the basename is a suffix of the path, and is either the whole path or preceded by a separator |
| PathOps.BasenameConcat | app.py:55 | the basename of `x + y` is the basename of `y` if `y` has a separator, else the basename of `x` followed by `y` |
| PathOps.SplitExt | app.py:29 | `os.path.splitext` gives root and extension that concatenate back to the path; the extension is empty or a dot followed by characters that are neither dots nor separators |
| PathOps.SplitExtHasExtension | app.py:38 | the extension is non-empty exactly when the last component has a non-dot character before some dot, so leading dots do not start an extension |
| PathOps.SplitExtUnique | app.py:38 | any root/extension split meeting those conditions is the one splitext returns |
| PathOps.BasenameOfSplit | app.py:42 | splitting the basename gives the basename of the root and the same extension as splitting the whole path |
| PathOps.JoinShape | app.py:42 | `os.path.join(a, b)` is `b` when `b` is absolute; otherwise it starts with `a` and ends with `b`, with nothing between them exactly when `a` is empty or ends with a separator, and one separator between them otherwise; this determines the result |
| PathOps.JoinBasename | app.py:55 | the basename of a join is the basename of its second argument |
| PathOps.SplitExtAppend | app.py:38 | appending an extension to a root whose last component has a non-dot character splits back into that root and that extension |
| Naming.Stem | app.py:42 | the input's basename without its splitext extension; characterised by `Naming.OutputDirIsOutputSlashStem` and `Naming.WalkedFileNaming` |
| Naming.AudioPath | app.py:38 | the splitext root plus `.wav`; characterised by `Naming.DerivedPathsKeepRoot`, `Naming.AudioPathBasename` and `Naming.AudioPathSplit` |
| Naming.NoAudioPath | app.py:29 | the splitext root plus `_no_audio.` and the format; characterised by `Naming.DerivedPathsKeepRoot`, `Naming.NoAudioPathBasename` and `Naming.NoAudioPathSplit` |
| Naming.OutputDir | app.py:42 | `output` joined with the stem; characterised by `Naming.OutputDirIsOutputSlashStem`, `Naming.OutputDirSharedByStem` and `Naming.OutputDirOfBasename` |
| Naming.FinalNoAudioPath | app.py:55 | the output directory joined with the silent video's basename; characterised by `Naming.FinalNoAudioPathInOutputDir` |
| Naming.IsVideoName | app.py:115 | the suffix test `.mp4` or `.mkv`; characterised by `Naming.VideoNamesSelected`, `Naming.UpperCaseNotSelected` and `Naming.VideoSuffixIsExtension` |
| Naming.Codec | app.py:30 | the codec is `libvpx` exactly when the format is `webm`, and `libx264` for every other format |
| Naming.DerivedPathsKeepRoot | app.py:29 | the audio path and the silent-video path keep the input path up to its extension, directories included, and append `.wav` or `_no_audio.<format>` |
| Naming.AudioPathBasename | app.py:38 | the audio file's name is the input's stem followed by `.wav` |
| Naming.AudioPathSplit | app.py:38 | when the stem is not all dots, splitext of the audio path gives the input's root and `.wav` |
| Naming.NoAudioPathBasename | app.py:29 | the silent video's file name is the stem, `_no_audio`, a dot and the format |
| Naming.NoAudioPathSplit | app.py:26-29 | splitext of the silent-video path gives the input's root plus `_no_audio`, with `.<format>` as extension |
| Naming.OutputDirIsOutputSlashStem | app.py:42 | the output directory is `output/` followed by the input's basename without its extension |
| Naming.OutputDirSharedByStem | app.py:42 | two inputs share an output directory exactly when their stems are equal, wherever the inputs live |
| Naming.OutputDirOfBasename | app.py:42 | the output directory depends only on the input's basename |
| Naming.FinalNoAudioPathInOutputDir | app.py:55-56 | the silent video is moved to the output directory, a separator (none if the stem is empty), and its own file name, which it keeps |
| Naming.VideoNamesSelected | app.py:115 | every name ending in `.mp4` or `.mkv` is selected |
| Naming.UpperCaseNotSelected | app.py:115 | the suffix test is case-sensitive: `.MP4` and `.MKV` names are skipped |
| Naming.VideoSuffixIsExtension | app.py:115 | a selected name is at least four characters long, and its four-character suffix is a dot followed by characters that are neither dots nor separators, the form of a splitext extension |
| Naming.WalkedFileNaming | app.py:113-117 | for every walked video `name` in directory `root`, the stem is `name` minus its four-character suffix, or all of `name` when only dots precede the suffix (`.mp4`, `..mkv`); the output directory is `output/` plus that stem, and the audio file is that stem plus `.wav` |
| Naming.DotOnlyNameIsItsOwnStem | app.py:115-116 | a file named just `.mp4` is selected, keeps `.mp4` as its stem, and gets the output directory `output/.mp4` |
| Pipeline.Run | app.py:34-63 | the `try`/`except` around a sequence of calls; characterised by `Pipeline.RunStopsAtFirstRaise` and `Pipeline.RunAppend` |
| Pipeline.Plan | app.py:37-56 | the calls of process_video's `try` block in source order; characterised by `Pipeline.PlanDataFlow` and implemented by `Pipeline.ProcessVideo` |
| Pipeline.RunStopsAtFirstRaise | app.py:33-63 | a `try` block returns True exactly when no call raises; it attempts a prefix of its calls, only the last attempted call may raise, and on failure that call is the first that raises, so the remaining calls are skipped |
| Pipeline.RunAppend | app.py:33-63 | running two call sequences back to back equals running their concatenation; the second runs only if the first finished |
| Pipeline.PlanDataFlow | app.py:37-56 | in process_video's calls, Spleeter reads the `.wav` file just written and writes into the directory just created; the silent video is encoded with VP8 by default; the file moved is the silent video just written, and it goes into that directory under its own name |
| Pipeline.RemoveAudioFromVideo | app.py:26-31 | opens the clip and writes it without audio using the codec for the format; the result is the silent-video path exactly when neither call raised, and the calls made are those of `Run` on its plan |
| Pipeline.ExtractAudio | app.py:37-39 | opens the clip and writes its audio as 16 kHz `pcm_s16le` to the audio path, stopping at the first call that raises |
| Pipeline.SeparateMusic | app.py:42-51 | creates the output directory, calls `set_gpu_memory_limit(8)` and sets the gpu device, or only the cpu device, then separates the audio into the directory, stopping at the first call that raises |
| Pipeline.ProcessVideo | app.py:33-63 | the calls attempted and the result are those of `Run` on the whole plan of the three stages and the final move; the result is True exactly when no call of the plan raises |
| Batch.ReportsAppend | app.py:113-121 | the messages of two batches run back to back are the messages of the concatenated batch |
| Batch.ProcessItem | app.py:95-99 | one item gives one message: its name, and what process_video returns for its path |
| Batch.Uploads | app.py:91-92 | the uploads become one item each, in upload order, each saved at `./uploaded_videos` joined with the upload's name |
| Batch.ProcessUpload | app.py:95-99 | after saving upload `i`, its message is added after those of the earlier uploads |
| Batch.ProcessUploads | app.py:91-99 | the uploads are processed in order, each exactly once, with one message each; the batch stops only when a save raises, at that upload and with no message for it or later ones; every upload before it was saved |
| Batch.SelectedIn | app.py:114-116 | the items processed for one walked directory, in file order; characterised by `Batch.SelectedInMembership` and implemented by `Batch.ProcessDirectory` |
| Batch.Selected | app.py:113-116 | the items processed for a whole walk, in walk order; characterised by `Batch.SelectedMembership` and `Batch.SelectedAppend` and implemented by `Batch.ProcessWalk` |
| Batch.SelectedInMembership | app.py:114-116 | a file of a walked directory is processed exactly when its name passes the suffix test, under the path joining it to the directory |
| Batch.SelectedMembership | app.py:113-116 | an item is processed exactly when some walked directory selects it |
| Batch.SelectedAppend | app.py:113-115 | selection keeps walk order: two parts of a walk select the first part's files, then the second's |
| Batch.ProcessDirectory | app.py:114-121 | the inner loop gives one message per selected file of a directory, in order, each being process_video's result for that file alone |
| Batch.ProcessWalk | app.py:134-142 | the outer loop of the archive and URL modes (the same code at lines 113-121) gives one message per selected file of the whole walk, in walk order, each independent of the other items |

## Left out

- Streamlit is not modelled: the widgets, the `st.write`/`st.error` messages and the spinner. A message is reduced to an item name and a boolean. `st.spinner`, `st.success` and `st.error` are assumed not to raise.
- Spleeter and TensorFlow are opaque. The module-level `Separator` and session set-up (app.py:9-16) are not modelled. The separator's device and memory settings are only effects in the list of calls.
- The moviepy calls are effects whose only outcome is whether they raise. `without_audio()` is folded into the `WriteVideo` effect, which names the codec and target.
- The oracle is memoryless: the same call always raises or always succeeds. File-system state shared between items is not modelled. Examples are the shared `output/<stem>` directory of two inputs with the same stem, and the `.wav` shared by `a.mp4` and `a.mkv`. These collisions are stated only as naming lemmas, such as `Naming.OutputDirSharedByStem`.
- `download_file`, the `requests` streaming and `zipfile.extractall` are I/O. The walk is a given sequence of (directory, files) entries in the order `os.walk` yields them, and that order is not constrained. The sub-directory lists only steer the walk and are not kept.
- The single-video mode (app.py:72-83) is left out. It is one save and one `process_video` call, with no loop.
- Saving an upload is one `SaveUpload` effect. The byte copy of `video_file.read()` is not modelled.
- The `.wav` file is never deleted by the code, and the model adds no cleanup. There is also no upload, retry, transcription or parallelism, because the code has none.
- Only POSIX paths are modelled: `/` is the only separator and there are no drive letters, so Windows `ntpath` behaviour is not captured.
- The multi-upload save happens outside `process_video`'s `try`, so a failing save leaves `main`; the model ends that batch there rather than isolating the failure.
- Exception messages (`str(e)`) are not modelled. A failure carries only the list of calls attempted.
