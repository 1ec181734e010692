/** The batch loops of main(): the multi-upload mode and the two modes that
    walk an extracted archive. Each calls process_video once per item, in
    order, and shows one success or failure message per item. */
module Batch {
  import opened PathOps
  import opened Naming
  import opened Pipeline

  /** Where the multi-upload mode saves each uploaded file. */
  const UploadDir: string := "./uploaded_videos"

  /** A video to process: the name shown in its message and the path given
      to process_video. */
  datatype Item = Item(name: string, path: string)

  /** The message shown for one item: its name and whether it succeeded. */
  datatype ItemReport = ItemReport(name: string, ok: bool)

  /** One (root, dirs, files) triple of os.walk; the sub-directories only
      steer the walk, which is given here, so they are not kept. */
  datatype WalkEntry = WalkEntry(root: string, files: seq<string>)

  /** What process_video returns for a path. */
  predicate ItemSucceeds(path: string, useGpu: bool, raises: Oracle)
  {
    Succeeds(Plan(path, useGpu), raises)
  }

  /** The messages of a batch: exactly one per item, in the items' order,
      each giving what process_video returns for that item alone. */
  predicate Reports(report: seq<ItemReport>, items: seq<Item>, useGpu: bool, raises: Oracle)
  {
    |report| == |items| &&
    forall i :: 0 <= i < |items| ==>
      report[i] == ItemReport(items[i].name, ItemSucceeds(items[i].path, useGpu, raises))
  }

  /** Processing one more item adds its own message at the end and leaves
      the earlier messages as they were. */
  lemma ReportsSnoc(report: seq<ItemReport>, items: seq<Item>, item: Item, useGpu: bool, raises: Oracle)
    requires Reports(report, items, useGpu, raises)
    ensures Reports(report + [ItemReport(item.name, ItemSucceeds(item.path, useGpu, raises))], items + [item], useGpu, raises)
  {
  }

  /** Two batches run back to back give the first batch's messages, then
      the second's. */
  lemma ReportsAppend(first: seq<ItemReport>, firstItems: seq<Item>, second: seq<ItemReport>, secondItems: seq<Item>, useGpu: bool, raises: Oracle)
    requires Reports(first, firstItems, useGpu, raises) && Reports(second, secondItems, useGpu, raises)
    ensures Reports(first + second, firstItems + secondItems, useGpu, raises)
  {
    forall i | 0 <= i < |firstItems + secondItems|
      ensures (first + second)[i] == ItemReport((firstItems + secondItems)[i].name, ItemSucceeds((firstItems + secondItems)[i].path, useGpu, raises))
    {
      if i >= |firstItems| {
        assert (first + second)[i] == second[i - |first|];
        assert (firstItems + secondItems)[i] == secondItems[i - |firstItems|];
      }
    }
  }

  /** The body shared by the three batch loops: process one item and show
      its success or failure message (app.py:95-99, 116-121, 137-142). */
  method ProcessItem(item: Item, useGpu: bool, raises: Oracle) returns (message: ItemReport)
    ensures message == ItemReport(item.name, ItemSucceeds(item.path, useGpu, raises))
  {
    var success, _ := ProcessVideo(item.path, useGpu, raises);
    message := ItemReport(item.name, success);
  }

  /** The uploads of the multi-upload mode as items: each is saved under
      ./uploaded_videos with its own name. */
  function Uploads(names: seq<string>): (items: seq<Item>)
    ensures |items| == |names|
    ensures forall i :: 0 <= i < |names| ==> items[i] == Item(names[i], Join(UploadDir, names[i]))
  {
    if names == [] then [] else Uploads(names[..|names| - 1]) + [Item(names[|names| - 1], Join(UploadDir, names[|names| - 1]))]
  }

  /** None of the uploads `names` raised while being saved. */
  predicate Saved(names: seq<string>, raises: Oracle)
  {
    forall j :: 0 <= j < |names| ==> !raises(SaveUpload(Join(UploadDir, names[j])))
  }

  lemma SavedSnoc(names: seq<string>, i: nat, raises: Oracle)
    requires i < |names| && Saved(names[..i], raises) && !raises(SaveUpload(Join(UploadDir, names[i])))
    ensures Saved(names[..i + 1], raises)
  {
    assert forall j :: 0 <= j < i ==> names[..i + 1][j] == names[..i][j];
  }

  /** One pass of the multi-upload loop after the upload `names[i]` was
      saved: its message is added after those of the earlier uploads. */
  method ProcessUpload(names: seq<string>, i: nat, report: seq<ItemReport>, useGpu: bool, raises: Oracle)
    returns (extended: seq<ItemReport>)
    requires i < |names| && Reports(report, Uploads(names[..i]), useGpu, raises)
    ensures Reports(extended, Uploads(names[..i + 1]), useGpu, raises)
  {
    var item := Item(names[i], Join(UploadDir, names[i]));
    var message := ProcessItem(item, useGpu, raises);
    assert Uploads(names[..i + 1]) == Uploads(names[..i]) + [item] by {
      assert names[..i + 1][..i] == names[..i];
    }
    ReportsSnoc(report, Uploads(names[..i]), item, useGpu, raises);
    extended := report + [message];
  }

  /** The multi-upload loop. Saving an upload happens outside
      process_video's try block, so an exception there leaves main: the
      batch stops with `finished` false and no message for that upload or
      the ones after it. Every other failure gives a False message and the
      loop goes on. */
  method ProcessUploads(names: seq<string>, useGpu: bool, raises: Oracle)
    returns (report: seq<ItemReport>, finished: bool)
    ensures |report| <= |names|
    ensures Reports(report, Uploads(names[..|report|]), useGpu, raises)
    ensures Saved(names[..|report|], raises)
    ensures finished <==> |report| == |names|
    ensures !finished ==> raises(SaveUpload(Join(UploadDir, names[|report|])))
  {
    report := [];
    var i := 0;
    while i < |names|
      invariant 0 <= i <= |names|
      invariant Reports(report, Uploads(names[..i]), useGpu, raises)
      invariant Saved(names[..i], raises)
    {
      var videoPath := Join(UploadDir, names[i]);
      if raises(SaveUpload(videoPath)) {
        return report, false;
      }
      SavedSnoc(names, i, raises);
      report := ProcessUpload(names, i, report, useGpu, raises);
      i := i + 1;
    }
    assert names[..i] == names;
    finished := true;
  }

  /** The files of one walked directory that are processed, in order: those
      whose name ends with .mp4 or .mkv, joined to the directory. */
  function SelectedIn(root: string, files: seq<string>): seq<Item>
  {
    if files == [] then []
    else
      var file := files[|files| - 1];
      SelectedIn(root, files[..|files| - 1]) + (if IsVideoName(file) then [Item(file, Join(root, file))] else [])
  }

  /** The files of a whole walk that are processed, in walk order. */
  function Selected(walk: seq<WalkEntry>): seq<Item>
  {
    if walk == [] then []
    else Selected(walk[..|walk| - 1]) + SelectedIn(walk[|walk| - 1].root, walk[|walk| - 1].files)
  }

  /** The walked file `file` of directory `root` is processed as `item`. */
  predicate Picks(root: string, file: string, item: Item)
  {
    IsVideoName(file) && item == Item(file, Join(root, file))
  }

  /** A file of a directory is processed exactly when its name passes the
      suffix test, and then under the path joining it to the directory. */
  lemma {:induction false} SelectedInMembership(root: string, files: seq<string>, item: Item)
    ensures item in SelectedIn(root, files) <==> exists f :: 0 <= f < |files| && Picks(root, files[f], item)
  {
    if files != [] {
      var n := |files| - 1;
      var prefix := files[..n];
      var last := if IsVideoName(files[n]) then [Item(files[n], Join(root, files[n]))] else [];
      assert SelectedIn(root, files) == SelectedIn(root, prefix) + last;
      assert item in last <==> Picks(root, files[n], item);
      SelectedInMembership(root, prefix, item);
      if item in SelectedIn(root, prefix) {
        var f :| 0 <= f < n && Picks(root, prefix[f], item);
        assert prefix[f] == files[f];
      }
      if exists f :: 0 <= f < |files| && Picks(root, files[f], item) {
        var f :| 0 <= f < |files| && Picks(root, files[f], item);
        if f < n {
          assert prefix[f] == files[f];
        }
      }
    }
  }

  /** An item is processed exactly when some walked directory selects it. */
  lemma {:induction false} SelectedMembership(walk: seq<WalkEntry>, item: Item)
    ensures item in Selected(walk)
        <==> exists w :: 0 <= w < |walk| && item in SelectedIn(walk[w].root, walk[w].files)
  {
    if walk != [] {
      var n := |walk| - 1;
      var prefix := walk[..n];
      assert Selected(walk) == Selected(prefix) + SelectedIn(walk[n].root, walk[n].files);
      SelectedMembership(prefix, item);
      if item in Selected(prefix) {
        var w :| 0 <= w < n && item in SelectedIn(prefix[w].root, prefix[w].files);
        assert prefix[w] == walk[w];
      }
      if exists w :: 0 <= w < |walk| && item in SelectedIn(walk[w].root, walk[w].files) {
        var w :| 0 <= w < |walk| && item in SelectedIn(walk[w].root, walk[w].files);
        if w < n {
          assert prefix[w] == walk[w];
        }
      }
    }
  }

  /** Selection keeps the walk's order: walking two parts one after the
      other selects the first part's files, then the second's. */
  lemma {:induction false} SelectedAppend(first: seq<WalkEntry>, second: seq<WalkEntry>)
    ensures Selected(first + second) == Selected(first) + Selected(second)
  {
    if second == [] {
      assert first + second == first;
    } else {
      var n := |second| - 1;
      var whole := first + second;
      var lastIn := SelectedIn(second[n].root, second[n].files);
      assert whole[..|whole| - 1] == first + second[..n];
      assert whole[|whole| - 1] == second[n];
      assert Selected(whole) == Selected(first + second[..n]) + lastIn;
      assert Selected(second) == Selected(second[..n]) + lastIn;
      SelectedAppend(first, second[..n]);
      assert (Selected(first) + Selected(second[..n])) + lastIn == Selected(first) + (Selected(second[..n]) + lastIn);
    }
  }

  /** The inner loop of the archive and URL modes, over the files of one
      walked directory: a file that passes the suffix test is processed and
      gets its message; every other file is skipped. */
  method ProcessDirectory(root: string, files: seq<string>, useGpu: bool, raises: Oracle) returns (report: seq<ItemReport>)
    ensures Reports(report, SelectedIn(root, files), useGpu, raises)
  {
    report := [];
    var f := 0;
    while f < |files|
      invariant 0 <= f <= |files|
      invariant Reports(report, SelectedIn(root, files[..f]), useGpu, raises)
    {
      var file := files[f];
      assert files[..f + 1][..f] == files[..f];
      if IsVideoName(file) {
        var videoPath := Join(root, file);
        var message := ProcessItem(Item(file, videoPath), useGpu, raises);
        ReportsSnoc(report, SelectedIn(root, files[..f]), Item(file, videoPath), useGpu, raises);
        report := report + [message];
      }
      f := f + 1;
    }
    assert files[..f] == files;
  }

  /** The outer loop of the archive and URL modes, over the directories of
      the walk in the order os.walk yields them. */
  method ProcessWalk(walk: seq<WalkEntry>, useGpu: bool, raises: Oracle) returns (report: seq<ItemReport>)
    ensures Reports(report, Selected(walk), useGpu, raises)
  {
    report := [];
    var w := 0;
    while w < |walk|
      invariant 0 <= w <= |walk|
      invariant Reports(report, Selected(walk[..w]), useGpu, raises)
    {
      var messages := ProcessDirectory(walk[w].root, walk[w].files, useGpu, raises);
      assert walk[..w + 1][..w] == walk[..w];
      ReportsAppend(report, Selected(walk[..w]), messages, SelectedIn(walk[w].root, walk[w].files), useGpu, raises);
      report := report + messages;
      w := w + 1;
    }
    assert walk[..w] == walk;
  }
}
