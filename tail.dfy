/**
 * The poll decision of the `Watch` loop, shared by both revisions: compare
 * the log file's identity with the recorded one, reset the byte baseline on
 * a rotation, and drain only when the file has grown past the baseline.
 */
module Tail {

  /** The identity `os.SameFile` compares: device and inode. */
  datatype FileId = FileId(dev: nat, ino: nat)

  /** What a stat reports: the file's identity and its size in bytes. */
  datatype FileInfo = FileInfo(id: FileId, size: int)

  /** isLogRotated: the two infos describe different files; sizes play no part. */
  function IsLogRotated(current: FileInfo, last: FileInfo): (r: bool)
    ensures current == last ==> !r
    ensures current.id == last.id ==> !r
    ensures r ==> current != last
  {
    current.id != last.id
  }

  /** The loop's in-memory cursor: the recorded file info and how many bytes have been drained. */
  datatype Cursor = Cursor(lastFileInfo: FileInfo, lastProcessedOffset: int)

  /**
   * What one iteration decides, before draining: whether the file was
   * rotated, the info it then goes on with (the reopened file's after a
   * rotation), the baseline offset (0 after a rotation) and whether to drain.
   */
  datatype PollDecision = PollDecision(rotated: bool, current: FileInfo, baseline: int, drain: bool)

  /**
   * The decision for cursor `c`, given `stat`, the info the iteration
   * observes (the open handle's as written, see `StepAsWritten`), and
   * `reopened`, the info read after reopening the path.
   */
  function Poll(c: Cursor, stat: FileInfo, reopened: FileInfo): (d: PollDecision)
    ensures d.rotated <==> stat.id != c.lastFileInfo.id
    ensures d.rotated ==> d.current == reopened && d.baseline == 0
    ensures !d.rotated ==> d.current == stat && d.baseline == c.lastProcessedOffset
    ensures d.drain <==> d.current.size > d.baseline
  {
    var rotated := IsLogRotated(stat, c.lastFileInfo);
    var current := if rotated then reopened else stat;
    var baseline := if rotated then 0 else c.lastProcessedOffset;
    PollDecision(rotated, current, baseline, current.size > baseline)
  }

  /**
   * The cursor after an iteration whose drain, if there was one, succeeded:
   * a rotation records the reopened file, and a drain moves the offset to the
   * size observed before it.
   */
  function NextCursor(c: Cursor, stat: FileInfo, reopened: FileInfo): (c': Cursor)
    ensures stat.id != c.lastFileInfo.id ==> c'.lastFileInfo == reopened
    ensures stat.id == c.lastFileInfo.id ==> c'.lastFileInfo == c.lastFileInfo
    ensures Poll(c, stat, reopened).drain ==> c'.lastProcessedOffset == Poll(c, stat, reopened).current.size
    ensures !Poll(c, stat, reopened).drain ==> c'.lastProcessedOffset == Poll(c, stat, reopened).baseline
  {
    var d := Poll(c, stat, reopened);
    Cursor(if d.rotated then d.current else c.lastFileInfo,
           if d.drain then d.current.size else d.baseline)
  }

  /**
   * Once an iteration has run, polling again while the file is unchanged
   * neither rotates nor drains, and leaves the cursor as it is.
   */
  lemma PollIsStable(c: Cursor, stat: FileInfo, reopened: FileInfo)
    ensures var c1 := NextCursor(c, stat, reopened);
            var seen := Poll(c, stat, reopened).current;
            !Poll(c1, seen, seen).drain && !Poll(c1, seen, seen).rotated &&
            NextCursor(c1, seen, seen) == c1
  {
  }

  /**
   * Without a rotation the processed offset never decreases; a file that
   * shrinks in place (a truncating rotation keeps its identity) is therefore
   * not read again until it grows past the old offset.
   */
  lemma OffsetMonotoneWithoutRotation(c: Cursor, stat: FileInfo, reopened: FileInfo)
    requires stat.id == c.lastFileInfo.id
    ensures NextCursor(c, stat, reopened).lastProcessedOffset >= c.lastProcessedOffset
    ensures stat.size <= c.lastProcessedOffset ==> NextCursor(c, stat, reopened) == c
  {
  }

  // ---------------------------------------------------------------------------
  // Which lines a pass sees, as the source writes it: the handle is never rewound.

  /**
   * The scanner reads the open file from where the previous pass left the
   * handle and numbers what it reads from 0: after a pass that read the first
   * `consumed` lines of `file`, the next pass sees the rest, renumbered.
   */
  function ResumedLines(file: seq<string>, consumed: nat): (lines: seq<string>)
    requires consumed <= |file|
    ensures |lines| == |file| - consumed
    ensures forall k :: 0 <= k < |lines| ==> lines[k] == file[consumed + k]
  {
    file[consumed..]
  }

  // ---------------------------------------------------------------------------
  // The rotation check as the source writes it.

  /**
   * An open file handle. A stat through the handle reports the identity of
   * the file it was opened on, whatever file the log path names later.
   */
  datatype Handle = Handle(id: FileId)

  /** `file.Stat()` on the open handle, with the size of that file. */
  function HandleStat(h: Handle, size: int): (info: FileInfo)
    ensures info.id == h.id && info.size == size
  {
    FileInfo(h.id, size)
  }

  /** The loop's state as written: the open handle besides the cursor. */
  datatype Tailer = Tailer(handle: Handle, cursor: Cursor)

  /** The state right after opening: the info recorded is the handle's own. */
  function Opened(h: Handle, size: int): (t: Tailer)
    ensures Consistent(t)
  {
    Tailer(h, Cursor(HandleStat(h, size), 0))
  }

  /** The recorded info came from a stat through the current handle. */
  predicate Consistent(t: Tailer)
  {
    t.cursor.lastFileInfo.id == t.handle.id
  }

  /**
   * One iteration as written: the info compared with the recorded one comes
   * from the open handle (`handleSize` is that file's size); after a
   * detected rotation the path is reopened as `reopenedHandle`. The file the
   * log path now names plays no part.
   */
  function StepAsWritten(t: Tailer, handleSize: int, reopenedHandle: Handle, reopenedSize: int): (t': Tailer)
    ensures Consistent(t) ==> Consistent(t') && t'.handle == t.handle
  {
    var stat := HandleStat(t.handle, handleSize);
    var reopened := HandleStat(reopenedHandle, reopenedSize);
    var d := Poll(t.cursor, stat, reopened);
    Tailer(if d.rotated then reopenedHandle else t.handle, NextCursor(t.cursor, stat, reopened))
  }

  /** Iterations as written, one per observed size of the open file, oldest first. */
  function RunAsWritten(t: Tailer, sizes: seq<int>, reopenedHandle: Handle, reopenedSize: int): Tailer
    decreases |sizes|
  {
    if sizes == [] then t
    else StepAsWritten(RunAsWritten(t, sizes[..|sizes| - 1], reopenedHandle, reopenedSize),
                       sizes[|sizes| - 1], reopenedHandle, reopenedSize)
  }

  /**
   * As written, the rotation check never fires: after any number of
   * iterations the engine still holds the handle it opened first, the
   * recorded info still comes from it, and the next check compares that
   * file with itself.
   */
  lemma {:induction false} RotationNeverDetectedAsWritten(
    t: Tailer, sizes: seq<int>, reopenedHandle: Handle, reopenedSize: int, nextSize: int)
    requires Consistent(t)
    ensures var u := RunAsWritten(t, sizes, reopenedHandle, reopenedSize);
            u.handle == t.handle &&
            !Poll(u.cursor, HandleStat(u.handle, nextSize), HandleStat(reopenedHandle, reopenedSize)).rotated
    decreases |sizes|
  {
    if sizes != [] {
      var before := sizes[..|sizes| - 1];
      RotationNeverDetectedAsWritten(t, before, reopenedHandle, reopenedSize, sizes[|sizes| - 1]);
    }
  }

  /**
   * The input that shows it: the engine has drained 100 bytes of file A; the
   * log is rotated, so the path names a new file B that already holds 50
   * bytes, while A stays at 100 bytes. As written, no rotation is seen and
   * nothing is drained, now or on any later iteration; comparing the path's
   * identity instead detects the rotation and drains B from offset 0.
   */
  lemma RotationMissedExample()
    ensures var a, b := FileId(1, 10), FileId(1, 11);
            var t := Tailer(Handle(a), Cursor(FileInfo(a, 100), 100));
            var asWritten := Poll(t.cursor, HandleStat(t.handle, 100), HandleStat(Handle(b), 50));
            var corrected := Poll(t.cursor, FileInfo(b, 50), FileInfo(b, 50));
            !asWritten.rotated && !asWritten.drain &&
            StepAsWritten(t, 100, Handle(b), 50) == t &&
            corrected.rotated && corrected.drain && corrected.baseline == 0
  {
  }
}
