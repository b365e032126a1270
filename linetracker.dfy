/**
 * The file-backed checkpoint store: `GetLastProcessedLine` reads the state
 * file line by line and keeps the integer on the last line;
 * `UpdateLastProcessedLine` truncates the file and writes the decimal text
 * of the new value, then syncs it.
 */
module LineTracker {
  import opened Wrappers
  import opened Strconv
  import opened Bufio
  import opened StateFile

  /** Why a call failed. */
  datatype TrackerError =
    | MkdirFailed
    | OpenFailed
    | NotAnInteger
    | ScanFailed
    | UpdateFailed(fault: WriteFault)

  /**
   * What GetLastProcessedLine returns for a file in state `f`, when creating
   * the directory fails (`mkdirFails`) or the read meets `fault`: the value
   * on the last line and no error, or 0 with the first error met.
   */
  function ReadCheckpoint(f: FileState, mkdirFails: bool, fault: Option<ReadFault>): (r: (int, Option<TrackerError>))
    ensures r.1.Some? ==> r.0 == 0
  {
    if mkdirFails then (0, Some(MkdirFailed))
    else if fault == Some(OpenFault) then (0, Some(OpenFailed))
    else
      var lines := Delivered(if f.present then f.content else "", fault);
      match LastLineValue(lines)
      case None => (0, Some(NotAnInteger))
      case Some(v) => if fault.Some? then (0, Some(ScanFailed)) else (v, None)
  }

  /** The state file after GetLastProcessedLine: opening with O_CREATE creates it, empty, when it is missing. */
  function AfterRead(f: FileState, mkdirFails: bool, fault: Option<ReadFault>): (g: FileState)
    ensures g.writes == f.writes
    ensures f.present ==> g == f
    ensures g.present ==> g.content == (if f.present then f.content else "")
  {
    if f.present || mkdirFails || fault == Some(OpenFault) then f else f.(present := true, content := "")
  }

  /** The write-side error: each failing stage is reported. */
  function UpdateResult(fault: Option<WriteFault>): (err: Option<TrackerError>)
    ensures err.None? <==> fault.None?
  {
    match fault
    case None => None
    case Some(w) => Some(UpdateFailed(w))
  }

  class FileProcessedLineTracker {
    const stateFile: StateFile

    constructor (stateFile: StateFile)
      ensures this.stateFile == stateFile
    {
      this.stateFile := stateFile;
    }

    /** Reads the checkpoint; `mkdirFails` and `fault` are the operating system's answers. */
    method GetLastProcessedLine(mkdirFails: bool, fault: Option<ReadFault>) returns (n: int, err: Option<TrackerError>)
      modifies stateFile
      ensures (n, err) == ReadCheckpoint(old(stateFile.State()), mkdirFails, fault)
      ensures stateFile.State() == AfterRead(old(stateFile.State()), mkdirFails, fault)
    {
      if mkdirFails {
        return 0, Some(MkdirFailed);
      }
      if fault == Some(OpenFault) {
        return 0, Some(OpenFailed);
      }
      if !stateFile.present {
        stateFile.present, stateFile.content := true, "";
      }
      var lines := Delivered(stateFile.content, fault);
      var last := ScanLastLine(lines);
      if last.None? {
        return 0, Some(NotAnInteger);
      }
      if fault.Some? {
        return 0, Some(ScanFailed);
      }
      return last.value, None;
    }

    /** Stores `lineNumber`; `fault` is the stage at which the operating system fails, if any. */
    method UpdateLastProcessedLine(lineNumber: int, fault: Option<WriteFault>) returns (err: Option<TrackerError>)
      modifies stateFile
      ensures stateFile.State() == AfterUpdate(old(stateFile.State()), lineNumber, fault)
      ensures err == UpdateResult(fault)
    {
      stateFile.Rewrite(lineNumber, fault);
      err := UpdateResult(fault);
    }
  }

  /**
   * The round trip: after an update that stores `n` succeeds, whatever the
   * file held before, a later read (after a restart too, since only the file
   * carries the value) returns `n` and no error.
   */
  lemma UpdateThenRead(f: FileState, n: int)
    requires MinInt <= n <= MaxInt
    ensures ReadCheckpoint(AfterUpdate(f, n, None), false, None) == (n, None)
  {
    DecimalFileReadsBack(n);
  }

  /**
   * A failed update does not always keep the old value: when only the sync
   * fails, the error is reported yet a later read returns the new number.
   */
  lemma SyncFaultKeepsNumber(f: FileState, n: int)
    requires MinInt <= n <= MaxInt
    ensures UpdateResult(Some(SyncFault)).Some?
    ensures ReadCheckpoint(AfterUpdate(f, n, Some(SyncFault)), false, None) == (n, None)
  {
    DecimalFileReadsBack(n);
  }

  /** A missing or empty state file reads as 0 without error, and a missing one is created empty. */
  lemma FreshFileReadsZero(f: FileState)
    requires !f.present || f.content == ""
    ensures ReadCheckpoint(f, false, None) == (0, None)
    ensures AfterRead(f, false, None).present && AfterRead(f, false, None).content == ""
  {
  }

  /** With several integer lines, terminated by line feeds, the one on the last line is returned. */
  lemma {:induction false} LastLineWins(f: FileState, lines: seq<string>)
    requires f.present && f.content == Terminated(lines) && lines != []
    requires forall k :: 0 <= k < |lines| ==> PlainLine(lines[k]) && Atoi(lines[k]).Some?
    ensures ReadCheckpoint(f, false, None) == (Atoi(lines[|lines| - 1]).value, None)
  {
    ScanTerminated(lines);
  }

  /** The same when the last line lacks its line feed: it is still the one returned. */
  lemma LastUnterminatedLineWins(f: FileState, lines: seq<string>, final: string)
    requires f.present && f.content == Terminated(lines) + final && final != [] && PlainLine(final)
    requires forall k :: 0 <= k < |lines| ==> PlainLine(lines[k]) && Atoi(lines[k]).Some?
    requires Atoi(final).Some?
    ensures ReadCheckpoint(f, false, None) == (Atoi(final).value, None)
  {
    var all := lines + [final];
    ScanUnterminatedLast(lines, final);
    assert forall k :: 0 <= k < |all| ==> Atoi(all[k]).Some?;
    ReadsLastLine(f, all);
  }

  /** When every line the file holds is an integer, the read returns the one on the last line. */
  lemma ReadsLastLine(f: FileState, all: seq<string>)
    requires f.present && all != [] && ScanLines(f.content) == all
    requires forall k :: 0 <= k < |all| ==> Atoi(all[k]).Some?
    ensures ReadCheckpoint(f, false, None) == (Atoi(all[|all| - 1]).value, None)
  {
  }

  /** One line that is not an integer makes the read fail with value 0, whatever the other lines hold. */
  lemma BadLineIsError(f: FileState, k: nat)
    requires f.present && k < |ScanLines(f.content)| && Atoi(ScanLines(f.content)[k]).None?
    ensures ReadCheckpoint(f, false, None).0 == 0
    ensures ReadCheckpoint(f, false, None).1.Some? && ReadCheckpoint(f, false, None).1.value.NotAnInteger?
  {
  }

  /** A failed directory creation or open fails the read with value 0; a read error fails it too. */
  lemma ReadFaultsAreErrors(f: FileState, mkdirFails: bool, fault: Option<ReadFault>)
    requires mkdirFails || fault.Some?
    ensures ReadCheckpoint(f, mkdirFails, fault).0 == 0 && ReadCheckpoint(f, mkdirFails, fault).1.Some?
  {
  }

  /** A successful update leaves exactly the decimal text of the new value, whatever the file held. */
  lemma UpdateTruncates(f: FileState, g: FileState, n: int)
    requires f.writes == g.writes
    ensures AfterUpdate(f, n, None) == AfterUpdate(g, n, None)
    ensures AfterUpdate(f, n, None).present && AfterUpdate(f, n, None).content == FormatInt(n)
  {
  }

  /**
   * A restart in miniature: a tracker stores `n` in a state file, a new
   * tracker over the same file reads it back.
   */
  method CheckpointSurvivesRestart(n: int, present: bool, previous: string) returns (m: int, err: Option<TrackerError>)
    requires MinInt <= n <= MaxInt
    ensures m == n && err.None?
  {
    var file := new StateFile(present, previous);
    var before := new FileProcessedLineTracker(file);
    var e := before.UpdateLastProcessedLine(n, None);
    var after := new FileProcessedLineTracker(file);
    UpdateThenRead(FileState(present, previous, []), n);
    m, err := after.GetLastProcessedLine(false, None);
  }
}
