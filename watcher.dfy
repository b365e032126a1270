/**
 * The older revision of the tail engine. Its checkpoint lives in a fixed
 * state file that it reads and rewrites itself; reading never fails (every
 * problem reads as 0), a failed notification only skips that line's
 * checkpoint, and every other line past the checkpoint is checkpointed,
 * whether or not it was an event. Only a failed checkpoint write (or a
 * parse panic) ends the pass.
 */
module Watcher {
  import opened Wrappers
  import opened Notifier
  import opened Classifier
  import opened Tail
  import opened StateFile
  import LineTracker
  import App

  /** The fixed location of the state file. */
  const StateFilePath: string := "/var/lib/ssh-watcher/authlog-state"

  /** The watch flags; the sleep interval only paces the loop. */
  datatype WatchSettings = WatchSettings(
    WatchAcceptedLogins: bool,
    WatchFailedLogins: bool,
    WatchFailedLoginInvalidUsername: bool,
    WatchSleepInterval: int)

  /** Why a pass ends early. */
  datatype WatcherError = ParsePanic | UpdateFailed(fault: WriteFault)

  /** shouldSendMessage, with this revision's flag names. */
  function ShouldSendMessage(ws: WatchSettings, t: EventType): (r: bool)
    ensures t == LoggedIn ==> (r <==> ws.WatchAcceptedLogins)
    ensures t == FailedLoginAttempt ==> (r <==> ws.WatchFailedLogins)
    ensures t == FailedLoginAttemptInvalidUsername ==> (r <==> ws.WatchFailedLoginInvalidUsername)
    ensures r ==> t == LoggedIn || t == FailedLoginAttempt || t == FailedLoginAttemptInvalidUsername
  {
    if t == LoggedIn then ws.WatchAcceptedLogins
    else if t == FailedLoginAttempt then ws.WatchFailedLogins
    else if t == FailedLoginAttemptInvalidUsername then ws.WatchFailedLoginInvalidUsername
    else false
  }

  /** The same settings under the newer revision's names. */
  function AsAppSettings(ws: WatchSettings): (a: App.WatchSettings)
    ensures a.AcceptedLogins == ws.WatchAcceptedLogins && a.FailedLogins == ws.WatchFailedLogins
    ensures a.FailedLoginInvalidUsername == ws.WatchFailedLoginInvalidUsername
  {
    App.WatchSettings(ws.WatchAcceptedLogins, ws.WatchFailedLogins, ws.WatchFailedLoginInvalidUsername,
                      ws.WatchSleepInterval)
  }

  /** Both revisions gate every kind alike. */
  lemma SameGatingAsApp(ws: WatchSettings, t: EventType)
    ensures ShouldSendMessage(ws, t) == App.ShouldSendMessage(AsAppSettings(ws), t)
  {
  }

  /**
   * getLastProcessedLine for a file in state `f` with read fault `fault`:
   * 0 when the file is missing, cannot be opened, holds a line that is not an
   * integer or cannot be read to the end; the integer on the last line
   * otherwise. It is the value the newer line tracker reads, with its errors
   * read as 0.
   */
  function WatcherCheckpoint(f: FileState, fault: Option<ReadFault>): (n: int)
    ensures n == LineTracker.ReadCheckpoint(f, false, fault).0
    ensures LineTracker.ReadCheckpoint(f, false, fault).1.Some? ==> n == 0
  {
    if !f.present || fault == Some(OpenFault) then 0
    else
      match LastLineValue(Delivered(f.content, fault))
      case None => 0
      case Some(v) => if fault.Some? then 0 else v
  }

  /** A parsed line whose kind is to be sent. */
  predicate Sends(ws: WatchSettings, p: ParseResult)
  {
    p.Parsed? && ShouldSendMessage(ws, p.logLine.EventType)
  }

  /**
   * The body of processNewLogLines' loop for line `n`, whose parse is `p`,
   * with the oracle `nf` for notifications and the write fault `wf(n)` for
   * line `n`'s checkpoint.
   */
  function ProcessLineSpec(ws: WatchSettings, nf: nat -> bool, wf: int -> Option<WriteFault>,
                           calls: seq<LogLine>, f: FileState, p: ParseResult, n: int): (r: (seq<LogLine>, FileState, Option<WatcherError>))
    ensures p.IndexOutOfRange? ==> r == (calls, f, Some(ParsePanic))
    ensures r.0 == calls || (Sends(ws, p) && r.0 == calls + [p.logLine])
    ensures r.1 == f || r.1 == AfterUpdate(f, n, wf(n))
    ensures Sends(ws, p) && nf(|calls|) ==> r.1 == f && r.2.None?
    ensures p.Parsed? && !Sends(ws, p) ==> r.0 == calls && r.1 == AfterUpdate(f, n, wf(n))
    ensures r.2.Some? ==> r.2 == Some(ParsePanic) || (wf(n).Some? && r.2 == Some(UpdateFailed(wf(n).value)))
  {
    match p
    case IndexOutOfRange => (calls, f, Some(ParsePanic))
    case Parsed(l) =>
      var send := ShouldSendMessage(ws, l.EventType);
      var calls' := if send then calls + [l] else calls;
      if send && nf(|calls|) then (calls', f, None)
      else
        var f' := AfterUpdate(f, n, wf(n));
        (calls', f', if wf(n).Some? then Some(UpdateFailed(wf(n).value)) else None)
  }

  /** The pass from line `i` on, with checkpoint `lp`, over the parses `ps` of the lines. */
  function Drain(ws: WatchSettings, nf: nat -> bool, wf: int -> Option<WriteFault>, ps: seq<ParseResult>, lp: int,
                 i: nat, calls: seq<LogLine>, f: FileState): (r: (seq<LogLine>, FileState, Option<WatcherError>))
    requires i <= |ps|
    ensures calls <= r.0 && f.writes <= r.1.writes
    decreases |ps| - i
  {
    if i == |ps| then (calls, f, None)
    else if i <= lp then Drain(ws, nf, wf, ps, lp, i + 1, calls, f)
    else
      var step := ProcessLineSpec(ws, nf, wf, calls, f, ps[i], i);
      if step.2.Some? then step
      else Drain(ws, nf, wf, ps, lp, i + 1, step.0, step.1)
  }

  /**
   * The reference for a pass without write faults or panics: every line
   * past the checkpoint, except those whose notification was sent and failed.
   * `sent` counts the notifications made so far.
   */
  function WrittenLines(ws: WatchSettings, nf: nat -> bool, ps: seq<ParseResult>, lp: int, i: nat, sent: nat): (s: seq<int>)
    requires i <= |ps|
    ensures forall k :: 0 <= k < |s| ==> lp < s[k] && i <= s[k] < |ps|
    decreases |ps| - i
  {
    if i == |ps| then []
    else if i <= lp then WrittenLines(ws, nf, ps, lp, i + 1, sent)
    else if Sends(ws, ps[i]) then
      (if nf(sent) then [] else [i]) + WrittenLines(ws, nf, ps, lp, i + 1, sent + 1)
    else [i] + WrittenLines(ws, nf, ps, lp, i + 1, sent)
  }

  class LogWatcher {
    const LogFile: string
    const notifier: NotifierClient
    const HostMachine: string
    const watchSettings: WatchSettings
    const stateFile: StateFile

    constructor (logFile: string, notifier: NotifierClient, hostMachine: string, watchSettings: WatchSettings,
                 stateFile: StateFile)
      ensures LogFile == logFile && this.notifier == notifier && HostMachine == hostMachine
      ensures this.watchSettings == watchSettings && this.stateFile == stateFile
    {
      LogFile := logFile;
      this.notifier := notifier;
      HostMachine := hostMachine;
      this.watchSettings := watchSettings;
      this.stateFile := stateFile;
    }

    /** getLastProcessedLine: reads, never creates and never fails. */
    method GetLastProcessedLine(fault: Option<ReadFault>) returns (n: int)
      ensures n == WatcherCheckpoint(stateFile.State(), fault)
    {
      if !stateFile.present {
        return 0;
      }
      if fault == Some(OpenFault) {
        return 0;
      }
      var last := ScanLastLine(Delivered(stateFile.content, fault));
      if last.None? || fault.Some? {
        return 0;
      }
      return last.value;
    }

    /** updateLastProcessedLine: truncate-and-write of the decimal text. */
    method UpdateLastProcessedLine(lineNumber: int, fault: Option<WriteFault>) returns (err: Option<WatcherError>)
      modifies stateFile
      ensures stateFile.State() == AfterUpdate(old(stateFile.State()), lineNumber, fault)
      ensures err.None? <==> fault.None?
      ensures err.Some? ==> err.value == UpdateFailed(fault.value)
    {
      stateFile.Rewrite(lineNumber, fault);
      if fault.Some? {
        return Some(UpdateFailed(fault.value));
      }
      return None;
    }

    /**
     * The body of processNewLogLines' loop for one line past the checkpoint:
     * parse, filter, notify (a failed notification only skips the
     * checkpoint), then checkpoint the line.
     */
    method HandleLine(line: string, lineNumber: int, writeFaults: int -> Option<WriteFault>)
      returns (err: Option<WatcherError>)
      modifies notifier, stateFile
      ensures (notifier.calls, stateFile.State(), err) ==
              ProcessLineSpec(watchSettings, notifier.fails, writeFaults, old(notifier.calls), old(stateFile.State()),
                              ParseLogLine(line), lineNumber)
    {
      var parsed := ScanLogLine(line);
      if parsed.IndexOutOfRange? {
        return Some(ParsePanic);
      }
      var logLine := parsed.logLine;
      if ShouldSendMessage(watchSettings, logLine.EventType) {
        var sent := notifier.Notify(logLine);
        if !sent {
          return None;
        }
      }
      err := UpdateLastProcessedLine(lineNumber, writeFaults(lineNumber));
    }

    /**
     * processNewLogLines over the lines the scanner delivers, numbered from 0;
     * `writeFaults` gives the fault each line's checkpoint write meets.
     */
    method ProcessNewLogLines(lines: seq<string>, lastProcessedLine: int, writeFaults: int -> Option<WriteFault>)
      returns (err: Option<WatcherError>)
      modifies notifier, stateFile
      ensures (notifier.calls, stateFile.State(), err) ==
              Drain(watchSettings, notifier.fails, writeFaults, Parses(lines), lastProcessedLine, 0,
                    old(notifier.calls), old(stateFile.State()))
    {
      ghost var ps := Parses(lines);
      var lineNumber := 0;
      while lineNumber < |lines|
        invariant 0 <= lineNumber <= |lines|
        invariant Drain(watchSettings, notifier.fails, writeFaults, ps, lastProcessedLine, 0,
                        old(notifier.calls), old(stateFile.State())) ==
                  Drain(watchSettings, notifier.fails, writeFaults, ps, lastProcessedLine, lineNumber,
                        notifier.calls, stateFile.State())
      {
        if lineNumber <= lastProcessedLine {
          DrainSkip(watchSettings, notifier.fails, writeFaults, ps, lastProcessedLine, lineNumber,
                    notifier.calls, stateFile.State());
          lineNumber := lineNumber + 1;
          continue;
        }
        DrainStep(watchSettings, notifier.fails, writeFaults, ps, lastProcessedLine, lineNumber,
                  notifier.calls, stateFile.State());
        err := HandleLine(lines[lineNumber], lineNumber, writeFaults);
        if err.Some? {
          return;
        }
        lineNumber := lineNumber + 1;
      }
      return None;
    }

    /**
     * One iteration of the watch loop. `readFault` is what reading the state
     * file meets. The error a pass returns is handed to a fatal-level log
     * event that is never dispatched (it is given no message), so the process
     * does not exit: the offset moves to the observed size whether or not the
     * pass failed, and the loop goes on. Only a parse panic, which `err`
     * reports as `ParsePanic`, really ends the process.
     */
    method WatchStep(c: Cursor, stat: FileInfo, reopened: FileInfo, lines: seq<string>,
                     readFault: Option<ReadFault>, writeFaults: int -> Option<WriteFault>)
      returns (next: Cursor, err: Option<WatcherError>)
      modifies notifier, stateFile
      ensures !Poll(c, stat, reopened).drain ==>
                err.None? && notifier.calls == old(notifier.calls) && stateFile.State() == old(stateFile.State())
      ensures Poll(c, stat, reopened).drain ==>
                (notifier.calls, stateFile.State(), err) ==
                Drain(watchSettings, notifier.fails, writeFaults, Parses(lines),
                      WatcherCheckpoint(old(stateFile.State()), readFault), 0,
                      old(notifier.calls), old(stateFile.State()))
      ensures next == NextCursor(c, stat, reopened)
    {
      var d := Poll(c, stat, reopened);
      var recorded := if d.rotated then d.current else c.lastFileInfo;
      next := Cursor(recorded, d.baseline);
      if !d.drain {
        return next, None;
      }
      var lastProcessedLine := GetLastProcessedLine(readFault);
      err := ProcessNewLogLines(lines, lastProcessedLine, writeFaults);
      next := Cursor(recorded, d.current.size);
    }
  }

  /** A line up to the checkpoint is passed over. */
  lemma DrainSkip(ws: WatchSettings, nf: nat -> bool, wf: int -> Option<WriteFault>, ps: seq<ParseResult>, lp: int,
                  i: nat, calls: seq<LogLine>, f: FileState)
    requires i < |ps| && i <= lp
    ensures Drain(ws, nf, wf, ps, lp, i, calls, f) == Drain(ws, nf, wf, ps, lp, i + 1, calls, f)
  {
  }

  /** A line past the checkpoint either ends the pass with its error or hands its effects on to the next line. */
  lemma DrainStep(ws: WatchSettings, nf: nat -> bool, wf: int -> Option<WriteFault>, ps: seq<ParseResult>, lp: int,
                  i: nat, calls: seq<LogLine>, f: FileState)
    requires i < |ps| && lp < i
    ensures var step := ProcessLineSpec(ws, nf, wf, calls, f, ps[i], i);
            Drain(ws, nf, wf, ps, lp, i, calls, f) ==
            if step.2.Some? then step else Drain(ws, nf, wf, ps, lp, i + 1, step.0, step.1)
  {
  }

  /** A failed notification does not end the pass: that line is not checkpointed and the pass goes on. */
  lemma NotifyFailureSkipsLine(ws: WatchSettings, nf: nat -> bool, wf: int -> Option<WriteFault>,
                               ps: seq<ParseResult>, lp: int, i: nat, calls: seq<LogLine>, f: FileState)
    requires lp < i < |ps|
    requires Sends(ws, ps[i]) && nf(|calls|)
    ensures Drain(ws, nf, wf, ps, lp, i, calls, f) == Drain(ws, nf, wf, ps, lp, i + 1, calls + [ps[i].logLine], f)
  {
  }

  /** A line that is not sent (no event, or its kind filtered out) is still checkpointed. */
  lemma UnsentLineIsCheckpointed(ws: WatchSettings, nf: nat -> bool, wf: int -> Option<WriteFault>,
                                 ps: seq<ParseResult>, lp: int, i: nat, calls: seq<LogLine>, f: FileState)
    requires lp < i < |ps|
    requires ps[i].Parsed? && !Sends(ws, ps[i]) && wf(i).None?
    ensures Drain(ws, nf, wf, ps, lp, i, calls, f) == Drain(ws, nf, wf, ps, lp, i + 1, calls, AfterUpdate(f, i, None))
  {
  }

  /** A failed checkpoint write ends the pass with that fault. */
  lemma WriteFaultEndsPass(ws: WatchSettings, nf: nat -> bool, wf: int -> Option<WriteFault>,
                           ps: seq<ParseResult>, lp: int, i: nat, calls: seq<LogLine>, f: FileState)
    requires lp < i < |ps|
    requires ps[i].Parsed? && wf(i).Some?
    requires !(Sends(ws, ps[i]) && nf(|calls|))
    ensures Drain(ws, nf, wf, ps, lp, i, calls, f).2 == Some(UpdateFailed(wf(i).value))
    ensures Drain(ws, nf, wf, ps, lp, i, calls, f).1 == AfterUpdate(f, i, wf(i))
  {
  }

  /** Lines up to the checkpoint play no part. */
  lemma {:induction false} DrainSkipsCheckpointed(ws: WatchSettings, nf: nat -> bool, wf: int -> Option<WriteFault>,
                                                  ps: seq<ParseResult>, other: seq<ParseResult>, lp: int, i: nat,
                                                  calls: seq<LogLine>, f: FileState)
    requires i <= |ps| == |other|
    requires forall k :: 0 <= k < |ps| && lp < k ==> ps[k] == other[k]
    ensures Drain(ws, nf, wf, ps, lp, i, calls, f) == Drain(ws, nf, wf, other, lp, i, calls, f)
    decreases |ps| - i
  {
    if i < |ps| {
      var step := ProcessLineSpec(ws, nf, wf, calls, f, ps[i], i);
      DrainSkipsCheckpointed(ws, nf, wf, ps, other, lp, i + 1, calls, f);
      DrainSkipsCheckpointed(ws, nf, wf, ps, other, lp, i + 1, step.0, step.1);
    }
  }

  /** The outcome of a pass from line `i` without write faults or panics. */
  predicate CleanPass(ws: WatchSettings, nf: nat -> bool, wf: int -> Option<WriteFault>, ps: seq<ParseResult>, lp: int,
                      i: nat, calls: seq<LogLine>, f: FileState)
    requires i <= |ps|
  {
    var r := Drain(ws, nf, wf, ps, lp, i, calls, f);
    r.2.None? && r.1.writes == f.writes + WrittenLines(ws, nf, ps, lp, i, |calls|)
  }

  /**
   * Without write faults or panics, the pass succeeds and checkpoints every
   * line past the checkpoint whose notification did not fail, in order.
   */
  lemma {:induction false} DrainWithoutWriteFaults(ws: WatchSettings, nf: nat -> bool, wf: int -> Option<WriteFault>,
                                                   ps: seq<ParseResult>, lp: int, i: nat, calls: seq<LogLine>, f: FileState)
    requires i <= |ps|
    requires forall k: int :: wf(k).None?
    requires forall k :: i <= k < |ps| && lp < k ==> ps[k].Parsed?
    ensures CleanPass(ws, nf, wf, ps, lp, i, calls, f)
    decreases |ps| - i
  {
    if i == |ps| {
      assert f.writes + [] == f.writes;
    } else if i <= lp {
      DrainWithoutWriteFaults(ws, nf, wf, ps, lp, i + 1, calls, f);
    } else {
      var step := ProcessLineSpec(ws, nf, wf, calls, f, ps[i], i);
      DrainWithoutWriteFaults(ws, nf, wf, ps, lp, i + 1, step.0, step.1);
      CleanPassStep(ws, nf, wf, ps, lp, i, calls, f);
    }
  }

  lemma CleanPassStep(ws: WatchSettings, nf: nat -> bool, wf: int -> Option<WriteFault>, ps: seq<ParseResult>, lp: int,
                      i: nat, calls: seq<LogLine>, f: FileState)
    requires lp < i < |ps| && wf(i).None? && ps[i].Parsed?
    requires var step := ProcessLineSpec(ws, nf, wf, calls, f, ps[i], i);
             CleanPass(ws, nf, wf, ps, lp, i + 1, step.0, step.1)
    ensures CleanPass(ws, nf, wf, ps, lp, i, calls, f)
  {
    var step := ProcessLineSpec(ws, nf, wf, calls, f, ps[i], i);
    var r := Drain(ws, nf, wf, ps, lp, i + 1, step.0, step.1);
    assert Drain(ws, nf, wf, ps, lp, i, calls, f) == r;
    var send := Sends(ws, ps[i]);
    var sent := if send then |calls| + 1 else |calls|;
    assert |step.0| == sent;
    var rest := WrittenLines(ws, nf, ps, lp, i + 1, sent);
    var head: seq<int> := if send && nf(|calls|) then [] else [i];
    assert WrittenLines(ws, nf, ps, lp, i, |calls|) == head + rest;
    assert step.1.writes == f.writes + head;
    JoinWrites(r.1.writes, f.writes, step.1.writes, head, rest);
  }

  lemma JoinWrites(all: seq<int>, before: seq<int>, middle: seq<int>, head: seq<int>, rest: seq<int>)
    requires middle == before + head && all == middle + rest
    ensures all == before + (head + rest)
  {
  }

  /**
   * After a pass without failures of any kind, the state file reads back the
   * number of the input's last line, so a restart resumes after it.
   */
  lemma CleanPassLeavesLastLine(ws: WatchSettings, nf: nat -> bool, wf: int -> Option<WriteFault>,
                                ps: seq<ParseResult>, lp: int, calls: seq<LogLine>, f: FileState)
    requires forall k: int :: wf(k).None?
    requires forall k: nat :: !nf(k)
    requires forall k :: 0 <= k < |ps| && lp < k ==> ps[k].Parsed?
    requires 0 <= lp < |ps| - 1 && |ps| - 1 <= Strconv.MaxInt
    ensures WatcherCheckpoint(Drain(ws, nf, wf, ps, lp, 0, calls, f).1, None) == |ps| - 1
  {
    LastWriteWins(ws, nf, wf, ps, lp, 0, calls, f);
  }

  /** A pass that checkpoints line `i` last leaves exactly its decimal text. */
  lemma {:induction false} LastWriteWins(ws: WatchSettings, nf: nat -> bool, wf: int -> Option<WriteFault>,
                                         ps: seq<ParseResult>, lp: int, i: nat, calls: seq<LogLine>, f: FileState)
    requires forall k: int :: wf(k).None?
    requires forall k: nat :: !nf(k)
    requires forall k :: i <= k < |ps| && lp < k ==> ps[k].Parsed?
    requires i <= |ps| - 1 && lp < |ps| - 1 && |ps| - 1 <= Strconv.MaxInt
    ensures WatcherCheckpoint(Drain(ws, nf, wf, ps, lp, i, calls, f).1, None) == |ps| - 1
    decreases |ps| - i
  {
    var n := |ps| - 1;
    if i <= lp {
      DrainSkip(ws, nf, wf, ps, lp, i, calls, f);
      LastWriteWins(ws, nf, wf, ps, lp, i + 1, calls, f);
    } else {
      var step := ProcessLineSpec(ws, nf, wf, calls, f, ps[i], i);
      assert step.1 == AfterUpdate(f, i, None) && step.2.None?;
      DrainStep(ws, nf, wf, ps, lp, i, calls, f);
      if i < n {
        LastWriteWins(ws, nf, wf, ps, lp, i + 1, step.0, step.1);
      } else {
        assert Drain(ws, nf, wf, ps, lp, i + 1, step.0, step.1).1 == step.1;
        LineTracker.UpdateThenRead(f, n);
      }
    }
  }

  // ---------------------------------------------------------------------------
  // Which lines a pass sees, as the source writes it.

  /** A pass over no more lines than the checkpoint covers looks at none of them. */
  lemma {:induction false} ShortPassSkipsAll(ws: WatchSettings, nf: nat -> bool, wf: int -> Option<WriteFault>,
                                             ps: seq<ParseResult>, lp: int, i: nat, calls: seq<LogLine>, f: FileState)
    requires i <= |ps| <= lp + 1
    ensures Drain(ws, nf, wf, ps, lp, i, calls, f) == (calls, f, None)
    decreases |ps| - i
  {
    if i < |ps| {
      DrainSkip(ws, nf, wf, ps, lp, i, calls, f);
      ShortPassSkipsAll(ws, nf, wf, ps, lp, i + 1, calls, f);
    }
  }

  /**
   * As written, appended lines are skipped unseen: the scanner resumes on the
   * open handle and numbers the appended lines from 0, so while there are no
   * more of them than the lines read before, all are at or below the
   * checkpoint and none is notified or checkpointed, whatever it holds.
   */
  lemma AppendedLinesSkippedAsWritten(ws: WatchSettings, nf: nat -> bool, wf: int -> Option<WriteFault>,
                                      earlier: seq<string>, more: seq<string>, calls: seq<LogLine>, f: FileState)
    requires |more| <= |earlier|
    ensures Drain(ws, nf, wf, Parses(ResumedLines(earlier + more, |earlier|)), |earlier| - 1, 0, calls, f) ==
            (calls, f, None)
  {
    ShortPassSkipsAll(ws, nf, wf, Parses(ResumedLines(earlier + more, |earlier|)), |earlier| - 1, 0, calls, f);
  }

  /**
   * Numbering the lines from the start of the file, as the checkpoint does,
   * a line appended to a file read up to its last line is notified, and the
   * state file then reads back its number `|earlier|`, when nothing fails.
   */
  lemma AppendedLineNotified(ws: WatchSettings, nf: nat -> bool, wf: int -> Option<WriteFault>,
                             earlier: seq<string>, line: string, calls: seq<LogLine>, f: FileState)
    requires forall k: int :: wf(k).None?
    requires forall k: nat :: !nf(k)
    requires ParseLogLine(line).Parsed? && ShouldSendMessage(ws, EventTypeOf(line))
    requires |earlier| <= Strconv.MaxInt
    ensures var r := Drain(ws, nf, wf, Parses(earlier + [line]), |earlier| - 1, 0, calls, f);
            r.2.None? && r.0 == calls + [ParseLogLine(line).logLine] && r.1.writes == f.writes + [|earlier|] &&
            WatcherCheckpoint(r.1, None) == |earlier|
  {
    var ps := Parses(earlier + [line]);
    var n := |earlier|;
    assert (earlier + [line])[n] == line;
    assert ps[n] == ParseLogLine(line);
    SkipToCheckpoint(ws, nf, wf, ps, n - 1, 0, calls, f);
    DrainStep(ws, nf, wf, ps, n - 1, n, calls, f);
    LineTracker.UpdateThenRead(f, n);
  }

  /** The lines up to the checkpoint are passed over: the pass continues from the line after it. */
  lemma {:induction false} SkipToCheckpoint(ws: WatchSettings, nf: nat -> bool, wf: int -> Option<WriteFault>,
                                            ps: seq<ParseResult>, lp: int, i: nat, calls: seq<LogLine>, f: FileState)
    requires i <= lp + 1 <= |ps|
    ensures Drain(ws, nf, wf, ps, lp, i, calls, f) == Drain(ws, nf, wf, ps, lp, lp + 1, calls, f)
    decreases lp + 1 - i
  {
    if i < lp + 1 {
      DrainSkip(ws, nf, wf, ps, lp, i, calls, f);
      SkipToCheckpoint(ws, nf, wf, ps, lp, i + 1, calls, f);
    }
  }
}
