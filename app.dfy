/**
 * The newer revision of the tail engine. A line is checkpointed only after
 * its notification was sent; the first error of any kind ends the pass and is
 * returned to the caller, which ends the watch loop.
 *
 * The notifier and the line tracker are collaborators seen through their
 * interfaces: `NotifierClient` (an oracle decides each call's outcome) and
 * `ProcessedLineTracker` (a stored value and an oracle for each write).
 *
 * A pass is specified over the parse of each line it reads (`Parses`), in
 * the order the loop reads them.
 */
module App {
  import opened Wrappers
  import opened Notifier
  import opened Classifier
  import opened Tail

  /** The watch flags; the sleep interval (in seconds) only paces the loop. */
  datatype WatchSettings = WatchSettings(
    AcceptedLogins: bool,
    FailedLogins: bool,
    FailedLoginInvalidUsername: bool,
    SleepInterval: int)

  /** Why a pass, or an iteration of the watch loop, stops. */
  datatype AppError =
    | NotifyFailed
    | UpdateFailed
    | ParsePanic
    | GetLastProcessedLineFailed

  /** shouldSendMessage: each known kind is gated by its own flag; no other kind is ever sent. */
  function ShouldSendMessage(ws: WatchSettings, t: EventType): (r: bool)
    ensures t == LoggedIn ==> (r <==> ws.AcceptedLogins)
    ensures t == FailedLoginAttempt ==> (r <==> ws.FailedLogins)
    ensures t == FailedLoginAttemptInvalidUsername ==> (r <==> ws.FailedLoginInvalidUsername)
    ensures r ==> t == LoggedIn || t == FailedLoginAttempt || t == FailedLoginAttemptInvalidUsername
  {
    if t == LoggedIn && ws.AcceptedLogins then true
    else if t == FailedLoginAttempt && ws.FailedLogins then true
    else if t == FailedLoginAttemptInvalidUsername && ws.FailedLoginInvalidUsername then true
    else false
  }

  /** A parsed line whose kind is to be sent. */
  predicate Sends(ws: WatchSettings, p: ParseResult)
  {
    p.Parsed? && ShouldSendMessage(ws, p.logLine.EventType)
  }

  /** What the collaborators have seen: every notification sent, every checkpoint write tried, the stored checkpoint. */
  datatype Effects = Effects(calls: seq<LogLine>, writes: seq<int>, last: int)

  /**
   * processLine on line `n`, whose parse is `p`, given the oracles `nf`
   * (does notification number k fail?) and `wf` (does write number k fail,
   * and which value does the tracker hold after it?). A marker in last place
   * panics even when the kind is filtered out.
   */
  function ProcessLineSpec(ws: WatchSettings, nf: nat -> bool, wf: nat -> Option<int>, e: Effects,
                           p: ParseResult, n: int): (r: (Effects, Option<AppError>))
    ensures p.IndexOutOfRange? ==> r == (e, Some(ParsePanic))
    ensures p.Parsed? && !Sends(ws, p) ==> r == (e, None)
    ensures r.0.calls == e.calls || (p.Parsed? && r.0.calls == e.calls + [p.logLine])
    ensures Sends(ws, p) ==> r.0.calls == e.calls + [p.logLine]
    ensures r.0.writes == e.writes ||
            (r.0.writes == e.writes + [n] && r.0.calls != e.calls && !nf(|e.calls|))
    ensures r.1 == Some(NotifyFailed) <==> Sends(ws, p) && nf(|e.calls|)
    ensures Sends(ws, p) && !nf(|e.calls|) ==>
              (r.1 == Some(UpdateFailed) <==> wf(|e.writes|).Some?) && r.0.writes == e.writes + [n]
    ensures r.1 == Some(NotifyFailed) ==> r.0.writes == e.writes && r.0.last == e.last
    ensures r.1 == Some(UpdateFailed) ==> r.0.last == wf(|e.writes|).value
    ensures r.1.None? ==> (r.0.writes == e.writes + [n] <==> Sends(ws, p))
    ensures r.1.None? ==> r.0.last == (if r.0.writes == e.writes then e.last else n)
  {
    match p
    case IndexOutOfRange => (e, Some(ParsePanic))
    case Parsed(l) =>
      if !ShouldSendMessage(ws, l.EventType) then (e, None)
      else if nf(|e.calls|) then (e.(calls := e.calls + [l]), Some(NotifyFailed))
      else
        var sent := e.(calls := e.calls + [l], writes := e.writes + [n]);
        match wf(|e.writes|)
        case Some(held) => (sent.(last := held), Some(UpdateFailed))
        case None => (sent.(last := n), None)
  }

  /**
   * processNewLogLines from line `i` on, with checkpoint `lp`, over the
   * parses `ps` of the lines: lines up to the checkpoint are skipped, the
   * others processed in order until the first error. It only ever adds
   * notifications and checkpoint writes.
   */
  function Drain(ws: WatchSettings, nf: nat -> bool, wf: nat -> Option<int>, ps: seq<ParseResult>, lp: int,
                 i: nat, e: Effects): (r: (Effects, Option<AppError>))
    requires i <= |ps|
    ensures e.writes <= r.0.writes && e.calls <= r.0.calls
    decreases |ps| - i
  {
    if i == |ps| then (e, None)
    else if i <= lp then Drain(ws, nf, wf, ps, lp, i + 1, e)
    else
      var step := ProcessLineSpec(ws, nf, wf, e, ps[i], i);
      if step.1.Some? then step
      else
        Drain(ws, nf, wf, ps, lp, i + 1, step.0)
  }

  /** The entries of `s` from index `from` on strictly increase. */
  predicate AscendingFrom(s: seq<int>, from: nat)
  {
    forall a, b :: from <= a < b < |s| ==> s[a] < s[b]
  }

  /** The entries of `s` from index `from` on are line numbers past `lp`, at least `lo` and below `hi`. */
  predicate LinesWithin(s: seq<int>, from: nat, lp: int, lo: int, hi: int)
  {
    forall k :: from <= k < |s| ==> lp < s[k] && lo <= s[k] < hi
  }

  /**
   * The checkpoint writes a pass adds are strictly increasing line numbers
   * past the checkpoint, and each names a line of the input.
   */
  lemma {:induction false} DrainWritesAscend(ws: WatchSettings, nf: nat -> bool, wf: nat -> Option<int>, ps: seq<ParseResult>,
                                             lp: int, i: nat, e: Effects)
    requires i <= |ps|
    ensures var r := Drain(ws, nf, wf, ps, lp, i, e);
            AscendingFrom(r.0.writes, |e.writes|) && LinesWithin(r.0.writes, |e.writes|, lp, i, |ps|)
    decreases |ps| - i
  {
    if i < |ps| {
      if i <= lp {
        DrainWritesAscend(ws, nf, wf, ps, lp, i + 1, e);
        DrainSkip(ws, nf, wf, ps, lp, i, e);
      } else {
        var step := ProcessLineSpec(ws, nf, wf, e, ps[i], i);
        if step.1.None? {
          var r := Drain(ws, nf, wf, ps, lp, i + 1, step.0);
          DrainWritesAscend(ws, nf, wf, ps, lp, i + 1, step.0);
          DrainStepOn(ws, nf, wf, ps, lp, i, e);
          WritesExtend(e.writes, step.0.writes, r.0.writes, lp, i, |ps|);
        } else {
          DrainStopsOn(ws, nf, wf, ps, lp, i, e);
          WritesExtend(e.writes, step.0.writes, step.0.writes, lp, i, |ps|);
        }
      }
    }
  }

  /** Adding at most write `i` and then writes past `i` keeps the added writes increasing and in range. */
  lemma WritesExtend(base: seq<int>, mid: seq<int>, full: seq<int>, lp: int, i: int, hi: int)
    requires mid == base || mid == base + [i]
    requires lp < i < hi && mid <= full
    requires AscendingFrom(full, |mid|) && LinesWithin(full, |mid|, lp, i + 1, hi)
    ensures base <= full
    ensures AscendingFrom(full, |base|) && LinesWithin(full, |base|, lp, i, hi)
  {
    if mid != base {
      assert full[|base|] == i;
    }
  }

  /**
   * The reference for a pass in which nothing fails: the line numbers past
   * the checkpoint whose kind is sent, in order.
   */
  function SentLines(ws: WatchSettings, ps: seq<ParseResult>, lp: int, i: nat): (s: seq<int>)
    requires i <= |ps|
    ensures LinesWithin(s, 0, lp, i, |ps|)
    decreases |ps| - i
  {
    if i == |ps| then []
    else (if i > lp && Sends(ws, ps[i]) then [i] else []) + SentLines(ws, ps, lp, i + 1)
  }

  /** The records a pass in which nothing fails notifies: one per sent line, in order. */
  function SentRecords(ws: WatchSettings, ps: seq<ParseResult>, lp: int, i: nat): (s: seq<LogLine>)
    requires i <= |ps|
    ensures |s| == |SentLines(ws, ps, lp, i)|
    decreases |ps| - i
  {
    if i == |ps| then []
    else (if i > lp && Sends(ws, ps[i]) then [ps[i].logLine] else []) + SentRecords(ws, ps, lp, i + 1)
  }

  /** The tracker behind the `processedLineTracker` interface. */
  class ProcessedLineTracker {
    var last: int
    var writes: seq<int>
    const writeFails: nat -> Option<int>

    constructor (last: int, writeFails: nat -> Option<int>)
      ensures this.last == last && writes == [] && this.writeFails == writeFails
    {
      this.last := last;
      writes := [];
      this.writeFails := writeFails;
    }

    /** Returns the stored checkpoint, or 0 and a failure when `fails`. */
    method GetLastProcessedLine(fails: bool) returns (n: int, ok: bool)
      ensures ok <==> !fails
      ensures n == (if fails then 0 else last)
    {
      if fails {
        return 0, false;
      }
      return last, true;
    }

    /**
     * Stores `lineNumber`; every attempt is recorded. When this write fails,
     * the oracle also says what the tracker holds afterwards: the interface
     * promises nothing about it, and the file-backed tracker may hold the old
     * value, a prefix of the new number or the new number itself.
     */
    method UpdateLastProcessedLine(lineNumber: int) returns (ok: bool)
      modifies this
      ensures writes == old(writes) + [lineNumber]
      ensures ok == writeFails(|old(writes)|).None?
      ensures last == (if ok then lineNumber else writeFails(|old(writes)|).value)
    {
      var outcome := writeFails(|writes|);
      writes := writes + [lineNumber];
      match outcome
      case None =>
        ok := true;
        last := lineNumber;
      case Some(held) =>
        ok := false;
        last := held;
    }
  }

  class App {
    const logFile: string
    const notifier: NotifierClient
    const hostMachine: string
    const watchSettings: WatchSettings
    const tracker: ProcessedLineTracker

    constructor (logFile: string, notifier: NotifierClient, hostMachine: string,
                 watchSettings: WatchSettings, tracker: ProcessedLineTracker)
      ensures this.logFile == logFile && this.notifier == notifier && this.hostMachine == hostMachine
      ensures this.watchSettings == watchSettings && this.tracker == tracker
    {
      this.logFile := logFile;
      this.notifier := notifier;
      this.hostMachine := hostMachine;
      this.watchSettings := watchSettings;
      this.tracker := tracker;
    }

    function Seen(): Effects
      reads notifier, tracker
    {
      Effects(notifier.calls, tracker.writes, tracker.last)
    }

    /** processLine: parse, filter, notify, then checkpoint this line. */
    method ProcessLine(line: string, lineNumber: int) returns (err: Option<AppError>)
      modifies notifier, tracker
      ensures (Seen(), err) == ProcessLineSpec(watchSettings, notifier.fails, tracker.writeFails, old(Seen()),
                                               ParseLogLine(line), lineNumber)
    {
      var parsed := ScanLogLine(line);
      if parsed.IndexOutOfRange? {
        return Some(ParsePanic);
      }
      var logLine := parsed.logLine;
      if !ShouldSendMessage(watchSettings, logLine.EventType) {
        return None;
      }
      var sent := notifier.Notify(logLine);
      if !sent {
        return Some(NotifyFailed);
      }
      var stored := tracker.UpdateLastProcessedLine(lineNumber);
      if !stored {
        return Some(UpdateFailed);
      }
      return None;
    }

    /** processNewLogLines over the lines the scanner delivers, numbered from 0. */
    method ProcessNewLogLines(lines: seq<string>, lastProcessedLine: int) returns (err: Option<AppError>)
      modifies notifier, tracker
      ensures (Seen(), err) ==
              Drain(watchSettings, notifier.fails, tracker.writeFails, Parses(lines), lastProcessedLine, 0, old(Seen()))
    {
      ghost var ps := Parses(lines);
      var lineNumber := 0;
      while lineNumber < |lines|
        invariant 0 <= lineNumber <= |lines|
        invariant Drain(watchSettings, notifier.fails, tracker.writeFails, ps, lastProcessedLine, 0, old(Seen())) ==
                  Drain(watchSettings, notifier.fails, tracker.writeFails, ps, lastProcessedLine, lineNumber, Seen())
      {
        if lineNumber <= lastProcessedLine {
          lineNumber := lineNumber + 1;
          continue;
        }
        err := ProcessLine(lines[lineNumber], lineNumber);
        if err.Some? {
          return;
        }
        lineNumber := lineNumber + 1;
      }
      return None;
    }

    /**
     * One iteration of the watch loop. `stat` is whatever the iteration
     * stats: as written that is the already open handle (`Tail.HandleStat`
     * on the handle, as `Tail.StepAsWritten` does), so a rotation is never
     * seen (`Tail.RotationNeverDetectedAsWritten`); statting the path
     * instead is what a rotation check needs. `reopened` is the info after
     * reopening, `lines` what the scanner delivers from the open file, and
     * `readFails` whether reading the checkpoint fails. On success the
     * cursor moves as the poll decides.
     */
    method WatchStep(c: Cursor, stat: FileInfo, reopened: FileInfo, lines: seq<string>, readFails: bool)
      returns (next: Cursor, err: Option<AppError>)
      modifies notifier, tracker
      ensures !Poll(c, stat, reopened).drain ==> err.None? && Seen() == old(Seen())
      ensures Poll(c, stat, reopened).drain && readFails ==>
                err == Some(GetLastProcessedLineFailed) && Seen() == old(Seen())
      ensures Poll(c, stat, reopened).drain && !readFails ==>
                (Seen(), err) ==
                Drain(watchSettings, notifier.fails, tracker.writeFails, Parses(lines), old(tracker.last), 0, old(Seen()))
      ensures err.None? ==> next == NextCursor(c, stat, reopened)
    {
      var d := Poll(c, stat, reopened);
      var recorded := if d.rotated then d.current else c.lastFileInfo;
      next := Cursor(recorded, d.baseline);
      if !d.drain {
        return next, None;
      }
      var lastProcessedLine, ok := tracker.GetLastProcessedLine(readFails);
      if !ok {
        return next, Some(GetLastProcessedLineFailed);
      }
      err := ProcessNewLogLines(lines, lastProcessedLine);
      if err.Some? {
        return;
      }
      next := Cursor(recorded, d.current.size);
    }
  }

  /**
   * Lines up to the checkpoint play no part: two inputs that agree past the
   * checkpoint drain alike.
   */
  lemma {:induction false} DrainSkipsCheckpointed(ws: WatchSettings, nf: nat -> bool, wf: nat -> Option<int>,
                                                  ps: seq<ParseResult>, other: seq<ParseResult>, lp: int, i: nat, e: Effects)
    requires i <= |ps| == |other|
    requires forall k :: 0 <= k < |ps| && lp < k ==> ps[k] == other[k]
    ensures Drain(ws, nf, wf, ps, lp, i, e) == Drain(ws, nf, wf, other, lp, i, e)
    decreases |ps| - i
  {
    if i < |ps| {
      var step := ProcessLineSpec(ws, nf, wf, e, ps[i], i);
      DrainSkipsCheckpointed(ws, nf, wf, ps, other, lp, i + 1, e);
      DrainSkipsCheckpointed(ws, nf, wf, ps, other, lp, i + 1, step.0);
    }
  }

  /** The first error is final: lines that arrive after it change nothing. */
  lemma {:induction false} DrainAbortIsFinal(ws: WatchSettings, nf: nat -> bool, wf: nat -> Option<int>,
                                             ps: seq<ParseResult>, more: seq<ParseResult>, lp: int, i: nat, e: Effects)
    requires i <= |ps|
    requires Drain(ws, nf, wf, ps, lp, i, e).1.Some?
    ensures Drain(ws, nf, wf, ps + more, lp, i, e) == Drain(ws, nf, wf, ps, lp, i, e)
    decreases |ps| - i
  {
    assert (ps + more)[i] == ps[i];
    var step := ProcessLineSpec(ws, nf, wf, e, ps[i], i);
    if i <= lp {
      DrainAbortIsFinal(ws, nf, wf, ps, more, lp, i + 1, e);
    } else if step.1.None? {
      DrainAbortIsFinal(ws, nf, wf, ps, more, lp, i + 1, step.0);
    }
  }

  /** processLine when neither the notification nor the write fails and the line parses. */
  lemma ProcessLineWithoutFailures(ws: WatchSettings, nf: nat -> bool, wf: nat -> Option<int>, e: Effects, p: ParseResult, n: int)
    requires !nf(|e.calls|) && wf(|e.writes|).None? && p.Parsed?
    ensures var r := ProcessLineSpec(ws, nf, wf, e, p, n);
            r.1.None? && r.0.writes == e.writes + (if Sends(ws, p) then [n] else []) &&
            r.0.calls == e.calls + (if Sends(ws, p) then [p.logLine] else []) &&
            r.0.last == (if Sends(ws, p) then n else e.last)
  {
  }

  /**
   * The outcome of a pass from line `i` in which nothing fails: the record of
   * every line in `SentLines` notified and the line checkpointed, in order.
   */
  predicate CleanPass(ws: WatchSettings, nf: nat -> bool, wf: nat -> Option<int>, ps: seq<ParseResult>, lp: int, i: nat, e: Effects)
    requires i <= |ps|
  {
    var r := Drain(ws, nf, wf, ps, lp, i, e);
    var sent := SentLines(ws, ps, lp, i);
    r.1.None? && r.0.calls == e.calls + SentRecords(ws, ps, lp, i) && r.0.writes == e.writes + sent &&
    r.0.last == (if |sent| == 0 then e.last else sent[|sent| - 1])
  }

  /**
   * When no notification and no checkpoint write fails and no line past the
   * checkpoint panics, the pass succeeds, notifies exactly the lines whose
   * kind is sent and checkpoints each of them in turn, ending on the last.
   */
  lemma {:induction false} DrainWithoutFailures(ws: WatchSettings, nf: nat -> bool, wf: nat -> Option<int>,
                                                ps: seq<ParseResult>, lp: int, i: nat, e: Effects)
    requires i <= |ps|
    requires forall k: nat :: !nf(k) && wf(k).None?
    requires forall k :: i <= k < |ps| && lp < k ==> ps[k].Parsed?
    ensures CleanPass(ws, nf, wf, ps, lp, i, e)
    decreases |ps| - i
  {
    if i == |ps| {
      assert e.writes + [] == e.writes && e.calls + [] == e.calls;
    } else if i <= lp {
      DrainWithoutFailures(ws, nf, wf, ps, lp, i + 1, e);
      CleanPassSkip(ws, nf, wf, ps, lp, i, e);
    } else {
      var step := ProcessLineSpec(ws, nf, wf, e, ps[i], i);
      DrainWithoutFailures(ws, nf, wf, ps, lp, i + 1, step.0);
      CleanPassStep(ws, nf, wf, ps, lp, i, e);
    }
  }

  lemma CleanPassSkip(ws: WatchSettings, nf: nat -> bool, wf: nat -> Option<int>, ps: seq<ParseResult>, lp: int, i: nat, e: Effects)
    requires i < |ps| && i <= lp
    requires CleanPass(ws, nf, wf, ps, lp, i + 1, e)
    ensures CleanPass(ws, nf, wf, ps, lp, i, e)
  {
    var sent := SentLines(ws, ps, lp, i + 1);
    var records := SentRecords(ws, ps, lp, i + 1);
    DrainSkip(ws, nf, wf, ps, lp, i, e);
    SentLinesStep(ws, ps, lp, i);
    assert [] + sent == sent && [] + records == records;
  }

  lemma CleanPassStep(ws: WatchSettings, nf: nat -> bool, wf: nat -> Option<int>, ps: seq<ParseResult>, lp: int, i: nat, e: Effects)
    requires i < |ps| && lp < i
    requires !nf(|e.calls|) && wf(|e.writes|).None? && ps[i].Parsed?
    requires CleanPass(ws, nf, wf, ps, lp, i + 1, ProcessLineSpec(ws, nf, wf, e, ps[i], i).0)
    ensures CleanPass(ws, nf, wf, ps, lp, i, e)
  {
    var step := ProcessLineSpec(ws, nf, wf, e, ps[i], i);
    var head: seq<int> := if Sends(ws, ps[i]) then [i] else [];
    var rest := SentLines(ws, ps, lp, i + 1);
    var r := Drain(ws, nf, wf, ps, lp, i + 1, step.0);
    ProcessLineWithoutFailures(ws, nf, wf, e, ps[i], i);
    DrainStepOn(ws, nf, wf, ps, lp, i, e);
    SentLinesStep(ws, ps, lp, i);
    CheckpointsCombine(e.writes, e.last, head, step.0.writes, step.0.last, rest, r.0.writes, r.0.last);
    var headRecords: seq<LogLine> := if Sends(ws, ps[i]) then [ps[i].logLine] else [];
    RecordsCombine(e.calls, headRecords, step.0.calls, SentRecords(ws, ps, lp, i + 1), r.0.calls);
  }

  /** The notifications of one line followed by those of the rest of a pass. */
  lemma RecordsCombine(calls: seq<LogLine>, head: seq<LogLine>, midCalls: seq<LogLine>, rest: seq<LogLine>, endCalls: seq<LogLine>)
    requires midCalls == calls + head && endCalls == midCalls + rest
    ensures endCalls == calls + (head + rest)
  {
  }

  /** A line at or below the checkpoint is skipped. */
  lemma DrainSkip(ws: WatchSettings, nf: nat -> bool, wf: nat -> Option<int>, ps: seq<ParseResult>, lp: int, i: nat, e: Effects)
    requires i < |ps| && i <= lp
    ensures Drain(ws, nf, wf, ps, lp, i, e) == Drain(ws, nf, wf, ps, lp, i + 1, e)
  {
  }

  /** A line past the checkpoint whose processing fails ends the pass with that line's outcome. */
  lemma DrainStopsOn(ws: WatchSettings, nf: nat -> bool, wf: nat -> Option<int>, ps: seq<ParseResult>, lp: int, i: nat, e: Effects)
    requires i < |ps| && lp < i && ProcessLineSpec(ws, nf, wf, e, ps[i], i).1.Some?
    ensures Drain(ws, nf, wf, ps, lp, i, e) == ProcessLineSpec(ws, nf, wf, e, ps[i], i)
  {
  }

  /** A line past the checkpoint that is processed without error hands its effects on to the next line. */
  lemma DrainStepOn(ws: WatchSettings, nf: nat -> bool, wf: nat -> Option<int>, ps: seq<ParseResult>, lp: int, i: nat, e: Effects)
    requires i < |ps| && lp < i && ProcessLineSpec(ws, nf, wf, e, ps[i], i).1.None?
    ensures Drain(ws, nf, wf, ps, lp, i, e) == Drain(ws, nf, wf, ps, lp, i + 1, ProcessLineSpec(ws, nf, wf, e, ps[i], i).0)
  {
  }

  /** Line `i` joins the sent lines exactly when it is past the checkpoint and its kind is sent. */
  lemma SentLinesStep(ws: WatchSettings, ps: seq<ParseResult>, lp: int, i: nat)
    requires i < |ps|
    ensures SentLines(ws, ps, lp, i) == (if i > lp && Sends(ws, ps[i]) then [i] else []) + SentLines(ws, ps, lp, i + 1)
  {
  }

  /** The writes and final checkpoint of one line followed by those of the rest of a pass. */
  lemma CheckpointsCombine(writes: seq<int>, last: int, head: seq<int>, midWrites: seq<int>, midLast: int,
                           rest: seq<int>, endWrites: seq<int>, endLast: int)
    requires |head| <= 1
    requires midWrites == writes + head && midLast == (if |head| == 0 then last else head[0])
    requires endWrites == midWrites + rest && endLast == (if |rest| == 0 then midLast else rest[|rest| - 1])
    ensures endWrites == writes + (head + rest)
    ensures endLast == (if |head + rest| == 0 then last else (head + rest)[|head + rest| - 1])
  {
  }

  /** The sent lines are exactly the lines past the checkpoint, from `i` on, whose kind is sent. */
  lemma {:induction false} SentLinesMembers(ws: WatchSettings, ps: seq<ParseResult>, lp: int, i: nat, k: int)
    requires i <= |ps|
    ensures k in SentLines(ws, ps, lp, i) <==> i <= k < |ps| && lp < k && Sends(ws, ps[k])
    decreases |ps| - i
  {
    if i < |ps| {
      SentLinesMembers(ws, ps, lp, i + 1, k);
      SentLinesStep(ws, ps, lp, i);
    }
  }

  /** The `j`-th record notified is the record of the `j`-th sent line. */
  lemma {:induction false} SentRecordsOfSentLines(ws: WatchSettings, ps: seq<ParseResult>, lp: int, i: nat, j: nat)
    requires i <= |ps| && j < |SentLines(ws, ps, lp, i)|
    ensures var k := SentLines(ws, ps, lp, i)[j];
            0 <= k < |ps| && ps[k].Parsed? && SentRecords(ws, ps, lp, i)[j] == ps[k].logLine
    decreases |ps| - i
  {
    if i < |ps| {
      SentLinesStep(ws, ps, lp, i);
      if i > lp && Sends(ws, ps[i]) {
        if j > 0 {
          SentRecordsOfSentLines(ws, ps, lp, i + 1, j - 1);
        }
      } else {
        SentRecordsOfSentLines(ws, ps, lp, i + 1, j);
      }
    }
  }

  /** The sent lines are strictly increasing. */
  lemma {:induction false} SentLinesAscend(ws: WatchSettings, ps: seq<ParseResult>, lp: int, i: nat)
    requires i <= |ps|
    ensures AscendingFrom(SentLines(ws, ps, lp, i), 0)
    decreases |ps| - i
  {
    if i < |ps| {
      SentLinesAscend(ws, ps, lp, i + 1);
      SentLinesStep(ws, ps, lp, i);
    }
  }

  /** A pass over no more lines than the checkpoint covers looks at none of them. */
  lemma {:induction false} ShortPassSkipsAll(ws: WatchSettings, nf: nat -> bool, wf: nat -> Option<int>,
                                             ps: seq<ParseResult>, lp: int, i: nat, e: Effects)
    requires i <= |ps| <= lp + 1
    ensures Drain(ws, nf, wf, ps, lp, i, e) == (e, None)
    decreases |ps| - i
  {
    if i < |ps| {
      ShortPassSkipsAll(ws, nf, wf, ps, lp, i + 1, e);
    }
  }

  /**
   * As written, appended lines are skipped unseen: once a pass has read the
   * file `earlier` to its end and checkpointed its last line, the next pass gets
   * only the appended lines, numbered from 0, and as long as there are no
   * more of them than `earlier` has lines, every one is at or below the
   * checkpoint, so none is notified or checkpointed, whatever it holds.
   */
  lemma AppendedLinesSkippedAsWritten(ws: WatchSettings, nf: nat -> bool, wf: nat -> Option<int>,
                                      earlier: seq<string>, more: seq<string>, e: Effects)
    requires |more| <= |earlier|
    ensures Drain(ws, nf, wf, Parses(ResumedLines(earlier + more, |earlier|)), |earlier| - 1, 0, e) == (e, None)
  {
    ShortPassSkipsAll(ws, nf, wf, Parses(ResumedLines(earlier + more, |earlier|)), |earlier| - 1, 0, e);
  }

  /**
   * Numbering the lines from the start of the file, as the checkpoint does,
   * a line appended to a file read up to its last line is notified and
   * checkpointed with its number `|earlier|` when it should be sent and
   * nothing fails.
   */
  lemma AppendedLineNotified(ws: WatchSettings, nf: nat -> bool, wf: nat -> Option<int>,
                             earlier: seq<string>, line: string, e: Effects)
    requires forall k: nat :: !nf(k) && wf(k).None?
    requires ParseLogLine(line).Parsed? && ShouldSendMessage(ws, EventTypeOf(line))
    ensures var r := Drain(ws, nf, wf, Parses(earlier + [line]), |earlier| - 1, 0, e);
            r.1.None? && r.0.writes == e.writes + [|earlier|] && r.0.last == |earlier|
  {
    var ps := Parses(earlier + [line]);
    assert (earlier + [line])[|earlier|] == line;
    assert ps[|earlier|] == ParseLogLine(line);
    DrainWithoutFailures(ws, nf, wf, ps, |earlier| - 1, 0, e);
    OnlyLastLineSent(ws, ps, 0);
  }

  /** Past a checkpoint on the line before the last, only the last line can be sent. */
  lemma {:induction false} OnlyLastLineSent(ws: WatchSettings, ps: seq<ParseResult>, i: nat)
    requires |ps| >= 1 && Sends(ws, ps[|ps| - 1]) && i < |ps|
    ensures SentLines(ws, ps, |ps| - 2, i) == [|ps| - 1]
    decreases |ps| - i
  {
    SentLinesStep(ws, ps, |ps| - 2, i);
    if i < |ps| - 1 {
      OnlyLastLineSent(ws, ps, i + 1);
    }
  }

  // ---------------------------------------------------------------------------
  // The first line of the log, as the source writes it.

  /**
   * As written, a fresh checkpoint marks line 0 as done: the value read from
   * a missing or empty state file is 0, and a pass skips every line numbered
   * at most the checkpoint, so a log holding one line is passed over
   * whatever that line holds.
   */
  lemma FreshCheckpointSkipsFirstLine(ws: WatchSettings, nf: nat -> bool, wf: nat -> Option<int>, line: string, e: Effects)
    ensures Drain(ws, nf, wf, Parses([line]), 0, 0, e) == (e, None)
  {
    ShortPassSkipsAll(ws, nf, wf, Parses([line]), 0, 0, e);
  }

  /**
   * With "no line processed yet" written as -1, the one line of that log is
   * notified and checkpointed as line 0 when it should be sent and nothing
   * fails.
   */
  lemma FirstLineNotifiedWithoutCheckpoint(ws: WatchSettings, nf: nat -> bool, wf: nat -> Option<int>, line: string, e: Effects)
    requires forall k: nat :: !nf(k) && wf(k).None?
    requires ParseLogLine(line).Parsed? && ShouldSendMessage(ws, EventTypeOf(line))
    ensures var r := Drain(ws, nf, wf, Parses([line]), -1, 0, e);
            r.1.None? && r.0.writes == e.writes + [0] && r.0.last == 0
  {
    AppendedLineNotified(ws, nf, wf, [], line, e);
    assert [] + [line] == [line];
  }
}
