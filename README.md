# ssh-watcher: a verified model of the log-watching core

ssh-watcher is a daemon. It tails the SSH authentication log and classifies
each new line as a successful login, a failed login or a failed login with an
invalid username. It forwards the kinds the configuration asks for to a
notifier. A "last processed line" checkpoint lets a restart resume where the
previous run stopped.

This project models that core in Dafny and proves properties of the model.
The core is present in two revisions, modelled as separate modules:

- `App` (internal/app/app.go) is the newer tail engine. A line is
  checkpointed only after its notification was sent, and the first error of
  any kind ends the pass.
- `Watcher` (internal/watcher/watcher.go) is the older tail engine. Its
  checkpoint lives in a fixed state file that it reads (never failing) and
  rewrites itself. A failed notification only skips that line's checkpoint.
  Every other line past the checkpoint is checkpointed, event or not.
- `LineTracker` (internal/linetracker/line_tracker.go) is the file-backed
  checkpoint store. It reads the state file line by line and keeps the
  integer on the last line. It writes the new value with truncate, write and
  sync.

The remaining modules are shared:

- `Classifier`: the line classifier `parseLogLine`, written once. The two
  revisions' bodies differ only in where the early return sits.
- `Tail`: the poll decision of one iteration of `Watch`, and the rotation
  check as the source writes it.
- `StateFile`: the state file as both revisions use it.
- `Notifier`: the record type and the notification sink.
- `Text`, `Strconv`, `Bufio`: the parts of Go's `strings`, `strconv` and
  `bufio` the core relies on.

Collaborators are modelled as follows:

- **Notifier.** `Notifier.NotifierClient` records every call. An oracle
  decides by call number whether the call fails.
- **App's tracker.** `App.ProcessedLineTracker` holds the stored value and
  records every write attempt. An oracle decides by attempt number whether a
  write fails, and if it does, which value the tracker holds afterwards: the
  interface promises nothing about the stored value after a failed write.
- **State file.** The operating system is reduced to the faults it can
  report: a failed directory creation, open, scan, create, short write or
  sync. Which fault a call meets is an input.
- **Log file.** A file is a device/inode identity and a size. Each iteration
  takes as inputs the infos that `stat` reports and the lines the scanner
  delivers.

A pass is specified over the parse results of its lines
(`Classifier.Parses`). The reference functions `Drain`, `SentLines` and
`WrittenLines` therefore take parse results rather than raw text. In
internal/watcher/watcher.go the per-line steps of processNewLogLines are
written inline in the loop. The model gives them their own method,
`Watcher.LogWatcher.HandleLine`, which takes the same steps in the same
order.

Points where the code behaves in ways a reader might not expect, and which
the model keeps as written:

- A classified line whose last token is `from`, `user` or `for` makes
  `parts[i+1]` index past the end of the token list
  (internal/app/app.go:97-103). Go panics there. The model makes it an
  outcome (`IndexOutOfRange`, `ParsePanic`) that ends the pass.
- Every pass numbers lines from 0 and skips those at or below the stored
  number (internal/app/app.go:131-135). A rotation resets only the byte
  offset (internal/app/app.go:178), not the stored number. So after a
  rotation, lines of the new file numbered at or below the old checkpoint
  are skipped too.
- The two revisions differ per line. `App` returns early, without a
  checkpoint, for a line it does not send (internal/app/app.go:112-114), and
  ends the pass on a failed notification (internal/app/app.go:116-118).
  `Watcher` checkpoints every line it reaches
  (internal/watcher/watcher.go:164-168) and moves past a failed notification
  without a checkpoint (internal/watcher/watcher.go:156-159). Each module
  follows its own revision.
- In `Watcher.Watch` every error goes to `log.Fatal().Err(err)`
  (internal/watcher/watcher.go:177-213). A zerolog event is dispatched, and
  a fatal one exits the process, only when it is given a message (`Msg` or
  `Send`), and none of these is. So a failed pass does not stop the loop:
  the offset still moves to the observed size (internal/watcher/watcher.go:215)
  and polling goes on. A parse panic is a real Go panic and does end the
  process.
- The rotation check carries the comment "check log rotation" as an open
  item (internal/app/app.go:165). The check compares a stat of the already
  open handle (internal/app/app.go:161) with the recorded info, so it never
  fires.
- The open item at internal/app/app.go:132 says each pass scans from the
  very first line. As written, the handle is never rewound, so a pass
  resumes where the previous one stopped and still numbers from 0. Lines
  appended after a full pass are then numbered at or below the checkpoint
  and skipped.
- A missing or empty state file reads as 0, and line 0 is at or below it
  (internal/app/app.go:133), so the first line of the log is never sent.
  The last three points are listed under Findings.

## Model

| member | source | states |
|---|---|---|
| Text.Contains | internal/app/app.go:81 | `strings.Contains`: true exactly when the pattern occurs at some position of the line |
| Text.ContainsChar | internal/app/app.go:86-91 | every character of a pattern that occurs in the line occurs in the line |
| Text.ToLower | internal/app/app.go:88 | same length; each ASCII capital is lowered and every other character is kept |
| Text.ToLowerKeepsSpaces | internal/app/app.go:88 | lower-casing neither adds nor removes spaces |
| Text.Split | internal/app/app.go:95 | `strings.Split` on one separator: at least one piece, no piece holds the separator, and more than one piece exactly when the separator occurs |
| Text.JoinSplit | internal/app/app.go:95 | joining the pieces with the separator gives back the line |
| Text.SplitJoin | internal/app/app.go:95 | splitting separator-free pieces joined by the separator gives back the pieces |
| Text.SplitPlain | internal/app/app.go:95 | a line without the separator is one piece |
| Strconv.FormatNat | internal/linetracker/line_tracker.go:65 | decimal digits only, without a leading zero |
| Strconv.FormatInt | internal/linetracker/line_tracker.go:65 | `%d`: a minus sign exactly for negative values, then digits |
| Strconv.Atoi | internal/linetracker/line_tracker.go:45 | a value exactly for non-empty text made of an optional `+` or `-` and at least one decimal digit whose signed value lies in the 64-bit range, and that value is the one returned |
| Strconv.AtoiSigns | internal/linetracker/line_tracker.go:45 | a leading `+` changes nothing; plain digits within range read as their value and beyond it fail; a leading `-` negates |
| Strconv.DigitsValueFormatNat | internal/linetracker/line_tracker.go:42-65 | reading the digits of a natural number gives it back |
| Strconv.AtoiFormatInt | internal/linetracker/line_tracker.go:42-65 | `Atoi` of the `%d` text of any 64-bit integer gives it back |
| Strconv.FormatIntIsOneLine | internal/linetracker/line_tracker.go:65 | the written text holds no line break |
| Bufio.ScanLines | internal/linetracker/line_tracker.go:42-49 | the scanned lines hold no line feed; empty text gives no line and other text at least one |
| Bufio.ScanTerminated | internal/linetracker/line_tracker.go:42-49 | lines each followed by a line feed scan back as those lines |
| Bufio.ScanConsLine | internal/linetracker/line_tracker.go:44 | a plain line and its line feed scan as that line, followed by the scan of what comes after |
| Bufio.ScanAfterTerminated | internal/linetracker/line_tracker.go:44 | after lines each followed by a line feed, the rest of the text scans as it would on its own |
| Bufio.ScanUnterminatedLast | internal/linetracker/line_tracker.go:44 | a final non-empty line without a line feed is still delivered, after the terminated ones |
| Bufio.ScanSingleLine | internal/linetracker/line_tracker.go:42-49 | non-empty text without a line break is one line |
| Notifier.NotifierClient.Notify | internal/app/app.go:20-22 | the record is appended to the calls made, and the call fails exactly when the oracle says so for its number |
| Classifier.EventTypeOf | internal/app/app.go:81-92 | the result is one of the three kinds or no event, and no event when the line lacks "sshd" |
| Classifier.EventTypeTable | internal/app/app.go:81-92 | each kind exactly when the line contains "sshd" and its phrase, the earlier cases' phrases being absent ("Accepted password"/"Accepted publickey"; "invalid user" in the lowered line; "Failed password"/"Connection closed by authenticating user"); no event otherwise |
| Classifier.AfterLastMarkerMeaning | internal/app/app.go:97-104 | a field holds the token after the last marker that has a successor, or "" when there is no such marker |
| Classifier.AfterLastMarkerStep | internal/app/app.go:97-104 | one more token sets the field to its successor when it is a marker with one, and leaves it otherwise |
| Classifier.ParseLogLine | internal/app/app.go:79-108 | the empty record without "sshd" or without a kind; otherwise the kind is `EventTypeOf` and the host is empty; index out of range exactly when a classified line's last token is a marker |
| Classifier.ScanLogLine | internal/watcher/watcher.go:116-142 | parseLogLine as both revisions write it returns exactly `ParseLogLine`, panic included |
| Classifier.ScanTokens | internal/app/app.go:94-105 | the token loop returns exactly the record `ParseTokens` describes, or the panic when the last token is a marker |
| Classifier.Parses | internal/app/app.go:129-133 | one parse result per line a pass reads, each the `ParseLogLine` of its line |
| Classifier.ClassifiedLineHasTwoTokens | internal/app/app.go:95-96 | every classified line splits into at least two tokens, so the login time is always in range |
| Classifier.AcceptedIsLoggedIn | internal/app/app.go:86-87 | an accepted password or public key on an sshd line is a login |
| Classifier.InvalidUserPrecedesFailedPassword | internal/app/app.go:88-91 | a failed-password line is an invalid-username event exactly when it also says "invalid user" in any case |
| Classifier.InvalidUserIgnoresCase | internal/app/app.go:88-89 | "Invalid user" on an sshd line without an acceptance is an invalid-username event |
| Classifier.LowerCasedInvalidUser | internal/app/app.go:88 | "Invalid user" anywhere in a line makes its lower-cased form contain "invalid user" |
| Classifier.ParsedFields | internal/app/app.go:95-104 | login time is tokens 0 and 1 joined by a space; IP address and username stay empty when their markers never occur |
| Classifier.NoMarkerNoValue | internal/app/app.go:97-104 | a field whose markers never occur stays empty |
| Classifier.LastMarkerWins | internal/app/app.go:97-104 | the username is the token after the last "user"/"for" and the IP address the token after the last "from" |
| Classifier.MarkerFollowedBy | internal/app/app.go:97-104 | a marker with a successor and no marker after it decides the field |
| StateFile.StateFile.Rewrite | internal/linetracker/line_tracker.go:58-74 | the file becomes `AfterUpdate` of its old state |
| StateFile.AfterUpdate | internal/linetracker/line_tracker.go:58-74 | every attempt is recorded; a failed create keeps the old file; otherwise the file holds a prefix of the decimal text, and all of it after a successful write |
| StateFile.Delivered | internal/linetracker/line_tracker.go:44-53 | a read that fails delivers a prefix of the file's lines |
| StateFile.LastLineValue | internal/linetracker/line_tracker.go:43-49 | no value exactly when some line is not an integer; 0 for no line; otherwise the value on the last line |
| StateFile.ScanLastLine | internal/linetracker/line_tracker.go:42-49 | the scan loop returns `LastLineValue` of the lines |
| StateFile.DecimalFileReadsBack | internal/linetracker/line_tracker.go:42-65 | a file holding the decimal text of n scans as one line that reads back as n |
| LineTracker.ReadCheckpoint | internal/linetracker/line_tracker.go:30-56 | an error always comes with the value 0 |
| LineTracker.AfterRead | internal/linetracker/line_tracker.go:36 | opening with O_CREATE creates a missing file empty, and changes nothing else |
| LineTracker.UpdateResult | internal/linetracker/line_tracker.go:58-74 | an update reports an error exactly when one of its stages fails |
| LineTracker.FileProcessedLineTracker.constructor | internal/linetracker/line_tracker.go:13-17 | the tracker uses the given state file |
| LineTracker.FileProcessedLineTracker.GetLastProcessedLine | internal/linetracker/line_tracker.go:30-56 | returns `ReadCheckpoint` of the file and leaves the file as `AfterRead` |
| LineTracker.FileProcessedLineTracker.UpdateLastProcessedLine | internal/linetracker/line_tracker.go:58-74 | the file becomes `AfterUpdate` and the error is `UpdateResult` |
| LineTracker.UpdateThenRead | internal/linetracker/line_tracker.go:30-74 | after a successful update with n, a read returns n and no error, whatever the file held |
| LineTracker.FreshFileReadsZero | internal/linetracker/line_tracker.go:36-55 | a missing or empty file reads as 0 without error, and a missing one is created empty |
| LineTracker.LastLineWins | internal/linetracker/line_tracker.go:43-49 | with several integer lines the last one is returned |
| LineTracker.LastUnterminatedLineWins | internal/linetracker/line_tracker.go:43-49 | the same when the last line has no line feed: it is still the one returned |
| LineTracker.ReadsLastLine | internal/linetracker/line_tracker.go:42-55 | when every scanned line is an integer, the read returns the last one without error |
| LineTracker.BadLineIsError | internal/linetracker/line_tracker.go:45-48 | one non-integer line gives value 0 and an error, whatever the other lines hold |
| LineTracker.ReadFaultsAreErrors | internal/linetracker/line_tracker.go:31-53 | a failed directory creation, open or read gives value 0 and an error |
| LineTracker.SyncFaultKeepsNumber | internal/linetracker/line_tracker.go:65-71 | an update whose sync fails reports an error although the file already holds the new number, which a later read returns |
| LineTracker.UpdateTruncates | internal/linetracker/line_tracker.go:59-67 | after a successful update the file holds exactly the decimal text, whatever it held before |
| LineTracker.CheckpointSurvivesRestart | internal/linetracker/line_tracker.go:13-74 | a new tracker over the file an old one updated with n reads n without error |
| Tail.IsLogRotated | internal/app/app.go:199-201 | the same file info, or the same identity, is never a rotation |
| Tail.Poll | internal/app/app.go:160-193 | rotation exactly when the identity differs; a rotation switches to the reopened file and resets the baseline to 0; a drain exactly when the size exceeds the baseline |
| Tail.NextCursor | internal/app/app.go:166-193 | a rotation records the reopened file; a drain moves the offset to the size seen, otherwise the offset is the baseline |
| Tail.PollIsStable | internal/app/app.go:182-193 | polling an unchanged file again neither rotates nor drains, and keeps the cursor |
| Tail.OffsetMonotoneWithoutRotation | internal/app/app.go:182-193 | without a rotation the offset never decreases, and a file no larger than the offset leaves the cursor as it is |
| Tail.HandleStat | internal/app/app.go:161 | a stat through a handle reports the handle's own file |
| Tail.Opened | internal/app/app.go:148-158 | right after opening, the recorded info is the handle's own |
| Tail.StepAsWritten | internal/app/app.go:160-193 | as written, an iteration keeps the handle and keeps the recorded info the handle's own |
| Tail.RotationNeverDetectedAsWritten | internal/app/app.go:160-180 | as written, after any number of iterations the handle is the first one and no rotation is detected |
| Tail.RotationMissedExample | internal/app/app.go:161-182 | on a concrete rotation, as written nothing rotates or drains, while comparing the path's identity rotates and drains from 0 |
| App.ShouldSendMessage | internal/app/app.go:66-77 | each of the three kinds is sent exactly when its flag is set, and no other kind is ever sent |
| App.ProcessLineSpec | internal/app/app.go:110-127 | a panic or an unsent line changes nothing; a write happens only after a successful notification; the error is a failed notification exactly when a sent line's notification fails, and, once it succeeds, a failed update exactly when the write oracle reports a failure, with the value held being the oracle's; on success the checkpoint is the line number exactly when the line is sent |
| App.Drain | internal/app/app.go:129-144 | a pass only adds notifications and checkpoint writes |
| App.DrainWritesAscend | internal/app/app.go:129-144 | the writes a pass adds are strictly increasing line numbers past the checkpoint and within the input |
| App.SentLines | internal/app/app.go:129-144 | the reference list of sent lines lies past the checkpoint and within the input |
| App.ProcessedLineTracker.GetLastProcessedLine | internal/app/app.go:27-30 | the stored value, or 0 and a failure |
| App.ProcessedLineTracker.UpdateLastProcessedLine | internal/app/app.go:27-30 | every write is recorded; it succeeds exactly when the oracle reports no failure, and the stored value is then the line number, otherwise whatever the oracle says the tracker holds |
| App.App.constructor | internal/app/app.go:46-55 | the app keeps the given collaborators and settings |
| App.App.ProcessLine | internal/app/app.go:110-127 | the calls, writes and checkpoint become those of `ProcessLineSpec` for the parse of the line, and so does the error |
| App.App.ProcessNewLogLines | internal/app/app.go:129-144 | the loop's effects and error are those of `Drain` over the parses of the lines, from line 0 |
| App.App.WatchStep | internal/app/app.go:160-196 | for whatever stat the iteration takes (as written, the open handle's): no drain means no effect; a failed checkpoint read is an error without effect; otherwise the pass is `Drain` with the stored checkpoint; on success the cursor is `NextCursor` |
| App.DrainSkipsCheckpointed | internal/app/app.go:131-135 | two inputs that agree past the checkpoint drain alike |
| App.DrainAbortIsFinal | internal/app/app.go:138-141 | after the first error, later lines change nothing |
| App.ProcessLineWithoutFailures | internal/app/app.go:110-127 | without failures a parsed line succeeds and is checkpointed exactly when it is sent |
| App.DrainWithoutFailures | internal/app/app.go:129-144 | without failures or panics a pass succeeds, notifies exactly `SentRecords`, writes exactly `SentLines` and ends on the last of them |
| App.SentRecords | internal/app/app.go:137-138 | one notified record per sent line |
| App.SentRecordsOfSentLines | internal/app/app.go:111-118 | the `j`-th record notified is the parsed record of the `j`-th sent line |
| App.SentLinesMembers | internal/app/app.go:131-138 | a line is in `SentLines` exactly when it is past the checkpoint and its kind is sent |
| App.SentLinesAscend | internal/app/app.go:131 | `SentLines` is strictly increasing |
| Tail.ResumedLines | internal/app/app.go:130-131 | the next pass sees the lines after those already read, numbered from 0 |
| App.ShortPassSkipsAll | internal/app/app.go:131-135 | a pass over no more lines than the checkpoint covers does nothing |
| App.AppendedLinesSkippedAsWritten | internal/app/app.go:130-135 | as written, up to as many appended lines as were read before are skipped unseen |
| App.AppendedLineNotified | internal/app/app.go:129-144 | numbered from the start of the file, an appended line to be sent is notified and checkpointed with its number |
| App.OnlyLastLineSent | internal/app/app.go:131-138 | with the checkpoint on the line before the last, the last line is the only one sent when its kind is sent |
| App.FreshCheckpointSkipsFirstLine | internal/app/app.go:133-135 | as written, with the fresh checkpoint 0 a one-line log is passed over |
| App.FirstLineNotifiedWithoutCheckpoint | internal/app/app.go:129-144 | with "nothing processed" as -1, the one line is notified and checkpointed as line 0 |
| Watcher.ShouldSendMessage | internal/watcher/watcher.go:46-57 | each of the three kinds is sent exactly when its flag is set, and no other kind is ever sent |
| Watcher.AsAppSettings | internal/watcher/watcher.go:23-28 | the three flags carry over to the newer revision's names |
| Watcher.SameGatingAsApp | internal/watcher/watcher.go:46-57 | both revisions gate every kind alike |
| Watcher.WatcherCheckpoint | internal/watcher/watcher.go:61-90 | the value the line tracker reads, with every error read as 0 |
| Watcher.ProcessLineSpec | internal/watcher/watcher.go:152-168 | a failed notification skips the write without an error; an unsent line is checkpointed; the pass ends only on a panic or a failed write |
| Watcher.Drain | internal/watcher/watcher.go:144-171 | a pass only adds notifications and checkpoint writes |
| Watcher.WrittenLines | internal/watcher/watcher.go:146-168 | the reference list of checkpointed lines lies past the checkpoint and within the input |
| Watcher.LogWatcher.constructor | internal/watcher/watcher.go:30-37 | the watcher keeps the given collaborators and settings |
| Watcher.LogWatcher.GetLastProcessedLine | internal/watcher/watcher.go:61-90 | returns `WatcherCheckpoint` of the state file and never fails |
| Watcher.LogWatcher.UpdateLastProcessedLine | internal/watcher/watcher.go:92-114 | the file becomes `AfterUpdate`, and the error reports the failing stage |
| Watcher.LogWatcher.HandleLine | internal/watcher/watcher.go:152-168 | the calls, the state file and the error become those of `ProcessLineSpec` for the parse of the line |
| Watcher.LogWatcher.ProcessNewLogLines | internal/watcher/watcher.go:144-171 | the loop's calls, file and error are those of `Drain` over the parses of the lines, from line 0 |
| Watcher.LogWatcher.WatchStep | internal/watcher/watcher.go:187-219 | no drain means no effect; otherwise the pass is `Drain` with the checkpoint read; whether or not the pass failed, the cursor becomes `NextCursor`, so the offset moves to the observed size and the loop goes on |
| Watcher.NotifyFailureSkipsLine | internal/watcher/watcher.go:155-159 | a failed notification does not end the pass and does not checkpoint its line |
| Watcher.UnsentLineIsCheckpointed | internal/watcher/watcher.go:155-164 | a line that is not sent is still checkpointed |
| Watcher.WriteFaultEndsPass | internal/watcher/watcher.go:164-168 | a failed checkpoint write ends the pass with that fault |
| Watcher.DrainSkipsCheckpointed | internal/watcher/watcher.go:146-150 | two inputs that agree past the checkpoint drain alike |
| Watcher.DrainWithoutWriteFaults | internal/watcher/watcher.go:144-171 | without write faults or panics a pass succeeds and writes exactly `WrittenLines` |
| Watcher.CleanPassLeavesLastLine | internal/watcher/watcher.go:144-171 | after a pass without failures the state file reads back the number of the input's last line |
| Watcher.LastWriteWins | internal/watcher/watcher.go:164 | the last line's checkpoint write is the one the file keeps |
| Watcher.ShortPassSkipsAll | internal/watcher/watcher.go:146-150 | a pass over no more lines than the checkpoint covers does nothing |
| Watcher.SkipToCheckpoint | internal/watcher/watcher.go:146-150 | the lines up to the checkpoint are passed over, so a pass starts after it |
| Watcher.AppendedLinesSkippedAsWritten | internal/watcher/watcher.go:145-150 | as written, up to as many appended lines as were read before are skipped unseen |
| Watcher.AppendedLineNotified | internal/watcher/watcher.go:144-171 | numbered from the start of the file, an appended line to be sent is notified and the state file reads back its number |

## Left out

- Text.ToLower: lowers ASCII letters only. Go's `strings.ToLower` applies Unicode case mapping, and the model does not.
- Bufio.ScanLines: the scanner's buffering and its 64 KiB token limit are not modelled. A read error is an input (`ScanFault`).
- Strconv.Atoi: Go's error values and their messages are not modelled. A failed conversion is `None`.
- Errors carry no message text. Go wraps errors with `fmt.Errorf` and logs them with zerolog; these are not modelled.
- Opening, stat-ing and closing the log file are not modelled. Their failures return an error in `App.Watch`. In `Watcher.Watch` they go to fatal-level log events that are never dispatched, so the loop goes on with whatever handle and info it then holds (a nil handle after a failed open); the model does not follow those runs. Each iteration takes the stat results as inputs.
- The byte positions the scanner reads from are not modelled. Each pass takes as input the lines it delivers, and `Tail.ResumedLines` states which lines those are as written.
- The sleep between iterations and the endless loop are not modelled. `WatchStep` models one iteration.
- App.App.WatchStep: does not state the cursor after an error, because `Watch` returns at that point.
- The directory creation, file modes and `Sync` durability are not modelled. Each of them is a fault input only, and a failed sync leaves the written text in place.
- App.ProcessedLineTracker: the newer engine sees the tracker through its interface. The model does not prove that `LineTracker.FileProcessedLineTracker` implements that interface.
- The webhook transport (JSON envelope, HTTP POST, timeout), the e-mail notifier, configuration loading and process start-up are not modelled. Only the success or failure of `Notify` is.
- `hostMachine`/`HostMachine` are kept as fields but never read. Neither revision copies them into a record.

## Findings

| source | as written | input that shows it | evidently intended | confidence | as-written member | corrected member |
|---|---|---|---|---|---|---|
| internal/app/app.go:161-166 | the identity compared with the recorded one comes from `file.Stat()` on the open handle, which always describes the file first opened | the log is rotated by rename and re-create: file A (100 bytes, all drained) stays open, the path now names B with 50 bytes | compare the identity of the file the path now names, so the rotation is detected and B is read from offset 0 | high; not executed | Tail.RotationNeverDetectedAsWritten | Tail.Poll |
| internal/watcher/watcher.go:188-193 | the same comparison through the open handle | the same rotation as above | the same as above | high; not executed | Tail.RotationMissedExample | Tail.Poll |
| internal/app/app.go:130-135 | each pass scans the open handle from where the previous pass stopped and numbers the lines from 0, while the checkpoint holds numbers counted from the start of the file | a file of n ≥ 1 lines is read to its end and its last line checkpointed, then one sshd "Accepted password" line is appended | number the lines from the start of the file, so the appended line is line n and is sent | high; not executed | App.AppendedLinesSkippedAsWritten | App.AppendedLineNotified |
| internal/watcher/watcher.go:145-150 | the same resumed scan and renumbering | the same input as above | the same as above | high; not executed | Watcher.AppendedLinesSkippedAsWritten | Watcher.AppendedLineNotified |
| internal/app/app.go:133-135 | a missing or empty state file reads as 0, and line 0 is skipped as "at or below the checkpoint" | a log holding the single sshd "Accepted password" line, with no state file | the first line is processed when nothing was processed before, with checkpoint 0 afterwards | medium; not executed | App.FreshCheckpointSkipsFirstLine | App.FirstLineNotifiedWithoutCheckpoint |
