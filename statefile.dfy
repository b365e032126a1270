/**
 * The checkpoint's state file, as both the line tracker and the older
 * watcher revision use it: truncate-and-write of the decimal text on update,
 * and a line scan with `Atoi` on read. The operating system is reduced to
 * the faults it can report; which fault a call meets is an input.
 */
module StateFile {
  import opened Wrappers
  import opened Strconv
  import opened Bufio

  /**
   * How an update of the state file can fail, by stage: creating (or
   * truncating) the file, writing the text (only the first `written`
   * bytes arrive), or syncing it.
   */
  datatype WriteFault = CreateFault | ShortWrite(written: nat) | SyncFault

  /** How a read can fail after the existence check: opening the file, or a read error after `delivered` lines. */
  datatype ReadFault = OpenFault | ScanFault(delivered: nat)

  /** What the file holds: whether it exists, its text, and every value a writer tried to store, in order. */
  datatype FileState = FileState(present: bool, content: string, writes: seq<int>)

  /** The state file at one fixed path. */
  class StateFile {
    var present: bool
    var content: string
    var writes: seq<int>

    constructor (present: bool, content: string)
      ensures State() == FileState(present, content, [])
    {
      this.present := present;
      this.content := content;
      writes := [];
    }

    function State(): FileState
      reads this
    {
      FileState(present, content, writes)
    }

    /**
     * Truncate-and-write: create (or truncate) the file, write the decimal
     * text of `n`, sync it; `fault` is the stage at which the operating
     * system fails, if any.
     */
    method Rewrite(n: int, fault: Option<WriteFault>)
      modifies this
      ensures State() == AfterUpdate(old(State()), n, fault)
    {
      writes := writes + [n];
      if fault == Some(CreateFault) {
        return;
      }
      present, content := true, "";
      var text := FormatInt(n);
      if fault.Some? && fault.value.ShortWrite? {
        var k := fault.value.written;
        content := text[..if k < |text| then k else |text|];
        return;
      }
      content := text;
    }
  }

  /**
   * The file after an update that stores `n` and meets `fault`: creating
   * truncates the file, so whatever it held before is gone unless creation
   * itself failed; a short write leaves a prefix of the decimal text; a
   * failed sync leaves the full text (durability is outside the model).
   */
  function AfterUpdate(f: FileState, n: int, fault: Option<WriteFault>): (g: FileState)
    ensures g.writes == f.writes + [n]
    ensures fault == Some(CreateFault) ==> g.present == f.present && g.content == f.content
    ensures fault != Some(CreateFault) ==> g.present && |g.content| <= |FormatInt(n)| &&
                                            g.content == FormatInt(n)[..|g.content|]
    ensures fault.None? || fault == Some(SyncFault) ==> g.content == FormatInt(n)
  {
    var text := FormatInt(n);
    match fault
    case Some(CreateFault) => f.(writes := f.writes + [n])
    case Some(ShortWrite(k)) =>
      FileState(true, text[..if k < |text| then k else |text|], f.writes + [n])
    case _ => FileState(true, text, f.writes + [n])
  }

  /** The lines a scan of `content` delivers before it stops. */
  function Delivered(content: string, fault: Option<ReadFault>): (lines: seq<string>)
    ensures lines <= ScanLines(content)
  {
    var all := ScanLines(content);
    match fault
    case Some(ScanFault(k)) => if k < |all| then all[..k] else all
    case _ => all
  }

  /**
   * The value the read loop ends with: the integer on the last line, 0 when
   * there is no line, and no value when some line is not an integer.
   */
  function LastLineValue(lines: seq<string>): (r: Option<int>)
    ensures r.None? <==> exists k :: 0 <= k < |lines| && Atoi(lines[k]).None?
    ensures lines == [] ==> r == Some(0)
    ensures r.Some? && lines != [] ==> Atoi(lines[|lines| - 1]) == r
    decreases |lines|
  {
    if lines == [] then Some(0)
    else
      var front := LastLineValue(lines[..|lines| - 1]);
      var last := Atoi(lines[|lines| - 1]);
      assert forall k :: 0 <= k < |lines| - 1 ==> lines[..|lines| - 1][k] == lines[k];
      if front.None? then None else last
  }

  /**
   * The scan loop: keeps the integer on each line in turn and stops at the
   * first line that is not one.
   */
  method ScanLastLine(lines: seq<string>) returns (last: Option<int>)
    ensures last == LastLineValue(lines)
  {
    var currentLine := 0;
    var i := 0;
    while i < |lines|
      invariant 0 <= i <= |lines|
      invariant LastLineValue(lines[..i]) == Some(currentLine)
    {
      var v := Atoi(lines[i]);
      assert lines[..i + 1][..i] == lines[..i];
      if v.None? {
        return None;
      }
      currentLine := v.value;
      i := i + 1;
    }
    assert lines[..i] == lines;
    return Some(currentLine);
  }

  /** A file that holds exactly the decimal text of `n` scans as the one line that reads back as `n`. */
  lemma {:induction false} DecimalFileReadsBack(n: int)
    requires MinInt <= n <= MaxInt
    ensures ScanLines(FormatInt(n)) == [FormatInt(n)]
    ensures LastLineValue(ScanLines(FormatInt(n))) == Some(n)
  {
    var text := FormatInt(n);
    FormatIntIsOneLine(n);
    assert text[|text| - 1] in text;
    ScanSingleLine(text);
    AtoiFormatInt(n);
    assert LastLineValue([text]) == Some(n) by {
      assert [text][..0] == [];
    }
  }
}
