/**
 * What `parseLogLine` computes from one raw line of the SSH auth log, stated
 * once as a function. Both revisions of the tail engine implement it with the
 * same token loop, `ScanLogLine`, which is proved equal to it.
 */
module Classifier {
  import opened Text
  import opened Notifier

  /** Tokens whose successor becomes the IP address. */
  const FromMarkers: set<string> := {"from"}
  /** Tokens whose successor becomes the username. */
  const UserMarkers: set<string> := {"user", "for"}

  /**
   * The event kind chosen by the first matching case, tried in this order:
   * an accepted login, an invalid user (compared case-insensitively), a
   * failed password or a closed connection; no event when the line is not
   * from sshd or nothing matches.
   */
  function EventTypeOf(line: string): (t: EventType)
    ensures t == NoEvent || t == LoggedIn || t == FailedLoginAttempt || t == FailedLoginAttemptInvalidUsername
    ensures !Contains(line, "sshd") ==> t == NoEvent
  {
    if !Contains(line, "sshd") then NoEvent
    else if Contains(line, "Accepted password") || Contains(line, "Accepted publickey") then LoggedIn
    else if Contains(ToLower(line), "invalid user") then FailedLoginAttemptInvalidUsername
    else if Contains(line, "Failed password") || Contains(line, "Connection closed by authenticating user") then
      FailedLoginAttempt
    else NoEvent
  }

  /**
   * The phrase table, kind by kind: on an sshd line an acceptance gives a
   * login; otherwise "invalid user" in any case gives an invalid-username
   * attempt; otherwise a failed password or a connection closed by an
   * authenticating user gives a failed attempt; every other line, and every
   * line without "sshd", has no event.
   */
  lemma EventTypeTable(line: string)
    ensures var sshd := Contains(line, "sshd");
            var accepted := Contains(line, "Accepted password") || Contains(line, "Accepted publickey");
            var invalid := Contains(ToLower(line), "invalid user");
            var failed := Contains(line, "Failed password") || Contains(line, "Connection closed by authenticating user");
            (EventTypeOf(line) == LoggedIn <==> sshd && accepted) &&
            (EventTypeOf(line) == FailedLoginAttemptInvalidUsername <==> sshd && !accepted && invalid) &&
            (EventTypeOf(line) == FailedLoginAttempt <==> sshd && !accepted && !invalid && failed) &&
            (EventTypeOf(line) == NoEvent <==> !sshd || (!accepted && !invalid && !failed))
  {
  }

  /** `j` is the last index below `i` holding a marker that has a successor token. */
  ghost predicate LastMarkerAt(parts: seq<string>, markers: set<string>, i: nat, j: nat)
  {
    j < i && j + 1 < |parts| && parts[j] in markers &&
    forall k :: j < k < i && k + 1 < |parts| ==> parts[k] !in markers
  }

  /**
   * The value a field holds after the loop has looked at tokens `0..i-1`:
   * the token following the last marker seen, or "" when no marker was seen.
   */
  function AfterLastMarker(parts: seq<string>, markers: set<string>, i: nat): string
    requires i <= |parts|
    decreases i
  {
    if i == 0 then ""
    else if parts[i - 1] in markers && i < |parts| then parts[i]
    else AfterLastMarker(parts, markers, i - 1)
  }

  /**
   * What a field holds after tokens `0..i-1`: the successor of the last
   * marker among them that has one, or "" when none of them is such a marker.
   */
  lemma {:induction false} AfterLastMarkerMeaning(parts: seq<string>, markers: set<string>, i: nat)
    requires i <= |parts|
    ensures var v := AfterLastMarker(parts, markers, i);
            (exists j: nat :: j + 1 < |parts| && LastMarkerAt(parts, markers, i, j) && v == parts[j + 1]) ||
            (v == "" && forall j :: 0 <= j < i && j + 1 < |parts| ==> parts[j] !in markers)
    decreases i
  {
    if i > 0 {
      if parts[i - 1] in markers && i < |parts| {
        assert LastMarkerAt(parts, markers, i, i - 1);
      } else {
        AfterLastMarkerMeaning(parts, markers, i - 1);
        NoMarkerStep(parts, markers, i - 1, i, AfterLastMarker(parts, markers, i - 1));
      }
    }
  }

  /** One more token: a marker with a successor sets the field to that successor, any other token keeps it. */
  lemma AfterLastMarkerStep(parts: seq<string>, markers: set<string>, i: nat)
    requires i < |parts|
    ensures AfterLastMarker(parts, markers, i + 1) ==
            if parts[i] in markers && i + 1 < |parts| then parts[i + 1] else AfterLastMarker(parts, markers, i)
  {
  }

  /** Looking at a token that is not a marker with a successor leaves a field as it was. */
  lemma NoMarkerStep(parts: seq<string>, markers: set<string>, prev: nat, i: nat, v: string)
    requires i == prev + 1 && i <= |parts|
    requires !(parts[prev] in markers && i < |parts|)
    requires (exists j: nat :: j + 1 < |parts| && LastMarkerAt(parts, markers, prev, j) && v == parts[j + 1]) ||
             (v == "" && forall j :: 0 <= j < prev && j + 1 < |parts| ==> parts[j] !in markers)
    ensures (exists j: nat :: j + 1 < |parts| && LastMarkerAt(parts, markers, i, j) && v == parts[j + 1]) ||
            (v == "" && forall j :: 0 <= j < i && j + 1 < |parts| ==> parts[j] !in markers)
  {
    if exists j: nat :: j + 1 < |parts| && LastMarkerAt(parts, markers, prev, j) && v == parts[j + 1] {
      var j: nat :| j + 1 < |parts| && LastMarkerAt(parts, markers, prev, j) && v == parts[j + 1];
      assert LastMarkerAt(parts, markers, i, j);
    }
  }

  /** The last token is a marker, so the loop reads the token after the last one. */
  predicate EndsWithMarker(parts: seq<string>)
    requires |parts| >= 1
  {
    parts[|parts| - 1] in FromMarkers || parts[|parts| - 1] in UserMarkers
  }

  /** The outcome of parseLogLine: a record, or the run-time panic of an index out of range. */
  datatype ParseResult = Parsed(logLine: LogLine) | IndexOutOfRange

  /**
   * parseLogLine. An sshd line with an event kind is split on single spaces:
   * the login time is the first two tokens, the IP address follows the last
   * "from", the username follows the last "user" or "for". The host machine
   * is never set here.
   */
  function ParseLogLine(line: string): (r: ParseResult)
    ensures !Contains(line, "sshd") ==> r == Parsed(EmptyLogLine)
    ensures EventTypeOf(line) == NoEvent ==> r == Parsed(EmptyLogLine)
    ensures r.Parsed? ==> r.logLine.EventType == EventTypeOf(line) && r.logLine.HostMachine == ""
    ensures r.IndexOutOfRange? <==>
              EventTypeOf(line) != NoEvent && EndsWithMarker(Split(line, ' '))
  {
    var t := EventTypeOf(line);
    if t == NoEvent then Parsed(EmptyLogLine)
    else
      ClassifiedLineHasTwoTokens(line);
      ParseTokens(Split(line, ' '), t)
  }

  /** The record parseLogLine builds from the tokens of a line of kind `t`. */
  function ParseTokens(parts: seq<string>, t: EventType): ParseResult
    requires |parts| >= 2
  {
    if EndsWithMarker(parts) then IndexOutOfRange
    else
      Parsed(LogLine(
        Username := AfterLastMarker(parts, UserMarkers, |parts|),
        IpAddress := AfterLastMarker(parts, FromMarkers, |parts|),
        LoginTime := parts[0] + " " + parts[1],
        EventType := t,
        HostMachine := ""))
  }

  /** The outcome of parseLogLine for every line a pass reads, in order. */
  function Parses(lines: seq<string>): (ps: seq<ParseResult>)
    ensures |ps| == |lines|
    ensures forall k :: 0 <= k < |lines| ==> ps[k] == ParseLogLine(lines[k])
  {
    seq(|lines|, k requires 0 <= k < |lines| => ParseLogLine(lines[k]))
  }

  /** parseLogLine step by step: classify the line, then run the token loop over its tokens. */
  method ScanLogLine(line: string) returns (r: ParseResult)
    ensures r == ParseLogLine(line)
  {
    var t := EventTypeOf(line);
    if t == NoEvent {
      return Parsed(EmptyLogLine);
    }
    ClassifiedLineHasTwoTokens(line);
    r := ScanTokens(Split(line, ' '), t);
  }

  /**
   * The token loop of parseLogLine: walks the tokens in order and overwrites
   * the IP address or username whenever it meets a marker, reading the
   * token after it; a marker in last place reads past the end.
   */
  method ScanTokens(parts: seq<string>, t: EventType) returns (r: ParseResult)
    requires |parts| >= 2
    ensures r == ParseTokens(parts, t)
  {
    var logLine := EmptyLogLine.(EventType := t, LoginTime := parts[0] + " " + parts[1]);
    var i := 0;
    while i < |parts|
      invariant 0 <= i <= |parts|
      invariant logLine == LogLine(AfterLastMarker(parts, UserMarkers, i), AfterLastMarker(parts, FromMarkers, i),
                                   parts[0] + " " + parts[1], t, "")
      invariant i == |parts| ==> !EndsWithMarker(parts)
    {
      var part := parts[i];
      AfterLastMarkerStep(parts, UserMarkers, i);
      AfterLastMarkerStep(parts, FromMarkers, i);
      if part == "from" {
        if i + 1 == |parts| {
          return IndexOutOfRange;
        }
        logLine := logLine.(IpAddress := parts[i + 1]);
      }
      if part == "user" || part == "for" {
        if i + 1 == |parts| {
          return IndexOutOfRange;
        }
        logLine := logLine.(Username := parts[i + 1]);
      }
      i := i + 1;
    }
    return Parsed(logLine);
  }

  /**
   * Index safety of the login time: every phrase that gives a line an event
   * kind contains a space, so a classified line has at least two tokens.
   */
  lemma ClassifiedLineHasTwoTokens(line: string)
    requires EventTypeOf(line) != NoEvent
    ensures |Split(line, ' ')| >= 2
  {
    if Contains(line, "Accepted password") {
      ContainsChar(line, "Accepted password", ' ');
    } else if Contains(line, "Accepted publickey") {
      ContainsChar(line, "Accepted publickey", ' ');
    } else if Contains(ToLower(line), "invalid user") {
      ContainsChar(ToLower(line), "invalid user", ' ');
      ToLowerKeepsSpaces(line);
    } else if Contains(line, "Failed password") {
      ContainsChar(line, "Failed password", ' ');
    } else {
      ContainsChar(line, "Connection closed by authenticating user", ' ');
    }
  }

  /** An accepted password or public key on an sshd line is a login. */
  lemma AcceptedIsLoggedIn(line: string)
    requires Contains(line, "sshd")
    requires Contains(line, "Accepted password") || Contains(line, "Accepted publickey")
    ensures EventTypeOf(line) == LoggedIn
  {
  }

  /**
   * The invalid-user case is tried before the failed-password case, so a
   * failed password for an invalid user is classified as an invalid username.
   */
  lemma InvalidUserPrecedesFailedPassword(line: string)
    requires Contains(line, "sshd") && Contains(line, "Failed password")
    requires !Contains(line, "Accepted password") && !Contains(line, "Accepted publickey")
    ensures EventTypeOf(line) == (if Contains(ToLower(line), "invalid user")
                                  then FailedLoginAttemptInvalidUsername else FailedLoginAttempt)
  {
  }

  /** The invalid-user match ignores case: "Invalid user" on an sshd line is an invalid username. */
  lemma InvalidUserIgnoresCase(line: string)
    requires Contains(line, "sshd") && Contains(line, "Invalid user")
    requires !Contains(line, "Accepted password") && !Contains(line, "Accepted publickey")
    ensures EventTypeOf(line) == FailedLoginAttemptInvalidUsername
  {
    LowerCasedInvalidUser(line);
  }

  lemma LowerCasedInvalidUser(line: string)
    requires Contains(line, "Invalid user")
    ensures Contains(ToLower(line), "invalid user")
  {
    var i: nat :| OccursAt(line, "Invalid user", i);
    var low := ToLower(line);
    assert low[i..i + 12] == "invalid user" by {
      forall k | 0 <= k < 12 ensures low[i + k] == "invalid user"[k] {
        assert line[i + k] == line[i..i + 12][k];
        LowerInvalidUser(k);
      }
    }
    assert OccursAt(low, "invalid user", i);
  }

  /** The phrase lower-cases character by character. */
  lemma LowerInvalidUser(k: nat)
    requires k < 12
    ensures LowerAscii("Invalid user"[k]) == "invalid user"[k]
  {
  }

  /**
   * The fields of a classified line that parses: the login time is the first
   * two tokens joined by a space, and a field whose marker never occurs stays
   * empty.
   */
  lemma ParsedFields(line: string)
    requires ParseLogLine(line).Parsed? && EventTypeOf(line) != NoEvent
    ensures var l := ParseLogLine(line).logLine;
            var parts := Split(line, ' ');
            |parts| >= 2 && l.LoginTime == parts[0] + " " + parts[1] &&
            ("from" !in parts ==> l.IpAddress == "") &&
            ("user" !in parts && "for" !in parts ==> l.Username == "")
  {
    var parts := Split(line, ' ');
    ClassifiedLineHasTwoTokens(line);
    var l := ParseLogLine(line).logLine;
    assert l.LoginTime == parts[0] + " " + parts[1];
    if "from" !in parts {
      NoMarkerNoValue(parts, FromMarkers);
    }
    if "user" !in parts && "for" !in parts {
      NoMarkerNoValue(parts, UserMarkers);
    }
  }

  /** A field whose markers never occur among the tokens stays empty. */
  lemma NoMarkerNoValue(parts: seq<string>, markers: set<string>)
    requires forall m :: m in markers ==> m !in parts
    ensures AfterLastMarker(parts, markers, |parts|) == ""
  {
    AfterLastMarkerMeaning(parts, markers, |parts|);
  }

  /**
   * The last marker wins: when token `k` is "user" or "for" and no later
   * token is, the username is token `k + 1` (so "for invalid user bar" gives
   * "bar"); likewise for "from" and the IP address.
   */
  lemma LastMarkerWins(line: string, k: nat)
    requires ParseLogLine(line).Parsed? && EventTypeOf(line) != NoEvent
    requires k + 1 < |Split(line, ' ')|
    ensures var parts := Split(line, ' ');
            var l := ParseLogLine(line).logLine;
            ((parts[k] in UserMarkers && forall m :: k < m < |parts| ==> parts[m] !in UserMarkers)
             ==> l.Username == parts[k + 1]) &&
            ((parts[k] in FromMarkers && forall m :: k < m < |parts| ==> parts[m] !in FromMarkers)
             ==> l.IpAddress == parts[k + 1])
  {
    var parts := Split(line, ' ');
    var l := ParseLogLine(line).logLine;
    assert l.Username == AfterLastMarker(parts, UserMarkers, |parts|);
    assert l.IpAddress == AfterLastMarker(parts, FromMarkers, |parts|);
    if parts[k] in UserMarkers && forall m :: k < m < |parts| ==> parts[m] !in UserMarkers {
      MarkerFollowedBy(parts, UserMarkers, k);
    }
    if parts[k] in FromMarkers && forall m :: k < m < |parts| ==> parts[m] !in FromMarkers {
      MarkerFollowedBy(parts, FromMarkers, k);
    }
  }

  /** When token `k` is the last marker and has a successor, the field is that successor. */
  lemma MarkerFollowedBy(parts: seq<string>, markers: set<string>, k: nat)
    requires k + 1 < |parts| && parts[k] in markers
    requires forall m :: k < m < |parts| ==> parts[m] !in markers
    ensures AfterLastMarker(parts, markers, |parts|) == parts[k + 1]
  {
    var v := AfterLastMarker(parts, markers, |parts|);
    AfterLastMarkerMeaning(parts, markers, |parts|);
    var j: nat :| j + 1 < |parts| && LastMarkerAt(parts, markers, |parts|, j) && v == parts[j + 1];
    assert j == k;
  }
}
