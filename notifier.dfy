/**
 * The record a classified log line becomes, and the notification sink as the
 * tail engine sees it.
 */
module Notifier {

  /** The kind of an SSH authentication event; the empty string means "no event". */
  type EventType = string

  const LoggedIn: EventType := "logged in"
  const FailedLoginAttempt: EventType := "failed login attempt"
  const FailedLoginAttemptInvalidUsername: EventType := "failed login attempt with invalid username"
  const NoEvent: EventType := ""

  /** One SSH authentication event. */
  datatype LogLine = LogLine(
    Username: string,
    IpAddress: string,
    LoginTime: string,
    EventType: EventType,
    HostMachine: string)

  /** The zero value of LogLine. */
  const EmptyLogLine: LogLine := LogLine("", "", "", NoEvent, "")

  /**
   * The `Notify(LogLine) error` capability. The transport is outside the
   * model: every call is recorded in `calls`, and the oracle `fails` says
   * whether the call with a given ordinal (0 for the first) returns an error.
   */
  class NotifierClient {
    const fails: nat -> bool
    var calls: seq<LogLine>

    constructor (fails: nat -> bool)
      ensures this.fails == fails && calls == []
    {
      this.fails := fails;
      calls := [];
    }

    method Notify(logLine: LogLine) returns (ok: bool)
      modifies this
      ensures calls == old(calls) + [logLine]
      ensures ok == !fails(|old(calls)|)
    {
      ok := !fails(|calls|);
      calls := calls + [logLine];
    }
  }
}
