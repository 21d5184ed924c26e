/** The disconnect classifier of src/connection/connectionUtils.ts: whether a
    closed session should be re-established, by the status code the protocol
    library attaches to the close. */
module ConnectionUtils {
  import opened Strings

  // The protocol library's disconnect reasons and their status codes.
  const LoggedOut := 401
  const Forbidden := 403
  const ConnectionLost := 408
  const TimedOut := 408
  const MultideviceMismatch := 411
  const ConnectionClosed := 428
  const ConnectionReplaced := 440
  const BadSession := 500
  const UnavailableService := 503
  const RestartRequired := 515

  const PermanentDisconnections: seq<int> := [LoggedOut, BadSession, Forbidden, MultideviceMismatch]
  const TemporaryDisconnections: seq<int> := [ConnectionClosed, ConnectionLost, TimedOut, UnavailableService]

  /** What the classifier writes to the log besides its verdict. */
  datatype ReasonLog = ReplacedNotice | RestartNotice | UnknownWarning | Silent

  /** `shouldReconnect`: the status code is absent when the close carries no
      error or the error no status. The checks run in the source's order. */
  function ShouldReconnect(statusCode: Option<int>): (r: bool)
    ensures !r <==> statusCode.Some? && statusCode.value in {401, 403, 411, 440, 500}
  {
    if statusCode == Some(ConnectionReplaced) then false
    else if statusCode == Some(RestartRequired) then true
    else if statusCode.Some? && statusCode.value in PermanentDisconnections then false
    else if statusCode.Some? && statusCode.value in TemporaryDisconnections then true
    else true
  }

  /** The log line of one classification: a notice for a replaced session or a
      restart request, a warning for a code in neither list. */
  function ReasonLogOf(statusCode: Option<int>): (r: ReasonLog)
    ensures r == UnknownWarning <==>
      !(statusCode.Some? && statusCode.value in {401, 403, 408, 411, 428, 440, 500, 503, 515})
    ensures r == UnknownWarning ==> ShouldReconnect(statusCode)
  {
    if statusCode == Some(ConnectionReplaced) then ReplacedNotice
    else if statusCode == Some(RestartRequired) then RestartNotice
    else if statusCode.Some? && statusCode.value in PermanentDisconnections then Silent
    else if statusCode.Some? && statusCode.value in TemporaryDisconnections then Silent
    else UnknownWarning
  }

  /** The documented codes, one by one. */
  lemma ClassificationTable()
    ensures !ShouldReconnect(Some(ConnectionReplaced)) && ReasonLogOf(Some(ConnectionReplaced)) == ReplacedNotice
    ensures ShouldReconnect(Some(RestartRequired)) && ReasonLogOf(Some(RestartRequired)) == RestartNotice
    ensures !ShouldReconnect(Some(LoggedOut)) && !ShouldReconnect(Some(BadSession))
    ensures !ShouldReconnect(Some(Forbidden)) && !ShouldReconnect(Some(MultideviceMismatch))
    ensures ShouldReconnect(Some(ConnectionClosed)) && ShouldReconnect(Some(ConnectionLost))
    ensures ShouldReconnect(Some(TimedOut)) && ShouldReconnect(Some(UnavailableService))
    ensures ConnectionLost == TimedOut
    ensures ShouldReconnect(None) && ReasonLogOf(None) == UnknownWarning
  {
  }
}
