/** The message shapes exchanged with the client over the websocket: the
    `webrtcMessage` record (used both ways) and the three side-channel notices
    that `sendWarning`, `sendError` and `sendStatus` write. Their JSON
    encoding is not modelled; the texts the handle puts into notices are. */
module Messages {
  import opened Common
  import opened States

  /** `webrtcMessage`. An empty string or a `None` index is what Go's
      `omitempty` leaves out of the JSON object. */
  datatype WebRtcMessage = WebRtcMessage(
    command: string,
    sdp: string,
    candidate: string,
    sdpMid: string,
    sdpMLineIndex: Option<uint16>)

  /** One message written to the websocket: a protocol reply, or one of the
      notices `{"warning": …}`, `{"error": …}`, `{"status": …}`. */
  datatype Outbound =
    | Reply(msg: WebRtcMessage)
    | Warning(text: string)
    | Error(text: string)
    | Status(text: string)

  /** The JSON form of a gathered local ICE candidate (`ICECandidate.ToJSON()`). */
  datatype IceCandidateInit = IceCandidateInit(candidate: string, sdpMid: string, sdpMLineIndex: Option<uint16>)

  /** A reply that carries only its command. */
  function Command(cmd: string): WebRtcMessage
  {
    WebRtcMessage(cmd, "", "", "", None)
  }

  /** `{"cmd":"ready"}`, sent once the peer connection exists. */
  const ReadyMessage: Outbound := Reply(Command("ready"))

  /** `{"cmd":"answer","sdp":…}` carrying the local description. */
  function AnswerMessage(sdp: string): Outbound
  {
    Reply(WebRtcMessage("answer", sdp, "", "", None))
  }

  /** `{"cmd":"candidate",…}` for a locally gathered ICE candidate. */
  function CandidateMessage(c: IceCandidateInit): Outbound
  {
    Reply(WebRtcMessage("candidate", "", c.candidate, c.sdpMid, c.sdpMLineIndex))
  }

  /** The wrong-state template filled in with the command, the actual state
      and the state the command needs. */
  function WrongStateText(cmd: string, actual: WebRtcState, required: WebRtcState): string
  {
    "Called '" + cmd + "' command in wrong state: " + Name(actual)
      + ". State should be: " + Name(required) + ". Message ignored."
  }

  function UnknownCommandText(cmd: string): string
  {
    "Received unknown command '" + cmd + "'. Ignored."
  }

  function InitErrorText(reason: string): string
  {
    "Error initializing peer connection: " + reason
  }

  function OfferErrorText(reason: string): string
  {
    "Error taking offer: " + reason
  }

  function CandidateErrorText(reason: string): string
  {
    "Error taking candidate: " + reason
  }

  function UdpErrorText(reason: string): string
  {
    "Error creating UDP connection: " + reason
  }

  /** The reply messages are told apart by their command, so a `ready` can never
      be mistaken for an `answer` or a `candidate`. */
  lemma RepliesDistinct(sdp: string, c: IceCandidateInit)
    ensures ReadyMessage != AnswerMessage(sdp)
    ensures ReadyMessage != CandidateMessage(c)
    ensures AnswerMessage(sdp) != CandidateMessage(c)
  {
  }
}
