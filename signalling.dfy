/** One pass of the read loop in `WebRTCHandle`: what reading and handling one
    websocket message does to the state, which replies it writes, which peer
    engine operations it calls and whether the loop goes on. The engine's
    answers are parameters. */
module Signalling {
  import opened Common
  import opened States
  import opened Messages

  /** The outcome of `ReadMessage` followed by `json.Unmarshal`. A read error
      carries the close code when it is a websocket close error, and `None`
      for any other error. */
  datatype Received =
    | Message(msg: WebRtcMessage)
    | ParseFailure
    | ReadFailure(closeCode: Option<int>)

  const CloseNormalClosure: int := 1000
  const CloseGoingAway: int := 1001
  const CloseAbnormalClosure: int := 1006

  /** `websocket.IsUnexpectedCloseError(err, CloseNormalClosure, CloseGoingAway,
      CloseAbnormalClosure)`: a close error whose code is none of the three. */
  predicate IsUnexpectedCloseError(closeCode: Option<int>)
  {
    closeCode.Some?
    && closeCode.value != CloseNormalClosure
    && closeCode.value != CloseGoingAway
    && closeCode.value != CloseAbnormalClosure
  }

  /** The peer engine operations the loop invokes: `initializePeerConnection`,
      `takeOffer(sdp)` and `takeCandidate(candidate)`. */
  datatype EngineCall = NewPeerConnection | TakeOffer(sdp: string) | TakeCandidate(candidate: string)

  /** What the engine would answer, should the message lead to a call: for
      `takeOffer`, success carries the SDP of the local description. */
  datatype EngineOracle = EngineOracle(init: Outcome<()>, offer: Outcome<string>, candidate: Outcome<()>)

  /** The effect of one pass: the next state, the messages written, the engine
      calls made, whether the connection callbacks got registered, and whether
      the loop continues (`false` is a `return` from the handler). */
  datatype Effect = Effect(
    next: WebRtcState,
    replies: seq<Outbound>,
    calls: seq<EngineCall>,
    registers: bool,
    continues: bool)

  /** A guard violation: one wrong-state warning, nothing else. */
  function Reject(s: WebRtcState, cmd: string, required: WebRtcState): Effect
  {
    Effect(s, [Warning(WrongStateText(cmd, s, required))], [], false, true)
  }

  function Dispatch(s: WebRtcState, r: Received, o: EngineOracle): (e: Effect)
    ensures Advances(s, e.next)
    ensures |e.replies| <= 1 && |e.calls| <= 1
    ensures e.next != s ==> |e.calls| == 1
    ensures !r.Message? ==> e.next == s && e.replies == [] && e.calls == [] && !e.registers
    ensures !e.continues ==> e.next == Failed || r.ReadFailure?
    ensures e.registers ==> s == NotStarted && e.next == ReadyToBegin && e.continues
    ensures e.next == Failed && s != Failed ==> !e.continues && |e.replies| == 1 && e.replies[0].Error?
  {
    match r
    case ReadFailure(code) => Effect(s, [], [], false, IsUnexpectedCloseError(code))
    case ParseFailure => Effect(s, [], [], false, true)
    case Message(m) =>
      if m.command == "start" then
        if s != NotStarted then Reject(s, m.command, NotStarted)
        else match o.init
          case Err(reason) => Effect(Failed, [Error(InitErrorText(reason))], [NewPeerConnection], false, false)
          case Ok(_) => Effect(ReadyToBegin, [ReadyMessage], [NewPeerConnection], true, true)
      else if m.command == "offer" then
        if s != ReadyToBegin then Reject(s, m.command, ReadyToBegin)
        else match o.offer
          case Err(reason) => Effect(Failed, [Error(OfferErrorText(reason))], [TakeOffer(m.sdp)], false, false)
          case Ok(local) => Effect(Signalling, [AnswerMessage(local)], [TakeOffer(m.sdp)], false, true)
      else if m.command == "candidate" then
        if s != Signalling then Reject(s, m.command, Signalling)
        else match o.candidate
          case Err(reason) => Effect(s, [Warning(CandidateErrorText(reason))], [TakeCandidate(m.candidate)], false, true)
          case Ok(_) => Effect(s, [], [TakeCandidate(m.candidate)], false, true)
      else
        Effect(s, [Warning(UnknownCommandText(m.command))], [], false, true)
  }

  /** `start` is accepted only in NotStarted. Elsewhere: one wrong-state warning,
      no engine call, state unchanged. Accepted: the engine is created once; on
      success one `ready` and the state ReadyToBegin, on failure one error, the
      state Failed and the loop ends. */
  lemma StartCommand(s: WebRtcState, m: WebRtcMessage, o: EngineOracle)
    requires m.command == "start"
    ensures var e := Dispatch(s, Message(m), o);
      && (s != NotStarted ==> e == Effect(s, [Warning(WrongStateText("start", s, NotStarted))], [], false, true))
      && (s == NotStarted ==> e.calls == [NewPeerConnection])
      && (s == NotStarted && o.init.Ok? ==>
            e.next == ReadyToBegin && e.replies == [ReadyMessage] && e.registers && e.continues)
      && (s == NotStarted && o.init.Err? ==>
            e.next == Failed && e.replies == [Error(InitErrorText(o.init.reason))] && !e.registers && !e.continues)
  {
  }

  /** `offer` is accepted only in ReadyToBegin; the remote SDP is handed to the
      engine as it came. Success: one `answer` with the local SDP, state
      Signalling. Failure: one error, state Failed, the loop ends. */
  lemma OfferCommand(s: WebRtcState, m: WebRtcMessage, o: EngineOracle)
    requires m.command == "offer"
    ensures var e := Dispatch(s, Message(m), o);
      && (s != ReadyToBegin ==> e == Effect(s, [Warning(WrongStateText("offer", s, ReadyToBegin))], [], false, true))
      && (s == ReadyToBegin ==> e.calls == [TakeOffer(m.sdp)] && !e.registers)
      && (s == ReadyToBegin && o.offer.Ok? ==>
            e.next == Signalling && e.replies == [AnswerMessage(o.offer.value)] && e.continues)
      && (s == ReadyToBegin && o.offer.Err? ==>
            e.next == Failed && e.replies == [Error(OfferErrorText(o.offer.reason))] && !e.continues)
  {
  }

  /** `candidate` is accepted only in Signalling and never changes the state.
      Only the candidate string reaches the engine. A failed add is one warning;
      a successful one writes nothing. */
  lemma CandidateCommand(s: WebRtcState, m: WebRtcMessage, o: EngineOracle)
    requires m.command == "candidate"
    ensures var e := Dispatch(s, Message(m), o);
      && e.next == s && e.continues && !e.registers
      && (s != Signalling ==> e.calls == [] && e.replies == [Warning(WrongStateText("candidate", s, Signalling))])
      && (s == Signalling ==> e.calls == [TakeCandidate(m.candidate)])
      && (s == Signalling && o.candidate.Ok? ==> e.replies == [])
      && (s == Signalling && o.candidate.Err? ==> e.replies == [Warning(CandidateErrorText(o.candidate.reason))])
  {
  }

  /** Any other command (the empty one included, since Go's JSON decoder does not
      enforce `required`) is one unknown-command warning and changes nothing. */
  lemma UnknownCommand(s: WebRtcState, m: WebRtcMessage, o: EngineOracle)
    requires m.command != "start" && m.command != "offer" && m.command != "candidate"
    ensures Dispatch(s, Message(m), o)
      == Effect(s, [Warning("Received unknown command '" + m.command + "'. Ignored.")], [], false, true)
  {
  }

  /** A message that does not parse is skipped silently. A read error writes
      nothing and ends the loop, unless it is a close error with a code other
      than normal closure, going away or abnormal closure. */
  lemma ReadAndParseFailures(s: WebRtcState, code: Option<int>, o: EngineOracle)
    ensures Dispatch(s, ParseFailure, o) == Effect(s, [], [], false, true)
    ensures var e := Dispatch(s, ReadFailure(code), o);
      && e.next == s && e.replies == [] && e.calls == []
      && (e.continues <==> code.Some? && code.value !in {1000, 1001, 1006})
  {
  }

  /** Which engine answer is consulted depends on the command and the state
      only, and the fields that command does not use are ignored: the effect
      of a message is fixed by its command and the field that command reads. */
  lemma OnlyUsedFieldsMatter(s: WebRtcState, m1: WebRtcMessage, m2: WebRtcMessage, o: EngineOracle)
    requires m1.command == m2.command
    requires m1.command == "offer" ==> m1.sdp == m2.sdp
    requires m1.command == "candidate" ==> m1.candidate == m2.candidate
    ensures Dispatch(s, Message(m1), o) == Dispatch(s, Message(m2), o)
  {
  }

  /** An accepted message writes at most one message to the client, and a
      rejected one exactly one warning; state, engine and callbacks are only
      touched by accepted commands. */
  lemma AtMostOneReply(s: WebRtcState, m: WebRtcMessage, o: EngineOracle)
    ensures var e := Dispatch(s, Message(m), o);
      e.calls == [] ==> e.next == s && |e.replies| == 1 && e.replies[0].Warning? && e.continues && !e.registers
  {
  }
}
