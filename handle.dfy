/** `webrtcHandle`: one websocket connection's handle, whose fields the read
    loop and the peer engine's callbacks assign. Its methods are proved
    against the event semantics of module Session. */
module Handle {
  import opened Common
  import opened States
  import opened Messages
  import opened Signalling
  import opened Session
  import Relay

  /** One message read by the loop, paired with the engine's answers for it. */
  datatype Input = Input(r: Received, o: EngineOracle)

  /** The inputs as read-loop events. */
  function AsReads(inputs: seq<Input>): (evs: seq<Event>)
    ensures |evs| == |inputs|
    ensures forall k | 0 <= k < |evs| :: evs[k] == Read(inputs[k].r, inputs[k].o)
  {
    seq(|inputs|, k requires 0 <= k < |inputs| => Read(inputs[k].r, inputs[k].o))
  }

  class WebRtcHandle {
    /** `baseHandle.id`, an opaque `shortuuid`. */
    const id: string
    var state: WebRtcState
    /** Everything written to the websocket, in order. */
    var outbox: seq<Outbound>
    /** Every peer engine operation started, in order. */
    var calls: seq<EngineCall>
    /** Whether `setupOnConnectionStateChange`, `setupOnIceCandidate` and
        `setupOnTrack` have run. */
    var registered: bool
    /** Whether the read loop still runs; its `return` closes the websocket. */
    var open: bool

    function Abstract(): SessionState
      reads this
    {
      SessionState(state, outbox, calls, registered, open)
    }

    /** The handle right after a successful websocket upgrade. */
    constructor (id: string)
      ensures this.id == id && Abstract() == Initial
    {
      this.id := id;
      state := NotStarted;
      outbox := [];
      calls := [];
      registered := false;
      open := true;
    }

    /** `baseHandle.send` and its `sendWarning` / `sendError` wrappers. */
    method Send(m: Outbound)
      modifies this`outbox
      ensures outbox == Deliver(old(Abstract()), [m])
    {
      if open {
        outbox := outbox + [m];
      }
    }

    /** One pass of the `for` loop in `WebRTCHandle`: the read, the parse and
        the command `switch`. Returns whether the loop goes on. */
    method Step(r: Received, o: EngineOracle) returns (continues: bool)
      requires open
      modifies this
      ensures Abstract() == Apply(old(Abstract()), Read(r, o))
      ensures continues == open == Dispatch(old(state), r, o).continues
    {
      match r {
        case ReadFailure(code) =>
          if !IsUnexpectedCloseError(code) {
            open := false;
            return false;
          }
          return true;
        case ParseFailure =>
          return true;
        case Message(m) =>
          if m.command == "start" {
            if state != NotStarted {
              Send(Warning(WrongStateText(m.command, state, NotStarted)));
              return true;
            }
            calls := calls + [NewPeerConnection];
            if o.init.Err? {
              state := Failed;
              Send(Error(InitErrorText(o.init.reason)));
              open := false;
              return false;
            }
            registered := true;
            state := ReadyToBegin;
            Send(ReadyMessage);
          } else if m.command == "offer" {
            if state != ReadyToBegin {
              Send(Warning(WrongStateText(m.command, state, ReadyToBegin)));
              return true;
            }
            state := Signalling;
            calls := calls + [TakeOffer(m.sdp)];
            if o.offer.Err? {
              state := Failed;
              Send(Error(OfferErrorText(o.offer.reason)));
              open := false;
              return false;
            }
            Send(AnswerMessage(o.offer.value));
          } else if m.command == "candidate" {
            if state != Signalling {
              Send(Warning(WrongStateText(m.command, state, Signalling)));
              return true;
            }
            calls := calls + [TakeCandidate(m.candidate)];
            if o.candidate.Err? {
              Send(Warning(CandidateErrorText(o.candidate.reason)));
              return true;
            }
          } else {
            Send(Warning(UnknownCommandText(m.command)));
          }
          return true;
      }
    }

    /** The read loop of `WebRTCHandle`: reads until a pass returns. `consumed`
        is how many of `inputs` were read; the rest are never read. */
    method Run(inputs: seq<Input>) returns (consumed: nat)
      requires open
      modifies this
      ensures consumed <= |inputs|
      ensures Abstract() == Trace(old(Abstract()), AsReads(inputs[..consumed]))
      ensures consumed < |inputs| ==> !open
      ensures !open ==> 0 < consumed && !Dispatch(Trace(old(Abstract()), AsReads(inputs[..consumed - 1])).state,
                                                inputs[consumed - 1].r, inputs[consumed - 1].o).continues
    {
      consumed := 0;
      while consumed < |inputs|
        invariant consumed <= |inputs|
        invariant Abstract() == Trace(old(Abstract()), AsReads(inputs[..consumed]))
        invariant open
      {
        ghost var before := Abstract();
        var go := Step(inputs[consumed].r, inputs[consumed].o);
        assert AsReads(inputs[..consumed + 1]) == AsReads(inputs[..consumed]) + [Read(inputs[consumed].r, inputs[consumed].o)];
        TraceSnoc(old(Abstract()), AsReads(inputs[..consumed]), Read(inputs[consumed].r, inputs[consumed].o));
        consumed := consumed + 1;
        if !go {
          assert inputs[..consumed - 1] == inputs[..consumed][..consumed - 1];
          return;
        }
      }
    }

    /** The `OnConnectionStateChange` callback. */
    method OnConnectionStateChange(pc: PeerConnectionState)
      requires registered
      modifies this`state
      ensures Abstract() == Apply(old(Abstract()), ConnectionStateChange(pc))
    {
      match pc {
        case PcConnected =>
          state := Streaming;
        case PcFailed =>
          state := Failed;
        case _ =>
      }
    }

    /** The `OnICECandidate` callback. */
    method OnIceCandidate(c: Option<IceCandidateInit>)
      requires registered
      modifies this`outbox
      ensures Abstract() == Apply(old(Abstract()), IceCandidate(c))
    {
      if c.None? {
        return;
      }
      Send(CandidateMessage(c.value));
    }

    /** The `OnTrack` callback up to its relay loop: picks the kind's target and
        dials it. A failed dial is one error; otherwise the returned relay is the
        state the loop starts from. */
    method OnTrack(kind: Relay.Kind, dial: Outcome<()>) returns (relay: Relay.TrackRelay?)
      requires registered
      modifies this`outbox
      ensures Abstract() == Apply(old(Abstract()), TrackArrived(kind, dial))
      ensures relay != null <==> RelayStarts(kind, dial)
      ensures relay != null ==>
                && fresh(relay) && relay.kind == kind
                && relay.packet == Relay.ZeroPacket && relay.sent == []
                && relay.payloadType == Relay.PayloadTypeFor(kind)
                && Relay.Target(kind) == Some(relay.destination)
    {
      var target := Relay.Target(kind);
      if target.None? || dial.Err? {
        Send(Error(RelayFailureText(kind, dial)));
        return null;
      }
      relay := new Relay.TrackRelay(kind);
    }

    /** One schedule of the read loop and the callbacks, events in the order
        given: a read happens only while the loop runs, a callback only
        once it is registered. */
    method Interleave(events: seq<Event>)
      modifies this
      ensures Abstract() == Trace(old(Abstract()), events)
    {
      var i := 0;
      while i < |events|
        invariant i <= |events|
        invariant Abstract() == Trace(old(Abstract()), events[..i])
      {
        match events[i] {
          case Read(r, o) =>
            if open {
              var _ := Step(r, o);
            }
          case ConnectionStateChange(pc) =>
            if registered {
              OnConnectionStateChange(pc);
            }
          case IceCandidate(c) =>
            if registered {
              OnIceCandidate(c);
            }
          case TrackArrived(kind, dial) =>
            if registered {
              var _ := OnTrack(kind, dial);
            }
        }
        TraceSnoc(old(Abstract()), events[..i], events[i]);
        assert events[..i + 1] == events[..i] + [events[i]];
        i := i + 1;
      }
      assert events[..|events|] == events;
    }
  }
}
