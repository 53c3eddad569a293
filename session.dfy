/** A whole connection as a sequence of events: passes of the read loop
    interleaved with the callbacks the peer engine invokes on its own
    goroutines (connection state changes, gathered ICE candidates, arriving
    tracks). Each event is applied atomically, as the handle's mutex makes
    the state assignments and the websocket writes. */
module Session {
  import opened Common
  import opened States
  import opened Messages
  import opened Signalling
  import Relay

  /** `webrtc.PeerConnectionState`. */
  datatype PeerConnectionState =
    | PcUnknown | PcNew | PcConnecting | PcConnected | PcDisconnected | PcFailed | PcClosed

  /** One thing that happens to the connection. `TrackArrived` carries the kind
      and what `DialUDP` towards that kind's destination returned. */
  datatype Event =
    | Read(r: Received, o: EngineOracle)
    | ConnectionStateChange(pc: PeerConnectionState)
    | IceCandidate(candidate: Option<IceCandidateInit>)
    | TrackArrived(kind: Relay.Kind, dial: Outcome<()>)

  /** The handle's observable state: the signalling state, what was written to
      the websocket, the engine calls made, whether the callbacks are
      registered, and whether the read loop is still running (its return
      closes the websocket). */
  datatype SessionState = SessionState(
    state: WebRtcState,
    outbox: seq<Outbound>,
    calls: seq<EngineCall>,
    registered: bool,
    open: bool)

  /** A fresh handle right after the websocket upgrade. */
  const Initial: SessionState := SessionState(NotStarted, [], [], false, true)

  /** What `send` achieves: once the websocket is closed the write fails and
      its error is ignored. */
  function Deliver(s: SessionState, msgs: seq<Outbound>): seq<Outbound>
  {
    if s.open then s.outbox + msgs else s.outbox
  }

  /** The state assignment of the `OnConnectionStateChange` callback. */
  function ConnectionStateNext(s: WebRtcState, pc: PeerConnectionState): WebRtcState
  {
    match pc
    case PcConnected => Streaming
    case PcFailed => Failed
    case _ => s
  }

  /** The relay of a kind starts only when the kind has a destination and
      `DialUDP` succeeded. */
  predicate RelayStarts(kind: Relay.Kind, dial: Outcome<()>)
  {
    Relay.Target(kind).Some? && dial.Ok?
  }

  /** The error written when the UDP connection cannot be made. A kind without
      destination dials a nil address, which Go's `net` package always rejects
      with "missing address", whatever else happens; for a kind with a
      destination the text is that of the dial error. */
  function RelayFailureText(kind: Relay.Kind, dial: Outcome<()>): (text: string)
    ensures "Error creating UDP connection: " <= text
    ensures Relay.Target(kind).None? ==> text == UdpErrorText("missing address")
    ensures Relay.Target(kind).Some? && dial.Err? ==>
              |dial.reason| <= |text| && text[|text| - |dial.reason|..] == dial.reason
  {
    UdpErrorText(if Relay.Target(kind).Some? && dial.Err? then dial.reason else "missing address")
  }

  /** The effect of one event. The read loop only reads while it runs; a
      callback only runs once `initializePeerConnection` registered it. */
  function Apply(s: SessionState, e: Event): SessionState
  {
    match e
    case Read(r, o) =>
      if !s.open then s
      else
        var eff := Dispatch(s.state, r, o);
        SessionState(eff.next, s.outbox + eff.replies, s.calls + eff.calls,
                     s.registered || eff.registers, eff.continues)
    case ConnectionStateChange(pc) =>
      if !s.registered then s else s.(state := ConnectionStateNext(s.state, pc))
    case IceCandidate(c) =>
      if !s.registered || c.None? then s else s.(outbox := Deliver(s, [CandidateMessage(c.value)]))
    case TrackArrived(kind, dial) =>
      if !s.registered || RelayStarts(kind, dial) then s
      else s.(outbox := Deliver(s, [Error(RelayFailureText(kind, dial))]))
  }

  /** The state after the events `evs`, in order. */
  function Trace(s: SessionState, evs: seq<Event>): SessionState
    decreases |evs|
  {
    if evs == [] then s else Apply(Trace(s, evs[..|evs| - 1]), evs[|evs| - 1])
  }

  /** The engine is used in the only order the guards allow: the peer connection
      is created first and once, the offer is taken second and once, and every
      later call adds a candidate. */
  ghost predicate EngineOrder(calls: seq<EngineCall>)
  {
    && (forall i | 0 <= i < |calls| :: calls[i].NewPeerConnection? <==> i == 0)
    && (forall i | 0 <= i < |calls| :: calls[i].TakeOffer? <==> i == 1)
  }

  /** What holds of every handle reachable from `Initial`. */
  ghost predicate Inv(s: SessionState)
  {
    && EngineOrder(s.calls)
    && (s.state == NotStarted <==> s.calls == [])
    && (s.registered ==> s.calls != [])
    && (s.state == ReadyToBegin ==> |s.calls| == 1 && s.registered)
    && (s.state == Signalling ==> |s.calls| >= 2)
    && multiset(s.outbox)[ReadyMessage] == (if s.registered then 1 else 0)
  }

  lemma InitialInv()
    ensures Inv(Initial)
  {
  }

  /** An engine call the guards admit keeps the order. */
  lemma EngineOrderSnoc(calls: seq<EngineCall>, c: EngineCall)
    requires EngineOrder(calls)
    requires c.NewPeerConnection? ==> calls == []
    requires c.TakeOffer? ==> |calls| == 1
    requires c.TakeCandidate? ==> |calls| >= 2
    ensures EngineOrder(calls + [c])
  {
    var t := calls + [c];
    forall i | 0 <= i < |t|
      ensures (t[i].NewPeerConnection? <==> i == 0) && (t[i].TakeOffer? <==> i == 1)
    {
      if i < |calls| {
        assert t[i] == calls[i];
      }
    }
  }

  /** One pass of the read loop keeps the invariant. */
  lemma ReadKeepsInv(s: SessionState, r: Received, o: EngineOracle)
    requires Inv(s) && s.open
    ensures Inv(Apply(s, Read(r, o)))
  {
    var eff := Dispatch(s.state, r, o);
    var t := Apply(s, Read(r, o));
    assert t.calls == s.calls + eff.calls;
    assert multiset(t.outbox) == multiset(s.outbox) + multiset(eff.replies);
    if r.Message? && eff.calls != [] {
      var m := r.msg;
      if m.command == "start" {
        StartCommand(s.state, m, o);
        EngineOrderSnoc(s.calls, NewPeerConnection);
      } else if m.command == "offer" {
        OfferCommand(s.state, m, o);
        EngineOrderSnoc(s.calls, TakeOffer(m.sdp));
        if o.offer.Ok? {
          RepliesDistinct(o.offer.value, IceCandidateInit("", "", None));
        }
      } else {
        CandidateCommand(s.state, m, o);
        EngineOrderSnoc(s.calls, TakeCandidate(m.candidate));
      }
    } else {
      assert t.calls == s.calls;
    }
  }

  /** A callback keeps the invariant: none calls the engine, and none writes a `ready`. */
  lemma CallbackKeepsInv(s: SessionState, e: Event)
    requires Inv(s) && !e.Read?
    ensures Inv(Apply(s, e))
  {
    var t := Apply(s, e);
    match e
    case ConnectionStateChange(pc) =>
    case IceCandidate(c) =>
      if s.registered && c.Some? {
        RepliesDistinct("", c.value);
        assert multiset(t.outbox)[ReadyMessage] == multiset(s.outbox)[ReadyMessage];
      }
    case TrackArrived(kind, dial) =>
      if s.registered && !RelayStarts(kind, dial) {
        assert multiset(t.outbox)[ReadyMessage] == multiset(s.outbox)[ReadyMessage];
      }
  }

  lemma ApplyKeepsInv(s: SessionState, e: Event)
    requires Inv(s)
    ensures Inv(Apply(s, e))
  {
    if e.Read? {
      if s.open {
        ReadKeepsInv(s, e.r, e.o);
      }
    } else {
      CallbackKeepsInv(s, e);
    }
  }

  lemma {:induction false} TraceKeepsInv(s: SessionState, evs: seq<Event>)
    requires Inv(s)
    ensures Inv(Trace(s, evs))
    decreases |evs|
  {
    if evs != [] {
      TraceKeepsInv(s, evs[..|evs| - 1]);
      ApplyKeepsInv(Trace(s, evs[..|evs| - 1]), evs[|evs| - 1]);
    }
  }

  /** Whatever the client sends and the engine does, in whatever interleaving:
      the peer connection is created at most once and before anything else,
      no candidate reaches the engine before the offer was taken, the offer is
      taken at most once, and at most one `ready` is ever written — exactly one
      once the connection was set up. */
  lemma EngineUsedInOrder(evs: seq<Event>)
    ensures var t := Trace(Initial, evs);
      && (forall i, j | 0 <= i < |t.calls| && 0 <= j < |t.calls| ::
            t.calls[i].NewPeerConnection? && t.calls[j].NewPeerConnection? ==> i == j)
      && (forall j | 0 <= j < |t.calls| :: t.calls[j].TakeCandidate? ==> 1 < j && t.calls[1].TakeOffer?)
      && (forall i, j | 0 <= i < |t.calls| && 0 <= j < |t.calls| ::
            t.calls[i].TakeOffer? && t.calls[j].TakeOffer? ==> i == j)
      && multiset(t.outbox)[ReadyMessage] == (if t.registered then 1 else 0)
  {
    InitialInv();
    TraceKeepsInv(Initial, evs);
    var t := Trace(Initial, evs);
    forall j | 0 <= j < |t.calls| && t.calls[j].TakeCandidate?
      ensures 1 < j && t.calls[1].TakeOffer?
    {
      assert j != 0 && j != 1;
      assert |t.calls| > 1;
    }
  }

  /** Within the read loop the state only moves forward in declaration order. */
  lemma {:induction false} ReadsOnlyAdvance(s: SessionState, evs: seq<Event>)
    requires forall k | 0 <= k < |evs| :: evs[k].Read?
    ensures Advances(s.state, Trace(s, evs).state)
    decreases |evs|
  {
    if evs != [] {
      var prefix := evs[..|evs| - 1];
      ReadsOnlyAdvance(s, prefix);
      var e := evs[|evs| - 1];
      var p := Trace(s, prefix);
      if p.open {
        assert Advances(p.state, Dispatch(p.state, e.r, e.o).next);
      }
    }
  }

  /** The callback has no guard: Connected overwrites even Failed with
      Streaming, and Failed overwrites any state. Closed, Disconnected and the
      other states change nothing. */
  lemma ConnectionCallbackUnguarded(s: SessionState, pc: PeerConnectionState)
    requires s.registered
    ensures var t := Apply(s, ConnectionStateChange(pc));
      && t.outbox == s.outbox && t.calls == s.calls && t.open == s.open && t.registered
      && (pc == PcConnected ==> t.state == Streaming)
      && (pc == PcFailed ==> t.state == Failed)
      && (pc != PcConnected && pc != PcFailed ==> t.state == s.state)
  {
  }

  /** So the state does not only move forward once callbacks interleave: after
      a successful `start`, the engine reports Failed and then Connected, and the
      Failed handle becomes Streaming. */
  lemma FailedCanBecomeStreaming(o: EngineOracle)
    requires o.init.Ok?
    ensures var s2 := Apply(Apply(Initial, Read(StartMsg(), o)), ConnectionStateChange(PcFailed));
      && s2.state == Failed
      && Apply(s2, ConnectionStateChange(PcConnected)).state == Streaming
      && !Advances(s2.state, Apply(s2, ConnectionStateChange(PcConnected)).state)
  {
    StartCommand(NotStarted, Command("start"), o);
  }

  /** One `candidate` reply per gathered candidate, none for the nil candidate
      that ends gathering. */
  lemma IceCandidateCallback(s: SessionState, c: Option<IceCandidateInit>)
    requires s.registered && s.open
    ensures var t := Apply(s, IceCandidate(c));
      && t.state == s.state && t.calls == s.calls
      && (c.None? ==> t.outbox == s.outbox)
      && (c.Some? ==> t.outbox == s.outbox + [CandidateMessage(c.value)])
  {
  }

  /** A track whose UDP connection cannot be made writes one error and starts
      no relay; a track whose connection is made writes nothing. */
  lemma TrackCallback(s: SessionState, kind: Relay.Kind, dial: Outcome<()>)
    requires s.registered && s.open
    ensures var t := Apply(s, TrackArrived(kind, dial));
      && t.state == s.state && t.calls == s.calls
      && (RelayStarts(kind, dial) ==> t.outbox == s.outbox)
      && t.open == s.open && t.registered
      && (!RelayStarts(kind, dial) ==> t.outbox == s.outbox + [Error(RelayFailureText(kind, dial))])
      && (kind == Relay.UnknownKind ==> !RelayStarts(kind, dial))
  {
  }

  /** Once the read loop has returned the websocket is closed: nothing more
      reaches the client, no engine operation is started, and the loop stays
      finished. */
  lemma {:induction false} ClosedIsSilent(s: SessionState, evs: seq<Event>)
    requires !s.open
    ensures var t := Trace(s, evs);
      t.outbox == s.outbox && t.calls == s.calls && !t.open
    decreases |evs|
  {
    if evs != [] {
      ClosedIsSilent(s, evs[..|evs| - 1]);
    }
  }

  /** The loop only ends on a read error or by failing: a failing `start` or
      `offer` ends it in Failed. */
  lemma {:induction false} LoopEndsOnlyOnCloseOrFailure(s: SessionState, evs: seq<Event>)
    requires s.open
    requires forall k | 0 <= k < |evs| :: evs[k].Read? && !evs[k].r.ReadFailure?
    ensures var t := Trace(s, evs);
      !t.open ==> t.state == Failed
    decreases |evs|
  {
    if evs != [] {
      var prefix := evs[..|evs| - 1];
      LoopEndsOnlyOnCloseOrFailure(s, prefix);
      var p := Trace(s, prefix);
      if !p.open {
        assert Trace(s, evs) == p;
      }
    }
  }

  /** Appending an event applies it to the state so far. */
  lemma TraceSnoc(s: SessionState, evs: seq<Event>, e: Event)
    ensures Trace(s, evs + [e]) == Apply(Trace(s, evs), e)
  {
    assert (evs + [e])[..|evs|] == evs;
  }

  function StartMsg(): Received { Message(Command("start")) }

  /** A second `start` is a warning naming the state the first one reached,
      and the engine is created only once. */
  lemma StartTwice(o1: EngineOracle, o2: EngineOracle)
    requires o1.init.Ok?
    ensures var t := Trace(Initial, [Read(StartMsg(), o1), Read(StartMsg(), o2)]);
      && t.state == ReadyToBegin
      && t.calls == [NewPeerConnection]
      && t.outbox == [ReadyMessage, Warning(WrongStateText("start", ReadyToBegin, NotStarted))]
      && t.open
  {
    var e1, e2 := Read(StartMsg(), o1), Read(StartMsg(), o2);
    TraceSnoc(Initial, [], e1);
    TraceSnoc(Initial, [e1], e2);
    assert [e1] + [e2] == [e1, e2];
    StartCommand(NotStarted, Command("start"), o1);
    StartCommand(ReadyToBegin, Command("start"), o2);
  }

  /** An `offer` before `start` is one warning and changes nothing else. */
  lemma OfferBeforeStart(sdp: string, o: EngineOracle)
    ensures var t := Apply(Initial, Read(Message(WebRtcMessage("offer", sdp, "", "", None)), o));
      t == Initial.(outbox := [Warning(WrongStateText("offer", NotStarted, ReadyToBegin))])
  {
  }

  /** The handshake: start, offer, a candidate, an unknown command. */
  lemma HappyPath(sdp1: string, sdp2: string, c1: string)
    ensures var o := EngineOracle(Ok(()), Ok(sdp2), Ok(()));
      var t := Apply(Apply(Apply(Apply(Initial,
        Read(StartMsg(), o)),
        Read(Message(WebRtcMessage("offer", sdp1, "", "", None)), o)),
        Read(Message(WebRtcMessage("candidate", "", c1, "", None)), o)),
        Read(Message(Command("bogus")), o));
      && t.outbox == [ReadyMessage, AnswerMessage(sdp2), Warning("Received unknown command 'bogus'. Ignored.")]
      && t.calls == [NewPeerConnection, TakeOffer(sdp1), TakeCandidate(c1)]
      && t.state == Signalling && t.open
  {
    var o := EngineOracle(Ok(()), Ok(sdp2), Ok(()));
    var m1, m2, m3, m4 := Command("start"), WebRtcMessage("offer", sdp1, "", "", None),
                          WebRtcMessage("candidate", "", c1, "", None), Command("bogus");
    StartCommand(NotStarted, m1, o);
    var s1 := Apply(Initial, Read(Message(m1), o));
    assert s1 == SessionState(ReadyToBegin, [ReadyMessage], [NewPeerConnection], true, true);
    OfferCommand(ReadyToBegin, m2, o);
    var s2 := Apply(s1, Read(Message(m2), o));
    assert s2 == SessionState(Signalling, [ReadyMessage, AnswerMessage(sdp2)], [NewPeerConnection, TakeOffer(sdp1)], true, true);
    CandidateCommand(Signalling, m3, o);
    var s3 := Apply(s2, Read(Message(m3), o));
    assert s3 == s2.(calls := s2.calls + [TakeCandidate(c1)]);
    UnknownCommand(Signalling, m4, o);
    assert "Received unknown command '" + "bogus" + "'. Ignored." == "Received unknown command 'bogus'. Ignored.";
  }
}
