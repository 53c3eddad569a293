/** The media relay installed by `setupOnTrack`: the per-kind table of payload
    type and local destination, the payload-type rewrite, and the endless read
    / unmarshal / rewrite / marshal / write loop that reuses one packet
    struct. RTP byte formats are not modelled: what `Unmarshal` decoded and
    whether `MarshalTo` succeeded are given by the caller. */
module Relay {
  import opened Common

  /** `webrtc.RTPCodecType` of a remote track; its zero value is neither kind. */
  datatype Kind = Audio | Video | UnknownKind

  /** Where a kind is forwarded to: the payload type written into each packet
      and the local UDP endpoint. */
  datatype RelayTarget = RelayTarget(payloadType: uint8, host: string, port: uint16)

  const Loopback: string := "127.0.0.1"

  /** The `switch track.Kind()` table. The switch has no default case, so a
      track of neither kind has no destination. */
  function Target(kind: Kind): (t: Option<RelayTarget>)
    ensures t.Some? <==> kind != UnknownKind
    ensures t.Some? ==> t.value.payloadType < 0x80 && t.value.host == Loopback
    ensures kind == Audio ==> t == Some(RelayTarget(111, Loopback, 4000))
    ensures kind == Video ==> t == Some(RelayTarget(96, Loopback, 4002))
  {
    match kind
    case Audio => Some(RelayTarget(111, Loopback, 4000))
    case Video => Some(RelayTarget(96, Loopback, 4002))
    case UnknownKind => None
  }

  /** The value of the `payloadType` local after the switch (zero when no case matched). */
  function PayloadTypeFor(kind: Kind): (pt: uint8)
    ensures pt < 0x80
  {
    match Target(kind)
    case Some(t) => t.payloadType
    case None => 0
  }

  /** The two kinds never share a payload type or a destination port, so the
      downstream pipeline can tell audio from video by either. */
  lemma TargetsDisjoint()
    ensures PayloadTypeFor(Audio) != PayloadTypeFor(Video)
    ensures Target(Audio).value.port != Target(Video).value.port
  {
  }

  /** The decoded RTP fixed header (section 5.1 of RFC 3550) and the rest of the
      packet. `PayloadType` is the 7-bit PT field; header extensions and padding
      are kept as opaque bytes. */
  datatype RtpPacket = RtpPacket(
    version: uint8,
    padding: bool,
    extension: bool,
    marker: bool,
    payloadType: uint8,
    sequenceNumber: uint16,
    timestamp: uint32,
    ssrc: uint32,
    csrc: seq<uint32>,
    extensionBytes: seq<uint8>,
    payload: seq<uint8>)

  /** `&rtp.Packet{}`: the struct before anything has been unmarshalled into it. */
  const ZeroPacket: RtpPacket := RtpPacket(0, false, false, false, 0, 0, 0, 0, [], [], [])

  /** `rtpPacket.PayloadType = pt`: the PT field is replaced and every other
      header field and the payload are kept. */
  function Rewrite(p: RtpPacket, pt: uint8): (r: RtpPacket)
    ensures r.payloadType == pt
    ensures r.(payloadType := p.payloadType) == p
  {
    p.(payloadType := pt)
  }

  /** Rewriting twice with the same constant is rewriting once, so re-sending a
      packet that was already rewritten sends the same bytes. */
  lemma RewriteIdempotent(p: RtpPacket, pt: uint8)
    ensures Rewrite(Rewrite(p, pt), pt) == Rewrite(p, pt)
  {
  }

  /** How `udpConn.Write` ended. A refused write (no listener yet) `continue`s;
      any other error is logged; neither ends the loop. */
  datatype WriteOutcome = Delivered | ConnectionRefused | WriteFailed(reason: string)

  /** What the foreign calls of one loop iteration did. `unmarshalled` is the
      packet `Unmarshal` decoded from the bytes `track.Read` returned, or `None`
      when it failed (also what a failed read, which returns no bytes, leads to);
      `marshalled` says whether `MarshalTo` succeeded. */
  datatype Iteration = Iteration(unmarshalled: Option<RtpPacket>, marshalled: bool, write: WriteOutcome)

  /** The datagram handed to `udpConn.Write`: the encoded packet, or nothing when
      `MarshalTo` failed (it then reports zero bytes, and `packetBytes[:0]` is written). */
  datatype Datagram = Encoded(packet: RtpPacket) | Empty

  datatype Transmission = Transmission(datagram: Datagram, outcome: WriteOutcome)

  /** The reused struct after `Unmarshal`: the decoded packet, or its previous
      contents when decoding failed. */
  function Reuse(current: RtpPacket, it: Iteration): RtpPacket
  {
    match it.unmarshalled
    case Some(p) => p
    case None => current
  }

  function Transmit(p: RtpPacket, it: Iteration): Transmission
  {
    Transmission(if it.marshalled then Encoded(p) else Empty, it.write)
  }

  /** The reused struct after the iterations `its`, starting from `init`. */
  function PacketAfter(pt: uint8, init: RtpPacket, its: seq<Iteration>): RtpPacket
    decreases |its|
  {
    if its == [] then init
    else Rewrite(Reuse(PacketAfter(pt, init, its[..|its| - 1]), its[|its| - 1]), pt)
  }

  /** The writes the loop performs over the iterations `its`: one per iteration,
      because no per-packet failure ends the loop. */
  function Relayed(pt: uint8, init: RtpPacket, its: seq<Iteration>): (r: seq<Transmission>)
    ensures |r| == |its|
    decreases |its|
  {
    if its == [] then []
    else Relayed(pt, init, its[..|its| - 1]) + [Transmit(PacketAfter(pt, init, its), its[|its| - 1])]
  }

  /** The i-th write sends the struct as it stands after iteration i. */
  lemma {:induction false} RelayedAt(pt: uint8, init: RtpPacket, its: seq<Iteration>, i: nat)
    requires i < |its|
    ensures Relayed(pt, init, its)[i] == Transmit(PacketAfter(pt, init, its[..i + 1]), its[i])
    decreases |its|
  {
    var n := |its| - 1;
    if i < n {
      RelayedAt(pt, init, its[..n], i);
      assert its[..n][..i + 1] == its[..i + 1];
      assert its[..n][i] == its[i];
    } else {
      assert its[..i + 1] == its;
    }
  }

  /** Every packet the relay encodes carries the kind's payload type, whatever
      the PT of the packet that came in. */
  lemma {:induction false} RelayedPayloadType(pt: uint8, init: RtpPacket, its: seq<Iteration>, i: nat)
    requires i < |its|
    requires Relayed(pt, init, its)[i].datagram.Encoded?
    ensures Relayed(pt, init, its)[i].datagram.packet.payloadType == pt
  {
    RelayedAt(pt, init, its, i);
  }

  /** A packet that decoded and re-encoded is forwarded with only its PT changed. */
  lemma {:induction false} DecodedPacketForwarded(pt: uint8, init: RtpPacket, its: seq<Iteration>, i: nat, p: RtpPacket)
    requires i < |its|
    requires its[i].unmarshalled == Some(p) && its[i].marshalled
    ensures Relayed(pt, init, its)[i].datagram == Encoded(Rewrite(p, pt))
  {
    RelayedAt(pt, init, its, i);
  }

  /** A packet that failed to decode is not dropped: the struct still holds the
      previous packet (or the zero packet on the first iteration), and that is
      rewritten and sent again. */
  lemma {:induction false} UndecodedResendsPrevious(pt: uint8, init: RtpPacket, its: seq<Iteration>, i: nat)
    requires i < |its|
    requires its[i].unmarshalled.None? && its[i].marshalled
    ensures Relayed(pt, init, its)[i].datagram == Encoded(Rewrite(PacketAfter(pt, init, its[..i]), pt))
    ensures i == 0 ==> Relayed(pt, init, its)[i].datagram == Encoded(Rewrite(init, pt))
  {
    RelayedAt(pt, init, its, i);
    assert its[..i + 1][..i] == its[..i];
    assert its[..i + 1][i] == its[i];
  }

  /** In particular, an undecodable packet right after a forwarded one sends an
      exact duplicate of it. */
  lemma {:induction false} UndecodedDuplicatesLast(pt: uint8, init: RtpPacket, its: seq<Iteration>, i: nat)
    requires 0 < i < |its|
    requires its[i - 1].marshalled
    requires its[i].unmarshalled.None? && its[i].marshalled
    ensures Relayed(pt, init, its)[i].datagram == Relayed(pt, init, its)[i - 1].datagram
  {
    UndecodedResendsPrevious(pt, init, its, i);
    RelayedAt(pt, init, its, i - 1);
    assert its[..i - 1 + 1] == its[..i];
    var prev := PacketAfter(pt, init, its[..i]);
    assert its[..i] != [];
    assert prev.payloadType == pt;
    RewriteIdempotent(Reuse(PacketAfter(pt, init, its[..i][..i - 1]), its[..i][i - 1]), pt);
  }

  /** One relay goroutine: `payloadType` and the destination are fixed when the
      relay starts; `packet` is the `rtp.Packet` struct reused by every
      iteration; `sent` records every `udpConn.Write`. */
  class TrackRelay {
    const kind: Kind
    const payloadType: uint8
    const destination: RelayTarget
    var packet: RtpPacket
    var sent: seq<Transmission>

    /** The relay as it stands when `DialUDP` has succeeded: only a kind with a
        destination gets this far. */
    constructor (kind: Kind)
      requires kind != UnknownKind
      ensures this.kind == kind && Target(kind) == Some(destination)
      ensures payloadType == PayloadTypeFor(kind) == destination.payloadType
      ensures packet == ZeroPacket && sent == []
    {
      this.kind := kind;
      this.payloadType := PayloadTypeFor(kind);
      this.destination := Target(kind).value;
      packet := ZeroPacket;
      sent := [];
    }

    /** One pass of the `for` loop. */
    method Forward(it: Iteration)
      modifies this
      ensures packet == Rewrite(Reuse(old(packet), it), payloadType)
      ensures sent == old(sent) + [Transmit(packet, it)]
    {
      if it.unmarshalled.Some? {
        packet := it.unmarshalled.value;
      }
      packet := packet.(payloadType := payloadType);
      var datagram := if it.marshalled then Encoded(packet) else Empty;
      sent := sent + [Transmission(datagram, it.write)];
    }

    /** The first |its| passes of the loop (which in the source never exits). */
    method Run(its: seq<Iteration>)
      modifies this
      ensures packet == PacketAfter(payloadType, old(packet), its)
      ensures sent == old(sent) + Relayed(payloadType, old(packet), its)
    {
      var i := 0;
      while i < |its|
        invariant 0 <= i <= |its|
        invariant packet == PacketAfter(payloadType, old(packet), its[..i])
        invariant sent == old(sent) + Relayed(payloadType, old(packet), its[..i])
      {
        Forward(its[i]);
        assert its[..i + 1][..i] == its[..i];
        i := i + 1;
      }
      assert its[..|its|] == its;
    }
  }
}
