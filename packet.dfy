/**
 * Packet kinds and the constructors of the Babel control TLVs that the node
 * sends to a peer: Hello (section 4.6.5 of RFC 8966), IHU (section 4.6.6)
 * and Update (section 4.6.9).
 */
module Packet {
  import opened Common
  import opened SequenceNumbers
  import opened Metrics

  /** The one-byte tag that tells data packets from control packets. */
  datatype PacketType = DataPacket | ControlPacket

  function PacketTypeTag(t: PacketType): (r: U8)
    ensures t == DataPacket <==> r == 0
    ensures t == ControlPacket <==> r == 1
  {
    match t
    case DataPacket => 0
    case ControlPacket => 1
  }

  /** The two tags are distinct, so the tag identifies the packet kind. */
  lemma PacketTypeTagInjective(a: PacketType, b: PacketType)
    ensures PacketTypeTag(a) == PacketTypeTag(b) <==> a == b
  {
  }

  /** A control packet. */
  datatype Tlv =
    | Hello(unicast: bool, seqno: SeqNo, interval: U16)
    | Ihu(rxCost: Metric, interval: U16, address: Option<IpAddr>)
    | Update(interval: U16, seqno: SeqNo, metric: Metric, subnet: Subnet, routerId: PublicKey)

  /** The part of a neighbour that building a Hello reads and changes. */
  class Peer {
    var connectionIdentifier: string
    var helloSeqno: SeqNo

    constructor (connectionIdentifier: string, helloSeqno: SeqNo)
      ensures this.connectionIdentifier == connectionIdentifier
      ensures this.helloSeqno == helloSeqno
    {
      this.connectionIdentifier := connectionIdentifier;
      this.helloSeqno := helloSeqno;
    }

    /** Advances the Hello counter by one, wrapping at 2^16. */
    method IncrementHelloSeqno()
      modifies this`helloSeqno
      ensures helloSeqno == Next(old(helloSeqno))
    {
      helloSeqno := Next(helloSeqno);
    }
  }

  /** What one Hello produces from a counter value: the TLV and the next counter value. */
  function HelloStep(seqno: SeqNo, interval: U16): (Tlv, SeqNo) {
    (Hello(true, seqno, interval), Next(seqno))
  }

  /**
   * Builds a unicast Hello stamped with the peer's current Hello sequence
   * number, then advances that number. No other field of the peer changes.
   */
  method NewHello(destPeer: Peer, interval: U16) returns (tlv: Tlv)
    modifies destPeer`helloSeqno
    ensures (tlv, destPeer.helloSeqno) == HelloStep(old(destPeer.helloSeqno), interval)
    ensures tlv.Hello? && tlv.unicast
    ensures tlv.seqno == old(destPeer.helloSeqno) && tlv.interval == interval
    ensures destPeer.helloSeqno == Next(old(destPeer.helloSeqno))
  {
    tlv := Hello(true, destPeer.helloSeqno, interval);
    destPeer.IncrementHelloSeqno();
  }

  /** The Hellos and the final counter value of `n` NewHello calls on one peer. */
  function HelloRun(seqno: SeqNo, interval: U16, n: nat): (r: (seq<Tlv>, SeqNo))
    ensures |r.0| == n && forall k :: 0 <= k < n ==> r.0[k].Hello?
    decreases n
  {
    if n == 0 then ([], seqno)
    else
      var (tlv, next) := HelloStep(seqno, interval);
      var (rest, last) := HelloRun(next, interval, n - 1);
      ([tlv] + rest, last)
  }

  /**
   * `n` Hellos in a row carry the sequence numbers s, s+1, ..., s+n-1 (modulo
   * 2^16), all with the given interval, and leave the peer's counter at s+n.
   */
  lemma {:induction false} HelloRunSeqnos(seqno: SeqNo, interval: U16, n: nat)
    ensures |HelloRun(seqno, interval, n).0| == n
    ensures forall k :: 0 <= k < n ==>
      HelloRun(seqno, interval, n).0[k] == Hello(true, Advance(seqno, k), interval)
    ensures HelloRun(seqno, interval, n).1 == Advance(seqno, n)
    decreases n
  {
    if n > 0 {
      var next := Next(seqno);
      HelloRunSeqnos(next, interval, n - 1);
      AdvanceNext(seqno, n - 1);
      var rest := HelloRun(next, interval, n - 1).0;
      var run := HelloRun(seqno, interval, n).0;
      assert run == [Hello(true, seqno, interval)] + rest;
      forall k | 0 <= k < n
        ensures run[k] == Hello(true, Advance(seqno, k), interval)
      {
        if k > 0 {
          assert run[k] == rest[k - 1];
          AdvanceNext(seqno, k - 1);
        }
      }
    }
  }

  /** Up to 2^16 Hellos in a row never reuse a sequence number. */
  lemma HelloRunDistinct(seqno: SeqNo, interval: U16, n: nat, i: nat, j: nat)
    requires i < j < n <= SEQNO_MODULUS
    ensures HelloRun(seqno, interval, n).0[i].seqno != HelloRun(seqno, interval, n).0[j].seqno
  {
    HelloRunSeqnos(seqno, interval, n);
    AdvanceDistinct(seqno, i, j);
  }

  /** An IHU towards `destAddress`; the receive cost is always 0. */
  function NewIhu(interval: U16, destAddress: IpAddr): (r: Tlv)
    ensures r.Ihu?
    ensures r.rxCost == Metric(0) && !IsInfinite(r.rxCost)
    ensures r.interval == interval
    ensures r.address == Some(destAddress)
  {
    Ihu(Metric(0), interval, Some(destAddress))
  }

  /** An Update that carries its five arguments unchanged. */
  function NewUpdate(interval: U16, seqno: SeqNo, metric: Metric, subnet: Subnet, routerId: PublicKey): (r: Tlv)
    ensures r.Update?
    ensures r.interval == interval && r.seqno == seqno && r.metric == metric
    ensures r.subnet == subnet && r.routerId == routerId
  {
    Update(interval, seqno, metric, subnet, routerId)
  }

  /**
   * A client that calls NewHello `n` times on one peer: the Hellos and the
   * peer's final counter are exactly those of HelloRun.
   */
  method SendHellos(destPeer: Peer, interval: U16, n: nat) returns (hellos: seq<Tlv>)
    modifies destPeer`helloSeqno
    ensures (hellos, destPeer.helloSeqno) == HelloRun(old(destPeer.helloSeqno), interval, n)
  {
    ghost var start := destPeer.helloSeqno;
    HelloRunSeqnos(start, interval, n);
    hellos := [];
    var i := 0;
    while i < n
      invariant 0 <= i <= n
      invariant destPeer.helloSeqno == Advance(start, i)
      invariant |hellos| == i
      invariant forall k :: 0 <= k < i ==> hellos[k] == Hello(true, Advance(start, k), interval)
    {
      var tlv := NewHello(destPeer, interval);
      hellos := hellos + [tlv];
      i := i + 1;
    }
    assert hellos == HelloRun(start, interval, n).0;
  }

  /** Two Hellos to the same peer are stamped with consecutive sequence numbers. */
  method HelloPair(destPeer: Peer, interval: U16) returns (first: Tlv, second: Tlv)
    modifies destPeer`helloSeqno
    ensures first.Hello? && second.Hello?
    ensures first.seqno == old(destPeer.helloSeqno)
    ensures second.seqno == Next(first.seqno)
    ensures destPeer.helloSeqno == Advance(old(destPeer.helloSeqno), 2)
  {
    first := NewHello(destPeer, interval);
    second := NewHello(destPeer, interval);
  }
}
