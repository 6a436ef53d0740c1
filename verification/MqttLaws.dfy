/**
  The dispatcher against the packets a broker sends: PUBLISH and SUBACK as sections 3.3 and 3.9 of MQTT 3.1.1
  lay them out, the SUBSCRIBE of section 3.8 as it is sent, and what ends a read.
 */
module MqttLaws {
  import opened Options
  import opened MqttWire
  import opened MqttSession
  import MqttTopics

  // ---------------------------------------------------------------- remaining lengths

  lemma LengthStep(a: nat, m: nat)
    requires a < 128
    ensures RemLen(a) == [a] && (m > 0 ==> RemLen(a + 128 * m) == [128 + a] + RemLen(m))
  {
    assert (a + 128 * m) % 128 == a && (a + 128 * m) / 128 == m;
  }

  /** The remaining length on the wire: seven bits a byte, the least significant first, 128 added where more follow. */
  lemma LengthBytes(a: nat, b: nat, c: nat, d: nat)
    requires a < 128 && b < 128 && c < 128 && d < 128
    ensures RemLen(a) == [a]
    ensures b > 0 ==> RemLen(a + 128 * b) == [128 + a, b]
    ensures c > 0 ==> RemLen(a + 128 * (b + 128 * c)) == [128 + a, 128 + b, c]
    ensures d > 0 ==> RemLen(a + 128 * (b + 128 * (c + 128 * d))) == [128 + a, 128 + b, 128 + c, d]
  {
    LengthStep(a, b);
    LengthStep(b, c);
    LengthStep(c, d);
    LengthStep(d, 0);
    LengthStep(a, b + 128 * c);
    LengthStep(b, c + 128 * d);
    LengthStep(a, b + 128 * (c + 128 * d));
    hide RemLen;
  }

  /** The first byte of a packet is its type in the high nibble and its flags in the low one. */
  lemma FirstByte(p: Packet)
    requires p.Valid()
    ensures Encode(p)[0] as int == 16 * p.ptype + p.flags && Encode(p)[1..] == RemLen(|p.body|) + p.body
  {
  }

  // ---------------------------------------------------------------- PUBLISH

  /** A PUBLISH: topic length and topic, a packet identifier above QoS 0, and the payload. */
  function PublishPacket(dup: bool, qos: nat, retain: bool, topic: seq<Byte>, pid: nat, payload: seq<Byte>): (p: Packet)
    requires qos <= 2 && |topic| < 0x1_0000 && pid < 0x1_0000 && |topic| + |payload| + 4 <= MAX_LENGTH
    ensures p.Valid()
  {
    Packet(3, (if dup then 8 else 0) + 2 * qos + (if retain then 1 else 0),
           Pair(|topic|) + topic + (if qos > 0 then Pair(pid) else []) + payload)
  }

  lemma PairReads(n: nat, more: seq<Byte>)
    requires n < 0x1_0000
    ensures Word(Pair(n) + more) == n && (Pair(n) + more)[2..] == more
  {
    var b := Pair(n) + more;
    var hi: int, lo: int := b[0], b[1];
    assert hi == n / 256 && lo == n % 256;
  }

  lemma SliceOfTwo(a: seq<Byte>, b: seq<Byte>, c: seq<Byte>)
    ensures Slice(a + b + c, |a|, |a| + |b|) == b && Slice(a + b + c, |a| + |b|, |a + b + c|) == c
  {
  }

  /** Every PUBLISH is recorded under its own topic and with the length of its payload, at any QoS. */
  lemma PublishIsRecorded(dec: Decoder, dup: bool, qos: nat, retain: bool, topic: seq<Byte>, pid: nat, payload: seq<Byte>)
    requires qos <= 2 && |topic| < 0x1_0000 && pid < 0x1_0000 && |topic| + |payload| + 4 <= MAX_LENGTH
    ensures NoteOf(dec, PublishPacket(dup, qos, retain, topic, pid, payload)) == Noted((dec(topic), |payload|))
  {
    var p := PublishPacket(dup, qos, retain, topic, pid, payload);
    var rest := (if qos > 0 then Pair(pid) else []) + payload;
    assert p.body == Pair(|topic|) + topic + rest;
    assert p.body == Pair(|topic|) + (topic + rest);
    PairReads(|topic|, topic + rest);
    SliceOfTwo(Pair(|topic|), topic, rest);
    assert (p.flags / 2) % 4 == qos;
  }

  /** What is recorded of a packet at all: a PUBLISH that can carry a topic length. */
  lemma RecordsExactly(dec: Decoder, p: Packet)
    ensures |Record(dec, p)| == if p.ptype == 3 && |p.body| >= 2 then 1 else 0
    ensures p.ptype == 3 && NoteOf(dec, p).Noted? ==> Record(dec, p) == [NoteOf(dec, p).d]
  {
  }

  // ---------------------------------------------------------------- decisions

  /** The two bytes a SUBACK's identifier is in. */
  predicate Carries(p: Packet, pid: nat) {
    |p.body| >= 2 && 256 * p.body[0] as int + p.body[1] as int == pid
  }

  /** What ends a wait: a SUBACK to the awaited identifier, or a recorded delivery that matches the filter watched for. */
  lemma DecidesExactly(dec: Decoder, want: Want, p: Packet, rc: Byte, topic: string)
    ensures Decides(dec, want, p) == Some(SubAck(rc))
       <==> p.ptype == 9 && |p.body| >= 3 && p.body[2] == rc && (want.pid.Some? ==> Carries(p, want.pid.value))
    ensures Decides(dec, want, p) == Some(Delivered(topic))
       <==> p.ptype == 3 && |p.body| >= 2 && NoteOf(dec, p).d.0 == topic && want.stopOn.Some?
            && MqttTopics.Matches(MqttTopics.Split(want.stopOn.value), MqttTopics.Split(topic))
    ensures Decides(dec, want, p).Some? ==> !Decides(dec, want, p).value.StoppedBy?
  {
    hide MqttTopics.Matches, MqttTopics.Split;
  }

  // ---------------------------------------------------------------- SUBSCRIBE

  /** What a broker reads of the SUBSCRIBE that is sent: its type and flags, the identifier, one filter, QoS 0. */
  lemma SubscribeReads(filt: seq<Byte>, pid: nat, more: seq<Byte>)
    requires pid < 0x1_0000 && |filt| < 0x1_0000
    ensures var p := SubscribePacket(filt, pid);
            && Parse(Encode(p) + more) == Got(p, more)
            && p.ptype == 8 && p.flags == 2 && |p.body| == 5 + |filt|
            && Carries(p, pid) && 256 * p.body[2] as int + p.body[3] as int == |filt|
            && p.body[4..4 + |filt|] == filt && p.body[4 + |filt|] == 0
  {
    var p := SubscribePacket(filt, pid);
    ParseEncode(p, more);
    hide Parse, Encode;
    assert p.body[0] == pid / 256 && p.body[1] == pid % 256;
    assert p.body[2] == |filt| / 256 && p.body[3] == |filt| % 256;
  }

  // ---------------------------------------------------------------- what ends a read

  /** An empty chunk and an error are a close; a deadline, and nothing more to come, are a timeout. */
  lemma StopsAre(before: seq<Byte>, rest: seq<Recv>)
    ensures Wire(before, [Chunk([])] + rest).Reason() == Closed && Wire(before, [SocketError] + rest).Reason() == Closed
    ensures Wire(before, [Expired] + rest).Reason() == Timeout && Wire(before, []).Reason() == Timeout
  {
  }

  /** Only data chunks deliver, and delivery stops at the first thing that is not one. */
  lemma FlowStops(data: seq<Byte>, stop: Recv, rest: seq<Recv>)
    requires data != [] && !(stop.Chunk? && stop.data != [])
    ensures Flow([Chunk(data), stop] + rest) == data && After([Chunk(data), stop] + rest) == [stop] + rest
  {
    var script := [Chunk(data), stop] + rest;
    assert script[1..] == [stop] + rest;
    assert Flow([stop] + rest) == [];
    assert data + [] == data;
  }
}
