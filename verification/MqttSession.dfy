/**
  One live MQTT connection of the bus probe (scripts/qa-bus-probe.py, class Session): buffered reads from
  a socket, packet framing on top, and the dispatcher that waits for one answer.

  The socket is a script of what each recv sees.  An empty chunk or an error is a close; a deadline that
  passes is a timeout.  Everything is specified on the byte stream, so nothing depends on the chunking.
 */
module MqttSession {
  import opened Options
  import opened MqttWire
  import MqttTopics

  datatype Recv = Chunk(data: seq<Byte>) | SocketError | Expired

  /** Why a read gave up. */
  datatype Stop = Closed | Timeout

  /** The bytes that arrive before anything goes wrong. */
  function Flow(script: seq<Recv>): seq<Byte> {
    if script != [] && script[0].Chunk? && script[0].data != [] then script[0].data + Flow(script[1..]) else []
  }

  /** What is left of the script once they have arrived. */
  function After(script: seq<Recv>): (rest: seq<Recv>)
    ensures |rest| <= |script|
  {
    if script != [] && script[0].Chunk? && script[0].data != [] then After(script[1..]) else script
  }

  /** The connection as a reader can know it: bytes to be had, then what stops them. */
  datatype Wire = Wire(avail: seq<Byte>, rest: seq<Recv>)
  {
    function Reason(): Stop {
      if rest == [] || rest[0].Expired? then Timeout else Closed
    }

    /** The connection after the stop was hit: the bytes stay, and the next stretch follows them. */
    function Resumed(): Wire {
      if rest == [] then this else Wire(avail + Flow(rest[1..]), After(rest[1..]))
    }
  }

  datatype Taken = Bytes(data: seq<Byte>) | Stopped(why: Stop)

  /** Taking `n` bytes: all of them, or none and a stop. */
  function Take(w: Wire, n: nat): (r: (Taken, Wire))
    ensures r.0.Bytes? <==> |w.avail| >= n
    ensures r.0.Bytes? ==> |r.0.data| == n && r.0.data + r.1.avail == w.avail && r.1.rest == w.rest
  {
    if |w.avail| >= n then (Bytes(w.avail[..n]), Wire(w.avail[n..], w.rest)) else (Stopped(w.Reason()), w.Resumed())
  }

  datatype LengthRead = Length(n: nat) | NoLength(why: Stop)

  /** At most `left` more length bytes. */
  function TakeLength(w: Wire, left: nat): (LengthRead, Wire)
    decreases left
  {
    if left == 0 then (Length(0), w)
    else
      var (b, w1) := Take(w, 1);
      if b.Stopped? then (NoLength(b.why), w1)
      else if b.data[0] < 128 then (Length(b.data[0]), w1)
      else
        var (l, w2) := TakeLength(w1, left - 1);
        if l.NoLength? then (l, w2) else (Length(b.data[0] - 128 + 128 * l.n), w2)
  }

  datatype PacketRead = Read(p: Packet) | NoPacket(why: Stop)

  /** One packet: header byte, length, body.  Bytes taken before a stop are gone. */
  function TakePacket(w: Wire): (PacketRead, Wire) {
    var (b, w1) := Take(w, 1);
    if b.Stopped? then (NoPacket(b.why), w1)
    else
      var (l, w2) := TakeLength(w1, 4);
      if l.NoLength? then (NoPacket(l.why), w2)
      else
        var (body, w3) := Take(w2, l.n);
        if body.Stopped? then (NoPacket(body.why), w3)
        else (Read(Packet(b.data[0] / 16, b.data[0] % 16, body.data)), w3)
  }

  // ---------------------------------------------------------------- framing

  lemma {:induction false} TakeLengthReads(w: Wire, left: nat)
    decreases left
    ensures var r := ReadLen(w.avail, left);
            var t := TakeLength(w, left);
            if r.Len? then t == (Length(r.value), Wire(w.avail[r.used..], w.rest)) else t.0.NoLength?
  {
    if left > 0 && w.avail != [] && w.avail[0] >= 128 {
      TakeLengthReads(Wire(w.avail[1..], w.rest), left - 1);
    }
  }

  /** Reading a packet is parsing the front of the stream, and fails exactly when the stream is short of one. */
  lemma TakePacketParses(w: Wire)
    ensures var r, t := Parse(w.avail), TakePacket(w);
            if r.Got? then t == (Read(r.p), Wire(r.rest, w.rest)) else t.0.NoPacket?
  {
    if w.avail != [] {
      var w1 := Wire(w.avail[1..], w.rest);
      TakeLengthReads(w1, 4);
      var l := ReadLen(w1.avail, 4);
      if l.Len? {
        assert w1.avail[l.used..] == w.avail[1 + l.used..];
      }
    }
  }

  /** Packets written one after the other come back one after the other. */
  lemma ReadsFirstOf(ps: seq<Packet>, tail: seq<Byte>, rest: seq<Recv>)
    requires AllValid(ps) && ps != []
    ensures TakePacket(Wire(EncodeAll(ps) + tail, rest)) == (Read(ps[0]), Wire(EncodeAll(ps[1..]) + tail, rest))
  {
    assert EncodeAll(ps) + tail == Encode(ps[0]) + (EncodeAll(ps[1..]) + tail);
    ParseEncode(ps[0], EncodeAll(ps[1..]) + tail);
    TakePacketParses(Wire(EncodeAll(ps) + tail, rest));
  }

  /** The packets of `n` successive reads, all successful, and the connection they leave. */
  ghost predicate ReadsExactly(w: Wire, ps: seq<Packet>, w': Wire)
    decreases ps
  {
    if ps == [] then w' == w
    else
      var (r, w1) := TakePacket(w);
      r == Read(ps[0]) && ReadsExactly(w1, ps[1..], w')
  }

  /** The stream a script delivers in full does not depend on where it is cut. */
  lemma {:induction false} FlowOfChunks(chunks: seq<seq<Byte>>)
    requires forall i :: 0 <= i < |chunks| ==> chunks[i] != []
    ensures Flow(ScriptOf(chunks)) == Concat(chunks) && After(ScriptOf(chunks)) == []
  {
    if chunks != [] {
      FlowOfChunks(chunks[1..]);
      assert ScriptOf(chunks)[1..] == ScriptOf(chunks[1..]);
    }
  }

  function Concat(chunks: seq<seq<Byte>>): seq<Byte> {
    if chunks == [] then [] else chunks[0] + Concat(chunks[1..])
  }

  lemma {:induction false} ReadsWhatWasEncoded(ps: seq<Packet>, tail: seq<Byte>, rest: seq<Recv>)
    requires AllValid(ps)
    ensures ReadsExactly(Wire(EncodeAll(ps) + tail, rest), ps, Wire(tail, rest))
  {
    if ps == [] {
      assert EncodeAll(ps) + tail == tail;
    } else {
      ReadsFirstOf(ps, tail, rest);
      ReadsWhatWasEncoded(ps[1..], tail, rest);
    }
  }

  /** The recvs that see these chunks, one after the other. */
  function ScriptOf(chunks: seq<seq<Byte>>): (script: seq<Recv>)
    ensures |script| == |chunks|
  {
    seq(|chunks|, i requires 0 <= i < |chunks| => Chunk(chunks[i]))
  }

  /** What a session with nothing buffered yet has before it. */
  function Fresh(script: seq<Recv>): Wire {
    Wire(Flow(script), After(script))
  }

  /**
    Main result.  Packets with bodies of up to 268,435,455 bytes, encoded, concatenated and cut into any
    non-empty chunks whatever, are read back exactly, in order, leaving the following bytes aligned.
   */
  lemma FramingIsChunkIndependent(ps: seq<Packet>, tail: seq<Byte>, chunks: seq<seq<Byte>>)
    requires AllValid(ps)
    requires Concat(chunks) == EncodeAll(ps) + tail && forall i :: 0 <= i < |chunks| ==> chunks[i] != []
    ensures ReadsExactly(Fresh(ScriptOf(chunks)), ps, Wire(tail, []))
  {
    FlowOfChunks(chunks);
    ReadsWhatWasEncoded(ps, tail, []);
  }

  // ---------------------------------------------------------------- a deadline in the middle of a packet

  /** A length takes at least the bytes its encoding has. */
  lemma {:induction false} LengthNeedsBytes(s: seq<Byte>, left: nat)
    requires ReadLen(s, left).Len? && 0 < left
    ensures |RemLen(ReadLen(s, left).value)| <= if ReadLen(s, left).used == 0 then 1 else ReadLen(s, left).used
  {
    if s[0] >= 128 && left > 1 {
      LengthNeedsBytes(s[1..], left - 1);
    }
  }

  /** A packet takes at least the bytes its encoding has. */
  lemma PacketNeedsBytes(s: seq<Byte>, p: Packet)
    requires Parse(s).Got? && Parse(s).p == p && p.Valid()
    ensures |s| >= |Encode(p)| + |Parse(s).rest|
  {
    LengthNeedsBytes(s[1..], 4);
  }

  lemma {:induction false} TakeLengthBounded(w: Wire, left: nat)
    ensures var t := TakeLength(w, left);
            && |t.1.avail| <= |w.avail| + |Flow(if w.rest == [] then [] else w.rest[1..])|
            && (t.0.Length? ==> |t.1.avail| <= |w.avail| && t.1.rest == w.rest)
    decreases left
  {
    if left > 0 {
      TakeLengthBounded(Take(w, 1).1, left - 1);
    }
  }

  /** A read that had bytes and stopped has lost at least its header byte. */
  lemma StopLosesHeader(w: Wire)
    requires w.avail != [] && TakePacket(w).0.NoPacket?
    ensures |TakePacket(w).1.avail| < |w.avail| + |Flow(if w.rest == [] then [] else w.rest[1..])|
  {
    TakeLengthBounded(Take(w, 1).1, 4);
  }

  /** The first `j` bytes of a packet, the deadline, and then everything else, in whatever chunks. */
  function Interrupted(p: Packet, j: nat, later: seq<seq<Byte>>): Wire
    requires p.Valid() && j <= |Encode(p)|
  {
    Wire(Encode(p)[..j], [Expired] + ScriptOf(later))
  }

  /**
    Main result.  A packet is interrupted by the deadline after `j` of its bytes; the others arrive later, with
    any traffic after them and in any chunks.  The next read returns the packet and leaves what follows it
    aligned if and only if none of its bytes had arrived: what was taken is not put back.
   */
  lemma InterruptedPacketSurvivesExactly(p: Packet, j: nat, tail: seq<Byte>, later: seq<seq<Byte>>)
    requires p.Valid() && j < |Encode(p)|
    requires Concat(later) == Encode(p)[j..] + tail && forall i :: 0 <= i < |later| ==> later[i] != []
    ensures var w := Interrupted(p, j, later);
            && TakePacket(w).0 == NoPacket(Timeout)
            && (TakePacket(TakePacket(w).1) == (Read(p), Wire(tail, [])) <==> j == 0)
  {
    hide Encode, TakePacket;
    StopsForWantOfBytes(p, j, [Expired] + ScriptOf(later));
    LaterBytes(later);
    if j == 0 {
      UntouchedPacketComesLater(p, tail, later);
    } else {
      TakenBytesAreGone(p, j, tail, later);
    }
  }

  lemma LaterBytes(later: seq<seq<Byte>>)
    requires forall i :: 0 <= i < |later| ==> later[i] != []
    ensures var rest := [Expired] + ScriptOf(later);
            rest[1..] == ScriptOf(later) && Flow(rest[1..]) == Concat(later) && After(rest[1..]) == []
  {
    assert ([Expired] + ScriptOf(later))[1..] == ScriptOf(later);
    FlowOfChunks(later);
  }

  lemma UntouchedPacketComesLater(p: Packet, tail: seq<Byte>, later: seq<seq<Byte>>)
    requires p.Valid() && Concat(later) == Encode(p)[0..] + tail && forall i :: 0 <= i < |later| ==> later[i] != []
    ensures TakePacket(TakePacket(Interrupted(p, 0, later)).1) == (Read(p), Wire(tail, []))
  {
    hide Encode;
    var w := Interrupted(p, 0, later);
    assert Encode(p)[0..] == Encode(p) && Encode(p)[..0] == [];
    LaterBytes(later);
    assert [] + (Encode(p) + tail) == Encode(p) + tail;
    assert TakePacket(w).1 == Wire(Encode(p) + tail, []);
    ParseEncode(p, tail);
    TakePacketParses(Wire(Encode(p) + tail, []));
  }

  lemma TakenBytesAreGone(p: Packet, j: nat, tail: seq<Byte>, later: seq<seq<Byte>>)
    requires p.Valid() && 0 < j < |Encode(p)|
    requires Concat(later) == Encode(p)[j..] + tail && forall i :: 0 <= i < |later| ==> later[i] != []
    ensures TakePacket(TakePacket(Interrupted(p, j, later)).1) != (Read(p), Wire(tail, []))
  {
    hide Encode, TakePacket;
    var w := Interrupted(p, j, later);
    StopsForWantOfBytes(p, j, w.rest);
    LaterBytes(later);
    StopLosesHeader(w);
    var w1 := TakePacket(w).1;
    assert |w1.avail| < |Encode(p)| + |tail|;
    TakePacketParses(w1);
    if TakePacket(w1) == (Read(p), Wire(tail, [])) {
      PacketNeedsBytes(w1.avail, p);
    }
  }

  /** A strict prefix of a packet does not parse. */
  lemma PrefixIncomplete(p: Packet, j: nat)
    requires p.Valid() && j < |Encode(p)|
    ensures Parse(Encode(p)[..j]).Incomplete?
  {
    var s := Encode(p)[..j];
    if Parse(s).Got? {
      PrefixParsesAlike(s, Encode(p)[j..]);
      assert s + Encode(p)[j..] == Encode(p) + [];
      ParseEncode(p, []);
      PacketNeedsBytes(s, p);
    }
  }

  lemma {:induction false} PrefixReadsAlike(s: seq<Byte>, more: seq<Byte>, left: nat)
    requires ReadLen(s, left).Len?
    ensures ReadLen(s + more, left) == ReadLen(s, left)
  {
    if left > 0 && s[0] >= 128 {
      assert (s + more)[1..] == s[1..] + more;
      PrefixReadsAlike(s[1..], more, left - 1);
    }
  }

  lemma PrefixParsesAlike(s: seq<Byte>, more: seq<Byte>)
    requires Parse(s).Got?
    ensures Parse(s + more).Got? && Parse(s + more).p == Parse(s).p
  {
    assert (s + more)[1..] == s[1..] + more;
    PrefixReadsAlike(s[1..], more, 4);
    var l := ReadLen(s[1..], 4);
    assert (s + more)[1 + l.used..][..l.value] == s[1 + l.used..][..l.value];
  }

  lemma StopsForWantOfBytes(p: Packet, j: nat, rest: seq<Recv>)
    requires p.Valid() && j < |Encode(p)| && rest != [] && rest[0].Expired?
    ensures TakePacket(Wire(Encode(p)[..j], rest)).0 == NoPacket(Timeout)
  {
    hide Encode;
    PrefixIncomplete(p, j);
    TakePacketParses(Wire(Encode(p)[..j], rest));
    StopReason(Wire(Encode(p)[..j], rest));
  }

  lemma {:induction false} LengthStopReason(w: Wire, left: nat)
    requires TakeLength(w, left).0.NoLength?
    ensures TakeLength(w, left).0.why == w.Reason()
    decreases left
  {
    if left > 0 && Take(w, 1).0.Bytes? && Take(w, 1).0.data[0] >= 128 {
      LengthStopReason(Take(w, 1).1, left - 1);
    }
  }

  /** A read stops for the reason the stream does. */
  lemma StopReason(w: Wire)
    requires TakePacket(w).0.NoPacket?
    ensures TakePacket(w).0.why == w.Reason()
  {
    var (b, w1) := Take(w, 1);
    if b.Bytes? {
      TakeLengthBounded(w1, 4);
      if TakeLength(w1, 4).0.NoLength? {
        LengthStopReason(w1, 4);
      }
    }
  }

  // ---------------------------------------------------------------- dispatch

  const PUBLISH := 3
  const SUBACK := 9

  /** How topic bytes become text; any decoder. */
  type Decoder = seq<Byte> -> string

  /** A recorded delivery: topic and payload length. */
  type Delivery = (string, nat)

  function Word(b: seq<Byte>): nat
    requires |b| >= 2
  {
    var hi: int, lo: int := b[0], b[1];
    hi * 256 + lo
  }

  /** A slice whose bounds may lie past the end. */
  function Slice(b: seq<Byte>, lo: nat, hi: nat): seq<Byte> {
    var h := if hi > |b| then |b| else hi;
    if lo >= h then [] else b[lo..h]
  }

  datatype Note = Nothing | Noted(d: Delivery)

  /** What a PUBLISH is recorded as; one too short to carry a topic length is not. */
  function NoteOf(dec: Decoder, p: Packet): Note {
    if |p.body| < 2 then Nothing
    else
      var tlen := Word(p.body);
      var rest := Slice(p.body, 2 + tlen, |p.body|);
      var payload := if (p.flags / 2) % 4 != 0 then Slice(rest, 2, |rest|) else rest;
      Noted((dec(Slice(p.body, 2, 2 + tlen)), |payload|))
  }

  predicate FilterMatches(filt: string, topic: string) {
    MqttTopics.Matches(MqttTopics.Split(filt), MqttTopics.Split(topic))
  }

  /** What the dispatcher is waiting for. */
  datatype Want = Want(pid: Option<nat>, stopOn: Option<string>)

  datatype Answer = SubAck(rc: Byte) | Delivered(topic: string) | StoppedBy(why: Stop)

  /** What a packet means to the dispatcher: the end of the wait, or nothing. */
  function Decides(dec: Decoder, want: Want, p: Packet): Option<Answer> {
    if p.ptype == PUBLISH then
      var n := NoteOf(dec, p);
      if want.stopOn.Some? && n.Noted? && FilterMatches(want.stopOn.value, n.d.0) then Some(Delivered(n.d.0)) else None
    else if p.ptype == SUBACK then
      if |p.body| < 3 then None
      else if want.pid.Some? && Word(p.body) != want.pid.value then None
      else Some(SubAck(p.body[2]))
    else None
  }

  function Record(dec: Decoder, p: Packet): seq<Delivery> {
    if p.ptype == PUBLISH && NoteOf(dec, p).Noted? then [NoteOf(dec, p).d] else []
  }

  datatype Pumped = Pumped(answer: Answer, noted: seq<Delivery>, w: Wire)

  lemma TakePacketShrinks(w: Wire)
    ensures var t := TakePacket(w); t.0.Read? ==> |t.1.avail| < |w.avail| && t.1.rest == w.rest
  {
    TakeLengthBounded(Take(w, 1).1, 4);
  }

  /** Read packets, recording deliveries, until one decides or the stream stops. */
  function Pump(dec: Decoder, want: Want, w: Wire): Pumped
    decreases |w.avail|
  {
    TakePacketShrinks(w);
    var (r, w1) := TakePacket(w);
    if r.NoPacket? then Pumped(StoppedBy(r.why), [], w1)
    else
      var d := Decides(dec, want, r.p);
      if d.Some? then Pumped(d.value, Record(dec, r.p), w1)
      else
        var more := Pump(dec, want, w1);
        more.(noted := Record(dec, r.p) + more.noted)
  }

  /** The first packet of a list that decides, or the length of the list. */
  function FirstDecisive(dec: Decoder, want: Want, ps: seq<Packet>): (k: nat)
    ensures k <= |ps|
    ensures k < |ps| ==> Decides(dec, want, ps[k]).Some?
    ensures forall i :: 0 <= i < k ==> Decides(dec, want, ps[i]).None?
  {
    if ps == [] then 0
    else if Decides(dec, want, ps[0]).Some? then 0
    else
      var k := FirstDecisive(dec, want, ps[1..]);
      assert forall i :: 0 < i < |ps| ==> ps[i] == ps[1..][i - 1];
      1 + k
  }

  function RecordAll(dec: Decoder, ps: seq<Packet>): seq<Delivery> {
    if ps == [] then [] else Record(dec, ps[0]) + RecordAll(dec, ps[1..])
  }

  /**
    Main result.  On a stream of whole packets the dispatcher answers with the first decisive one, has
    recorded exactly the well-formed PUBLISHes up to and including it, in order, and leaves the packets
    after it unread; without one it records them all and reports the stop.
   */
  lemma {:induction false} PumpDispatches(dec: Decoder, want: Want, ps: seq<Packet>, tail: seq<Byte>, rest: seq<Recv>)
    requires AllValid(ps) && Parse(tail).Incomplete?
    ensures var k := FirstDecisive(dec, want, ps);
            var r := Pump(dec, want, Wire(EncodeAll(ps) + tail, rest));
            if k < |ps| then
              r == Pumped(Decides(dec, want, ps[k]).value, RecordAll(dec, ps[..k + 1]), Wire(EncodeAll(ps[k + 1..]) + tail, rest))
            else r.answer.StoppedBy? && r.noted == RecordAll(dec, ps)
  {
    hide TakePacket, Decides, Record, Encode, Parse;
    var w := Wire(EncodeAll(ps) + tail, rest);
    if ps == [] {
      assert EncodeAll(ps) + tail == tail;
      TakePacketParses(w);
    } else {
      ReadsFirstOf(ps, tail, rest);
      PumpDispatches(dec, want, ps[1..], tail, rest);
      var k := FirstDecisive(dec, want, ps);
      if Decides(dec, want, ps[0]).Some? {
        assert ps[..1] == [ps[0]];
        assert RecordAll(dec, ps[..1]) == Record(dec, ps[0]) + RecordAll(dec, []);
      } else if k < |ps| {
        assert ps[..k + 1][1..] == ps[1..][..k];
        assert ps[1..][k..] == ps[k + 1..];
      }
    }
  }

  /** Without a decisive packet the wait ends for the reason the stream does. */
  lemma {:induction false} PumpStopsForReason(dec: Decoder, want: Want, ps: seq<Packet>, tail: seq<Byte>, rest: seq<Recv>)
    requires AllValid(ps) && Parse(tail).Incomplete? && FirstDecisive(dec, want, ps) == |ps|
    ensures Pump(dec, want, Wire(EncodeAll(ps) + tail, rest)).answer == StoppedBy(Wire(tail, rest).Reason())
  {
    hide TakePacket, Decides, Record, Encode, Parse;
    var w := Wire(EncodeAll(ps) + tail, rest);
    if ps == [] {
      assert EncodeAll(ps) + tail == tail;
      TakePacketParses(w);
      StopReason(w);
    } else {
      ReadsFirstOf(ps, tail, rest);
      PumpStopsForReason(dec, want, ps[1..], tail, rest);
    }
  }

  /** One packet was read off the connection, on some read, and decided the wait. */
  ghost predicate ReadOff(dec: Decoder, want: Want, w: Wire, p: Packet)
    decreases |w.avail|
  {
    TakePacketShrinks(w);
    var (r, w1) := TakePacket(w);
    r.Read? && (r.p == p || (Decides(dec, want, r.p).None? && ReadOff(dec, want, w1, p)))
  }

  /** A SUBACK answer was on the wire, carried the awaited identifier, and its return code is the answer. */
  lemma {:induction false} SubAckWasOurs(dec: Decoder, want: Want, w: Wire) returns (p: Packet)
    requires Pump(dec, want, w).answer.SubAck?
    ensures ReadOff(dec, want, w, p)
    ensures p.ptype == SUBACK && |p.body| >= 3 && p.body[2] == Pump(dec, want, w).answer.rc
    ensures want.pid.Some? ==> Word(p.body) == want.pid.value
    decreases |w.avail|
  {
    TakePacketShrinks(w);
    var (r, w1) := TakePacket(w);
    if Decides(dec, want, r.p).Some? {
      p := r.p;
    } else {
      p := SubAckWasOurs(dec, want, w1);
    }
  }

  // ---------------------------------------------------------------- the running length

  /** `n` in the position of length byte `i`. */
  function Shifted(i: nat, n: nat): nat
    requires i <= 4
  {
    if i == 0 then n else if i == 1 then 128 * n else if i == 2 then 16_384 * n else if i == 3 then 2_097_152 * n
    else (MAX_LENGTH + 1) * n
  }

  /** A length read from byte `i` on, added to what the bytes before came to. */
  function Weighted(t: (LengthRead, Wire), rl: nat, i: nat): (LengthRead, Wire)
    requires i <= 4
  {
    if t.0.NoLength? then t else (Length(rl + Shifted(i, t.0.n)), t.1)
  }

  lemma ShiftIsProduct(i: nat, n: nat, mult: nat)
    requires i < 4 && mult == Reach(i)
    ensures Shifted(i, n) == n * mult && Shifted(i, 128 * n) == Shifted(i + 1, n) && mult * 128 == Reach(i + 1)
  {
    assert i == 0 || i == 1 || i == 2 || i == 3;
  }

  lemma ShiftAdds(i: nat, a: nat, b: nat)
    requires i < 4
    ensures Shifted(i, a + b) == Shifted(i, a) + Shifted(i, b)
  {
  }

  lemma LengthStart(w: Wire)
    ensures Reach(0) == 1 && Weighted(TakeLength(w, 4), 0, 0) == TakeLength(w, 4)
  {
  }

  lemma LengthEnd(w: Wire, rl: nat)
    ensures Weighted(TakeLength(w, 0), rl, 4) == (Length(rl), w)
  {
  }

  /** One more length byte: the running total takes it in at its weight. */
  lemma WeighOneByte(w: Wire, rl: nat, i: nat)
    requires i < 4
    ensures var (b, w1) := Take(w, 1);
            var all := Weighted(TakeLength(w, 4 - i), rl, i);
            if b.Stopped? then all == (NoLength(b.why), w1)
            else
              var byte: nat := b.data[0];
              if byte < 128 then all == (Length(rl + Shifted(i, byte)), w1)
              else all == Weighted(TakeLength(w1, 3 - i), rl + Shifted(i, byte - 128), i + 1)
  {
    var (b, w1) := Take(w, 1);
    if b.Bytes? && b.data[0] >= 128 {
      var (l, w2) := TakeLength(w1, 3 - i);
      if l.Length? {
        ShiftAdds(i, b.data[0] - 128, 128 * l.n);
        ShiftIsProduct(i, l.n, Reach(i));
      }
    }
  }

  // ---------------------------------------------------------------- the session object

  class Session {
    const dec: Decoder
    var buf: seq<Byte>
    var script: seq<Recv>              // what the socket's next reads will see
    var deliveries: seq<Delivery>      // in arrival order
    const sendOk: nat -> bool          // does the n-th send succeed?
    var sends: nat                     // sends so far
    var sent: seq<Byte>                // the packets written to the socket

    constructor (dec: Decoder, script: seq<Recv>, sendOk: nat -> bool)
      ensures this.dec == dec && this.sendOk == sendOk
      ensures buf == [] && this.script == script && deliveries == [] && sends == 0 && sent == []
    {
      this.dec, this.sendOk, buf, this.script, deliveries, sends, sent := dec, sendOk, [], script, [], 0, [];
    }

    /** The connection, whatever part of it has been buffered. */
    function View(): Wire
      reads this
    {
      Wire(buf + Flow(script), After(script))
    }

    /** Buffered receive of exactly `n` bytes. */
    method Receive(n: nat) returns (r: Taken)
      modifies this`buf, this`script
      ensures (r, View()) == Take(old(View()), n)
    {
      ghost var w := View();
      while |buf| < n
        invariant View() == w
        decreases |script|
      {
        if script == [] {
          assert w.avail == buf && w.rest == [];
          return Stopped(Timeout);
        }
        var ev := script[0];
        if !(ev.Chunk? && ev.data != []) {
          assert w.avail == buf && w.rest == script;
        }
        script := script[1..];
        match ev {
          case Expired =>
            return Stopped(Timeout);
          case SocketError =>
            return Stopped(Closed);
          case Chunk(data) =>
            if data == [] {
              return Stopped(Closed);
            }
            assert buf + (data + Flow(script)) == (buf + data) + Flow(script);
            buf := buf + data;
        }
      }
      assert (buf + Flow(script))[..n] == buf[..n];
      assert (buf + Flow(script))[n..] == buf[n..] + Flow(script);
      r := Bytes(buf[..n]);
      buf := buf[n..];
    }

    /** The remaining length, byte by byte, each at 128 times the weight of the one before. */
    method ReadLength() returns (r: LengthRead)
      modifies this`buf, this`script
      ensures (r, View()) == TakeLength(old(View()), 4)
    {
      hide Shifted, Take, Reach, Weighted, TakeLength, Flow, After;
      var mult: nat, rl: nat := 1, 0;
      LengthStart(View());
      for i := 0 to 4
        invariant mult == Reach(i)
        invariant TakeLength(old(View()), 4) == Weighted(TakeLength(View(), 4 - i), rl, i)
      {
        WeighOneByte(View(), rl, i);
        var d := Receive(1);
        if d.Stopped? {
          return NoLength(d.why);
        }
        var byte: nat := d.data[0];
        var digit: nat := byte % 128;
        ShiftIsProduct(i, digit, mult);
        assert byte >= 128 ==> digit == byte - 128;
        rl := rl + digit * mult;
        if byte < 128 {
          return Length(rl);
        }
        mult := mult * 128;
      }
      LengthEnd(View(), rl);
      r := Length(rl);
    }

    /** One packet: header byte, length, body. */
    method ReadPacket() returns (r: PacketRead)
      modifies this`buf, this`script
      ensures (r, View()) == TakePacket(old(View()))
    {
      var b := Receive(1);
      if b.Stopped? {
        return NoPacket(b.why);
      }
      var b0: nat := b.data[0];
      var l := ReadLength();
      if l.NoLength? {
        return NoPacket(l.why);
      }
      var body := Receive(l.n);
      if body.Stopped? {
        return NoPacket(body.why);
      }
      return Read(Packet(b0 / 16, b0 % 16, body.data));
    }

    /** Record a PUBLISH; one too short to carry a topic length is not recorded. */
    method NotePublish(p: Packet) returns (n: Note)
      modifies this`deliveries
      ensures n == NoteOf(dec, p)
      ensures deliveries == old(deliveries) + if n.Noted? then [n.d] else []
    {
      if |p.body| < 2 {
        return Nothing;
      }
      var tlen := Word(p.body);
      var topic := dec(Slice(p.body, 2, 2 + tlen));
      var rest := Slice(p.body, 2 + tlen, |p.body|);
      if (p.flags / 2) % 4 != 0 {
        rest := Slice(rest, 2, |rest|);
      }
      deliveries := deliveries + [(topic, |rest|)];
      n := Noted((topic, |rest|));
    }

    /** What one packet decides; a PUBLISH is recorded before anything else is looked at. */
    method Dispatch(want: Want, p: Packet) returns (a: Option<Answer>)
      modifies this`deliveries
      ensures a == Decides(dec, want, p) && deliveries == old(deliveries) + Record(dec, p)
    {
      hide NoteOf, MqttTopics.Matches, MqttTopics.Split;
      if p.ptype == PUBLISH {
        var n := NotePublish(p);
        if want.stopOn.Some? && n.Noted? {
          var hit := MqttTopics.TopicMatches(want.stopOn.value, n.d.0);
          if hit {
            return Some(Delivered(n.d.0));
          }
        }
        return None;
      }
      if p.ptype == SUBACK {
        if |p.body| < 3 {
          return None;
        }
        if want.pid.Some? && Word(p.body) != want.pid.value {
          return None;
        }
        return Some(SubAck(p.body[2]));
      }
      return None;
    }

    /** Read packets until one decides. */
    method PumpUntil(want: Want) returns (a: Answer)
      modifies this`buf, this`script, this`deliveries
      ensures var r := Pump(dec, want, old(View()));
              a == r.answer && View() == r.w && deliveries == old(deliveries) + r.noted
    {
      hide TakePacket, Decides, Record;
      ghost var all := Pump(dec, want, View());
      ghost var start := deliveries;
      while true
        invariant var r := Pump(dec, want, View());
                  r.answer == all.answer && r.w == all.w && start + all.noted == deliveries + r.noted
        decreases |View().avail|
      {
        TakePacketShrinks(View());
        var p := ReadPacket();
        if p.NoPacket? {
          return StoppedBy(p.why);
        }
        var d := Dispatch(want, p.p);
        if d.Some? {
          return d.value;
        }
      }
    }

    /** Subscribe to one filter and wait for the answer to this identifier. */
    method Subscribe(filt: seq<Byte>, pid: nat) returns (r: Subscribed)
      requires pid < 0x1_0000
      modifies this`buf, this`script, this`deliveries, this`sent, this`sends
      ensures r.Raised? <==> !Goes(sendOk, old(sends), filt)
      ensures r.Raised? ==> View() == old(View()) && deliveries == old(deliveries) && sent == old(sent)
      ensures r.Answered? ==> sends == old(sends) + 1 && sent == old(sent) + Encode(SubscribePacket(filt, pid))
      ensures r.Answered? ==>
                var p := Pump(dec, Want(Some(pid), None), old(View()));
                r.answer == p.answer && View() == p.w && deliveries == old(deliveries) + p.noted
    {
      if |filt| >= 0x1_0000 {
        return Raised;
      }
      var payload := Pair(pid) + Pair(|filt|) + filt + [0];
      var len := EncodeRemLen(|payload|);
      sends := sends + 1;
      if !sendOk(sends - 1) {
        return Raised;
      }
      sent := sent + ([0x82] + len + payload);
      var a := PumpUntil(Want(Some(pid), None));
      r := Answered(a);
    }

    /** Watch for deliveries; the first that matches, or any SUBACK, ends the watch. */
    method Observe(stopOn: string) returns (hit: Option<string>)
      modifies this`buf, this`script, this`deliveries
      ensures var r := Pump(dec, Want(None, Some(stopOn)), old(View()));
              && hit == (if r.answer.Delivered? then Some(r.answer.topic) else None)
              && View() == r.w && deliveries == old(deliveries) + r.noted
    {
      var a := PumpUntil(Want(None, Some(stopOn)));
      hit := if a.Delivered? then Some(a.topic) else None;
    }

    /** Has a message matching the filter been delivered? */
    method AnyDelivered(filt: string) returns (b: bool)
      ensures b == Leaked(deliveries, filt)
    {
      b := false;
      for i := 0 to |deliveries|
        invariant b <==> exists k :: 0 <= k < i && FilterMatches(filt, deliveries[k].0)
      {
        var hit := MqttTopics.TopicMatches(filt, deliveries[i].0);
        b := b || hit;
      }
    }
  }

  /** Some recorded delivery matches the filter. */
  predicate Leaked(ds: seq<Delivery>, filt: string) {
    exists k :: 0 <= k < |ds| && FilterMatches(filt, ds[k].0)
  }

  /** A SUBSCRIBE for the filter can be packed, and its send succeeds. */
  predicate Goes(sendOk: nat -> bool, n: nat, filt: seq<Byte>) {
    |filt| < 0x1_0000 && sendOk(n)
  }

  /** What subscribing comes to: an exception out of packing or sending, or the dispatcher's answer. */
  datatype Subscribed = Raised | Answered(answer: Answer)

  /** A 16-bit number, most significant byte first. */
  function Pair(n: nat): seq<Byte>
    requires n < 0x1_0000
  {
    [n / 256, n % 256]
  }

  /** A QoS-0 SUBSCRIBE for one filter. */
  function SubscribePacket(filt: seq<Byte>, pid: nat): (p: Packet)
    requires pid < 0x1_0000 && |filt| < 0x1_0000
    ensures p.Valid()
  {
    Packet(8, 2, Pair(pid) + Pair(|filt|) + filt + [0])
  }
}
