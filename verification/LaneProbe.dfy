/**
  The lane-isolation check of the bus probe (scripts/qa-bus-probe.py, check_lane_isolation): what each
  verdict rests on, and where the check is weaker than its own description.
 */
module LaneProbe {
  import opened Options
  import opened MqttWire
  import opened MqttSession

  datatype Status = Pass | Inconclusive | Fail

  /** A verdict, or an exception out of sending a SUBSCRIBE. */
  datatype Outcome = Verdict(status: Status) | Escaped

  /** The four waits of the check, each on what the one before left: in-lane answer, in-lane watch, out-lane answer, out-lane watch. */
  datatype Course = Course(first: Pumped, live: Pumped, second: Pumped, watch: Pumped)
  {
    /** The in-lane subscription was granted. */
    predicate Granted() {
      first.answer.SubAck? && first.answer.rc <= 2
    }

    /** Everything recorded up to the out-lane answer. */
    function Before(): seq<Delivery> {
      first.noted + live.noted + second.noted
    }
  }

  function CourseOf(dec: Decoder, inLane: string, outLane: string, w: Wire): Course {
    var first := Pump(dec, Want(Some(1), None), w);
    var live := Pump(dec, Want(None, Some(inLane)), first.w);
    var second := Pump(dec, Want(Some(2), None), live.w);
    Course(first, live, second, Pump(dec, Want(None, Some(outLane)), second.w))
  }

  /** What a PASS requires. */
  predicate Passes(c: Course, outLane: string) {
    && c.Granted()
    && (|| c.second.answer == StoppedBy(Closed)
        || (c.second.answer == SubAck(0x80) && !Leaked(c.Before(), outLane) && !Leaked(c.watch.noted, outLane)))
  }

  /** What a FAIL requires. */
  predicate Fails(c: Course, outLane: string) {
    && c.Granted() && c.second.answer.SubAck?
    && (c.second.answer.rc != 0x80 || Leaked(c.Before(), outLane) || Leaked(c.watch.noted, outLane))
  }

  /** The deliveries on record when the check returns. */
  function Recorded(c: Course, outLane: string): seq<Delivery> {
    if !c.Granted() then c.first.noted
    else if !c.second.answer.SubAck? || Leaked(c.Before(), outLane) then c.Before()
    else c.Before() + c.watch.noted
  }

  lemma LeakedSplits(a: seq<Delivery>, b: seq<Delivery>, filt: string)
    ensures Leaked(a + b, filt) <==> Leaked(a, filt) || Leaked(b, filt)
  {
    hide FilterMatches;
    if Leaked(a, filt) {
      var k :| 0 <= k < |a| && FilterMatches(filt, a[k].0);
      assert (a + b)[k] == a[k];
    }
    if Leaked(b, filt) {
      var k :| 0 <= k < |b| && FilterMatches(filt, b[k].0);
      assert (a + b)[|a| + k] == b[k];
    }
  }

  /** The check on a fresh session; `connack` is the broker's answer to the CONNECT. */
  method CheckLaneIsolation(s: Session, connack: int, enc: string -> seq<Byte>, inLane: string, outLane: string)
      returns (o: Outcome)
    requires s.deliveries == []
    modifies s
    ensures var c := CourseOf(s.dec, inLane, outLane, old(s.View()));
            var first, second := Goes(s.sendOk, old(s.sends), enc(inLane)), Goes(s.sendOk, old(s.sends) + 1, enc(outLane));
            && (o == Escaped <==> connack == 0 && (!first || (c.Granted() && !second)))
            && (o == Verdict(Pass) <==> connack == 0 && first && second && Passes(c, outLane))
            && (o == Verdict(Fail) <==> connack == 0 && first && second && Fails(c, outLane))
            && (o.Verdict? ==> s.deliveries == if connack == 0 then Recorded(c, outLane) else [])
  {
    hide Pump, Leaked, Goes;
    if connack != 0 {
      return Verdict(Inconclusive);
    }
    ghost var c := CourseOf(s.dec, inLane, outLane, s.View());
    var a := s.Subscribe(enc(inLane), 1);
    if a.Raised? {
      return Escaped;
    }
    if !a.answer.SubAck? {
      return Verdict(Inconclusive);
    }
    if a.answer.rc !in [0x00, 0x01, 0x02] {
      return Verdict(Inconclusive);
    }
    var live := s.Observe(inLane);
    var b := s.Subscribe(enc(outLane), 2);
    if b.Raised? {
      return Escaped;
    }
    assert s.deliveries == c.Before();
    var status := Pass;
    if b.answer == SubAck(0x80) {
    } else if b.answer == StoppedBy(Closed) {
      return Verdict(Pass);
    } else if b.answer.SubAck? {
      status := Fail;
    } else {
      return Verdict(Inconclusive);
    }
    var leaked := s.AnyDelivered(outLane);
    if !leaked {
      var hit := s.Observe(outLane);
      leaked := s.AnyDelivered(outLane);
      LeakedSplits(c.Before(), c.watch.noted, outLane);
    }
    if leaked {
      status := Fail;
    }
    o := Verdict(status);
  }

  /** The SUBACK `p` to this identifier, with this return code, was read off the wire. */
  ghost predicate SubAckOnWire(dec: Decoder, w: Wire, pid: nat, p: Packet, rc: Byte) {
    ReadOff(dec, Want(Some(pid), None), w, p) && p.ptype == SUBACK && |p.body| >= 3 && Word(p.body) == pid && p.body[2] == rc
  }

  /**
    Main result.  Behind every PASS there is, on the wire, a SUBACK to identifier 1 with a granted QoS, and
    then either the peer closed while the out-lane answer was awaited, or there is a SUBACK to identifier 2
    with 0x80 and no recorded delivery, before or after it, matches the out-lane filter.
   */
  lemma PassIsEvidence(dec: Decoder, inLane: string, outLane: string, w: Wire) returns (p1: Packet, p2: Packet)
    requires Passes(CourseOf(dec, inLane, outLane, w), outLane)
    ensures var c := CourseOf(dec, inLane, outLane, w);
            && c.first.answer.rc <= 2 && SubAckOnWire(dec, w, 1, p1, c.first.answer.rc)
            && (c.second.answer == StoppedBy(Closed)
                || (SubAckOnWire(dec, c.live.w, 2, p2, 0x80) && !Leaked(c.Before() + c.watch.noted, outLane)))
  {
    hide Pump, Leaked, ReadOff;
    var c := CourseOf(dec, inLane, outLane, w);
    p1 := SubAckWasOurs(dec, Want(Some(1), None), w);
    p2 := p1;
    if c.second.answer != StoppedBy(Closed) {
      p2 := SubAckWasOurs(dec, Want(Some(2), None), c.live.w);
      LeakedSplits(c.Before(), c.watch.noted, outLane);
    }
  }

  /**
    The verdict from the four answers.  The waits follow one another on the same connection, for identifier 1,
    for the in-lane filter, for identifier 2 and for the out-lane filter; a grant is return code 0, 1 or 2.
   */
  lemma VerdictTable(dec: Decoder, inLane: string, outLane: string, w: Wire)
    ensures var c := CourseOf(dec, inLane, outLane, w);
            var granted := c.first.answer in {SubAck(0), SubAck(1), SubAck(2)};
            var leaked := || Leaked(c.first.noted, outLane) || Leaked(c.live.noted, outLane)
                          || Leaked(c.second.noted, outLane) || Leaked(c.watch.noted, outLane);
            && c.first == Pump(dec, Want(Some(1), None), w) && c.live == Pump(dec, Want(None, Some(inLane)), c.first.w)
            && c.second == Pump(dec, Want(Some(2), None), c.live.w) && c.watch == Pump(dec, Want(None, Some(outLane)), c.second.w)
            && (Passes(c, outLane) <==>
                  granted && (c.second.answer == StoppedBy(Closed) || (c.second.answer == SubAck(0x80) && !leaked)))
            && (Fails(c, outLane) <==>
                  granted && c.second.answer.SubAck? && (c.second.answer.rc != 0x80 || leaked))
  {
    hide Pump, Leaked;
    var c := CourseOf(dec, inLane, outLane, w);
    LeakedSplits(c.first.noted, c.live.noted, outLane);
    LeakedSplits(c.first.noted + c.live.noted, c.second.noted, outLane);
  }

  // ---------------------------------------------------------------- where a leak does not fail the check

  /**
    Main result.  With a message from the refused lane on record, the check fails exactly when the in-lane
    subscription was granted and the out-lane one answered.  If the peer closed instead it passes, and
    everything else, silence included, leaves it undecided.
   */
  lemma LeakFailsExactly(dec: Decoder, inLane: string, outLane: string, w: Wire)
    requires Leaked(Recorded(CourseOf(dec, inLane, outLane, w), outLane), outLane)
    ensures var c := CourseOf(dec, inLane, outLane, w);
            && (Fails(c, outLane) <==> c.Granted() && c.second.answer.SubAck?)
            && (Passes(c, outLane) <==> c.Granted() && c.second.answer == StoppedBy(Closed))
  {
    hide Pump, Leaked;
    var c := CourseOf(dec, inLane, outLane, w);
    LeakedSplits(c.Before(), c.watch.noted, outLane);
  }

  // ---------------------------------------------------------------- what the last watch lets through

  /** A message that matches the out-lane filter. */
  predicate IsLeak(dec: Decoder, outLane: string, p: Packet) {
    p.ptype == PUBLISH && NoteOf(dec, p).Noted? && FilterMatches(outLane, NoteOf(dec, p).d.0)
  }

  /** Any SUBACK that can carry a return code: it ends a watch, whoever it answers. */
  predicate IsAnswer(p: Packet) {
    p.ptype == SUBACK && |p.body| >= 3
  }

  /** `ps[k]` is a leak with no SUBACK before it. */
  predicate LeaksBeforeAnswer(dec: Decoder, outLane: string, ps: seq<Packet>, k: nat) {
    k < |ps| && IsLeak(dec, outLane, ps[k]) && forall i :: 0 <= i < k ==> !IsAnswer(ps[i])
  }

  lemma WatchDecides(dec: Decoder, outLane: string, p: Packet)
    ensures Decides(dec, Want(None, Some(outLane)), p).Some? <==> IsLeak(dec, outLane, p) || IsAnswer(p)
    ensures Leaked(Record(dec, p), outLane) <==> IsLeak(dec, outLane, p)
  {
    hide NoteOf, FilterMatches;
    assert IsLeak(dec, outLane, p) ==> Record(dec, p)[0] == NoteOf(dec, p).d;
  }

  /** What is recorded of some packets leaks exactly when one of them does. */
  lemma {:induction false} RecordedLeaks(dec: Decoder, outLane: string, ps: seq<Packet>)
    ensures Leaked(RecordAll(dec, ps), outLane) <==> exists k :: 0 <= k < |ps| && IsLeak(dec, outLane, ps[k])
  {
    hide Record, IsLeak, Leaked;
    if ps == [] {
      NothingLeaks(outLane);
    } else {
      RecordedLeaks(dec, outLane, ps[1..]);
      LeakedSplits(Record(dec, ps[0]), RecordAll(dec, ps[1..]), outLane);
      WatchDecides(dec, outLane, ps[0]);
      assert forall k :: 0 < k < |ps| ==> ps[k] == ps[1..][k - 1];
    }
  }

  lemma NothingLeaks(outLane: string)
    ensures !Leaked([], outLane)
  {
  }

  /** The first packet to end the watch is a leak, or no leak comes before a SUBACK. */
  lemma FirstDecisiveLeaks(dec: Decoder, outLane: string, ps: seq<Packet>)
    ensures var j := FirstDecisive(dec, Want(None, Some(outLane)), ps);
            && (forall i :: 0 <= i < j ==> !IsLeak(dec, outLane, ps[i]))
            && (j < |ps| && IsLeak(dec, outLane, ps[j]) <==> exists k :: LeaksBeforeAnswer(dec, outLane, ps, k))
  {
    hide Decides, IsLeak, IsAnswer, FirstDecisive;
    var want := Want(None, Some(outLane));
    var j := FirstDecisive(dec, want, ps);
    forall i | 0 <= i < |ps|
      ensures Decides(dec, want, ps[i]).Some? <==> IsLeak(dec, outLane, ps[i]) || IsAnswer(ps[i])
    {
      WatchDecides(dec, outLane, ps[i]);
    }
    if j < |ps| && IsLeak(dec, outLane, ps[j]) {
      assert LeaksBeforeAnswer(dec, outLane, ps, j);
    } else {
      forall k: nat
        ensures !LeaksBeforeAnswer(dec, outLane, ps, k)
      {
        assert j <= k < |ps| ==> IsAnswer(ps[j]);
      }
    }
  }

  /** A watch over whole packets records a leak exactly when one comes before any SUBACK. */
  lemma WatchLeaksExactly(dec: Decoder, outLane: string, ps: seq<Packet>, tail: seq<Byte>, rest: seq<Recv>)
    requires AllValid(ps) && Parse(tail).Incomplete?
    ensures Leaked(Pump(dec, Want(None, Some(outLane)), Wire(EncodeAll(ps) + tail, rest)).noted, outLane)
       <==> exists k :: LeaksBeforeAnswer(dec, outLane, ps, k)
  {
    hide Pump, Decides, IsLeak, LeaksBeforeAnswer, Leaked, Parse, EncodeAll, RecordAll;
    var want := Want(None, Some(outLane));
    var j := FirstDecisive(dec, want, ps);
    PumpDispatches(dec, want, ps, tail, rest);
    FirstDecisiveLeaks(dec, outLane, ps);
    var seen := if j < |ps| then ps[..j + 1] else ps;
    RecordedLeaks(dec, outLane, seen);
    if j < |ps| && IsLeak(dec, outLane, ps[j]) {
      assert seen[j] == ps[j];
    }
  }

  /**
    Main result.  Once both subscriptions have their answers, with `ps` the whole packets that arrive after
    them, the check fails exactly when the out-lane one was not refused, or a matching message is on record
    already, or one of `ps` matches and no SUBACK to anybody comes before it.  Otherwise it passes.
   */
  lemma AnsweredVerdictOnTheWire(dec: Decoder, inLane: string, outLane: string, w: Wire, ps: seq<Packet>, tail: seq<Byte>, rest: seq<Recv>)
    requires AllValid(ps) && Parse(tail).Incomplete?
    requires var c := CourseOf(dec, inLane, outLane, w);
             c.Granted() && c.second.answer.SubAck? && c.second.w == Wire(EncodeAll(ps) + tail, rest)
    ensures var c := CourseOf(dec, inLane, outLane, w);
            && (Fails(c, outLane) <==> c.second.answer.rc != 0x80 || Leaked(c.Before(), outLane)
                                       || exists k :: LeaksBeforeAnswer(dec, outLane, ps, k))
            && (Passes(c, outLane) <==> !Fails(c, outLane))
  {
    hide Pump, Leaked, EncodeAll, Parse, LeaksBeforeAnswer;
    WatchLeaksExactly(dec, outLane, ps, tail, rest);
  }

  /** A first leak comes before any SUBACK, or no leak does. */
  lemma FirstLeakDecides(dec: Decoder, outLane: string, ps: seq<Packet>, k: nat)
    requires k < |ps| && IsLeak(dec, outLane, ps[k]) && forall i :: 0 <= i < k ==> !IsLeak(dec, outLane, ps[i])
    ensures (exists m :: LeaksBeforeAnswer(dec, outLane, ps, m)) <==> forall i :: 0 <= i < k ==> !IsAnswer(ps[i])
  {
    hide IsLeak, IsAnswer;
    if m :| LeaksBeforeAnswer(dec, outLane, ps, m) {
      assert k <= m;
    }
    if forall i :: 0 <= i < k ==> !IsAnswer(ps[i]) {
      assert LeaksBeforeAnswer(dec, outLane, ps, k);
    }
  }

  /**
    So a refused lane whose first message `ps[k]` arrives during the watch fails the check if and only if no
    SUBACK comes before it, and passes if and only if one does.
   */
  lemma LeakInTheWatchFailsExactly(dec: Decoder, inLane: string, outLane: string, w: Wire,
                                   ps: seq<Packet>, tail: seq<Byte>, rest: seq<Recv>, k: nat)
    requires AllValid(ps) && Parse(tail).Incomplete?
    requires var c := CourseOf(dec, inLane, outLane, w);
             && c.Granted() && c.second.answer == SubAck(0x80) && !Leaked(c.Before(), outLane)
             && c.second.w == Wire(EncodeAll(ps) + tail, rest)
    requires k < |ps| && IsLeak(dec, outLane, ps[k]) && forall i :: 0 <= i < k ==> !IsLeak(dec, outLane, ps[i])
    ensures var c := CourseOf(dec, inLane, outLane, w);
            && (Fails(c, outLane) <==> forall i :: 0 <= i < k ==> !IsAnswer(ps[i]))
            && (Passes(c, outLane) <==> exists i :: 0 <= i < k && IsAnswer(ps[i]))
  {
    hide CourseOf, Passes, Fails, Leaked, EncodeAll, Parse, IsLeak, IsAnswer, LeaksBeforeAnswer;
    AnsweredVerdictOnTheWire(dec, inLane, outLane, w, ps, tail, rest);
    FirstLeakDecides(dec, outLane, ps, k);
  }

  // ---------------------------------------------------------------- courses on which a leak does not fail the check

  /** A PUBLISH with no payload, at QoS 0. */
  function BarePublish(topic: seq<Byte>): (p: Packet)
    requires |topic| < 0x1_0000
    ensures p.Valid()
  {
    Packet(PUBLISH, 0, Pair(|topic|) + topic)
  }

  function AnswerTo(pid: nat, rc: Byte): (p: Packet)
    requires pid < 0x1_0000
    ensures p.Valid()
  {
    Packet(SUBACK, 0, Pair(pid) + [rc])
  }

  lemma BarePublishIsNoted(dec: Decoder, topic: seq<Byte>)
    requires |topic| < 0x1_0000
    ensures NoteOf(dec, BarePublish(topic)) == Noted((dec(topic), 0))
  {
    var p := BarePublish(topic);
    var hi: int, lo: int := p.body[0], p.body[1];
    assert Word(p.body) == |topic|;
    assert Slice(p.body, 2, 2 + |topic|) == topic;
  }

  /** A grant to identifier 1, silence until the in-lane watch expires, then a message from the refused lane, and then `end`. */
  function LeakThen(topic: seq<Byte>, end: Recv): Wire
    requires |topic| < 0x1_0000
  {
    Wire(EncodeAll([AnswerTo(1, 0)]) + [], [Expired, Chunk(EncodeAll([BarePublish(topic)]) + []), end])
  }

  /** A message from the refused lane, and then a refusal to identifier 1. */
  function LeakThenRefusal(topic: seq<Byte>): Wire
    requires |topic| < 0x1_0000
  {
    Wire(EncodeAll([BarePublish(topic), AnswerTo(1, 0x80)]) + [], [])
  }

  lemma NothingIsIncomplete()
    ensures Parse([]).Incomplete?
  {
  }

  /** An answer to the awaited identifier decides the wait and records nothing; a delivery does neither and is recorded. */
  lemma AnswerDecides(dec: Decoder, pid: nat, rc: Byte, topic: seq<Byte>)
    requires pid < 0x1_0000 && |topic| < 0x1_0000
    ensures var want := Want(Some(pid), None);
            && Decides(dec, want, AnswerTo(pid, rc)) == Some(SubAck(rc)) && Record(dec, AnswerTo(pid, rc)) == []
            && Decides(dec, want, BarePublish(topic)) == None && Record(dec, BarePublish(topic)) == [(dec(topic), 0)]
  {
    var g := AnswerTo(pid, rc);
    var hi: int, lo: int := g.body[0], g.body[1];
    assert Word(g.body) == pid;
    BarePublishIsNoted(dec, topic);
  }

  /** A wait that the one packet on the stream decides. */
  lemma DecidedAtOnce(dec: Decoder, want: Want, g: Packet, rest: seq<Recv>)
    requires g.Valid() && Decides(dec, want, g).Some?
    ensures Pump(dec, want, Wire(EncodeAll([g]) + [], rest)) == Pumped(Decides(dec, want, g).value, Record(dec, g), Wire([], rest))
  {
    ReadsFirstOf([g], [], rest);
    assert [g][1..] == [] && EncodeAll([]) + [] == [];
    hide TakePacket, Decides, Record, EncodeAll;
  }

  lemma AnswerAlone(dec: Decoder, pid: nat, rc: Byte, rest: seq<Recv>)
    requires pid < 0x1_0000
    ensures Pump(dec, Want(Some(pid), None), Wire(EncodeAll([AnswerTo(pid, rc)]) + [], rest)) == Pumped(SubAck(rc), [], Wire([], rest))
  {
    AnswerDecides(dec, pid, rc, []);
    hide Decides, Record, EncodeAll, AnswerTo, Pump;
    DecidedAtOnce(dec, Want(Some(pid), None), AnswerTo(pid, rc), rest);
  }

  lemma FirstWait(dec: Decoder, topic: seq<Byte>, end: Recv)
    requires |topic| < 0x1_0000
    ensures var w := LeakThen(topic, end);
            Pump(dec, Want(Some(1), None), w) == Pumped(SubAck(0), [], Wire([], w.rest))
  {
    hide Pump, EncodeAll;
    AnswerAlone(dec, 1, 0, LeakThen(topic, end).rest);
  }

  /** A delivery and then a refusal: the delivery is recorded, the refusal is the answer. */
  lemma RefusedWait(dec: Decoder, topic: seq<Byte>)
    requires |topic| < 0x1_0000
    ensures var r := Pump(dec, Want(Some(1), None), LeakThenRefusal(topic));
            r.answer == SubAck(0x80) && r.noted == [(dec(topic), 0)]
  {
    var p, g := BarePublish(topic), AnswerTo(1, 0x80);
    NothingIsIncomplete();
    AnswerDecides(dec, 1, 0x80, topic);
    hide Decides, Record, Parse, AnswerTo, BarePublish, Pump;
    PumpDispatches(dec, Want(Some(1), None), [p, g], [], []);
    assert [p, g][1..] == [g] && [p, g][..2] == [p, g];
    assert RecordAll(dec, [g]) == Record(dec, g) + RecordAll(dec, []);
    assert RecordAll(dec, [p, g]) == Record(dec, p) + RecordAll(dec, [g]);
  }

  /** A watch that starts in silence times out; the next wait finds what came since. */
  lemma SilentWait(dec: Decoder, inLane: string, later: seq<Byte>, end: Recv)
    requires later != [] && !end.Chunk?
    ensures var start := Wire([], [Expired, Chunk(later), end]);
            Pump(dec, Want(None, Some(inLane)), start) == Pumped(StoppedBy(Timeout), [], Wire(later, [end]))
  {
    var rest := [Expired, Chunk(later), end];
    assert rest[1..] == [Chunk(later), end] && rest[1..][1..] == [end];
    assert Flow([end]) == [];
    assert Flow(rest[1..]) == later + [] == later && After(rest[1..]) == [end];
  }

  lemma SomethingToSend(ps: seq<Packet>)
    requires AllValid(ps) && ps != []
    ensures EncodeAll(ps) + [] != []
  {
  }

  lemma ThirdWait(dec: Decoder, topic: seq<Byte>, end: Recv)
    requires |topic| < 0x1_0000 && !end.Chunk?
    ensures var r := Pump(dec, Want(Some(2), None), Wire(EncodeAll([BarePublish(topic)]) + [], [end]));
            r.answer == StoppedBy(if end.Expired? then Timeout else Closed) && r.noted == [(dec(topic), 0)]
  {
    var p := BarePublish(topic);
    NothingIsIncomplete();
    AnswerDecides(dec, 2, 0, topic);
    hide Decides, Record, Parse, AnswerTo, BarePublish, Pump;
    PumpDispatches(dec, Want(Some(2), None), [p], [], [end]);
    PumpStopsForReason(dec, Want(Some(2), None), [p], [], [end]);
    assert [p][1..] == [];
    assert RecordAll(dec, [p]) == Record(dec, p) + RecordAll(dec, []);
  }

  lemma LeakIsRecorded(dec: Decoder, inLane: string, outLane: string, topic: seq<Byte>, end: Recv)
    requires |topic| < 0x1_0000 && FilterMatches(outLane, dec(topic)) && !end.Chunk?
    ensures var c := CourseOf(dec, inLane, outLane, LeakThen(topic, end));
            && c.Granted() && Leaked(Recorded(c, outLane), outLane)
            && c.second.answer == StoppedBy(if end.Expired? then Timeout else Closed)
  {
    SomethingToSend([BarePublish(topic)]);
    hide Pump, FilterMatches, EncodeAll;
    var c := CourseOf(dec, inLane, outLane, LeakThen(topic, end));
    FirstWait(dec, topic, end);
    SilentWait(dec, inLane, EncodeAll([BarePublish(topic)]) + [], end);
    ThirdWait(dec, topic, end);
    assert c.Before()[0] == (dec(topic), 0);
  }

  /**
    The description promises that any message from the refused lane fails the probe on its own, whatever
    the answer was.  It does not when the peer then closes: here one is recorded, and the verdict is PASS.
   */
  lemma LeakBeforeCloseIsPassed(dec: Decoder, inLane: string, outLane: string, topic: seq<Byte>)
    requires |topic| < 0x1_0000 && FilterMatches(outLane, dec(topic))
    ensures var c := CourseOf(dec, inLane, outLane, LeakThen(topic, SocketError));
            Leaked(Recorded(c, outLane), outLane) && Passes(c, outLane)
  {
    hide Pump, Leaked, FilterMatches;
    LeakIsRecorded(dec, inLane, outLane, topic, SocketError);
  }

  /** Nor when silence follows: here one is recorded, and the check is undecided. */
  lemma LeakBeforeSilenceIsUndecided(dec: Decoder, inLane: string, outLane: string, topic: seq<Byte>)
    requires |topic| < 0x1_0000 && FilterMatches(outLane, dec(topic))
    ensures var c := CourseOf(dec, inLane, outLane, LeakThen(topic, Expired));
            Leaked(Recorded(c, outLane), outLane) && !Passes(c, outLane) && !Fails(c, outLane)
  {
    hide Pump, Leaked, FilterMatches;
    LeakIsRecorded(dec, inLane, outLane, topic, Expired);
  }

  /** Nor when the in-lane subscription is refused after it. */
  lemma LeakBeforeRefusalIsUndecided(dec: Decoder, inLane: string, outLane: string, topic: seq<Byte>)
    requires |topic| < 0x1_0000 && FilterMatches(outLane, dec(topic))
    ensures var c := CourseOf(dec, inLane, outLane, LeakThenRefusal(topic));
            Leaked(Recorded(c, outLane), outLane) && !Passes(c, outLane) && !Fails(c, outLane)
  {
    hide Pump, FilterMatches, EncodeAll;
    RefusedWait(dec, topic);
    var c := CourseOf(dec, inLane, outLane, LeakThenRefusal(topic));
    assert c.first.noted[0] == (dec(topic), 0);
  }

  /** A grant, and during the in-lane watch nothing; then a refusal, somebody else's SUBACK, and a message from the refused lane. */
  function LeakBehindAnswer(topic: seq<Byte>): Wire
    requires |topic| < 0x1_0000
  {
    Wire(EncodeAll([AnswerTo(1, 0)]) + [],
         [Expired, Chunk(EncodeAll([AnswerTo(2, 0x80), AnswerTo(9, 0), BarePublish(topic)]) + []), Expired])
  }

  /** A wait takes the first packet, if it decides, and leaves the others. */
  lemma DecidedByFirst(dec: Decoder, want: Want, ps: seq<Packet>, rest: seq<Recv>)
    requires AllValid(ps) && ps != [] && Decides(dec, want, ps[0]).Some?
    ensures Pump(dec, want, Wire(EncodeAll(ps) + [], rest))
         == Pumped(Decides(dec, want, ps[0]).value, Record(dec, ps[0]), Wire(EncodeAll(ps[1..]) + [], rest))
  {
    hide TakePacket, Decides, Record, EncodeAll;
    ReadsFirstOf(ps, [], rest);
  }

  /** The message has arrived, and is the next thing to be read, when the check passes without having seen it. */
  lemma LeakBehindAnswerIsPassed(dec: Decoder, inLane: string, outLane: string, topic: seq<Byte>)
    requires |topic| < 0x1_0000 && FilterMatches(outLane, dec(topic))
    ensures var c := CourseOf(dec, inLane, outLane, LeakBehindAnswer(topic));
            && c.Granted() && c.second.answer == SubAck(0x80) && Passes(c, outLane)
            && TakePacket(c.watch.w).0 == Read(BarePublish(topic)) && IsLeak(dec, outLane, BarePublish(topic))
  {
    var refusal, other, leak := AnswerTo(2, 0x80), AnswerTo(9, 0), BarePublish(topic);
    var w, ps := LeakBehindAnswer(topic), [refusal, other, leak];
    assert ps[1..] == [other, leak] && [other, leak][1..] == [leak];
    assert AllValid(ps) && AllValid([other, leak]) && AllValid([leak]);
    BarePublishIsNoted(dec, topic);
    AnswerDecides(dec, 2, 0x80, topic);
    AnswerDecides(dec, 9, 0, topic);
    OtherAnswerEndsWatch(dec, outLane);
    ReadsFirstOf([leak], [], [Expired]);
    NothingLeaks(outLane);
    SomethingToSend(ps);
    hide Pump, Leaked, FilterMatches, EncodeAll, TakePacket, Decides, Record, AnswerTo, BarePublish, NoteOf;
    AnswerAlone(dec, 1, 0, w.rest);
    SilentWait(dec, inLane, EncodeAll(ps) + [], Expired);
    DecidedByFirst(dec, Want(Some(2), None), ps, [Expired]);
    DecidedByFirst(dec, Want(None, Some(outLane)), [other, leak], [Expired]);
  }

  lemma OtherAnswerEndsWatch(dec: Decoder, outLane: string)
    ensures Decides(dec, Want(None, Some(outLane)), AnswerTo(9, 0)) == Some(SubAck(0))
  {
  }
}
