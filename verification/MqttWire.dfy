/**
  The wire format of MQTT 3.1.1 as the bus probe reads and writes it (scripts/qa-bus-probe.py): the
  remaining-length codec of section 2.2.3 and packet framing, as functions of the byte stream.
 */
module MqttWire {
  type Byte = n: nat | n < 256

  /** The largest remaining length four bytes can carry. */
  const MAX_LENGTH: nat := 268_435_455

  /** Seven bits a byte, least significant first, the top bit saying that more follow. */
  function RemLen(n: nat): (out: seq<Byte>)
    ensures out != []
  {
    if n < 128 then [n] else [n % 128 + 128] + RemLen(n / 128)
  }

  method EncodeRemLen(len: nat) returns (out: seq<Byte>)
    ensures out == RemLen(len)
  {
    var n := len;
    out := [];
    while true
      invariant out + RemLen(n) == RemLen(len)
      decreases n
    {
      var d := n % 128;
      var more := n / 128;
      if more == 0 {
        out := out + [d];
        return;
      }
      assert RemLen(n) == [d + 128] + RemLen(more);
      assert out + RemLen(n) == (out + [d + 128]) + RemLen(more);
      out := out + [d + 128];
      n := more;
    }
  }

  /** Reading a length: too few bytes, or a value and the number of bytes it took. */
  datatype LenRead = Short | Len(value: nat, used: nat)

  /** At most `left` bytes are read; a continuation bit on the last of them is ignored. */
  function ReadLen(s: seq<Byte>, left: nat): (r: LenRead)
    ensures r.Len? ==> r.used <= |s| && r.used <= left
  {
    if left == 0 then Len(0, 0)
    else if s == [] then Short
    else if s[0] < 128 then Len(s[0], 1)
    else
      match ReadLen(s[1..], left - 1)
      case Short => Short
      case Len(v, u) => Len(s[0] - 128 + 128 * v, u + 1)
  }

  /** How many lengths `k` bytes can carry. */
  function Reach(k: nat): nat
    requires k <= 4
  {
    if k == 0 then 1 else if k == 1 then 128 else if k == 2 then 16_384 else if k == 3 then 2_097_152 else MAX_LENGTH + 1
  }

  /** Reading back at most `k` bytes of an encoding yields the value if it took no more, and otherwise one that `k` bytes can carry. */
  lemma {:induction false} ReadBack(n: nat, k: nat, rest: seq<Byte>)
    requires k <= 4
    ensures |RemLen(n)| <= k <==> k > 0 && n < Reach(k)
    ensures var r := ReadLen(RemLen(n) + rest, k);
            if |RemLen(n)| <= k then r == Len(n, |RemLen(n)|) else r.Len? && r.value < Reach(k) && r.used == k
  {
    var s := RemLen(n) + rest;
    if k > 0 && n >= 128 {
      assert RemLen(n)[1..] == RemLen(n / 128);
      assert s[1..] == RemLen(n / 128) + rest;
      ReadBack(n / 128, k - 1, rest);
    } else if k > 0 {
      assert s[0] == n;
    }
  }

  /**
    Main result.  A length survives the codec if and only if four bytes can carry it; it then takes one
    to four bytes, with the boundaries of the standard.  A longer one comes back as another, shorter one.
   */
  lemma LengthRoundTripsExactly(n: nat, rest: seq<Byte>)
    ensures ReadLen(RemLen(n) + rest, 4) == Len(n, |RemLen(n)|) <==> n <= MAX_LENGTH
    ensures n > MAX_LENGTH ==> var r := ReadLen(RemLen(n) + rest, 4); r.Len? && r.value < n && r.used < |RemLen(n)|
    ensures |RemLen(n)| == 1 <==> n <= 127
    ensures |RemLen(n)| <= 2 <==> n <= 16_383
    ensures |RemLen(n)| <= 3 <==> n <= 2_097_151
    ensures |RemLen(n)| <= 4 <==> n <= MAX_LENGTH
  {
    ReadBack(n, 1, rest);
    ReadBack(n, 2, rest);
    ReadBack(n, 3, rest);
    ReadBack(n, 4, rest);
  }

  // ---------------------------------------------------------------- packets

  datatype Packet = Packet(ptype: nat, flags: nat, body: seq<Byte>)
  {
    predicate Valid() {
      ptype < 16 && flags < 16 && |body| <= MAX_LENGTH
    }
  }

  function Encode(p: Packet): seq<Byte>
    requires p.Valid()
  {
    [p.ptype * 16 + p.flags] + RemLen(|p.body|) + p.body
  }

  predicate AllValid(ps: seq<Packet>) {
    forall i :: 0 <= i < |ps| ==> ps[i].Valid()
  }

  function EncodeAll(ps: seq<Packet>): seq<Byte>
    requires AllValid(ps)
  {
    if ps == [] then [] else Encode(ps[0]) + EncodeAll(ps[1..])
  }

  datatype Parsed = Incomplete | Got(p: Packet, rest: seq<Byte>)

  /** The first packet of a byte stream, if all of it is there. */
  function Parse(s: seq<Byte>): (r: Parsed)
    ensures r.Got? ==> |r.rest| < |s|
  {
    if s == [] then Incomplete
    else
      match ReadLen(s[1..], 4)
      case Short => Incomplete
      case Len(n, used) =>
        var body := s[1 + used..];
        if |body| < n then Incomplete else Got(Packet(s[0] / 16, s[0] % 16, body[..n]), body[n..])
  }

  lemma ParseAt(s: seq<Byte>, n: nat, used: nat, body: seq<Byte>)
    requires s != [] && ReadLen(s[1..], 4) == Len(n, used) && s[1 + used..] == body && |body| >= n
    ensures Parse(s) == Got(Packet(s[0] / 16, s[0] % 16, body[..n]), body[n..])
  {
    hide ReadLen;
  }

  /** A packet comes back from the front of any stream it was written to, and leaves the rest untouched. */
  lemma ParseEncode(p: Packet, rest: seq<Byte>)
    requires p.Valid()
    ensures Parse(Encode(p) + rest) == Got(p, rest)
  {
    var s, len, body := Encode(p) + rest, RemLen(|p.body|), p.body + rest;
    LengthRoundTripsExactly(|p.body|, body);
    hide RemLen, ReadLen, Parse;
    assert s[0] == p.ptype * 16 + p.flags;
    assert s[1..] == len + body;
    assert s[1 + |len|..] == body;
    ParseAt(s, |p.body|, |len|, body);
    assert body[..|p.body|] == p.body && body[|p.body|..] == rest;
  }
}
