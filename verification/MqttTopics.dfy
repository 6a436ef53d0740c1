/**
  Topic filters of the bus probe (scripts/qa-bus-probe.py, topic_matches) against section 4.7.1 of MQTT 3.1.1.
 */
module MqttTopics {

  /** The levels of a topic or filter: the pieces between slashes, at least one. */
  function Split(s: string): (levels: seq<string>)
    ensures levels != []
  {
    if s == "" then [""]
    else
      var rest := Split(s[1..]);
      if s[0] == '/' then [""] + rest else [[s[0]] + rest[0]] + rest[1..]
  }

  function Join(levels: seq<string>): string
    requires levels != []
  {
    if |levels| == 1 then levels[0] else levels[0] + "/" + Join(levels[1..])
  }

  /** Splitting loses nothing, and no level holds a slash. */
  lemma {:induction false} SplitJoins(s: string)
    ensures Join(Split(s)) == s
    ensures forall i :: 0 <= i < |Split(s)| ==> '/' !in Split(s)[i]
  {
    if s != "" {
      SplitJoins(s[1..]);
      var rest := Split(s[1..]);
      if s[0] == '/' {
        assert Split(s)[1..] == rest;
      } else if |rest| > 1 {
        assert Split(s)[1..] == rest[1..];
      }
    }
  }

  /** The index of the first multi-level wildcard, or the number of levels. */
  function FirstHash(fs: seq<string>): (h: nat)
    ensures h <= |fs| && (h < |fs| ==> fs[h] == "#")
    ensures forall i :: 0 <= i < h ==> fs[i] != "#"
  {
    if fs == [] then 0 else if fs[0] == "#" then 0 else 1 + FirstHash(fs[1..])
  }

  predicate LevelMatches(f: string, t: string) {
    f == "+" || f == t
  }

  /** What the matcher decides: levels agree up to the first '#', and without one the lengths do too. */
  predicate Matches(fs: seq<string>, ts: seq<string>) {
    var h := FirstHash(fs);
    && (if h < |fs| then |ts| >= h else |ts| == |fs|)
    && forall i :: 0 <= i < h ==> LevelMatches(fs[i], ts[i])
  }

  method TopicMatches(filt: string, topic: string) returns (b: bool)
    ensures b == Matches(Split(filt), Split(topic))
  {
    hide Split;
    var fs, ts := Split(filt), Split(topic);
    for i := 0 to |fs|
      invariant i <= |ts| && i <= FirstHash(fs)
      invariant forall j :: 0 <= j < i ==> LevelMatches(fs[j], ts[j])
    {
      if fs[i] == "#" {
        return true;
      }
      if i >= |ts| {
        return false;
      }
      if fs[i] != "+" && fs[i] != ts[i] {
        return false;
      }
    }
    return |ts| == |fs|;
  }

  // ---------------------------------------------------------------- the standard's rule

  /** Level by level, as section 4.7.1 has it: a final '#' takes the parent level and everything below it. */
  predicate Standard(fs: seq<string>, ts: seq<string>) {
    if fs == ["#"] then true
    else if fs == [] then ts == []
    else if ts == [] then false
    else LevelMatches(fs[0], ts[0]) && Standard(fs[1..], ts[1..])
  }

  /** A '#' appears as the last level only, as the standard demands of a filter. */
  predicate HashOnlyLast(fs: seq<string>) {
    FirstHash(fs) >= |fs| - 1
  }

  lemma {:induction false} MatchesStandard(fs: seq<string>, ts: seq<string>)
    requires HashOnlyLast(fs)
    ensures Matches(fs, ts) <==> Standard(fs, ts)
  {
    if fs != [] && fs != ["#"] && ts != [] {
      assert FirstHash(fs) == 1 + FirstHash(fs[1..]);
      MatchesStandard(fs[1..], ts[1..]);
      assert forall i :: 0 <= i < |fs| - 1 ==> fs[1..][i] == fs[i + 1];
      assert forall i :: 0 <= i < |ts| - 1 ==> ts[1..][i] == ts[i + 1];
      if Matches(fs, ts) {
        assert Matches(fs[1..], ts[1..]);
      }
      if Matches(fs[1..], ts[1..]) && LevelMatches(fs[0], ts[0]) {
        forall i | 0 <= i < FirstHash(fs)
          ensures LevelMatches(fs[i], ts[i])
        {
          assert i > 0 ==> LevelMatches(fs[1..][i - 1], ts[1..][i - 1]);
        }
      }
    }
  }

  /** The topic on which a filter with a '#' in the middle and the standard's rule part: the levels before the '#', or any one level. */
  function Parting(fs: seq<string>): (ts: seq<string>)
    ensures ts != []
  {
    var h := FirstHash(fs);
    if h == 0 then ["x"] else fs[..h]
  }

  /** With a '#' in the middle the standard's rule takes it for an ordinary level, and the levels before it do not match. */
  lemma {:induction false} StandardStopsAtMiddleHash(fs: seq<string>)
    requires !HashOnlyLast(fs)
    ensures !Standard(fs, fs[..FirstHash(fs)])
  {
    var h := FirstHash(fs);
    if h > 0 {
      assert FirstHash(fs[1..]) == h - 1;
      StandardStopsAtMiddleHash(fs[1..]);
      assert fs[..h][1..] == fs[1..][..h - 1];
    }
  }

  lemma PartingParts(fs: seq<string>)
    requires !HashOnlyLast(fs)
    ensures Matches(fs, Parting(fs)) && !Standard(fs, Parting(fs))
  {
    StandardStopsAtMiddleHash(fs);
  }

  lemma SplitOfPrefix(level: string, rest: string)
    requires '/' !in level
    ensures Split(level + "/" + rest) == [level] + Split(rest)
    decreases level
  {
    var s := level + "/" + rest;
    if level == "" {
      assert s == "/" + rest && s[1..] == rest;
    } else {
      assert s[1..] == level[1..] + "/" + rest && s[0] == level[0] && level[0] in level;
      SplitOfPrefix(level[1..], rest);
      assert [level[0]] + level[1..] == level;
      assert ([level[1..]] + Split(rest))[1..] == Split(rest);
    }
  }

  lemma {:induction false} SplitOfLevel(level: string)
    requires '/' !in level
    ensures Split(level) == [level]
  {
    if level != "" {
      SplitOfLevel(level[1..]);
      assert level[0] in level && [level[0]] + level[1..] == level;
    }
  }

  /** Levels without slashes come back from the text they are joined into. */
  lemma {:induction false} JoinSplits(levels: seq<string>)
    requires levels != [] && forall i :: 0 <= i < |levels| ==> '/' !in levels[i]
    ensures Split(Join(levels)) == levels
  {
    if |levels| == 1 {
      SplitOfLevel(levels[0]);
    } else {
      JoinSplits(levels[1..]);
      SplitOfPrefix(levels[0], Join(levels[1..]));
    }
  }

  /**
    Main result.  For any filter text, the matcher agrees with the standard on every topic text exactly
    when the filter has '#' at its end only, as the standard demands.
   */
  lemma AgreesWithStandardExactly(filt: string)
    ensures HashOnlyLast(Split(filt))
       <==> forall topic: string :: Matches(Split(filt), Split(topic)) == Standard(Split(filt), Split(topic))
  {
    var fs := Split(filt);
    hide Split, Matches, Standard, HashOnlyLast;
    if HashOnlyLast(fs) {
      forall topic: string
        ensures Matches(fs, Split(topic)) == Standard(fs, Split(topic))
      {
        MatchesStandard(fs, Split(topic));
      }
    } else {
      PartingParts(fs);
      SplitJoins(filt);
      JoinSplits(Parting(fs));
      var topic := Join(Parting(fs));
      assert Matches(fs, Split(topic)) != Standard(fs, Split(topic));
    }
  }

  // ---------------------------------------------------------------- widening

  lemma FirstHashIs(fs: seq<string>, h: nat)
    requires h <= |fs| && (h < |fs| ==> fs[h] == "#")
    requires forall i :: 0 <= i < h ==> fs[i] != "#"
    ensures FirstHash(fs) == h
  {
    assert FirstHash(fs) >= h;
  }

  /** Turning one level into '+' never loses a topic. */
  lemma PlusWidens(fs: seq<string>, ts: seq<string>, i: nat)
    requires i < FirstHash(fs) && Matches(fs, ts)
    ensures Matches(fs[i := "+"], ts)
  {
    FirstHashIs(fs[i := "+"], FirstHash(fs));
  }

  /** Turning a suffix into '#' never loses a topic; in particular "a/#" keeps "a". */
  lemma HashWidens(fs: seq<string>, ts: seq<string>, i: nat)
    requires i <= FirstHash(fs) && Matches(fs, ts)
    ensures Matches(fs[..i] + ["#"], ts)
  {
    FirstHashIs(fs[..i] + ["#"], i);
  }

  // ---------------------------------------------------------------- plain filters

  /** A filter without wildcard levels matches exactly its own text. */
  lemma PlainFilterMatchesItself(filt: string, topic: string)
    requires forall i :: 0 <= i < |Split(filt)| ==> Split(filt)[i] != "+" && Split(filt)[i] != "#"
    ensures Matches(Split(filt), Split(topic)) <==> topic == filt
  {
    var fs, ts := Split(filt), Split(topic);
    SplitJoins(filt);
    SplitJoins(topic);
    hide Split, Join;
    FirstHashIs(fs, |fs|);
    if Matches(fs, ts) {
      assert fs == ts;
    }
  }

  /** A '+' takes any one level, and a '#' any number of them, from none on. */
  lemma WildcardsTakeAnything(fs: seq<string>, ts: seq<string>, i: nat, level: string, more: seq<string>)
    requires i < FirstHash(fs) && fs[i] == "+" && Matches(fs, ts)
    ensures i < |ts| && Matches(fs, ts[i := level])
    ensures FirstHash(fs) < |fs| ==> Matches(fs, ts[..FirstHash(fs)] + more)
  {
  }
}
