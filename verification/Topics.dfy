/**
 Topic strings and topic filters.

 `Split` and `Join` are Go's `strings.Split(s, "/")` and `strings.Join(parts, "/")`;
 `PartsMatch` is the recursive matcher of the fake broker, used by every routing and
 delivery claim of this project.
 */
module Topics {

  predicate SlashFree(s: string) {
    '/' !in s
  }

  predicate AllSlashFree(parts: seq<string>) {
    forall i :: 0 <= i < |parts| ==> SlashFree(parts[i])
  }

  function Join(parts: seq<string>): (s: string) {
    if |parts| == 0 then ""
    else if |parts| == 1 then parts[0]
    else parts[0] + "/" + Join(parts[1..])
  }

  function Split(s: string): (parts: seq<string>)
    ensures |parts| >= 1
  {
    if s == "" then [""]
    else
      var rest := Split(s[1..]);
      if s[0] == '/' then [""] + rest else [[s[0]] + rest[0]] + rest[1..]
  }

  /** Joining undoes splitting, and the parts hold no slash. */
  lemma {:induction false} JoinSplit(s: string)
    ensures Join(Split(s)) == s
    ensures AllSlashFree(Split(s))
  {
    if s != "" {
      JoinSplit(s[1..]);
      var rest, parts := Split(s[1..]), Split(s);
      if s[0] == '/' {
        assert parts[1..] == rest;
      } else {
        assert parts[1..] == rest[1..];
        assert Join(parts) == [s[0]] + Join(rest);
      }
    }
  }

  lemma {:induction false} SplitHead(a: string, s: string)
    requires SlashFree(a)
    ensures Split(a + "/" + s) == [a] + Split(s)
    decreases |a|
  {
    var t := a + "/" + s;
    if a == "" {
      assert t[1..] == s;
    } else {
      assert t[0] == a[0] && t[1..] == a[1..] + "/" + s;
      SplitHead(a[1..], s);
      assert [a[0]] + a[1..] == a;
    }
  }

  lemma {:induction false} SplitSlashFree(a: string)
    requires SlashFree(a)
    ensures Split(a) == [a]
    decreases |a|
  {
    if a != "" {
      SplitSlashFree(a[1..]);
      assert [a[0]] + a[1..] == a;
    }
  }

  /** Splitting undoes joining on any non-empty list of slash-free parts. */
  lemma {:induction false} SplitJoin(parts: seq<string>)
    requires |parts| >= 1 && AllSlashFree(parts)
    ensures Split(Join(parts)) == parts
  {
    if |parts| == 1 {
      SplitSlashFree(parts[0]);
    } else {
      SplitHead(parts[0], Join(parts[1..]));
      SplitJoin(parts[1..]);
      assert [parts[0]] + parts[1..] == parts;
    }
  }

  lemma JoinInjective(a: seq<string>, b: seq<string>)
    requires |a| >= 1 && AllSlashFree(a)
    requires |b| >= 1 && AllSlashFree(b)
    requires Join(a) == Join(b)
    ensures a == b
  {
    SplitJoin(a);
    SplitJoin(b);
  }

  lemma {:induction false} JoinConcat(a: seq<string>, b: seq<string>)
    requires |a| >= 1 && |b| >= 1
    ensures Join(a + b) == Join(a) + "/" + Join(b)
  {
    assert (a + b)[1..] == a[1..] + b;
    if |a| > 1 {
      JoinConcat(a[1..], b);
    } else {
      assert (a + b)[1..] == b;
    }
  }

  /** Gluing two topics with a slash concatenates their parts, whatever slashes they hold. */
  lemma SplitConcat(a: string, b: string)
    ensures Split(a + "/" + b) == Split(a) + Split(b)
  {
    JoinSplit(a);
    JoinSplit(b);
    JoinConcat(Split(a), Split(b));
    SplitJoin(Split(a) + Split(b));
  }

  // ---------------------------------------------------------------- matching

  predicate PartsMatch(pattern: seq<string>, topic: seq<string>) {
    if |pattern| == 0 then |topic| == 0
    else if pattern[0] == "#" then true
    else
      && |topic| > 0
      && (pattern[0] == "+" || pattern[0] == topic[0])
      && PartsMatch(pattern[1..], topic[1..])
  }

  predicate TopicMatch(pattern: string, topic: string) {
    PartsMatch(Split(pattern), Split(topic))
  }

  /** One level of a filter against one level of a topic. */
  predicate LevelMatch(level: string, part: string) {
    level == "+" || level == part
  }

  predicate LevelsMatch(pattern: seq<string>, topic: seq<string>, n: nat)
    requires n <= |pattern| && n <= |topic|
  {
    forall i :: 0 <= i < n ==> LevelMatch(pattern[i], topic[i])
  }

  /** Where the first "#" stands, or the length of a filter that has none. */
  function FirstHash(pattern: seq<string>): (k: nat)
    ensures k <= |pattern|
    ensures "#" !in pattern[..k]
    ensures k < |pattern| ==> pattern[k] == "#"
  {
    if |pattern| == 0 || pattern[0] == "#" then 0
    else
      var k := FirstHash(pattern[1..]);
      assert pattern[..k + 1] == [pattern[0]] + pattern[1..][..k];
      k + 1
  }

  lemma {:induction false} FirstHashIsFirst(pattern: seq<string>, i: nat)
    requires i < |pattern| && pattern[i] == "#"
    ensures FirstHash(pattern) <= i
    decreases i
  {
    if pattern[0] != "#" {
      FirstHashIsFirst(pattern[1..], i - 1);
    }
  }

  /**
   What section 4.7 of MQTT 3.1.1 says a filter matches, level by level and without
   recursion: up to the first "#" every level agrees, and a filter without "#" has
   exactly as many levels as the topic.  Section 4.7.1.2 allows "#" only as the last level;
   for other filters this is what the matcher makes of them.
   */
  predicate FilterAdmits(pattern: seq<string>, topic: seq<string>) {
    var k := FirstHash(pattern);
    && k <= |topic|
    && LevelsMatch(pattern, topic, k)
    && (k == |pattern| ==> |topic| == |pattern|)
  }

  lemma {:induction false} MatcherMeetsStandard(pattern: seq<string>, topic: seq<string>)
    ensures PartsMatch(pattern, topic) <==> FilterAdmits(pattern, topic)
  {
    if |pattern| != 0 && pattern[0] != "#" && |topic| != 0 {
      var p, t := pattern[1..], topic[1..];
      MatcherMeetsStandard(p, t);
      var k := FirstHash(p);
      if LevelMatch(pattern[0], topic[0]) && k <= |t| {
        assert LevelsMatch(p, t, k) ==> LevelsMatch(pattern, topic, k + 1) by {
          assert forall i :: 0 <= i < k ==> p[i] == pattern[i + 1] && t[i] == topic[i + 1];
        }
        assert LevelsMatch(pattern, topic, k + 1) ==> LevelsMatch(p, t, k);
      }
    }
  }

  /** A filter without "#" fixes the number of levels and each level it does not leave open. */
  lemma HashFreeMatch(pattern: seq<string>, topic: seq<string>)
    requires "#" !in pattern
    ensures PartsMatch(pattern, topic) <==> |pattern| == |topic| && LevelsMatch(pattern, topic, |pattern|)
  {
    MatcherMeetsStandard(pattern, topic);
    assert FirstHash(pattern) == |pattern|;
  }

  /** No level of the filter is a wildcard. */
  predicate Literal(pattern: seq<string>) {
    "+" !in pattern && "#" !in pattern
  }

  /** A filter without wildcards matches exactly the topic it spells. */
  lemma LiteralMatchesItself(pattern: string, topic: string)
    requires Literal(Split(pattern))
    ensures TopicMatch(pattern, topic) <==> pattern == topic
  {
    var p, t := Split(pattern), Split(topic);
    MatcherMeetsStandard(p, t);
    if TopicMatch(pattern, topic) {
      assert forall i :: 0 <= i < |p| ==> LevelMatch(p[i], t[i]) && p[i] in p;
      assert p == t;
      JoinSplit(pattern);
      JoinSplit(topic);
    }
    if pattern == topic {
      assert LevelsMatch(p, p, |p|);
    }
  }
}
