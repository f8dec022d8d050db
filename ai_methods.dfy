/**
 * Post-processing of the model's answers (server/ai/methods.ts): the empty
 * fallback of the connection calls, the filter that keeps only existing
 * targets, the aspect map of a node description and the emoji truncation.
 * Prompts are left out; each call goes through the gate of `AiCore`.
 */
module AiMethods {
  import opened Wrappers
  import opened GraphTypes
  import opened AiCore
  import opened AiResponse

  /** `ConnectionResponse`: `{ connections: Connection[] }`. */
  datatype ConnectionResponse = ConnectionResponse(connections: seq<Connection>)

  /** `AspectRating`: `{ aspect, rating }`. */
  datatype AspectRating = AspectRating(aspect: string, rating: real)

  /** The validated `Node` answer; `scores` is `None` when it is not an array. */
  datatype NodeAnswer = NodeAnswer(labelText: string, scores: Option<seq<AspectRating>>, description: string, emoji: string)

  /** What `describeNode` hands back. */
  datatype Description = Description(description: string, aspects: map<string, real>, emoji: string)

  /** `result || { connections: [] }`. */
  function ConnectionsOrEmpty(result: Option<ConnectionResponse>): (r: ConnectionResponse)
    ensures result.None? ==> r.connections == []
    ensures result.Some? ==> r == result.value
  {
    match result
    case None => ConnectionResponse([])
    case Some(v) => v
  }

  /** What the gated call yields for `outcome`: nothing when the gate was closed. */
  function GatedResult<T>(gateClosed: bool, outcome: Outcome<T>): (r: Option<T>)
    ensures gateClosed ==> r.None?
    ensures !gateClosed ==> r == ResultOf(outcome)
  {
    if gateClosed then None else ResultOf(outcome)
  }

  /** `newConnections(params)`: the model's answer, or an empty list. */
  method NewConnections(ai: AiRuntime, outcome: Outcome<ConnectionResponse>) returns (r: ConnectionResponse)
    modifies ai
    ensures r == ConnectionsOrEmpty(GatedResult(old(ai.GateClosed()), outcome))
    ensures !old(ai.GateClosed()) ==> !ai.isAiBusy
    ensures old(ai.GateClosed()) ==> ai.isAiBusy == old(ai.isAiBusy)
  {
    var result, _, _ := ai.ExecuteAITask(outcome);
    r := ConnectionsOrEmpty(result);
  }

  /** `newConnectionsLimited(params)`: as `newConnections`, with the relation list only in the prompt. */
  method NewConnectionsLimited(ai: AiRuntime, outcome: Outcome<ConnectionResponse>, relations: seq<string>) returns (r: ConnectionResponse)
    modifies ai
    ensures r == ConnectionsOrEmpty(GatedResult(old(ai.GateClosed()), outcome))
    ensures !old(ai.GateClosed()) ==> !ai.isAiBusy
    ensures old(ai.GateClosed()) ==> ai.isAiBusy == old(ai.isAiBusy)
  {
    var result, _, _ := ai.ExecuteAITask(outcome);
    r := ConnectionsOrEmpty(result);
  }

  /** The connections whose target is exactly one of `existing`, in their order. */
  function KeepExisting(conns: seq<Connection>, existing: seq<string>): (r: seq<Connection>)
    ensures forall c :: c in r <==> c in conns && c.target in existing
    ensures forall i :: 0 <= i < |r| ==> r[i].target in existing
    ensures IsSubsequence(r, conns)
    ensures |r| <= |conns|
  {
    if conns == [] then []
    else
      var rest := KeepExisting(conns[1..], existing);
      if conns[0].target in existing then
        assert ([conns[0]] + rest)[1..] == rest;
        [conns[0]] + rest
      else rest
  }

  /** Each surviving connection is kept as often as it occurs: the filter drops no repeats. */
  lemma {:induction false} KeepExistingMultiplicity(conns: seq<Connection>, existing: seq<string>)
    ensures forall c :: multiset(KeepExisting(conns, existing))[c] == if c.target in existing then multiset(conns)[c] else 0
    decreases |conns|
  {
    if conns != [] {
      KeepExistingMultiplicity(conns[1..], existing);
      assert conns == [conns[0]] + conns[1..];
    }
  }

  /** `findExistingConnections(params)`: the answer with its non-existing targets dropped, or an empty list. */
  method FindExistingConnections(ai: AiRuntime, outcome: Outcome<ConnectionResponse>, existing: seq<string>) returns (r: ConnectionResponse)
    modifies ai
    ensures var res := GatedResult(old(ai.GateClosed()), outcome);
      && (res.None? ==> r.connections == [])
      && (res.Some? ==> r.connections == KeepExisting(res.value.connections, existing))
    ensures !old(ai.GateClosed()) ==> !ai.isAiBusy
  {
    var result, _, _ := ai.ExecuteAITask(outcome);
    if result.None? {
      return ConnectionResponse([]);
    }
    r := result.value;
    r := r.(connections := KeepExisting(r.connections, existing));
  }

  /** The aspect map of a score list: each score in turn overwrites its aspect's entry. */
  function AspectsOf(scores: seq<AspectRating>): map<string, real>
    decreases |scores|
  {
    if scores == [] then map[]
    else
      var n := |scores| - 1;
      AspectsOf(scores[..n])[scores[n].aspect := scores[n].rating]
  }

  /**
   * The map has exactly one key per aspect named in the scores, and each key
   * holds the rating of the last score with that name.
   */
  lemma {:induction false} AspectsOfLastWins(scores: seq<AspectRating>, name: string)
    ensures name in AspectsOf(scores) <==> exists i :: 0 <= i < |scores| && scores[i].aspect == name
    ensures name in AspectsOf(scores) ==>
      exists j :: 0 <= j < |scores| && scores[j].aspect == name && AspectsOf(scores)[name] == scores[j].rating
        && forall i :: j < i < |scores| ==> scores[i].aspect != name
    decreases |scores|
  {
    if scores != [] {
      var n := |scores| - 1;
      var pre := scores[..n];
      AspectsOfLastWins(pre, name);
      if scores[n].aspect == name {
        assert AspectsOf(scores)[name] == scores[n].rating;
      } else {
        if exists i :: 0 <= i < |scores| && scores[i].aspect == name {
          var i :| 0 <= i < |scores| && scores[i].aspect == name;
          assert pre[i].aspect == name;
        }
        if name in AspectsOf(scores) {
          var j :| 0 <= j < |pre| && pre[j].aspect == name && AspectsOf(pre)[name] == pre[j].rating
            && forall i :: j < i < |pre| ==> pre[i].aspect != name;
          assert scores[j] == pre[j];
          forall i | j < i < |scores| ensures scores[i].aspect != name {
            if i < n { assert scores[i] == pre[i]; }
          }
        }
      }
    }
  }

  /** The `forEach` that fills `aspects`; a score list that is not an array gives `{}`. */
  method BuildAspects(scores: Option<seq<AspectRating>>) returns (aspects: map<string, real>)
    ensures scores.None? ==> aspects == map[]
    ensures scores.Some? ==> aspects == AspectsOf(scores.value)
  {
    aspects := map[];
    if scores.Some? {
      var s := scores.value;
      var i := 0;
      while i < |s|
        invariant 0 <= i <= |s|
        invariant aspects == AspectsOf(s[..i])
      {
        aspects := aspects[s[i].aspect := s[i].rating];
        i := i + 1;
        assert s[..i][..i - 1] == s[..i - 1];
      }
      assert s[..i] == s;
    }
  }

  /** The mojibake literal the source falls back to: U+00E2 U+2014 U+00BE. */
  const FallbackEmoji: string := "â—¾"

  /** The characters of `input` the pictographic test accepts, in order. */
  function Pictographs(input: string, isPictographic: char -> bool): (p: string)
    ensures forall i :: 0 <= i < |p| ==> isPictographic(p[i])
    ensures forall c :: c in p <==> c in input && isPictographic(c)
    ensures IsSubsequence(p, input)
    ensures forall c :: multiset(p)[c] == if isPictographic(c) then multiset(input)[c] else 0
  {
    if input == [] then []
    else
      var rest := Pictographs(input[1..], isPictographic);
      assert input == [input[0]] + input[1..];
      if isPictographic(input[0]) then
        assert ([input[0]] + rest)[1..] == rest;
        [input[0]] + rest
      else rest
  }

  /**
   * `extractEmojis(input)`, with the `Extended_Pictographic` property as a
   * parameter: the first at most three pictographic characters, in order, or
   * the fallback when there is none.
   */
  function ExtractEmojis(input: string, isPictographic: char -> bool): (r: string)
    ensures (forall i :: 0 <= i < |input| ==> !isPictographic(input[i])) ==> r == FallbackEmoji
    ensures (exists i :: 0 <= i < |input| && isPictographic(input[i])) ==>
      && 1 <= |r| <= 3
      && |r| == (if |Pictographs(input, isPictographic)| < 3 then |Pictographs(input, isPictographic)| else 3)
      && r == Pictographs(input, isPictographic)[..|r|]
      && (forall i :: 0 <= i < |r| ==> isPictographic(r[i]))
      && IsSubsequence(r, input)
  {
    var p := Pictographs(input, isPictographic);
    if p == [] then
      FallbackEmoji
    else
      var k := if |p| < 3 then |p| else 3;
      SubsequencePrefix(p, input, k);
      p[..k]
  }

  /** `describeNode(label, aspectList, config)`. */
  method DescribeNode(ai: AiRuntime, outcome: Outcome<NodeAnswer>, isPictographic: char -> bool) returns (r: Option<Description>)
    modifies ai
    ensures var res := GatedResult(old(ai.GateClosed()), outcome);
      && (r.None? <==> res.None?)
      && (r.Some? ==>
            && r.value.description == res.value.description
            && r.value.aspects == (if res.value.scores.Some? then AspectsOf(res.value.scores.value) else map[])
            && r.value.emoji == ExtractEmojis(res.value.emoji, isPictographic))
    ensures !old(ai.GateClosed()) ==> !ai.isAiBusy
  {
    var result, _, _ := ai.ExecuteAITask(outcome);
    if result.None? {
      return None;
    }
    var aspects := BuildAspects(result.value.scores);
    r := Some(Description(result.value.description, aspects, ExtractEmojis(result.value.emoji, isPictographic)));
  }
}
