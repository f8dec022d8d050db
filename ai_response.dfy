/**
 * Turning a validated connection list into a graph patch, and the short random
 * ids it mints (server/ai/response.ts). The random bytes are a parameter.
 */
module AiResponse {
  import opened Wrappers
  import opened GraphTypes
  import opened JsonPatch

  type Byte = x: int | 0 <= x < 256

  /** The URL- and filename-safe alphabet of section 5 of RFC 4648. */
  const Base64UrlAlphabet: string := "ABCDEFGHIJKLMNOPQRSTUVWXYZabcdefghijklmnopqrstuvwxyz0123456789-_"

  function Sextet(v: int): (c: char)
    requires 0 <= v < 64
    ensures c in Base64UrlAlphabet
  {
    Base64UrlAlphabet[v]
  }

  predicate InAlphabet(s: string) {
    forall i :: 0 <= i < |s| ==> s[i] in Base64UrlAlphabet
  }

  /** Four characters per group of three bytes; a final group of one or two bytes gives two or three, unpadded. */
  function Base64UrlEncode(bytes: seq<Byte>): (s: string)
    ensures |s| == (4 * |bytes| + 2) / 3
    ensures InAlphabet(s)
    decreases |bytes|
  {
    if |bytes| == 0 then ""
    else if |bytes| == 1 then
      [Sextet(bytes[0] / 4), Sextet((bytes[0] % 4) * 16)]
    else if |bytes| == 2 then
      [Sextet(bytes[0] / 4), Sextet((bytes[0] % 4) * 16 + bytes[1] / 16), Sextet((bytes[1] % 16) * 4)]
    else
      [Sextet(bytes[0] / 4), Sextet((bytes[0] % 4) * 16 + bytes[1] / 16),
       Sextet((bytes[1] % 16) * 4 + bytes[2] / 64), Sextet(bytes[2] % 64)]
      + Base64UrlEncode(bytes[3..])
  }

  /** `Math.ceil((length * 3) / 4)`. */
  function BytesLen(length: nat): (n: nat)
    ensures 4 * n >= 3 * length && 4 * n < 3 * length + 4
  {
    (3 * length + 3) / 4
  }

  /** The encoding of `BytesLen(length)` bytes has at least `length` characters, so the slice keeps exactly `length`. */
  lemma EncodedLongEnough(length: nat)
    ensures (4 * BytesLen(length) + 2) / 3 >= length
  {
  }

  /**
   * `shortRandomHash(length)`, with `bytes` standing for the buffer that
   * `crypto.getRandomValues` fills.
   */
  function ShortRandomHash(length: nat, bytes: seq<Byte>): (r: string)
    requires |bytes| == BytesLen(length)
    ensures |r| == length
    ensures InAlphabet(r)
  {
    EncodedLongEnough(length);
    Base64UrlEncode(bytes)[..length]
  }

  /** The default length of `shortRandomHash()`. */
  const HashLength: nat := 8

  /** One validated connection: `{ target, relation }`. */
  datatype Connection = Connection(target: string, relation: Relation)

  /** The node made for a connection: labelled by its target, accepted, concept, `val` 1, no aspects. */
  function ConnectionNode(id: string, c: Connection): Node {
    Node(id, c.target, Accepted, Concept, 1, map[], None, None)
  }

  function ConnectionLink(rootId: string, nodeId: string, linkId: string, c: Connection): Link {
    Link(rootId, nodeId, Ai, Some(c.relation.Name()), Some(linkId))
  }

  /** The random buffers of one connection's two hashes: the node id's, then the link id's. */
  datatype HashBytes = HashBytes(forNode: seq<Byte>, forLink: seq<Byte>)

  /** The two ids of one connection: its node's and its link's. */
  datatype MintedIds = MintedIds(nodeId: string, linkId: string)

  /** The ids the two `shortRandomHash()` calls of one iteration draw from their buffers. */
  function Mint(b: HashBytes): MintedIds
    requires |b.forNode| == BytesLen(HashLength) && |b.forLink| == BytesLen(HashLength)
  {
    MintedIds(ShortRandomHash(HashLength, b.forNode), ShortRandomHash(HashLength, b.forLink))
  }

  /** Both minted ids are eight base64url characters. */
  lemma MintShape(b: HashBytes)
    requires |b.forNode| == BytesLen(HashLength) && |b.forLink| == BytesLen(HashLength)
    ensures |Mint(b).nodeId| == HashLength && InAlphabet(Mint(b).nodeId)
    ensures |Mint(b).linkId| == HashLength && InAlphabet(Mint(b).linkId)
  {
  }

  /** The node add a connection with minted ids `m` becomes. */
  function NodeOp(c: Connection, m: MintedIds): Op {
    AddNode(m.nodeId, ConnectionNode(m.nodeId, c))
  }

  /** The link add a connection with minted ids `m` becomes. */
  function LinkOp(rootId: string, c: Connection, m: MintedIds, token: string): Op {
    AddLink(token, ConnectionLink(rootId, m.nodeId, m.linkId, c))
  }

  function ConnectionNodes(conns: seq<Connection>, ids: seq<MintedIds>): (ns: seq<Node>)
    requires |ids| == |conns|
    ensures |ns| == |conns|
    ensures forall k :: 0 <= k < |ns| ==> ns[k] == ConnectionNode(ids[k].nodeId, conns[k])
  {
    seq(|conns|, k requires 0 <= k < |conns| => ConnectionNode(ids[k].nodeId, conns[k]))
  }

  function ConnectionLinks(rootId: string, conns: seq<Connection>, ids: seq<MintedIds>): (ls: seq<Link>)
    requires |ids| == |conns|
    ensures |ls| == |conns|
    ensures forall k :: 0 <= k < |ls| ==> ls[k] == ConnectionLink(rootId, ids[k].nodeId, ids[k].linkId, conns[k])
  {
    seq(|conns|, k requires 0 <= k < |conns| => ConnectionLink(rootId, ids[k].nodeId, ids[k].linkId, conns[k]))
  }

  /** The patch for a connection list whose minted ids are `ids`, with the link array token `token`. */
  function ConnectionOps(rootId: string, conns: seq<Connection>, ids: seq<MintedIds>, token: string): seq<Op>
    requires |ids| == |conns|
  {
    PairOps(ConnectionNodes(conns, ids), ConnectionLinks(rootId, conns, ids), token)
  }

  /** The reference token the loop writes: the path is `/links/`, whose last token is empty. */
  const WrittenLinkToken: string := ""

  /**
   * `aiListToGraphPatch(rootId, state, input)` as written, with `connections`
   * for `input.connections` (absent when `None`) and `ids[k]` for the two
   * `shortRandomHash()` results of the k-th connection. The state is not
   * consulted: the result is a function of the root id, the list and the ids.
   */
  method AiListToGraphPatch(rootId: string, g: GraphState, connections: Option<seq<Connection>>, ids: seq<MintedIds>)
    returns (ops: seq<Op>)
    requires |ids| == |connections.GetOr([])|
    ensures ops == ConnectionOps(rootId, connections.GetOr([]), ids, WrittenLinkToken)
    ensures |ops| == 2 * |connections.GetOr([])|
    ensures connections.None? ==> ops == []
  {
    var conns := connections.GetOr([]);
    ops := AppendConnectionOps(rootId, conns, ids, WrittenLinkToken);
  }

  /** `aiListToGraphPatch` with the link path `/links/-`. */
  method AiListToGraphPatchFixed(rootId: string, g: GraphState, connections: Option<seq<Connection>>, ids: seq<MintedIds>)
    returns (ops: seq<Op>)
    requires |ids| == |connections.GetOr([])|
    ensures ops == ConnectionOps(rootId, connections.GetOr([]), ids, AppendToken)
    ensures |ops| == 2 * |connections.GetOr([])|
    ensures connections.None? ==> ops == []
  {
    var conns := connections.GetOr([]);
    ops := AppendConnectionOps(rootId, conns, ids, AppendToken);
  }

  /**
   * The `for (const n of …)` loop: per connection, take its node id and link
   * id, then push the node add and the link add.
   */
  method AppendConnectionOps(rootId: string, conns: seq<Connection>, ids: seq<MintedIds>, token: string)
    returns (ops: seq<Op>)
    requires |ids| == |conns|
    ensures ops == ConnectionOps(rootId, conns, ids, token)
    ensures |ops| == 2 * |conns|
    ensures forall k :: 0 <= k < |conns| ==> ops[2 * k] == NodeOp(conns[k], ids[k]) && ops[2 * k + 1] == LinkOp(rootId, conns[k], ids[k], token)
  {
    ops := [];
    var i := 0;
    while i < |conns|
      invariant 0 <= i <= |conns|
      invariant |ops| == 2 * i
      invariant forall k :: 0 <= k < i ==> ops[2 * k] == NodeOp(conns[k], ids[k])
      invariant forall k :: 0 <= k < i ==> ops[2 * k + 1] == LinkOp(rootId, conns[k], ids[k], token)
    {
      var n := conns[i];
      var nodeId := ids[i].nodeId;
      var graphNode := ConnectionNode(nodeId, n);
      var linkId := ids[i].linkId;
      var graphLink := ConnectionLink(rootId, nodeId, linkId, n);
      ops := ops + [AddNode(nodeId, graphNode)];
      ops := ops + [AddLink(token, graphLink)];
      i := i + 1;
    }
    var ns, ls := ConnectionNodes(conns, ids), ConnectionLinks(rootId, conns, ids);
    forall k | 0 <= k < |ns| ensures ops[2 * k] == AddNode(ns[k].id, ns[k]) && ops[2 * k + 1] == AddLink(token, ls[k]) {
      assert ns[k] == ConnectionNode(ids[k].nodeId, conns[k]);
      assert ls[k] == ConnectionLink(rootId, ids[k].nodeId, ids[k].linkId, conns[k]);
    }
    PairOpsPointwise(ns, ls, token, ops);
  }

  /** As written, a non-empty connection list gives a patch that fails as a whole. */
  lemma WrittenPatchRejected(g: GraphState, rootId: string, conns: seq<Connection>, ids: seq<MintedIds>)
    requires |ids| == |conns| > 0
    ensures Apply(g, ConnectionOps(rootId, conns, ids, WrittenLinkToken)) == None
  {
    PairOpsBadTokenFails(g, ConnectionNodes(conns, ids), ConnectionLinks(rootId, conns, ids), WrittenLinkToken);
  }

  /**
   * With `/links/-`, the patch applies to any state: each connection's link
   * from the root is appended in order, and when the minted node ids are
   * distinct and new, each connection's node is added under its id and the old
   * ones are kept.
   */
  lemma FixedPatchApplied(g: GraphState, rootId: string, conns: seq<Connection>, ids: seq<MintedIds>)
    requires |ids| == |conns|
    ensures Apply(g, ConnectionOps(rootId, conns, ids, AppendToken)).Some?
    ensures var h := Apply(g, ConnectionOps(rootId, conns, ids, AppendToken)).value;
      && h.links == g.links + ConnectionLinks(rootId, conns, ids)
      && h.focusNodeId == g.focusNodeId && h.thinkingNodeId == g.thinkingNodeId && h.settings == g.settings
      && (g.Valid() ==> h.Valid())
      && (FreshIds(g, Ids(ConnectionNodes(conns, ids))) ==>
            && (forall k :: 0 <= k < |conns| ==>
                  ids[k].nodeId in h.nodes && h.nodes[ids[k].nodeId] == ConnectionNode(ids[k].nodeId, conns[k]))
            && (forall x :: x in g.nodes ==> x in h.nodes && h.nodes[x] == g.nodes[x]))
  {
    var ns := ConnectionNodes(conns, ids);
    PairOpsApplied(g, ns, ConnectionLinks(rootId, conns, ids));
    assert forall k :: 0 <= k < |conns| ==> ns[k].id == ids[k].nodeId;
  }
}
