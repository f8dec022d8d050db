/**
 * The knowledge graph's data model: nodes, links, settings, user tasks and the
 * graph state (src/types/graph.ts), and the closed relation vocabulary
 * (server/ai/schemas.ts).
 */
module GraphTypes {
  import opened Wrappers

  datatype NodeStatus = Proposed | Accepted | Forbidden

  datatype NodeType = Root | Concept

  datatype LinkType = User | Ai | Bridge

  /** The eleven relation kinds the model may answer with (`Relations.all`). */
  datatype Relation =
    | SubclassOf
    | PartOf | HasPart
    | Causes | Enables | DependsOn
    | PrecededBy | SuccededBy
    | IncompatibleWith | SimilarTo | OppositeOf
  {
    /** The relation's wire name, spelled as in the schema. */
    function Name(): string {
      match this
      case SubclassOf => "subclass_of"
      case PartOf => "part_of"
      case HasPart => "has_part"
      case Causes => "causes"
      case Enables => "enables"
      case DependsOn => "depends_on"
      case PrecededBy => "preceded_by"
      case SuccededBy => "succeded_by"
      case IncompatibleWith => "incompatible_with"
      case SimilarTo => "similar_to"
      case OppositeOf => "opposite_of"
    }
  }

  datatype TaskKind = Describe | ExploreNew | ExploreExisting | ExploreLimited | GenerateName

  /** The only in-flight marker the handlers write: `'queued'`. */
  datatype TaskMark = Queued

  datatype TaskParams = NoParams | RelationParams(relations: Option<seq<Relation>>)

  /** An entry of the user task queue: `{ type, nodeId, params? }`. */
  datatype Task = Task(kind: TaskKind, nodeId: string, params: TaskParams)

  /**
   * A graph node. Aspect ratings are floating-point numbers in the source; they
   * are carried as `real` and never computed with.
   */
  datatype Node = Node(
    id: string,
    labelText: string,   // `label` (a reserved word in Dafny)
    status: NodeStatus,
    ntype: NodeType,
    val: int,
    aspects: map<string, real>,
    description: Option<string>,
    tasks: Option<map<TaskKind, TaskMark>>)

  datatype Link = Link(
    source: string,
    target: string,
    ltype: LinkType,
    relationType: Option<string>,
    id: Option<string>)

  /** `settings`; `allowedRelations` is read by the handlers but not declared in the type. */
  datatype Settings = Settings(
    creativity: real,
    maxWords: int,
    minConnections: int,
    autoExplore: bool,
    definedAspects: Option<seq<string>>,
    activeAspects: Option<seq<string>>,
    allowedRelations: Option<seq<Relation>>)

  predicate Distinct<T(==)>(s: seq<T>) {
    forall i, j :: 0 <= i < j < |s| ==> s[i] != s[j]
  }

  /** `a` is `b` with some elements left out, the rest in their order. */
  ghost predicate IsSubsequence<T>(a: seq<T>, b: seq<T>)
    decreases |b|
  {
    if a == [] then true
    else if b == [] then false
    else (a[0] == b[0] && IsSubsequence(a[1..], b[1..])) || IsSubsequence(a, b[1..])
  }

  /** A prefix of a subsequence is a subsequence. */
  lemma {:induction false} SubsequencePrefix<T>(a: seq<T>, b: seq<T>, k: nat)
    requires IsSubsequence(a, b) && k <= |a|
    ensures IsSubsequence(a[..k], b)
    decreases |b|
  {
    if k > 0 {
      assert a != [] && b != [];
      assert a[..k][0] == a[0];
      if a[0] == b[0] && IsSubsequence(a[1..], b[1..]) {
        SubsequencePrefix(a[1..], b[1..], k - 1);
        assert a[..k][1..] == a[1..][..k - 1];
      } else {
        SubsequencePrefix(a, b[1..], k);
      }
    } else {
      assert a[..k] == [];
    }
  }

  /** The elements of `s` other than `x`, in their order. */
  function Without<T(==,!new)>(s: seq<T>, x: T): (r: seq<T>)
    ensures forall y :: y in r <==> y in s && y != x
    ensures Distinct(s) ==> Distinct(r)
    ensures x !in s ==> r == s
    ensures IsSubsequence(r, s)
    ensures forall y :: multiset(r)[y] == if y == x then 0 else multiset(s)[y]
  {
    if s == [] then []
    else
      var rest := Without(s[1..], x);
      assert s == [s[0]] + s[1..];
      assert Distinct(s) ==> s[0] !in s[1..] && Distinct(s[1..]) by {
        if Distinct(s) {
          forall i | 0 <= i < |s[1..]| ensures s[1..][i] != s[0] {
            assert s[1..][i] == s[i + 1];
          }
        }
      }
      if s[0] == x then rest
      else
        assert ([s[0]] + rest)[1..] == rest;
        [s[0]] + rest
  }

  /**
   * The whole graph state. `nodes` is a JavaScript object, so besides the map
   * from id to node the model keeps `order`, the keys in insertion order. That
   * is the order `Object.values` lists them in as long as no id is an array
   * index (a canonical decimal below 2^32 - 1), which JavaScript lists first. `userQueue` and `tasks` are
   * optional: the handlers use them, but a default state does not have them.
   */
  datatype GraphState = GraphState(
    nodes: map<string, Node>,
    order: seq<string>,
    links: seq<Link>,
    focusNodeId: Option<string>,
    thinkingNodeId: Option<string>,
    settings: Settings,
    userQueue: Option<seq<Task>>,
    tasks: Option<map<TaskKind, TaskMark>>)
  {
    /** `order` lists each key once, and each node is stored under its own id. */
    ghost predicate Valid() {
      && Distinct(order)
      && (forall k :: k in nodes <==> k in order)
      && (forall k :: k in nodes ==> nodes[k].id == k)
    }

    /** `Object.values(state.nodes)`. */
    function Values(): (vs: seq<Node>)
      requires Valid()
      ensures |vs| == |order|
      ensures forall i :: 0 <= i < |order| ==> vs[i] == nodes[order[i]]
    {
      seq(|order|, i requires 0 <= i < |order| => nodes[order[i]])
    }
  }
}
