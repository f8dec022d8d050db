# semantic_brain core, modelled in Dafny

This project models the sequential core of semantic_brain, a knowledge-graph explorer. The graph's nodes are concepts and its links are relations; a local language model proposes new concepts around a node, and the user accepts or forbids them. A second part scans a TypeScript/Vue code base into a graph of files, then marks its islands and import cycles.

Modules:

- `GraphTypes` (`graph_types.dfy`): the data model. Nodes, links, settings, user tasks, the eleven relation kinds, and the graph state. The state is an ordered dictionary: a map from id to node, plus the insertion order of the keys. `Object.values` lists the keys in that order as long as no id is an array index (see "## Left out").
- `JsonPatch` (`json_patch.dfy`): the JSON Patch operations (RFC 6902) the server emits, and their effect. `add` is section 4.1, `remove` section 4.2, `replace` section 4.3. The `-` append token is section 4 of RFC 6901.
- `State` (`state.ts`): the default state, the reset on load, the functions that describe an edit as patch operations, and the live state object mutated in place.
- `AiCore`, `AiResponse`, `AiMethods` (`ai/core.ts`, `ai/response.ts`, `ai/methods.ts`): the single-flight busy gate around a model call, with the model as an oracle. Also the patch built from a connection list, the short random ids (base64url), and the post-processing of connections, aspect ratings and emojis.
- `AutoExplore` (`auto-explore.ts`): one iteration of the background explorer.
- `WsHandlers` (`ws-handlers.ts`): the websocket message handler, as a state machine over a closed message type.
- `History` (`src/stores/history.ts`): the most-recently-used list of graph paths.
- `Reach`: undirected connectivity (walks over a vertex set and an edge list).
- `GraphScanner`, `GraphCycles`, `CycleMarks` (`graph-scanner.ts`): adding nodes, Vue template links, the incoming-count size bump, and islands by breadth-first search. Cycle marking uses Tarjan's strongly connected components.
- `GraphStore` (`src/stores/graphStore.ts`): the client's island representatives.

Randomness, clocks and the model's answers become parameters: fresh ids, random byte buffers, oracle outcomes and suggestion lists.

Two places where the code is followed rather than its declared types:

- `createDefaultState` builds no `userQueue`, yet the handler pushes onto `state.userQueue`. On such a state every queueing message throws at the push, before changing anything, and `createWSMessageHandler` swallows the error. `WsHandlers.Handle` models exactly that.
- `NEW_GRAPH` calls `createDefaultState("Untitled Graph")` with an argument the function does not take. The model ignores it.

## Model

| member | source | states |
|---|---|---|
| GraphTypes.Without | src/stores/history.ts:11 | The filter keeps exactly the elements different from `x`, each as often as it occurs, in their order; it keeps distinctness and is the identity when `x` is absent |
| GraphTypes.GraphState.Values | src/stores/graphStore.ts:29 | `Object.values(nodes)` lists one node per key, the i-th being the node stored under the i-th key in insertion order (ids that are not array indices) |
| JsonPatch.ApplyConcat | server/state.ts:32-37 | Applying `a + b` is applying `a`, then `b`, failing if either fails |
| JsonPatch.ApplyValid | server/state.ts:32-37 | A patch that applies, and whose node adds store each node under its own id, keeps keys and order in step |
| JsonPatch.RemoveMissingFails | server/state.ts:75 | Removing a node member that is not there fails (section 4.2 of RFC 6902) |
| JsonPatch.ReplaceThinkingApplied | server/auto-explore.ts:65-67 | Replacing `/thinkingNodeId` always succeeds and changes nothing but the pointer |
| JsonPatch.PairOpsApplied | server/state.ts:93-117 | A node-then-appended-link patch always applies. The links grow by exactly the given links, in order; pointers, settings and queues are untouched; the keys grow by the node ids. With fresh distinct ids, the nodes are added in key order and the old ones are kept |
| JsonPatch.PairOpsBadTokenFails | server/ai/response.ts:48 | A pair patch whose link token is neither `-` nor an array index fails as a whole as soon as there is one pair |
| State.CreateDefaultState | server/state.ts:4-19 | No nodes or links, null focus and thinking pointers, minConnections 3, maxWords 3, autoExplore off, the aspects Technical/Emotional/Practical, no active aspects, no queue; the state is well formed |
| State.InitializeLoadedState | server/state.ts:21-30 | The thinking pointer is cleared, aspect lists are filled in only when missing, and present lists, nodes, links and every other field are kept |
| State.GraphStore.InitializeLoaded | server/state.ts:21-30 | The in-place reset leaves the state `InitializeLoadedState` computes |
| State.ClearedGraph | server/state.ts:80-85 | Nodes and links are emptied, both pointers nulled, and settings and queues kept |
| State.GraphStore.ClearGraph | server/state.ts:80-85 | The in-place clear leaves the state `ClearedGraph` computes |
| State.GraphStore.ApplyPatches | server/state.ts:32-37 | The state becomes the patched value exactly when the patch applies |
| State.AddNodeToState | server/state.ts:39-68 | First op adds an accepted node with the label under the fresh id. It is a root with val 5 iff the state had no nodes, otherwise a concept with val 3. A user link op from the parent exists iff a parent is given, a focus op iff the node is the first; op count 1 + [parent] + [first] |
| State.AddNodeApplied | server/state.ts:39-68 | For a fresh id the ops apply: the node is added last in key order, the parent link appended, the focus moved only for a first node, all else kept |
| State.LinksAvoiding | server/state.ts:71-73 | The kept links are exactly those touching neither end of the node, each kept as often as it occurs, as an order-preserving subsequence |
| State.DeleteNodeFromState | server/state.ts:70-78 | Exactly a remove of the node, then a replace of the links by the links avoiding it: each such link as often as it occurs, in order, and no other |
| State.DeleteNodeApplied | server/state.ts:70-78 | On an existing node the ops apply: the node's key is gone from the map and the order, the links become exactly those avoiding it (with their repeats, in order), other nodes, both pointers, settings and queues are kept |
| State.DeleteMissingFails | server/state.ts:75 | On a missing node the delete ops fail |
| State.AddAIGeneratedNodes | server/state.ts:87-119 | Two ops per suggestion, in order: a proposed concept node with val 2 and aspects defaulting to `{}`, then an appended `ai` link from the target carrying the suggestion's relation |
| State.AiNodeOpsApplied | server/state.ts:87-119 | The suggestion ops always apply: links appended in order, pointers and settings kept, the new nodes added under fresh ids, old nodes kept, well-formedness preserved |
| AiCore.ResultOf | server/ai/core.ts:43-54 | Data is handed back only when it validated; a validation failure or a throw gives `null` |
| AiCore.AiRuntime.ExecuteAITask | server/ai/core.ts:15-58 | A closed gate (no session, busy, or no llama) returns `null` and leaves the flag. Otherwise the flag is held during the call and false on every exit, and the result is the validated data or `null` |
| AiMethods.ConnectionsOrEmpty | server/ai/methods.ts:35 | A null result becomes `{connections: []}`, any other is passed through |
| AiMethods.NewConnections | server/ai/methods.ts:20-36 | The answer, or an empty list when the gated call yields nothing; the flag is released after an admitted call |
| AiMethods.NewConnectionsLimited | server/ai/methods.ts:38-54 | As `newConnections`: the answer or an empty list |
| AiMethods.KeepExisting | server/ai/methods.ts:78 | Survivors are exactly the connections whose target is one of the existing names (exact match), in their order |
| AiMethods.KeepExistingMultiplicity | server/ai/methods.ts:78 | Each surviving connection is kept as often as it occurs in the answer; the others not at all |
| AiMethods.FindExistingConnections | server/ai/methods.ts:62-81 | An empty list on null; otherwise the answer's connections filtered to existing targets |
| AiMethods.AspectsOfLastWins | server/ai/methods.ts:100-105 | The aspect map has one key per scored aspect, holding the rating of the last score with that name |
| AiMethods.BuildAspects | server/ai/methods.ts:100-105 | The `forEach` fills the map `AspectsOf` describes; non-array scores give `{}` |
| AiMethods.Pictographs | server/ai/methods.ts:115-116 | The matches are exactly the pictographic characters of the input, each as often as it occurs, in order |
| AiMethods.ExtractEmojis | server/ai/methods.ts:114-118 | The fallback literal when nothing matches; otherwise the first min(3, matches) pictographic characters in order, a subsequence of the input |
| AiMethods.DescribeNode | server/ai/methods.ts:83-112 | `null` exactly when the gated call yields nothing; otherwise the description unchanged, the aspect map of the scores and the extracted emojis |
| AiResponse.Base64UrlEncode | server/ai/response.ts:10 | Unpadded base64url of n bytes has ceil(4n/3) characters, all from the alphabet of section 5 of RFC 4648 |
| AiResponse.BytesLen | server/ai/response.ts:6 | `Math.ceil(length * 3 / 4)`: the least n with 4n >= 3 * length |
| AiResponse.ShortRandomHash | server/ai/response.ts:5-11 | Exactly `length` base64url characters |
| AiResponse.AppendConnectionOps | server/ai/response.ts:25-49 | Two ops per connection in input order: the node add, then the link add at the given token |
| AiResponse.AiListToGraphPatch | server/ai/response.ts:16-52 | As written, with link path `/links/`. Two ops per connection: an accepted concept node with val 1, labelled by the target, and an `ai` link from the root with the relation. No ops when `connections` is missing; the state is never read |
| AiResponse.WrittenPatchRejected | server/ai/response.ts:48 | As written, a non-empty connection list gives a patch that fails as a whole |
| AiResponse.AiListToGraphPatchFixed | server/ai/response.ts:16-52 | The same patch with link path `/links/-` |
| AiResponse.FixedPatchApplied | server/ai/response.ts:25-49 | With `/links/-`, the patch always applies. Each link from the root is appended in order; with fresh distinct ids each connection's node is added and the old ones kept |
| AutoExplore.Incident | server/auto-explore.ts:43-45 | The filter keeps exactly the links with the node at either end, in order |
| AutoExplore.IncidentMultiplicity | server/auto-explore.ts:43-46 | Each link touching the node is kept as often as it occurs, so repeated links all count towards `minConnections` |
| AutoExplore.FocusTarget | server/auto-explore.ts:40-50 | The focus node is chosen iff the pointer is set and non-empty, names an existing node, that node is accepted or autoExplore is on, and it has fewer incident links than minConnections |
| AutoExplore.FirstNeeding | server/auto-explore.ts:54-59 | `find` yields the first node needing connections, and nothing only when none does |
| AutoExplore.NoTargetWhenOff | server/auto-explore.ts:53-62 | Without a usable focus and with autoExplore off, there is no target |
| AutoExplore.FallbackTarget | server/auto-explore.ts:53-60 | With autoExplore on and no usable focus, the target is the first node in key order, of any status, that needs connections; none only when no node does |
| AutoExplore.TargetNeedsConnections | server/auto-explore.ts:37-62 | Any chosen target is a stored node that needs connections |
| AutoExplore.ForbiddenLabels | server/auto-explore.ts:71-73 | The list holds exactly the lowercased labels of the forbidden-status nodes; one node gives its own label iff it is forbidden |
| AutoExplore.ForbiddenLabelsConcat | server/auto-explore.ts:71-73 | The labels of a concatenation are the labels of each part, concatenated: one label per forbidden node, in node order |
| AutoExplore.AfterIterationEffect | server/auto-explore.ts:83-95 | After an iteration the thinking pointer is null and focus and settings are kept. Nodes and links change only when there were suggestions; then the links from the target are appended and the new nodes are proposed |
| AutoExplore.RunAutoExploreIteration | server/auto-explore.ts:32-96 | Busy, no model or no target: nothing changes, nothing is broadcast or saved. Otherwise the model is asked with the target's label, the forbidden labels, the aspects and the creativity, while the thinking pointer names the target. Two broadcasts (set, then clear), then a third, the merge, only when suggestions are non-empty; a save exactly when they are non-empty |
| AutoExplore.Dispatch | server/auto-explore.ts:64-95 | The dispatched part: thinking pointer set, request built, pointer cleared, suggestions merged only when non-empty |
| AutoExplore.BeginIteration | server/auto-explore.ts:64-81 | Up to the `brainstorm` await: the thinking pointer is set to the target and nothing else changes; the request carries the target's label, the forbidden labels, the aspects and the creativity of the state at that moment; one broadcast of the set |
| AutoExplore.FinishIteration | server/auto-explore.ts:83-95 | After the await, on whatever state the store holds by then: the pointer is cleared and the suggestions merged under the target (`AfterIteration` of that state); one broadcast of the clear, a second of the merge and a save exactly when suggestions are non-empty |
| WsHandlers.Merge | server/ws-handlers.ts:83 | `Object.assign` overwrites exactly the supplied keys and keeps the others |
| WsHandlers.MergeIdempotent | server/ws-handlers.ts:83 | Merging an update twice is merging it once |
| WsHandlers.GraphName | server/ws-handlers.ts:52 | The given name when non-empty, else "Untitled" |
| WsHandlers.MarkQueued | server/ws-handlers.ts:150-151 | The kind is marked queued, the map is created when missing, and other kinds are kept |
| WsHandlers.StatusMessages | server/ws-handlers.ts:92-108 | ACCEPT_NODE / FORBID_NODE on an existing id change only that node's status and sync; on an unknown id nothing changes and nothing syncs |
| WsHandlers.QueueAppend | server/ws-handlers.ts:146-188 | With a queue, each queueing message appends exactly one task at the end, whether or not the node exists, and syncs; links, keys, pointers and settings are kept |
| WsHandlers.QueuedTaskShape | server/ws-handlers.ts:70-188 | The task kinds; EXPLORE_NEW carries the settings' allowedRelations, EXPLORE_LIMITED the message's relations, GENERATE_NAME an empty node id |
| WsHandlers.NodeMarker | server/ws-handlers.ts:148-185 | The named node, when it exists, gets its task map replaced by `MarkQueued` of it: the kind is queued, the map created if needed, its other kinds kept; nothing else of the node changes; other nodes and the graph-level tasks are kept |
| WsHandlers.GenerateNameMarker | server/ws-handlers.ts:70-75 | GENERATE_GRAPH_NAME sets the graph-level task map to `MarkQueued` of the old one: GENERATE_NAME queued, the map created when absent, every other kind kept with its mark; the nodes are left |
| WsHandlers.QueueMissingThrows | server/ws-handlers.ts:192-200 | Without a queue, a queueing message throws before any change: nothing happens |
| WsHandlers.FocusAndSettings | server/ws-handlers.ts:77-85 | SET_FOCUS stores the id unchecked; UPDATE_SETTINGS changes only the settings |
| WsHandlers.DiscardedAndUnknown | server/ws-handlers.ts:47-113 | ADD_NODE and DELETE_NODE discard the ops they compute, so the state is unchanged. LIST_GRAPHS, NEW_GRAPH, LOAD_GRAPH and the model messages leave this state too: a new graph goes to `setGraph` as an effect. Unknown messages do nothing at all |
| WsHandlers.BusyModelMessages | server/ws-handlers.ts:121-134 | While the model is busy, LOAD/UNLOAD_AI_MODEL do nothing |
| WsHandlers.HandleValid | server/ws-handlers.ts:46-189 | No message breaks the state's consistency |
| WsHandlers.HandleMessage | server/ws-handlers.ts:39-190 | The in-place handler leaves the state and effects `Handle` describes |
| WsHandlers.QueueTask | server/ws-handlers.ts:146-188 | The in-place push and marking leave what `Handle` describes |
| History.MovedToFrontHead | src/stores/history.ts:11-13 | After adding `p`, it heads the list and occurs nowhere else |
| History.MovedToFrontKeepsOrder | src/stores/history.ts:11-13 | The entries after `p` are old entries, in their old relative order |
| History.MovedToFrontBounded | src/stores/history.ts:15-17 | A list of at most ten stays within ten |
| History.MovedToFrontDrops | src/stores/history.ts:15-17 | Nothing is lost unless the list was full and `p` new; then the last entry is dropped |
| History.MovedToFrontIdempotent | src/stores/history.ts:8-19 | Adding the same path twice is adding it once |
| History.PathHistory.constructor | src/stores/history.ts:5-6 | The store starts with no paths and an empty last path |
| History.PathHistory.AddPath | src/stores/history.ts:8-19 | An empty path changes nothing; otherwise the list becomes `MovedToFront` and lastPath the path; the bound of ten is kept |
| GraphScanner.ProjectGraph.constructor | server/graph-scanner.ts:140-145 | The scan starts with no nodes, links, ids or base names |
| GraphScanner.BaseName | server/graph-scanner.ts:153 | `name.split('.')[0]`: the longest dot-free prefix |
| GraphScanner.ProjectGraph.AddNode | server/graph-scanner.ts:147-158 | A known id changes nothing. A new one is appended and its base name mapped to it unless taken; existing base names keep their first id; ids stay unique |
| GraphScanner.LinkedNames | server/graph-scanner.ts:81-96 | The names that get a link are distinct and are exactly the used names that are in the base-name map and do not map to the file itself |
| GraphScanner.ProjectGraph.ScanVueTemplate | server/graph-scanner.ts:74-97 | Appends one `imports` link from the file per linked name, in order of first use, and nothing else |
| GraphScanner.IncomingCount | server/graph-scanner.ts:229-232 | The count of links ending at an id is at most the number of links, and zero iff no link ends there |
| GraphScanner.IncomingCounts | server/graph-scanner.ts:229-232 | The map holds, per target, the number of links ending there; absent ids have none |
| GraphScanner.ProjectGraph.AddIncomingCounts | server/graph-scanner.ts:234-236 | Each node's val becomes `(val or 1)` plus exactly the number of links whose target it is |
| GraphScanner.IslandNameInjective | server/graph-scanner.ts:267 | `group_a` and `group_b` are equal iff a and b are |
| GraphScanner.FindNode | server/graph-scanner.ts:278 | `find` gives the first index holding the id, and nothing iff none holds it |
| GraphScanner.UndirectedAdjacency | server/graph-scanner.ts:252-259 | Every node id has an entry, listing exactly the other ends of its links in both directions |
| GraphScanner.SpreadIsland | server/graph-scanner.ts:268-283 | The search from a new island's first node gives every node connected to it that island |
| GraphScanner.DetectIslands | server/graph-scanner.ts:251-286 | Every node gets an island and nothing else changes. Two nodes share one iff connected in the undirected link graph; islands are `group_1`… in order of their first nodes |
| GraphScanner.IslandsPartition | server/graph-scanner.ts:264-285 | Equal island names iff connected |
| GraphScanner.IslandsInOrder | server/graph-scanner.ts:262-267 | A component's first node is named after the number of components started before it, plus one |
| GraphCycles.ImportArcs | server/graph-scanner.ts:292-298 | The arcs of the import graph are exactly the `imports` links |
| GraphCycles.NodeEntries | server/graph-scanner.ts:290 | An empty list for every node id |
| GraphCycles.BuildImportGraph | server/graph-scanner.ts:289-298 | The adjacency built is the import graph |
| GraphCycles.StrongConnect | server/graph-scanner.ts:307-336 | `strongconnect(v)` keeps the search invariant with `v` finished: the kept components are whole, disjoint, non-trivial strongly connected components holding every such popped vertex, and what was numbered is reachable from `v` |
| GraphCycles.VisitSuccessor | server/graph-scanner.ts:315-322 | One successor step keeps the loop invariant (tree edge, back edge, or skipped) |
| GraphCycles.CloseCall | server/graph-scanner.ts:324-335 | Popping `v`'s component when `v` is its root, keeping it when larger than one, finishes `v` |
| GraphCycles.RegionComponent | server/graph-scanner.ts:324-331 | When `v`'s low link is its own number, the stack from `v` up is exactly `v`'s strongly connected component |
| GraphCycles.PopComponent | server/graph-scanner.ts:327-331 | Pops down to `v`: the stack loses the suffix from `v` and the component is that suffix in pop order |
| GraphCycles.VisitNode | server/graph-scanner.ts:338-342 | One node of the top loop keeps the loop invariant |
| GraphCycles.TopDone | server/graph-scanner.ts:338-342 | After the loop the numbered vertices are those reachable from a node, and the kept components are exactly the non-trivial strongly connected components so reached |
| GraphCycles.FindComponents | server/graph-scanner.ts:300-342 | The whole search finds exactly the non-trivial strongly connected components reachable from the nodes, disjoint and whole |
| CycleMarks.IndexComponent | server/graph-scanner.ts:349-352 | One component's vertices are recorded, each mapped to that component |
| CycleMarks.IndexComponents | server/graph-scanner.ts:344-353 | `cycleNodeIds` is every vertex of a kept component, and each maps to the last component holding it |
| CycleMarks.MarkCycleNodes | server/graph-scanner.ts:355-357 | Exactly the nodes whose id is a cycle vertex get `cycle` set; the rest are unchanged |
| CycleMarks.MarkCycleLinks | server/graph-scanner.ts:359-366 | Exactly the links whose two ends have one component index get `cycle` set |
| CycleMarks.NodeMarks | server/graph-scanner.ts:344-357 | A node id is a cycle vertex iff its strongly connected component has more than one vertex |
| CycleMarks.LinkMarks | server/graph-scanner.ts:346-366 | Two ends share an index iff they lie in one non-trivial strongly connected component |
| CycleMarks.DetectCycles | server/graph-scanner.ts:288-367 | A node is marked iff its strongly connected component in the import graph is non-trivial. A link of any type is marked iff its ends lie in one such component reached from a node; other fields are unchanged |
| GraphStore.ValuesIds | src/stores/graphStore.ts:29 | `nodesArray` lists exactly the stored ids, in insertion order |
| GraphStore.BuildAdjacency | src/stores/graphStore.ts:38-47 | Every node id has an entry; a link contributes, both ways, only when both ends are nodes |
| GraphStore.RootsMembers | src/stores/graphStore.ts:67 | The sort's front part holds exactly the roots; with no root the order is untouched |
| GraphStore.RootsFirstPermutes | src/stores/graphStore.ts:67 | The sort is a permutation of the component |
| GraphStore.RootsFirstHead | src/stores/graphStore.ts:67-68 | The head is a root when the component has one, else the component's first node |
| GraphStore.VisitNeighbors | src/stores/graphStore.ts:61-65 | Each unvisited neighbour is visited and queued once; all neighbours end visited |
| GraphStore.ExpandHead | src/stores/graphStore.ts:57-65 | One queue round keeps the search invariant and decreases the measure |
| GraphStore.CollectComponent | src/stores/graphStore.ts:53-66 | The search visits and collects exactly the component of the start node, starting with it |
| GraphStore.HeadEntry | src/stores/graphStore.ts:67-68 | The sorted head of a collected component is its representative |
| GraphStore.StartsExactly | src/stores/graphStore.ts:52-53 | The starting positions are exactly the first nodes of their components, ascending |
| GraphStore.GraphIslands | src/stores/graphStore.ts:33-72 | No nodes gives no islands. Otherwise one entry per component, in order of first nodes: a stored node of the component, a root when it has one, else its first node. Entries are pairwise unconnected and every node is connected to one |
| GraphStore.IslandsSeparate | src/stores/graphStore.ts:49-70 | Entries of different islands are not connected |
| GraphStore.IslandsCover | src/stores/graphStore.ts:49-70 | Every node is connected to some entry |

## Left out

- I/O and scheduling are not part of this model: persistence, configuration loading, the websocket server and `broadcast`'s sending, JSON parsing of messages, the `setInterval` timer, and the debounced save. Broadcasts, syncs, saves and external calls are returned as a list of effects.
- GraphTypes.GraphState.Values: lists the nodes in insertion order, assuming no id is an array index (a canonical decimal below 2^32 - 1). JavaScript lists such keys first, in ascending numeric order. A `shortRandomHash` id of eight digits or a loaded graph could have one; then the fallback target of `AutoExplore.FallbackTarget` and the island order of `GraphStore.GraphIslands` follow a different order than the model's.
- AutoExplore.RunAutoExploreIteration and AutoExplore.Dispatch: the `brainstorm` await (server/auto-explore.ts:75-81) is a suspension point. Websocket messages handled meanwhile (CLEAR_GRAPH, SET_FOCUS, UPDATE_SETTINGS, FORBID_NODE, the queueing messages) change the state that the clear and the merge (lines 83-95) apply to. These two members run the iteration without interleaving. `AutoExplore.BeginIteration` and `AutoExplore.FinishIteration` are the two halves on either side of the await. The finish half is proved for any state it finds, so a caller can put any handled messages in between; the model does not include the event loop that would do so.
- AutoExplore.RunAutoExploreIteration: the `config` argument of `brainstorm` (model paths and options) is not part of the request.
- The language model is reduced to oracle outcomes (validated data, validation failure, throw), and the awaited `brainstorm` answer to a parameter. Prompts, grammar creation and arktype validation are not modelled.
- `Date.now`, `Math.random` and `crypto.getRandomValues` are replaced by parameters: fresh ids and random byte buffers.
- Floating-point values are carried as `real` and never computed with: creativity, aspect ratings, and the scanner's `val` from lines of code. Only the integer incoming-count addition is modelled.
- AutoExplore.ForbiddenLabels: `toLowerCase` is modelled on ASCII letters only; other characters are kept.
- The component-tag regex of `scanVueTemplate` and the `Extended_Pictographic` test are parameters: the matched names, and a character predicate.
- State.GraphStore.ApplyPatches: uses the RFC 6902 semantics of the emitted shapes, not those of the fast-json-patch library the server imports, which is more lenient than RFC 6902 and is not modelled. A failing patch is modelled as leaving the state unchanged; the modelled callers only pass patches proved to apply.
- AiCore.AiRuntime.ExecuteAITask: `result.data || result` is modelled as the validated data. The falsy-data fallback to the whole validation result is left out.
- GraphStore.BuildAdjacency: links are modelled with string endpoints. The reduction of d3's endpoint objects to their id (src/stores/graphStore.ts:41-42) is not modelled.
- GraphStore.GraphIslands: when a component has several roots, the model states only that the entry is a root, not which one.
- GraphStore.GraphIslands, AutoExplore.SelectTarget, AutoExplore.RunAutoExploreIteration, AutoExplore.Dispatch and AutoExplore.BeginIteration: require a well-formed state (each node stored under its own id, keys listed once). The source gets this from `nodes` being an object keyed by id; it does not check it for a graph loaded from disk through `initializeLoadedState`.
- GraphScanner.DetectIslands: requires unique node ids, which `addNode` guarantees for the scanner's node list.
- GraphCycles.StrongConnect: the closure variables of `strongconnect` are threaded through as a value. The recursion is bounded by a ghost set of all vertices.
- GraphCycles.PopComponent: takes `v`'s stack position as a ghost argument.
- CycleMarks.DetectCycles and GraphScanner.DetectIslands: node and link marks are modelled on sequences of values, not as in-place mutation of shared objects.
- Not part of this model: scanProject's ts-morph project, file walking and import resolution (server/graph-scanner.ts:1-69, 99-137, 160-226), and `getNodeDetails` (server/graph-scanner.ts:369-407).
- The AI-model handler cases (LOAD_AI_MODEL, UNLOAD_AI_MODEL, UPDATE_AI_CONFIG) and the disk access of LOAD_GRAPH/NEW_GRAPH are effects without modelled behaviour. The model gives LOAD_GRAPH's loaded state as a parameter.

## Findings

| source | as written | input that shows it | evidently intended | confidence | as-written member | corrected member |
|---|---|---|---|---|---|---|
| server/ai/response.ts:48 | Each link is added at path `/links/`, whose last reference token is empty: neither `-` nor an array index | Any connection list with one entry: under RFC 6902 the second op has no valid target, so the whole patch fails and no link is added | Append each link with `/links/-`, as server/state.ts:59 and 109 do | not executed | AiResponse.AiListToGraphPatch, AiResponse.WrittenPatchRejected | AiResponse.AiListToGraphPatchFixed, AiResponse.FixedPatchApplied |
