/**
 * The websocket message handler (server/ws-handlers.ts): a state machine over
 * the closed set of client messages. Each message changes the live state in
 * place and produces effects: broadcasts, a `sync()` of the state to the
 * clients and to disk, or a call into code outside the handler (switching the
 * graph, loading or unloading the model, writing the configuration).
 */
module WsHandlers {
  import opened Wrappers
  import opened GraphTypes
  import opened JsonPatch
  import opened State
  import opened AiCore

  /** The keys `UPDATE_SETTINGS` may carry; `None` is a key the message leaves out. */
  datatype SettingsUpdate = SettingsUpdate(
    creativity: Option<real>,
    maxWords: Option<int>,
    minConnections: Option<int>,
    autoExplore: Option<bool>,
    definedAspects: Option<seq<string>>,
    activeAspects: Option<seq<string>>,
    allowedRelations: Option<seq<Relation>>)

  /** A parsed client message, by its `type`. */
  datatype Msg =
    | ListGraphs
    | NewGraph(newName: Option<string>)
    | LoadGraph(name: string)
    | GenerateGraphName
    | SetFocus(focus: Option<string>)
    | UpdateSettings(update: SettingsUpdate)
    | AddNodeMsg(labelText: string, parentId: Option<string>)
    | AcceptNode(nodeId: string)
    | ForbidNode(nodeId: string)
    | DeleteNodeMsg(nodeId: string)
    | ClearGraphMsg
    | LoadAiModel
    | UnloadAiModel
    | UpdateAiConfig
    | ExploreNewMsg(nodeId: string)
    | ExploreLimitedMsg(nodeId: string, relations: Option<seq<Relation>>)
    | ExploreExistingMsg(nodeId: string)
    | UpdateNodeAspects(nodeId: string)
    | Unknown(typeName: string)

  /** What handling a message does besides changing the state, in order. */
  datatype Effect =
    | Send(b: Broadcast)
    | Sync
    | SetGraph(name: string, state: GraphState)
    | InitializeAi
    | UnloadAi
    | WriteConfig

  datatype Handled = Handled(state: GraphState, effects: seq<Effect>)

  /** `Object.assign(state.settings, data.settings)` for the declared keys. */
  function Merge(s: Settings, u: SettingsUpdate): (r: Settings)
    ensures u.creativity.Some? ==> r.creativity == u.creativity.value
    ensures u.creativity.None? ==> r.creativity == s.creativity
    ensures u.maxWords.Some? ==> r.maxWords == u.maxWords.value
    ensures u.maxWords.None? ==> r.maxWords == s.maxWords
    ensures u.minConnections.Some? ==> r.minConnections == u.minConnections.value
    ensures u.minConnections.None? ==> r.minConnections == s.minConnections
    ensures u.autoExplore.Some? ==> r.autoExplore == u.autoExplore.value
    ensures u.autoExplore.None? ==> r.autoExplore == s.autoExplore
    ensures u.definedAspects.Some? ==> r.definedAspects == u.definedAspects
    ensures u.definedAspects.None? ==> r.definedAspects == s.definedAspects
    ensures u.activeAspects.Some? ==> r.activeAspects == u.activeAspects
    ensures u.activeAspects.None? ==> r.activeAspects == s.activeAspects
    ensures u.allowedRelations.Some? ==> r.allowedRelations == u.allowedRelations
    ensures u.allowedRelations.None? ==> r.allowedRelations == s.allowedRelations
  {
    Settings(
      if u.creativity.Some? then u.creativity.value else s.creativity,
      if u.maxWords.Some? then u.maxWords.value else s.maxWords,
      if u.minConnections.Some? then u.minConnections.value else s.minConnections,
      if u.autoExplore.Some? then u.autoExplore.value else s.autoExplore,
      if u.definedAspects.Some? then u.definedAspects else s.definedAspects,
      if u.activeAspects.Some? then u.activeAspects else s.activeAspects,
      if u.allowedRelations.Some? then u.allowedRelations else s.allowedRelations)
  }

  /** An update that names no key leaves the settings as they are. */
  lemma MergeNothing(s: Settings)
    ensures Merge(s, SettingsUpdate(None, None, None, None, None, None, None)) == s
  {
  }

  /** Merging the same update twice is merging it once. */
  lemma MergeIdempotent(s: Settings, u: SettingsUpdate)
    ensures Merge(Merge(s, u), u) == Merge(s, u)
  {
  }

  /** `NEW_GRAPH`'s name: `data.name || "Untitled"`. */
  function GraphName(name: Option<string>): (r: string)
    ensures name.Some? && name.value != "" ==> r == name.value
    ensures name.None? || name.value == "" ==> r == "Untitled"
  {
    if name.Some? && name.value != "" then name.value else "Untitled"
  }

  /** The task a queueing message appends, if it is one. */
  function QueuedTask(g: GraphState, msg: Msg): Option<Task> {
    match msg
    case GenerateGraphName => Some(Task(GenerateName, "", NoParams))
    case ExploreNewMsg(id) => Some(Task(ExploreNew, id, RelationParams(g.settings.allowedRelations)))
    case ExploreLimitedMsg(id, rels) => Some(Task(ExploreLimited, id, RelationParams(rels)))
    case ExploreExistingMsg(id) => Some(Task(ExploreExisting, id, NoParams))
    case UpdateNodeAspects(id) => Some(Task(Describe, id, NoParams))
    case _ => None
  }

  /** `tasks[kind] = 'queued'` on a tasks map, creating it when missing. */
  function MarkQueued(tasks: Option<map<TaskKind, TaskMark>>, kind: TaskKind): (r: Option<map<TaskKind, TaskMark>>)
    ensures r.Some? && kind in r.value && r.value[kind] == Queued
    ensures forall k :: k != kind ==>
      (k in r.value <==> tasks.Some? && k in tasks.value) && (k in r.value ==> r.value[k] == tasks.value[k])
  {
    Some(tasks.GetOr(map[])[kind := Queued])
  }

  /** The in-flight marker written on the named node, when it exists. */
  function MarkNode(g: GraphState, nodeId: string, kind: TaskKind): GraphState {
    if nodeId in g.nodes then
      var n := g.nodes[nodeId];
      g.(nodes := g.nodes[nodeId := n.(tasks := MarkQueued(n.tasks, kind))])
    else g
  }

  /** The status change of `ACCEPT_NODE` / `FORBID_NODE`; nothing happens for an unknown id. */
  function SetStatus(g: GraphState, nodeId: string, status: NodeStatus): Handled {
    if nodeId in g.nodes then
      Handled(g.(nodes := g.nodes[nodeId := g.nodes[nodeId].(status := status)]), [Sync])
    else Handled(g, [])
  }

  /**
   * `handleWSMessage(message, context)` followed by the `catch` of
   * `createWSMessageHandler`: the state after the message and the effects in
   * order. `aiBusy` is the model runtime's busy flag and `loaded` what
   * `loadStateFromDisk` returns for `LOAD_GRAPH`. A queueing message on a
   * state without `userQueue` throws at the `push`, before any change, and
   * the error is swallowed.
   */
  function Handle(g: GraphState, msg: Msg, aiBusy: bool, loaded: Option<GraphState>): Handled {
    match msg
    case ListGraphs => Handled(g, [Send(GraphList)])
    case NewGraph(name) =>
      var blank := CreateDefaultState();
      Handled(g, [SetGraph(GraphName(name), blank), Send(FullState(blank)), Send(GraphList)])
    case LoadGraph(name) =>
      if loaded.Some? then
        var st := InitializeLoadedState(loaded.value);
        Handled(g, [SetGraph(name, st), Send(FullState(st))])
      else Handled(g, [])
    case SetFocus(id) => Handled(g.(focusNodeId := id), [Sync])
    case UpdateSettings(u) => Handled(g.(settings := Merge(g.settings, u)), [Sync])
    case AddNodeMsg(_, _) => Handled(g, [Sync])
    case AcceptNode(id) => SetStatus(g, id, Accepted)
    case ForbidNode(id) => SetStatus(g, id, Forbidden)
    case DeleteNodeMsg(_) => Handled(g, [Sync])
    case ClearGraphMsg => Handled(ClearedGraph(g), [Send(FullState(ClearedGraph(g))), Sync])
    case LoadAiModel => if aiBusy then Handled(g, []) else Handled(g, [Send(AiStatus("loading")), InitializeAi])
    case UnloadAiModel => if aiBusy then Handled(g, []) else Handled(g, [UnloadAi, Send(AiStatus("unloaded"))])
    case UpdateAiConfig => Handled(g, [WriteConfig, Send(AiConfigUpdated)])
    case Unknown(_) => Handled(g, [])
    case _ =>
      // the queueing messages
      var task := QueuedTask(g, msg).value;
      if g.userQueue.None? then Handled(g, [])
      else
        var queued := g.(userQueue := Some(g.userQueue.value + [task]));
        if msg.GenerateGraphName? then Handled(queued.(tasks := MarkQueued(g.tasks, GenerateName)), [Sync])
        else Handled(MarkNode(queued, task.nodeId, task.kind), [Sync])
  }

  /** The messages that append to the user task queue. */
  predicate Queueing(msg: Msg) {
    msg.GenerateGraphName? || msg.ExploreNewMsg? || msg.ExploreLimitedMsg? || msg.ExploreExistingMsg? || msg.UpdateNodeAspects?
  }

  /** The messages that queue a task for a node. */
  predicate NodeQueueing(msg: Msg) {
    msg.ExploreNewMsg? || msg.ExploreLimitedMsg? || msg.ExploreExistingMsg? || msg.UpdateNodeAspects?
  }

  /** The node id a node-queueing message names. */
  function MsgNodeId(msg: Msg): string
    requires NodeQueueing(msg)
  {
    match msg
    case ExploreNewMsg(id) => id
    case ExploreLimitedMsg(id, _) => id
    case ExploreExistingMsg(id) => id
    case UpdateNodeAspects(id) => id
  }

  /**
   * Accepting or forbidding an existing node changes only that node's status
   * and syncs; an unknown id changes nothing and syncs nothing.
   */
  lemma StatusMessages(g: GraphState, msg: Msg, aiBusy: bool, loaded: Option<GraphState>)
    requires msg.AcceptNode? || msg.ForbidNode?
    ensures var h := Handle(g, msg, aiBusy, loaded);
      var id := msg.nodeId;
      var status := if msg.AcceptNode? then Accepted else Forbidden;
      && (id in g.nodes ==>
            && h.effects == [Sync]
            && h.state.nodes.Keys == g.nodes.Keys
            && h.state.nodes[id] == g.nodes[id].(status := status)
            && (forall k :: k in g.nodes && k != id ==> h.state.nodes[k] == g.nodes[k])
            && h.state.(nodes := g.nodes) == g)
      && (id !in g.nodes ==> h == Handled(g, []))
  {
  }

  /**
   * With a queue present, each queueing message appends exactly one task at
   * its end, whether or not the named node exists, and syncs.
   */
  lemma QueueAppend(g: GraphState, msg: Msg, aiBusy: bool, loaded: Option<GraphState>)
    requires Queueing(msg) && g.userQueue.Some?
    ensures var h := Handle(g, msg, aiBusy, loaded);
      && h.state.userQueue == Some(g.userQueue.value + [QueuedTask(g, msg).value])
      && h.effects == [Sync]
      && h.state.links == g.links && h.state.order == g.order && h.state.nodes.Keys == g.nodes.Keys
      && h.state.focusNodeId == g.focusNodeId && h.state.thinkingNodeId == g.thinkingNodeId
      && h.state.settings == g.settings
  {
  }

  /** The task kinds and parameters: `EXPLORE_NEW` carries the allowed relations of the settings, `EXPLORE_LIMITED` the message's. */
  lemma QueuedTaskShape(g: GraphState, msg: Msg)
    requires Queueing(msg)
    ensures msg.GenerateGraphName? ==> QueuedTask(g, msg) == Some(Task(GenerateName, "", NoParams))
    ensures msg.ExploreNewMsg? ==>
      QueuedTask(g, msg).value.kind == ExploreNew && QueuedTask(g, msg).value.params == RelationParams(g.settings.allowedRelations)
    ensures msg.ExploreLimitedMsg? ==>
      QueuedTask(g, msg).value.kind == ExploreLimited && QueuedTask(g, msg).value.params == RelationParams(msg.relations)
    ensures msg.ExploreExistingMsg? ==> QueuedTask(g, msg).value.kind == ExploreExisting
    ensures msg.UpdateNodeAspects? ==> QueuedTask(g, msg).value.kind == Describe
    ensures NodeQueueing(msg) ==> QueuedTask(g, msg).value.nodeId == MsgNodeId(msg)
  {
  }

  /**
   * A node-queueing message marks the task kind as queued on the named node
   * when it exists, creating its tasks map if needed, and touches no other
   * node; on an unknown id no node changes.
   */
  lemma NodeMarker(g: GraphState, msg: Msg, aiBusy: bool, loaded: Option<GraphState>)
    requires NodeQueueing(msg) && g.userQueue.Some?
    ensures var h := Handle(g, msg, aiBusy, loaded);
      var id := MsgNodeId(msg);
      var kind := QueuedTask(g, msg).value.kind;
      && (id in g.nodes ==>
            && h.state.nodes[id].tasks == MarkQueued(g.nodes[id].tasks, kind)
            && h.state.nodes[id].tasks.Some?
            && kind in h.state.nodes[id].tasks.value && h.state.nodes[id].tasks.value[kind] == Queued
            && h.state.nodes[id].(tasks := g.nodes[id].tasks) == g.nodes[id])
      && (forall k :: k in g.nodes && k != id ==> h.state.nodes[k] == g.nodes[k])
      && (id !in g.nodes ==> h.state.nodes == g.nodes)
      && h.state.tasks == g.tasks
  {
  }

  /**
   * `GENERATE_GRAPH_NAME` marks the graph-level name task as queued, creating
   * the task map when there is none and keeping the other kinds, and leaves
   * the nodes alone.
   */
  lemma GenerateNameMarker(g: GraphState, aiBusy: bool, loaded: Option<GraphState>)
    requires g.userQueue.Some?
    ensures var h := Handle(g, GenerateGraphName, aiBusy, loaded);
      && h.state.tasks == MarkQueued(g.tasks, GenerateName)
      && h.state.tasks.Some? && GenerateName in h.state.tasks.value && h.state.tasks.value[GenerateName] == Queued
      && (forall k :: k != GenerateName ==>
            (k in h.state.tasks.value <==> g.tasks.Some? && k in g.tasks.value)
            && (k in h.state.tasks.value ==> h.state.tasks.value[k] == g.tasks.value[k]))
      && h.state.nodes == g.nodes
  {
  }

  /** A queueing message on a state without a queue throws before any change: nothing happens. */
  lemma QueueMissingThrows(g: GraphState, msg: Msg, aiBusy: bool, loaded: Option<GraphState>)
    requires Queueing(msg) && g.userQueue.None?
    ensures Handle(g, msg, aiBusy, loaded) == Handled(g, [])
  {
  }

  /**
   * `SET_FOCUS` stores whatever id it is given, existing or not; `UPDATE_SETTINGS`
   * changes only the settings.
   */
  lemma FocusAndSettings(g: GraphState, id: Option<string>, u: SettingsUpdate, aiBusy: bool, loaded: Option<GraphState>)
    ensures Handle(g, SetFocus(id), aiBusy, loaded).state == g.(focusNodeId := id)
    ensures Handle(g, UpdateSettings(u), aiBusy, loaded).state == g.(settings := Merge(g.settings, u))
  {
  }

  /**
   * `ADD_NODE` and `DELETE_NODE` compute patches and apply none of them, so
   * the state stays as it is; so does every message without a case, and every
   * message that only talks to code outside the handler.
   */
  lemma DiscardedAndUnknown(g: GraphState, msg: Msg, aiBusy: bool, loaded: Option<GraphState>)
    requires msg.AddNodeMsg? || msg.DeleteNodeMsg? || msg.Unknown? || msg.ListGraphs? || msg.NewGraph?
             || msg.LoadGraph? || msg.LoadAiModel? || msg.UnloadAiModel? || msg.UpdateAiConfig?
    ensures Handle(g, msg, aiBusy, loaded).state == g
    ensures msg.Unknown? ==> Handle(g, msg, aiBusy, loaded).effects == []
  {
  }

  /** While the model is busy, the model messages do nothing at all. */
  lemma BusyModelMessages(g: GraphState, msg: Msg, loaded: Option<GraphState>)
    requires msg.LoadAiModel? || msg.UnloadAiModel?
    ensures Handle(g, msg, true, loaded) == Handled(g, [])
  {
  }

  /** No message breaks the state's consistency: keys in order, once each, nodes under their ids. */
  lemma HandleValid(g: GraphState, msg: Msg, aiBusy: bool, loaded: Option<GraphState>)
    requires g.Valid()
    ensures Handle(g, msg, aiBusy, loaded).state.Valid()
  {
    var h := Handle(g, msg, aiBusy, loaded).state;
    assert h.order == g.order || h.order == [];
    assert h.nodes.Keys == g.nodes.Keys || h.nodes == map[];
  }

  /**
   * The handler on the live state. `ai` holds the runtime's busy flag,
   * `loaded` the state read from disk for `LOAD_GRAPH`, and `freshId` the
   * id `addNodeToState` would draw.
   */
  method HandleMessage(store: GraphStore, ai: AiRuntime, msg: Msg, loaded: Option<GraphState>, freshId: string)
    returns (effects: seq<Effect>)
    modifies store
    ensures var h := Handle(old(store.Snapshot()), msg, ai.isAiBusy, loaded);
      store.Snapshot() == h.state && effects == h.effects
  {
    effects := [];
    match msg {
      case ListGraphs =>
        effects := [Send(GraphList)];
      case NewGraph(name) =>
        var blank := CreateDefaultState();
        effects := [SetGraph(GraphName(name), blank), Send(FullState(blank)), Send(GraphList)];
      case LoadGraph(name) =>
        if loaded.Some? {
          var st := InitializeLoadedState(loaded.value);
          effects := [SetGraph(name, st), Send(FullState(st))];
        }
      case SetFocus(id) =>
        store.focusNodeId := id;
        effects := [Sync];
      case UpdateSettings(u) =>
        store.settings := Merge(store.settings, u);
        effects := [Sync];
      case AddNodeMsg(text, parentId) =>
        var _ := AddNodeToState(store.Snapshot(), text, parentId, freshId);
        effects := [Sync];
      case AcceptNode(id) =>
        if id in store.nodes {
          store.nodes := store.nodes[id := store.nodes[id].(status := Accepted)];
          effects := [Sync];
        }
      case ForbidNode(id) =>
        if id in store.nodes {
          store.nodes := store.nodes[id := store.nodes[id].(status := Forbidden)];
          effects := [Sync];
        }
      case DeleteNodeMsg(id) =>
        var _ := DeleteNodeFromState(store.Snapshot(), id);
        effects := [Sync];
      case ClearGraphMsg =>
        store.ClearGraph();
        effects := [Send(FullState(store.Snapshot())), Sync];
      case LoadAiModel =>
        if !ai.isAiBusy {
          effects := [Send(AiStatus("loading")), InitializeAi];
        }
      case UnloadAiModel =>
        if !ai.isAiBusy {
          effects := [UnloadAi, Send(AiStatus("unloaded"))];
        }
      case UpdateAiConfig =>
        effects := [WriteConfig, Send(AiConfigUpdated)];
      case Unknown(_) =>
      case GenerateGraphName =>
        effects := QueueTask(store, msg);
      case ExploreNewMsg(_) =>
        effects := QueueTask(store, msg);
      case ExploreLimitedMsg(_, _) =>
        effects := QueueTask(store, msg);
      case ExploreExistingMsg(_) =>
        effects := QueueTask(store, msg);
      case UpdateNodeAspects(_) =>
        effects := QueueTask(store, msg);
    }
  }

  /** The queueing cases: push the task (throwing when there is no queue), mark it, sync. */
  method QueueTask(store: GraphStore, msg: Msg) returns (effects: seq<Effect>)
    requires Queueing(msg)
    modifies store
    ensures var h := Handle(old(store.Snapshot()), msg, false, None);
      store.Snapshot() == h.state && effects == h.effects
  {
    var task := QueuedTask(store.Snapshot(), msg).value;
    if store.userQueue.None? {
      // `state.userQueue.push` throws a TypeError, which the caller swallows
      return [];
    }
    store.userQueue := Some(store.userQueue.value + [task]);
    if msg.GenerateGraphName? {
      if store.tasks.None? {
        store.tasks := Some(map[]);
      }
      store.tasks := Some(store.tasks.value[GenerateName := Queued]);
    } else if task.nodeId in store.nodes {
      var node := store.nodes[task.nodeId];
      if node.tasks.None? {
        node := node.(tasks := Some(map[]));
      }
      node := node.(tasks := Some(node.tasks.value[task.kind := Queued]));
      store.nodes := store.nodes[task.nodeId := node];
    }
    effects := [Sync];
  }
}
