/** The pub/sub node: the `libp2pNode` / `isRunning` state machine, the
    guarded publish, and the dispatch of inbound messages on their `type`.
    The transport is a foreign library; each of its calls is an outcome
    passed in as a parameter. */
module PubSubNode {
  import opened Wrappers
  import Js
  import opened Messages

  const DefaultTopic: string := "natacoin-property-attestations"
  const NotRunningMessage: string := "libp2p node is not running"

  /** What the library reports about a created node. Its listen addresses
      are asked afresh on every `getNodeInfo`, so they are not kept here. */
  datatype NodeHandle = NodeHandle(peerId: string)

  /** `node` is `libp2pNode` (None for `null`), `running` is `isRunning`,
      `subscribed` says whether the topic handler is registered on the
      node, and `topic` is the topic fixed at load time. */
  datatype NodeState = NodeState(node: Option<NodeHandle>, running: bool, subscribed: bool, topic: string)

  /** `process.env.LIBP2P_TOPIC || 'natacoin-property-attestations'`. */
  function ConfiguredTopic(env: Option<string>): (t: string)
    ensures env.Some? && env.value != "" ==> t == env.value
    ensures env == None || env == Some("") ==> t == "natacoin-property-attestations"
  {
    if env.Some? && env.value != "" then env.value else DefaultTopic
  }

  /** The state when the module is loaded. */
  function Initial(env: Option<string>): (s: NodeState)
    ensures s.node == None && !s.running && !s.subscribed
    ensures s.topic == ConfiguredTopic(env)
  {
    NodeState(None, false, false, ConfiguredTopic(env))
  }

  /** Every reachable state: a running node exists, and the handler is
      registered only while running. */
  predicate Valid(s: NodeState) {
    (s.running ==> s.node.Some?) && (s.subscribed ==> s.running)
  }

  /** How the library calls inside `startLibp2p` turn out. */
  datatype StartOutcome =
    | CreateFailed(error: string)
    | NodeStartFailed(created: NodeHandle, error: string)
    | SubscribeFailed(created: NodeHandle, error: string)
    | Started(created: NodeHandle)

  /** How the library calls inside `stopLibp2p` turn out. */
  datatype StopOutcome = Stopped | UnsubscribeFailed(error: string) | NodeStopFailed(error: string)

  /** How `pubsub.publish` turns out. */
  datatype PublishOutcome = Delivered | PublishFailed(error: string)

  datatype StartResult = StartResult(state: NodeState, outcome: Outcome<string>)

  /** A message as it went out on the wire: the topic and the payload. */
  datatype Envelope = Envelope(topic: string, message: Message)

  /** `startLibp2p()`. */
  function Start(s: NodeState, o: StartOutcome): (r: StartResult)
    ensures s.running ==> r == StartResult(s, Pass)
    ensures !s.running && o.CreateFailed? ==> r == StartResult(s, Fail(o.error))
    ensures !s.running && o.NodeStartFailed? ==>
      && !r.state.running && r.state.node == Some(o.created) && r.outcome == Fail(o.error)
    ensures !s.running && o.SubscribeFailed? ==>
      && r.state.running && !r.state.subscribed && r.state.node == Some(o.created)
      && r.outcome == Fail(o.error)
    ensures r.outcome == Pass ==> r.state.running
    ensures !s.running && o.Started? ==>
      r == StartResult(NodeState(Some(o.created), true, true, s.topic), Pass)
    ensures r.state.topic == s.topic
  {
    if s.running then StartResult(s, Pass)
    else
      match o
      case CreateFailed(e) => StartResult(s, Fail(e))
      case NodeStartFailed(n, e) => StartResult(s.(node := Some(n)), Fail(e))
      case SubscribeFailed(n, e) => StartResult(NodeState(Some(n), true, false, s.topic), Fail(e))
      case Started(n) => StartResult(NodeState(Some(n), true, true, s.topic), Pass)
  }

  /** `stopLibp2p()`. It never throws: a failing library call is logged
      and swallowed, so only the new state is returned. */
  function Stop(s: NodeState, o: StopOutcome): (r: NodeState)
    ensures !s.running || s.node == None ==> r == s
    ensures o.Stopped? && Valid(s) ==> !r.running && !r.subscribed
    ensures s.running && s.node.Some? && !o.Stopped? ==> r.running
    ensures s.running && s.node.Some? && o.UnsubscribeFailed? ==> r == s
    ensures s.running && s.node.Some? && o.NodeStopFailed? ==> r == s.(subscribed := false)
    ensures r.node == s.node && r.topic == s.topic
  {
    if !s.running || s.node == None then s
    else
      match o
      case Stopped => s.(running := false, subscribed := false)
      case UnsubscribeFailed(_) => s
      case NodeStopFailed(_) => s.(subscribed := false)
  }

  /** `publishMessage(data)`: refused with "libp2p node is not running"
      unless running with a node; otherwise the transport's result. */
  function Publish(s: NodeState, m: Message, o: PublishOutcome): (r: Result<Envelope, string>)
    ensures !s.running || s.node == None ==> r == Failure("libp2p node is not running")
    ensures r.Success? <==> s.running && s.node.Some? && o == Delivered
    ensures r.Success? ==> r.value == Envelope(s.topic, m)
    ensures s.running && s.node.Some? && o.PublishFailed? ==> r == Failure(o.error)
  {
    if !s.running || s.node == None then Failure(NotRunningMessage)
    else
      match o
      case Delivered => Success(Envelope(s.topic, m))
      case PublishFailed(e) => Failure(e)
  }

  /** `libp2pService.isRunning()`. */
  function IsRunning(s: NodeState): (b: bool)
    ensures b <==> s.running
    ensures Valid(s) && b ==> s.node.Some?
  {
    s.running
  }

  datatype NodeInfo = NodeInfo(peerId: string, addresses: seq<string>, topic: string, isRunning: bool)

  /** `getNodeInfo()`: `null` before any node was created. `addrs` is what
      the library's `getMultiaddrs()` answers at the time of the call. */
  function GetNodeInfo(s: NodeState, addrs: seq<string>): (r: Option<NodeInfo>)
    ensures r == None <==> s.node == None
    ensures r.Some? ==> r.value.topic == s.topic && r.value.isRunning == s.running
    ensures r.Some? ==> r.value.peerId == s.node.value.peerId && r.value.addresses == addrs
  {
    match s.node
    case None => None
    case Some(n) => Some(NodeInfo(n.peerId, addrs, s.topic, s.running))
  }

  /** A message as it reaches the subscription callback. */
  datatype Inbound = Undecodable | Decoded(message: Message)

  /** Where the callback sends a message. `DecodeError` is the caught
      exception; `Ignored` is a decoded message of any other type. */
  datatype Handling = AttestationHandler | CommunityHandler | Ignored | DecodeError

  /** The body of the subscription callback. */
  function Dispatch(m: Inbound): (h: Handling)
    ensures h == DecodeError <==> m == Undecodable
    ensures h == AttestationHandler <==> m.Decoded? && TypeField(m.message) == Js.Str("property_attestation")
    ensures h == CommunityHandler <==> m.Decoded? && TypeField(m.message) == Js.Str("community_message")
  {
    match m
    case Undecodable => DecodeError
    case Decoded(msg) =>
      if TypeField(msg) == Js.Str(PropertyAttestationType) then AttestationHandler
      else if TypeField(msg) == Js.Str(CommunityMessageType) then CommunityHandler
      else Ignored
  }

  /** The subscription's stream of callbacks: every message is handled in
      turn, and a message that fails to decode does not end the stream. */
  method ReceiveAll(inbox: seq<Inbound>) returns (handled: seq<Handling>)
    ensures |handled| == |inbox|
    ensures forall i :: 0 <= i < |inbox| ==> handled[i] == Dispatch(inbox[i])
  {
    handled := [];
    var k := 0;
    while k < |inbox|
      invariant 0 <= k <= |inbox|
      invariant |handled| == k
      invariant forall i :: 0 <= i < k ==> handled[i] == Dispatch(inbox[i])
    {
      handled := handled + [Dispatch(inbox[k])];
      k := k + 1;
    }
  }

  lemma InitialIsValid(env: Option<string>)
    ensures Valid(Initial(env))
  {
  }

  /** Start and stop keep the state valid, whatever the library does. */
  lemma StartStopPreserveValid(s: NodeState, o: StartOutcome, p: StopOutcome)
    requires Valid(s)
    ensures Valid(Start(s, o).state)
    ensures Valid(Stop(s, p))
  {
  }

  /** In a valid state the router's `isRunning()` guard is enough for
      `publishMessage` not to refuse: only the transport can still fail. */
  lemma RunningGuardSufficient(s: NodeState, m: Message, o: PublishOutcome)
    requires Valid(s) && IsRunning(s)
    ensures Publish(s, m, o).Failure? ==> o.PublishFailed?
  {
  }

  /** `stop(); stop()` succeeds whatever happens: after a clean stop, a
      second stop changes nothing, and a publish is refused. */
  lemma StopTwice(s: NodeState, p: StopOutcome, m: Message, o: PublishOutcome)
    ensures Stop(Stop(s, Stopped), p) == Stop(s, Stopped)
    ensures Publish(Stop(s, Stopped), m, o) == Failure("libp2p node is not running")
  {
  }

  /** A property-record message, although published by this node, reaches
      neither handler. */
  lemma PropertyRecordIgnored(data: RecordStore.PropertyRecord, cid: string)
    ensures Dispatch(Decoded(PropertyRecordMsg(data, cid))) == Ignored
  {
  }

  /** A community message reaches the community handler, and only it. */
  lemma CommunityMessageRouted()
    ensures Dispatch(Decoded(OtherMsg(Js.Str("community_message")))) == CommunityHandler
  {
  }

  /** The three outcomes of dispatch are exclusive and cover every
      decodable message. */
  lemma DispatchPartition(m: Message)
    ensures var h := Dispatch(Decoded(m));
      h == AttestationHandler || h == CommunityHandler || h == Ignored
    ensures m.AttestationMsg? ==> Dispatch(Decoded(m)) == AttestationHandler
  {
  }

  /** One lifecycle call and how the library behaved during it. */
  datatype LifecycleOp = StartOp(start: StartOutcome) | StopOp(stop: StopOutcome)

  /** Applies the lifecycle calls in order. A failed start rethrows to the
      caller but its state change stays. */
  function Run(s: NodeState, ops: seq<LifecycleOp>): NodeState
    decreases |ops|
  {
    if ops == [] then s
    else
      var s' := match ops[0]
        case StartOp(o) => Start(s, o).state
        case StopOp(o) => Stop(s, o);
      Run(s', ops[1..])
  }

  /** Every state reachable from load time by any sequence of starts and
      stops, with any library failures, is valid; so in every reachable
      state the router's `isRunning()` guard rules out the "not running"
      refusal. */
  lemma ReachableIsValid(env: Option<string>, ops: seq<LifecycleOp>, m: Message, o: PublishOutcome)
    ensures Valid(Run(Initial(env), ops))
    ensures IsRunning(Run(Initial(env), ops)) && Publish(Run(Initial(env), ops), m, o).Failure? ==> o.PublishFailed?
  {
    InitialIsValid(env);
    RunPreservesValid(Initial(env), ops);
  }

  /** `getNodeInfo()` after a clean start reports the new node as running
      on the configured topic; after a clean stop it still reports the same
      node, because `stopLibp2p` never clears `libp2pNode`, but not running. */
  lemma NodeInfoAfterStartStop(s: NodeState, n: NodeHandle, addrs: seq<string>)
    requires !s.running
    ensures var s1 := Start(s, Started(n)).state;
      && GetNodeInfo(s1, addrs) == Some(NodeInfo(n.peerId, addrs, s.topic, true))
      && GetNodeInfo(Stop(s1, Stopped), addrs) == Some(NodeInfo(n.peerId, addrs, s.topic, false))
  {
  }

  lemma {:induction false} RunPreservesValid(s: NodeState, ops: seq<LifecycleOp>)
    requires Valid(s)
    ensures Valid(Run(s, ops))
    decreases |ops|
  {
    if ops != [] {
      var s' := match ops[0]
        case StartOp(o) => Start(s, o).state
        case StopOp(o) => Stop(s, o);
      RunPreservesValid(s', ops[1..]);
    }
  }
}
