/**
 * The peer manager's state and the meaning of each of its steps, as functions on values
 * (src/network/manager.rs). The class PeerManager is proved to take exactly these steps.
 */
module ManagerModel {
  import opened Wrappers
  import opened Cyclic
  import opened Peers

  type DisconnectReason = nat
  /** The one-shot reply channel a command carries. */
  type Ticket = nat

  datatype ManagerEvent =
    | PeerConnected(info: PeerInfo)
    | PeerDisconnected(info: PeerInfo, reason: Option<DisconnectReason>)
    | NewBlock(block: nat)

  datatype NetworkEvent =
    | ActivePeerSession(info: SessionInfo, messages: Sender, now: nat)
    | SessionClosed(peerId: PeerId, reason: Option<DisconnectReason>)
    | PeerRemoved(peerId: PeerId)
    | OtherPeerEvent

  datatype Command =
    | Fetch(target: Option<PeerId>, blockHashes: seq<B256>, reply: Ticket)
    | ConnectedPeers(reply: Ticket)

  datatype Reply =
    | FetchReply(to: Ticket, result: FetchResult)
    | PeersReply(to: Ticket, infos: seq<PeerInfo>)

  /** One request put to one session. */
  datatype Contact = Contact(peer: Peer, request: PeerRequest)

  /** What the surroundings decide during one command: the hash map's key order, and each session's conduct. */
  datatype Env = Env(order: seq<PeerId>, net: map<PeerId, Remote>)

  /** `contacts` is history only; `events` and `replies` are what went out on the manager's channels. */
  datatype State = State(
    peers: map<PeerId, Peer>, rrIndex: nat, events: seq<ManagerEvent>, replies: seq<Reply>, contacts: seq<Contact>)

  const INITIAL := State(map[], 0, [], [], [])

  // ── Network events ──

  function OnPeerConnected(s: State, info: SessionInfo, sender: Sender, now: nat): State {
    var peer := FromSession(info, sender, now);
    s.(peers := s.peers[peer.info.id := peer], events := s.events + [PeerConnected(peer.info)])
  }

  /** Removal looks the peer up unconditionally, so an absent one is a panic; hence the precondition. */
  function OnPeerRemoved(s: State, id: PeerId, reason: Option<DisconnectReason>): State
    requires id in s.peers
  {
    s.(peers := s.peers - {id}, events := s.events + [PeerDisconnected(s.peers[id].info, reason)])
  }

  function OnNetworkEvent(s: State, event: NetworkEvent): State {
    match event
    case ActivePeerSession(info, messages, now) => OnPeerConnected(s, info, messages, now)
    case SessionClosed(id, reason) => if id in s.peers then OnPeerRemoved(s, id, reason) else s
    case PeerRemoved(id) => if id in s.peers then OnPeerRemoved(s, id, None) else s
    case OtherPeerEvent => s
  }

  // ── Receipt dispatch ──

  predicate AllIn(ids: seq<PeerId>, peers: map<PeerId, Peer>) {
    forall i :: 0 <= i < |ids| ==> ids[i] in peers
  }

  /** What the session with peer `id` does with a request; a session `net` does not mention has a dead send queue. */
  function Conduct(net: map<PeerId, Remote>, id: PeerId): Remote {
    if id in net then net[id] else Remote(NotEnqueued, NotEnqueued, NotEnqueued)
  }

  /** What peer `id` comes back with when it is asked. */
  function Answer(peers: map<PeerId, Peer>, net: map<PeerId, Remote>, id: PeerId): FetchResult
    requires id in peers
  {
    FetchReceipts(peers[id], Conduct(net, id))
  }

  /** The peers whose send queue refuses a request. */
  function Gone(peers: map<PeerId, Peer>, net: map<PeerId, Remote>): set<PeerId> {
    set id | id in peers && Answer(peers, net, id).Failure? && Answer(peers, net, id).error.Disconnected?
  }

  /** How many of `ids` fail before the first that succeeds. */
  function FirstOk(peers: map<PeerId, Peer>, net: map<PeerId, Remote>, ids: seq<PeerId>): (k: nat)
    requires AllIn(ids, peers)
    ensures k <= |ids|
  {
    if ids == [] || Answer(peers, net, ids[0]).Success? then 0 else 1 + FirstOk(peers, net, ids[1..])
  }

  function ContactsOf(peers: map<PeerId, Peer>, ids: seq<PeerId>, blockHashes: seq<B256>): (r: seq<Contact>)
    requires AllIn(ids, peers)
    ensures |r| == |ids|
  {
    seq(|ids|, i requires 0 <= i < |ids| => Contact(peers[ids[i]], Request(peers[ids[i]], blockHashes)))
  }

  function Departures(peers: map<PeerId, Peer>, ids: seq<PeerId>): (r: seq<ManagerEvent>)
    requires AllIn(ids, peers)
    ensures |r| == |ids|
  {
    seq(|ids|, i requires 0 <= i < |ids| => PeerDisconnected(peers[ids[i]].info, None))
  }

  function InfosOf(peers: map<PeerId, Peer>, ids: seq<PeerId>): (r: seq<PeerInfo>)
    requires AllIn(ids, peers)
    ensures |r| == |ids|
  {
    seq(|ids|, i requires 0 <= i < |ids| => peers[ids[i]].info)
  }

  ghost predicate Ready(s: State, env: Env) {
    && 0 < |env.order|
    && IsOrder(env.order, s.peers.Keys)
  }

  /** The order in which an untargeted fetch asks the peers: the key order, rotated to the cursor. */
  function ScanOrder(s: State, env: Env): (rot: seq<PeerId>)
    requires Ready(s, env)
    ensures |rot| == |env.order| && AllIn(rot, s.peers)
  {
    var rot := Rotate(env.order, Wrap(s.rrIndex, |env.order|));
    assert AllIn(rot, s.peers) by {
      RotateIsOrder(env.order, Wrap(s.rrIndex, |env.order|), s.peers.Keys);
      OrderAllIn(rot, s.peers);
    }
    rot
  }

  /** The position in the scan order of the peer that serves; the peer count when none does. */
  function Stop(s: State, env: Env): (k: nat)
    requires Ready(s, env)
    ensures k <= |env.order|
  {
    FirstOk(s.peers, env.net, ScanOrder(s, env))
  }

  /** The peers asked and found gone before the scan stopped, in scan order. */
  function Evicted(s: State, env: Env): (ids: seq<PeerId>)
    requires Ready(s, env)
    ensures AllIn(ids, s.peers)
  {
    var ids := Restrict(ScanOrder(s, env)[..Stop(s, env)], Gone(s.peers, env.net));
    assert AllIn(ids, s.peers) by {
      RestrictMember(ScanOrder(s, env)[..Stop(s, env)], Gone(s.peers, env.net));
      assert forall i :: 0 <= i < |ids| ==> ids[i] in ids;
    }
    ids
  }

  function Contacted(s: State, env: Env): (ids: seq<PeerId>)
    requires Ready(s, env)
    ensures AllIn(ids, s.peers)
  {
    if Stop(s, env) < |env.order| then ScanOrder(s, env)[..Stop(s, env) + 1] else ScanOrder(s, env)
  }

  /** All of `ids` removed, with one disconnect event each, in that order. */
  function EvictAll(s: State, ids: seq<PeerId>): State
    requires AllIn(ids, s.peers)
  {
    s.(peers := s.peers - Elements(ids), events := s.events + Departures(s.peers, ids))
  }

  /** Where the cursor stands after an untargeted fetch. */
  function NextCursor(s: State, env: Env): (c: nat)
    requires Ready(s, env)
    ensures c < |env.order|
  {
    var n, k := |env.order|, Stop(s, env);
    if k < n then Wrap(Wrap(s.rrIndex, n) + k + 1, n) else Wrap(s.rrIndex, n)
  }

  function Untargeted(s: State, blockHashes: seq<B256>, env: Env): (r: (State, FetchResult))
    requires Ready(s, env)
  {
    var n, k := |env.order|, Stop(s, env);
    var asked := s.contacts + ContactsOf(s.peers, Contacted(s, env), blockHashes);
    (EvictAll(s.(rrIndex := NextCursor(s, env), contacts := asked), Evicted(s, env)),
     Answer(s.peers, env.net, ScanOrder(s, env)[if k < n then k else n - 1]))
  }

  function DoFetch(s: State, target: Option<PeerId>, blockHashes: seq<B256>, env: Env): (r: (State, FetchResult))
    requires IsOrder(env.order, s.peers.Keys)
  {
    if s.peers == map[] then (s, Failure(Disconnected(DEFAULT_PEER_ID)))
    else
      match target
      case Some(id) =>
        if id in s.peers then
          (s.(contacts := s.contacts + [Contact(s.peers[id], Request(s.peers[id], blockHashes))]),
           Answer(s.peers, env.net, id))
        else
          (s, Failure(Disconnected(id)))
      case None =>
        OrderLength(env.order, s.peers.Keys);
        Untargeted(s, blockHashes, env)
  }

  function OnCommand(s: State, cmd: Command, env: Env): State
    requires IsOrder(env.order, s.peers.Keys)
  {
    match cmd
    case Fetch(target, blockHashes, reply) =>
      var (s', result) := DoFetch(s, target, blockHashes, env);
      s'.(replies := s'.replies + [FetchReply(reply, result)])
    case ConnectedPeers(reply) =>
      assert AllIn(env.order, s.peers) by { OrderAllIn(env.order, s.peers); }
      s.(replies := s.replies + [PeersReply(reply, InfosOf(s.peers, env.order))])
  }

  lemma {:induction false} OrderAllIn(order: seq<PeerId>, peers: map<PeerId, Peer>)
    requires IsOrder(order, peers.Keys)
    ensures AllIn(order, peers)
  {
    ElementsMember(order);
    assert forall i :: 0 <= i < |order| ==> order[i] in order;
  }

  // ── Runs ──

  /** What the main loop can receive: an item of either stream, or the end of either stream. */
  datatype Input =
    | Event(event: NetworkEvent)
    | Cmd(cmd: Command, env: Env)
    | EventsEnded
    | CommandsEnded

  predicate Ends(input: Input) {
    input.EventsEnded? || input.CommandsEnded?
  }

  /** The inputs the main loop handles before one of its streams ends. */
  function Handled(inputs: seq<Input>): (r: seq<Input>)
    ensures |r| <= |inputs| && r == inputs[..|r|]
    ensures forall i :: 0 <= i < |r| ==> !Ends(r[i])
    ensures |r| < |inputs| ==> Ends(inputs[|r|])
  {
    if inputs == [] || Ends(inputs[0]) then [] else [inputs[0]] + Handled(inputs[1..])
  }

  /** The loop runs up to the first end of either stream, and handles everything before it. */
  lemma {:induction false} StopsAtFirstEnd(inputs: seq<Input>, k: nat)
    ensures k == |Handled(inputs)| <==>
      && k <= |inputs|
      && (forall i :: 0 <= i < k ==> inputs[i].Event? || inputs[i].Cmd?)
      && (k < |inputs| ==> inputs[k].EventsEnded? || inputs[k].CommandsEnded?)
  {
    var done := Handled(inputs);
    assert forall i :: 0 <= i < |done| ==> done[i] == inputs[i];
  }

  /** A command's key order lists the keys the map has at that moment. */
  ghost predicate Possible(s: State, input: Input) {
    input.Cmd? ==> IsOrder(input.env.order, s.peers.Keys)
  }

  function Step(s: State, input: Input): State
    requires Possible(s, input)
  {
    match input
    case Event(event) => OnNetworkEvent(s, event)
    case Cmd(cmd, env) => OnCommand(s, cmd, env)
    case EventsEnded => s
    case CommandsEnded => s
  }

  ghost predicate PossibleRun(s: State, inputs: seq<Input>)
    decreases |inputs|
  {
    inputs == [] || (Possible(s, inputs[0]) && PossibleRun(Step(s, inputs[0]), inputs[1..]))
  }

  /** The state after handling `inputs` one at a time. */
  function Run(s: State, inputs: seq<Input>): State
    requires PossibleRun(s, inputs)
    decreases |inputs|
  {
    if inputs == [] then s else Run(Step(s, inputs[0]), inputs[1..])
  }

  lemma {:induction false} RunAppend(s: State, a: seq<Input>, b: seq<Input>)
    requires PossibleRun(s, a + b)
    ensures PossibleRun(s, a) && PossibleRun(Run(s, a), b)
    ensures Run(s, a + b) == Run(Run(s, a), b)
    decreases |a|
  {
    if a == [] {
      assert a + b == b;
    } else {
      assert (a + b)[0] == a[0] && (a + b)[1..] == a[1..] + b;
      RunAppend(Step(s, a[0]), a[1..], b);
    }
  }

  lemma {:induction false} RunJoin(s: State, a: seq<Input>, b: seq<Input>)
    requires PossibleRun(s, a) && PossibleRun(Run(s, a), b)
    ensures PossibleRun(s, a + b)
    ensures Run(s, a + b) == Run(Run(s, a), b)
    decreases |a|
  {
    if a == [] {
      assert a + b == b;
    } else {
      assert (a + b)[0] == a[0] && (a + b)[1..] == a[1..] + b;
      RunJoin(Step(s, a[0]), a[1..], b);
    }
  }

  /** One more input handled is one more step taken. */
  lemma {:induction false} RunSnoc(s: State, inputs: seq<Input>, k: nat)
    requires PossibleRun(s, inputs) && k < |inputs|
    ensures PossibleRun(s, inputs[..k]) && PossibleRun(s, inputs[..k + 1])
    ensures Possible(Run(s, inputs[..k]), inputs[k])
    ensures Run(s, inputs[..k + 1]) == Step(Run(s, inputs[..k]), inputs[k])
    decreases k
  {
    if k == 0 {
      assert inputs[..1] == [inputs[0]];
      assert inputs[..1][1..] == [];
    } else {
      RunSnoc(Step(s, inputs[0]), inputs[1..], k - 1);
      assert inputs[..k][1..] == inputs[1..][..k - 1];
      assert inputs[..k + 1][1..] == inputs[1..][..k];
    }
  }
}
