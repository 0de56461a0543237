/** The broadcast events against the peer map, over every run (src/network/manager.rs:224-266). */
module EventLog {
  import opened Wrappers
  import opened Cyclic
  import opened Peers
  import opened ManagerModel
  import opened FetchScan

  /** The live peers a subscriber reconstructs: a connect inserts, a disconnect removes. */
  function Replay(log: seq<ManagerEvent>): map<PeerId, PeerInfo> {
    if log == [] then map[] else Apply(Replay(log[..|log| - 1]), log[|log| - 1])
  }

  function Apply(live: map<PeerId, PeerInfo>, event: ManagerEvent): map<PeerId, PeerInfo> {
    match event
    case PeerConnected(info) => live[info.id := info]
    case PeerDisconnected(info, _) => live - {info.id}
    case NewBlock(_) => live
  }

  function Infos(peers: map<PeerId, Peer>): map<PeerId, PeerInfo> {
    map id | id in peers :: peers[id].info
  }

  /** Every map key is the id its peer carries. */
  ghost predicate Keyed(peers: map<PeerId, Peer>) {
    forall id :: id in peers ==> peers[id].info.id == id
  }

  /** An event fits the peers known before it: a disconnect names a live peer with its current info. */
  predicate Fits(before: map<PeerId, PeerInfo>, event: ManagerEvent) {
    match event
    case PeerConnected(_) => true
    case PeerDisconnected(info, _) => info.id in before && before[info.id] == info
    case NewBlock(_) => false
  }

  predicate Honest(log: seq<ManagerEvent>) {
    log == [] || (Honest(log[..|log| - 1]) && Fits(Replay(log[..|log| - 1]), log[|log| - 1]))
  }

  ghost predicate Inv(s: State) {
    && Keyed(s.peers)
    && Replay(s.events) == Infos(s.peers)
    && Honest(s.events)
  }

  lemma {:induction false} Snoc(log: seq<ManagerEvent>, event: ManagerEvent)
    requires Honest(log) && Fits(Replay(log), event)
    ensures Honest(log + [event])
    ensures Replay(log + [event]) == Apply(Replay(log), event)
  {
    assert (log + [event])[..|log|] == log;
  }

  lemma {:induction false} ConnectKeepsInv(s: State, info: SessionInfo, sender: Sender, now: nat)
    requires Inv(s)
    ensures Inv(OnPeerConnected(s, info, sender, now))
  {
    Snoc(s.events, PeerConnected(FromSession(info, sender, now).info));
  }

  lemma {:induction false} RemoveKeepsInv(s: State, id: PeerId, reason: Option<DisconnectReason>)
    requires Inv(s) && id in s.peers
    ensures Inv(OnPeerRemoved(s, id, reason))
  {
    Snoc(s.events, PeerDisconnected(s.peers[id].info, reason));
  }

  lemma {:induction false} RemoveEachKeepsInv(s: State, ids: seq<PeerId>)
    requires Inv(s)
    ensures RemoveEach(s, ids).Some? ==> Inv(RemoveEach(s, ids).value)
    decreases |ids|
  {
    if ids == [] || ids[0] !in s.peers {
    } else {
      RemoveKeepsInv(s, ids[0], None);
      RemoveEachKeepsInv(OnPeerRemoved(s, ids[0], None), ids[1..]);
    }
  }

  lemma {:induction false} FetchKeepsInv(s: State, blockHashes: seq<B256>, env: Env)
    requires Inv(s) && Ready(s, env)
    ensures Inv(Untargeted(s, blockHashes, env).0)
  {
    FetchNeverPanics(s, env);
    RemoveEachKeepsInv(s, Evicted(s, env));
  }

  lemma {:induction false} StepKeepsInv(s: State, input: Input)
    requires Inv(s) && Possible(s, input)
    ensures Inv(Step(s, input))
  {
    match input {
      case Event(ActivePeerSession(info, messages, now)) => ConnectKeepsInv(s, info, messages, now);
      case Event(SessionClosed(id, reason)) =>
        if id in s.peers {
          RemoveKeepsInv(s, id, reason);
        }
      case Event(PeerRemoved(id)) =>
        if id in s.peers {
          RemoveKeepsInv(s, id, None);
        }
      case Cmd(Fetch(None, blockHashes, _), env) =>
        if s.peers != map[] {
          OrderLength(env.order, s.peers.Keys);
          FetchKeepsInv(s, blockHashes, env);
        }
      case _ =>
    }
  }

  lemma {:induction false} RunKeepsInv(s: State, inputs: seq<Input>)
    requires Inv(s) && PossibleRun(s, inputs)
    ensures Inv(Run(s, inputs))
    decreases |inputs|
  {
    if inputs == [] {
    } else {
      StepKeepsInv(s, inputs[0]);
      RunKeepsInv(Step(s, inputs[0]), inputs[1..]);
    }
  }

  /** At every point of every run the events sent so far rebuild exactly the live peers, and each one fits. */
  lemma {:induction false} LogRebuildsPeers(inputs: seq<Input>)
    requires PossibleRun(INITIAL, inputs)
    ensures var s := Run(INITIAL, inputs);
      && Replay(s.events) == (map id | id in s.peers :: s.peers[id].info)
      && (forall id :: id in s.peers ==> s.peers[id].info.id == id)
      && Honest(s.events)
  {
    RunKeepsInv(INITIAL, inputs);
  }

  // ── Conservation ──

  /** How many connects of `id` found it absent. */
  function FreshConnects(log: seq<ManagerEvent>, id: PeerId): nat {
    if log == [] then 0
    else
      var init, last := log[..|log| - 1], log[|log| - 1];
      FreshConnects(init, id) + if last.PeerConnected? && last.info.id == id && id !in Replay(init) then 1 else 0
  }

  function Disconnects(log: seq<ManagerEvent>, id: PeerId): nat {
    if log == [] then 0
    else
      var init, last := log[..|log| - 1], log[|log| - 1];
      Disconnects(init, id) + if last.PeerDisconnected? && last.info.id == id then 1 else 0
  }

  function AllFreshConnects(log: seq<ManagerEvent>): nat {
    if log == [] then 0
    else
      var init, last := log[..|log| - 1], log[|log| - 1];
      AllFreshConnects(init) + if last.PeerConnected? && last.info.id !in Replay(init) then 1 else 0
  }

  function AllDisconnects(log: seq<ManagerEvent>): nat {
    if log == [] then 0
    else AllDisconnects(log[..|log| - 1]) + if log[|log| - 1].PeerDisconnected? then 1 else 0
  }

  lemma {:induction false} HonestConservation(log: seq<ManagerEvent>, id: PeerId)
    requires Honest(log)
    ensures FreshConnects(log, id) - Disconnects(log, id) == if id in Replay(log) then 1 else 0
    ensures AllFreshConnects(log) - AllDisconnects(log) == |Replay(log)|
  {
    if log == [] {
    } else {
      var init, last := log[..|log| - 1], log[|log| - 1];
      HonestConservation(init, id);
      var before := Replay(init);
      match last {
        case PeerConnected(info) =>
          assert before[info.id := info].Keys == before.Keys + {info.id};
        case PeerDisconnected(info, _) =>
          assert (before - {info.id}).Keys == before.Keys - {info.id};
      }
    }
  }

  /**
   * Over every run: per peer, fresh connects exceed disconnects by one while it lives and by none otherwise;
   * summed up, they leave the peer count.
   */
  lemma {:induction false} Conservation(inputs: seq<Input>, id: PeerId)
    requires PossibleRun(INITIAL, inputs)
    ensures var s := Run(INITIAL, inputs);
      && FreshConnects(s.events, id) - Disconnects(s.events, id) == (if id in s.peers then 1 else 0)
      && AllFreshConnects(s.events) - AllDisconnects(s.events) == |s.peers|
  {
    RunKeepsInv(INITIAL, inputs);
    var s := Run(INITIAL, inputs);
    HonestConservation(s.events, id);
    assert Replay(s.events).Keys == s.peers.Keys;
  }

  // ── Disconnects against connects ──

  predicate About(event: ManagerEvent, id: PeerId) {
    !event.NewBlock? && event.info.id == id
  }

  /** A live entry stems from a connect after which nothing was said of that peer. */
  lemma {:induction false} EntrySource(log: seq<ManagerEvent>, id: PeerId) returns (i: nat)
    requires Honest(log) && id in Replay(log)
    ensures i < |log| && log[i] == PeerConnected(Replay(log)[id]) && Replay(log)[id].id == id
    ensures forall k :: i < k < |log| ==> !About(log[k], id)
  {
    var m := |log| - 1;
    if About(log[m], id) {
      i := m;
    } else {
      i := EntrySource(log[..m], id);
    }
  }

  lemma {:induction false} HonestAt(log: seq<ManagerEvent>, k: nat)
    requires Honest(log) && k < |log|
    ensures Honest(log[..k]) && Fits(Replay(log[..k]), log[k])
  {
    var m := |log| - 1;
    if k == m {
    } else {
      HonestAt(log[..m], k);
      assert log[..m][..k] == log[..k];
    }
  }

  /** Over every run: a disconnect carries the info of a connect before it, with no event of that peer between. */
  lemma {:induction false} DisconnectAnswersConnect(inputs: seq<Input>, j: nat)
    requires PossibleRun(INITIAL, inputs)
    requires j < |Run(INITIAL, inputs).events| && Run(INITIAL, inputs).events[j].PeerDisconnected?
    ensures var log := Run(INITIAL, inputs).events;
      exists i :: 0 <= i < j && log[i] == PeerConnected(log[j].info)
        && forall k :: i < k < j ==> !About(log[k], log[j].info.id)
  {
    RunKeepsInv(INITIAL, inputs);
    var log := Run(INITIAL, inputs).events;
    HonestAt(log, j);
    var i := EntrySource(log[..j], log[j].info.id);
    assert log[i] == log[..j][i];
    forall k | i < k < j ensures !About(log[k], log[j].info.id) {
      assert log[k] == log[..j][k];
    }
  }

  /** Over every run: between two disconnects of one peer there is a connect of it. */
  lemma {:induction false} ReconnectBetween(inputs: seq<Input>, i: nat, j: nat)
    requires PossibleRun(INITIAL, inputs)
    requires i < j < |Run(INITIAL, inputs).events|
    requires var log := Run(INITIAL, inputs).events;
      log[i].PeerDisconnected? && log[j].PeerDisconnected? && log[i].info.id == log[j].info.id
    ensures var log := Run(INITIAL, inputs).events;
      exists k :: i < k < j && log[k].PeerConnected? && log[k].info.id == log[j].info.id
  {
    DisconnectAnswersConnect(inputs, j);
    var log := Run(INITIAL, inputs).events;
    var k :| 0 <= k < j && log[k] == PeerConnected(log[j].info)
      && forall m :: k < m < j ==> !About(log[m], log[j].info.id);
    assert About(log[i], log[j].info.id);
  }

  // ── Snapshots ──

  /** `infos` lists each entry of `live` once and nothing else, in some order. */
  ghost predicate ListsExactly(infos: seq<PeerInfo>, live: map<PeerId, PeerInfo>) {
    && |infos| == |live|
    && (forall i :: 0 <= i < |infos| ==> infos[i].id in live && live[infos[i].id] == infos[i])
    && (forall i, j :: 0 <= i < j < |infos| ==> infos[i].id != infos[j].id)
  }

  lemma {:induction false} InfosListed(s: State, order: seq<PeerId>)
    requires Inv(s) && IsOrder(order, s.peers.Keys) && AllIn(order, s.peers)
    ensures ListsExactly(InfosOf(s.peers, order), Replay(s.events))
  {
    OrderLength(order, s.peers.Keys);
    NoDupPairwise(order);
    assert Replay(s.events).Keys == s.peers.Keys;
  }

  /** A snapshot lists each entry of the replayed log once and nothing else, and asking for it changes nothing. */
  lemma {:induction false} SnapshotMatchesLog(inputs: seq<Input>, reply: Ticket, env: Env)
    requires PossibleRun(INITIAL, inputs)
    requires IsOrder(env.order, Run(INITIAL, inputs).peers.Keys)
    ensures var s := Run(INITIAL, inputs);
      var s' := OnCommand(s, ConnectedPeers(reply), env);
      && s' == s.(replies := s'.replies)
      && |s'.replies| == |s.replies| + 1 && s.replies <= s'.replies
      && var answer := s'.replies[|s.replies|];
      && answer.PeersReply? && answer.to == reply
      && ListsExactly(answer.infos, Replay(s.events))
  {
    RunKeepsInv(INITIAL, inputs);
    var s := Run(INITIAL, inputs);
    OrderAllIn(env.order, s.peers);
    InfosListed(s, env.order);
  }

  lemma {:induction false} TargetedStep(s: State, id: PeerId, blockHashes: seq<B256>, env: Env)
    requires Keyed(s.peers) && IsOrder(env.order, s.peers.Keys)
    ensures var (s', result) := DoFetch(s, Some(id), blockHashes, env);
      && s' == s.(contacts := s'.contacts)
      && (id in s.peers ==> s'.contacts == s.contacts + [Contact(s.peers[id], Request(s.peers[id], blockHashes))])
      && (id !in s.peers ==> s'.contacts == s.contacts && result.Failure?)
      && (id in s.peers ==> Says(s, env, id, result))
      && (result.Failure? ==> result.error.id == if s.peers == map[] then DEFAULT_PEER_ID else id)
  {
    if id in s.peers {
      FetchErrors(s.peers[id], Conduct(env.net, id));
      AnswerSaid(s, env, id, Answer(s.peers, env.net, id));
    }
  }

  /**
   * A targeted fetch asks its target alone, returns what the target says, changes nothing else, and blames the target
   * for any failure.
   */
  lemma {:induction false} TargetedIsLocal(inputs: seq<Input>, id: PeerId, blockHashes: seq<B256>, env: Env)
    requires PossibleRun(INITIAL, inputs)
    requires IsOrder(env.order, Run(INITIAL, inputs).peers.Keys)
    ensures var s := Run(INITIAL, inputs);
      var (s', result) := DoFetch(s, Some(id), blockHashes, env);
      && s' == s.(contacts := s'.contacts)
      && (id in s.peers ==> s'.contacts == s.contacts + [Contact(s.peers[id], Request(s.peers[id], blockHashes))])
      && (id !in s.peers ==> s'.contacts == s.contacts && result.Failure?)
      && (id in s.peers ==> Says(s, env, id, result))
      && (result.Failure? ==> result.error.id == if s.peers == map[] then DEFAULT_PEER_ID else id)
  {
    RunKeepsInv(INITIAL, inputs);
    TargetedStep(Run(INITIAL, inputs), id, blockHashes, env);
  }

  lemma {:induction false} FailureNamesLast(s: State, blockHashes: seq<B256>, env: Env)
    requires Keyed(s.peers) && Ready(s, env) && Untargeted(s, blockHashes, env).1.Failure?
    ensures Untargeted(s, blockHashes, env).1.error.id == ScanOrder(s, env)[|env.order| - 1]
  {
    StopIsFirst(s, env);
    var last := ScanOrder(s, env)[|env.order| - 1];
    FetchErrors(s.peers[last], Conduct(env.net, last));
  }

  /** When every peer fails, the error returned is that of the last peer in cyclic order, by name. */
  lemma {:induction false} TotalFailureNamesLast(inputs: seq<Input>, blockHashes: seq<B256>, env: Env)
    requires PossibleRun(INITIAL, inputs)
    requires Ready(Run(INITIAL, inputs), env)
    ensures var s := Run(INITIAL, inputs);
      var result := Untargeted(s, blockHashes, env).1;
      result.Failure? ==> result.error.id == ScanOrder(s, env)[|env.order| - 1]
  {
    RunKeepsInv(INITIAL, inputs);
    var s := Run(INITIAL, inputs);
    if Untargeted(s, blockHashes, env).1.Failure? {
      FailureNamesLast(s, blockHashes, env);
    }
  }

  // ── Sessions ──

  predicate Opens(input: Input, id: PeerId) {
    input.Event? && input.event.ActivePeerSession? && input.event.info.peerId == id
  }

  predicate Closes(input: Input, id: PeerId) {
    input.Event? && (input.event.SessionClosed? || input.event.PeerRemoved?) && input.event.peerId == id
  }

  /** A peer live after a step was opened by it, or lived through it unchanged. */
  lemma {:induction false} EntryAfterStep(s: State, input: Input, id: PeerId)
    requires Possible(s, input) && id in Step(s, input).peers
    ensures !Closes(input, id)
    ensures Opens(input, id) ==>
      Step(s, input).peers[id] == FromSession(input.event.info, input.event.messages, input.event.now)
    ensures !Opens(input, id) ==> id in s.peers && s.peers[id] == Step(s, input).peers[id]
  {
    if input.Cmd? && input.cmd.Fetch? && input.cmd.target == None && s.peers != map[] {
      OrderLength(input.env.order, s.peers.Keys);
      FetchEvictions(s, input.cmd.blockHashes, input.env);
    }
  }

  /**
   * Over every run: a live peer is the one its latest session brought, sender included, and that session was never
   * closed.
   */
  lemma {:induction false} LiveSessionIsLatest(inputs: seq<Input>, id: PeerId) returns (i: nat)
    requires PossibleRun(INITIAL, inputs) && id in Run(INITIAL, inputs).peers
    ensures i < |inputs| && Opens(inputs[i], id)
    ensures var event, peer := inputs[i].event, Run(INITIAL, inputs).peers[id];
      && peer.sender == event.messages
      && peer.info.id == id == event.info.peerId
      && peer.info.remoteAddr == event.info.remoteAddr
      && peer.info.ethVersion == event.info.version
      && peer.info.clientVersion == event.info.clientVersion
      && peer.info.capabilities == event.info.capabilities
      && peer.info.connectedAt == event.now
    ensures forall k :: i < k < |inputs| ==> !Opens(inputs[k], id) && !Closes(inputs[k], id)
    decreases |inputs|
  {
    var m := |inputs| - 1;
    var init, last := inputs[..m], inputs[m];
    assert inputs == init + [last];
    RunAppend(INITIAL, init, [last]);
    assert Run(Run(INITIAL, init), [last]) == Step(Run(INITIAL, init), last);
    EntryAfterStep(Run(INITIAL, init), last, id);
    if Opens(last, id) {
      i := m;
    } else {
      i := LiveSessionIsLatest(init, id);
    }
  }
}
