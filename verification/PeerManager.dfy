/** The actor itself: fields updated in place, proved step by step against ManagerModel. */
module Manager {
  import opened Wrappers
  import opened Cyclic
  import opened Peers
  import opened ManagerModel
  import opened FetchScan
  import EventLog

  class PeerManager {
    var peers: map<PeerId, Peer>
    var rrIndex: nat
    /** Everything broadcast on the event channel so far. */
    var events: seq<ManagerEvent>
    /** Everything sent back on the commands' reply channels so far. */
    var replies: seq<Reply>
    /** Every request put to a peer so far. */
    ghost var contacts: seq<Contact>

    ghost function Abs(): State
      reads this
    {
      State(peers, rrIndex, events, replies, contacts)
    }

    constructor ()
      ensures Abs() == INITIAL && EventLog.Inv(Abs())
    {
      peers := map[];
      rrIndex := 0;
      events := [];
      replies := [];
      contacts := [];
    }

    /**
     * The main loop: returns how many inputs it handled before one of its streams ended. It keeps the invariant
     * that the events broadcast so far rebuild the peer map.
     */
    method RunLoop(inputs: seq<Input>) returns (handled: nat)
      requires PossibleRun(Abs(), Handled(inputs))
      modifies this
      ensures handled == |Handled(inputs)|
      ensures handled < |inputs| ==> inputs[handled].EventsEnded? || inputs[handled].CommandsEnded?
      ensures Abs() == Run(old(Abs()), Handled(inputs))
      ensures EventLog.Inv(old(Abs())) ==> EventLog.Inv(Abs())
    {
      handled := 0;
      ghost var start, todo := Abs(), Handled(inputs);
      assert todo[..0] == [];
      while handled < |inputs|
        invariant handled <= |todo|
        invariant PossibleRun(start, todo[..handled]) && Abs() == Run(start, todo[..handled])
      {
        if inputs[handled].EventsEnded? || inputs[handled].CommandsEnded? {
          break;
        }
        assert todo[handled] == inputs[handled];
        RunSnoc(start, todo, handled);
        match inputs[handled] {
          case Event(event) => HandleNetworkEvent(event);
          case Cmd(cmd, env) => HandleCommand(cmd, env);
        }
        handled := handled + 1;
      }
      assert todo[..handled] == todo;
      if EventLog.Inv(start) {
        EventLog.RunKeepsInv(start, todo);
      }
    }

    method HandleNetworkEvent(event: NetworkEvent)
      modifies this
      ensures Abs() == OnNetworkEvent(old(Abs()), event)
    {
      match event {
        case ActivePeerSession(info, messages, now) =>
          OnPeerConnected(info, messages, now);
        case SessionClosed(id, reason) =>
          if id in peers {
            OnPeerRemoved(id, reason);
          }
        case PeerRemoved(id) =>
          if id in peers {
            OnPeerRemoved(id, None);
          }
        case OtherPeerEvent =>
      }
    }

    method OnPeerConnected(info: SessionInfo, sender: Sender, now: nat)
      modifies this
      ensures Abs() == ManagerModel.OnPeerConnected(old(Abs()), info, sender, now)
    {
      var peer := FromSession(info, sender, now);
      var peerInfo := peer.info;
      peers := peers[peer.info.id := peer];
      events := events + [PeerConnected(peerInfo)];
    }

    /** The lookup is unconditional: calling this for an absent peer is the panic every caller must rule out. */
    method OnPeerRemoved(id: PeerId, reason: Option<DisconnectReason>)
      requires id in peers
      modifies this
      ensures Abs() == ManagerModel.OnPeerRemoved(old(Abs()), id, reason)
    {
      var info := peers[id].info;
      if id in peers {
        peers := peers - {id};
        events := events + [PeerDisconnected(info, reason)];
      }
    }

    method HandleCommand(cmd: Command, env: Env)
      requires IsOrder(env.order, peers.Keys)
      modifies this
      ensures Abs() == OnCommand(old(Abs()), cmd, env)
    {
      match cmd {
        case Fetch(target, blockHashes, reply) =>
          var result := DoFetchReceipts(target, blockHashes, env);
          replies := replies + [FetchReply(reply, result)];
        case ConnectedPeers(reply) =>
          OrderAllIn(env.order, peers);
          replies := replies + [PeersReply(reply, InfosOf(peers, env.order))];
      }
    }

    method DoFetchReceipts(target: Option<PeerId>, blockHashes: seq<B256>, env: Env) returns (result: FetchResult)
      requires IsOrder(env.order, peers.Keys)
      modifies this
      ensures Abs() == DoFetch(old(Abs()), target, blockHashes, env).0
      ensures result == DoFetch(old(Abs()), target, blockHashes, env).1
    {
      if peers == map[] {
        return Failure(Disconnected(DEFAULT_PEER_ID));
      }
      match target {
        case Some(id) =>
          if id in peers {
            contacts := contacts + [Contact(peers[id], Request(peers[id], blockHashes))];
            result := FetchReceipts(peers[id], Conduct(env.net, id));
          } else {
            result := Failure(Disconnected(id));
          }
        case None =>
          OrderLength(env.order, peers.Keys);
          result := FetchFromAny(blockHashes, env);
      }
    }

    /** The untargeted branch: scan the key snapshot from the cursor, stop at the first success, then evict. */
    method FetchFromAny(blockHashes: seq<B256>, env: Env) returns (result: FetchResult)
      requires Ready(Abs(), env)
      modifies this
      ensures Abs() == Untargeted(old(Abs()), blockHashes, env).0
      ensures result == Untargeted(old(Abs()), blockHashes, env).1
    {
      ghost var s := Abs();
      var total := |env.order|;
      rrIndex := rrIndex % total;
      assert rrIndex == Wrap(s.rrIndex, total) by {
        WrapIsRemainder(s.rrIndex, total);
      }

      var lastErr := Disconnected(DEFAULT_PEER_ID);
      var toEvict: seq<PeerId> := [];
      ghost var asked := contacts;
      ScanStarts(s, blockHashes, env);
      for attempt := 0 to total
        invariant rrIndex == Wrap(s.rrIndex, total)
        invariant unchanged(`peers) && unchanged(`events) && unchanged(`replies) && unchanged(`contacts)
        invariant Scanned(s, blockHashes, env, attempt, toEvict, lastErr, asked)
      {
        var idx := (rrIndex + attempt) % total;
        assert idx == Wrap(Wrap(s.rrIndex, total) + attempt, total) by {
          WrapIsRemainder(rrIndex + attempt, total);
        }
        var peerId := env.order[idx];
        ScanIndex(s, env, attempt, idx);

        assert peerId in peers;
        if peerId in peers {
          var peer := peers[peerId];
          var answer := FetchReceipts(peer, Conduct(env.net, peerId));
          if answer.Success? {
            WrapIsRemainder(idx + 1, total);
            var cursor := (idx + 1) % total;
            ScanStops(s, blockHashes, env, attempt, toEvict, lastErr, asked, peerId, cursor);
            Settle(cursor, toEvict, asked + [Contact(peer, Request(peer, blockHashes))]);
            return answer;
          }
          ghost var evicted, failed, before := toEvict, lastErr, asked;
          asked := asked + [Contact(peer, Request(peer, blockHashes))];
          if answer.error.Disconnected? {
            toEvict := toEvict + [peerId];
          }
          lastErr := answer.error;
          ScanGoesOn(s, blockHashes, env, attempt, evicted, failed, before, peerId, lastErr, toEvict, asked);
        }
      }

      ScanRunsOut(s, blockHashes, env, toEvict, lastErr, asked, rrIndex);
      Settle(rrIndex, toEvict, asked);
      return Failure(lastErr);
    }

    /** The end of a scan: move the cursor, then carry out the deferred removals. */
    method Settle(cursor: nat, toEvict: seq<PeerId>, ghost asked: seq<Contact>)
      requires AllIn(toEvict, peers) && NoDup(toEvict)
      modifies this
      ensures Abs() == EvictAll(old(Abs()).(rrIndex := cursor, contacts := asked), toEvict)
    {
      rrIndex := cursor;
      contacts := asked;
      EvictEach(toEvict);
    }

    /** The deferred removals, one after the other, each through the panicking routine. */
    method EvictEach(ids: seq<PeerId>)
      requires AllIn(ids, peers) && NoDup(ids)
      modifies this
      ensures Abs() == EvictAll(old(Abs()), ids)
    {
      ghost var before := peers;
      NoDupPairwise(ids);
      assert Departures(before, ids[..0]) == [];
      for i := 0 to |ids|
        invariant peers == before - Elements(ids[..i])
        invariant events == old(events) + Departures(before, ids[..i])
        invariant unchanged(`rrIndex) && unchanged(`replies) && unchanged(`contacts)
      {
        ElementsMember(ids[..i]);
        assert ids[i] !in ids[..i];
        assert ids[..i + 1] == ids[..i] + [ids[i]];
        OnPeerRemoved(ids[i], None);
        assert Departures(before, ids[..i + 1])
            == Departures(before, ids[..i]) + [PeerDisconnected(before[ids[i]].info, None)];
      }
      assert ids[..|ids|] == ids;
    }
  }
}
