/** What one untargeted fetch does, said of the peers rather than of the scan (src/network/manager.rs:303-345). */
module FetchScan {
  import opened Wrappers
  import opened Cyclic
  import opened Peers
  import opened ManagerModel

  lemma {:induction false} ContactsSnoc(peers: map<PeerId, Peer>, ids: seq<PeerId>, id: PeerId, blockHashes: seq<B256>)
    requires AllIn(ids, peers) && id in peers
    ensures AllIn(ids + [id], peers)
    ensures ContactsOf(peers, ids + [id], blockHashes)
         == ContactsOf(peers, ids, blockHashes) + [Contact(peers[id], Request(peers[id], blockHashes))]
  {
  }

  lemma {:induction false} RestrictSnoc(ids: seq<PeerId>, id: PeerId, keep: set<PeerId>)
    ensures Restrict(ids + [id], keep) == Restrict(ids, keep) + if id in keep then [id] else []
  {
    assert (ids + [id])[..|ids|] == ids;
  }

  lemma {:induction false} FirstOkIsFirst(peers: map<PeerId, Peer>, net: map<PeerId, Remote>, ids: seq<PeerId>)
    requires AllIn(ids, peers)
    ensures var k := FirstOk(peers, net, ids);
      && (forall j :: 0 <= j < k ==> Answer(peers, net, ids[j]).Failure?)
      && (k < |ids| ==> Answer(peers, net, ids[k]).Success?)
  {
    if ids == [] || Answer(peers, net, ids[0]).Success? {
    } else {
      FirstOkIsFirst(peers, net, ids[1..]);
      assert forall j :: 1 <= j < |ids| ==> ids[j] == ids[1..][j - 1];
    }
  }

  /** The scan stops at the first peer that answers. */
  lemma {:induction false} StopIsFirst(s: State, env: Env)
    requires Ready(s, env)
    ensures var rot, k := ScanOrder(s, env), Stop(s, env);
      && (forall j :: 0 <= j < k ==> Answer(s.peers, env.net, rot[j]).Failure?)
      && (k < |rot| ==> Answer(s.peers, env.net, rot[k]).Success?)
  {
    FirstOkIsFirst(s.peers, env.net, ScanOrder(s, env));
  }

  lemma {:induction false} StopHere(s: State, env: Env, attempt: nat)
    requires Ready(s, env) && attempt < |env.order| && attempt <= Stop(s, env)
    ensures Stop(s, env) == attempt <==> Answer(s.peers, env.net, ScanOrder(s, env)[attempt]).Success?
  {
    StopIsFirst(s, env);
  }

  lemma {:induction false} ScanIsOrder(s: State, env: Env)
    requires Ready(s, env)
    ensures IsOrder(ScanOrder(s, env), s.peers.Keys)
  {
    RotateIsOrder(env.order, Wrap(s.rrIndex, |env.order|), s.peers.Keys);
  }

  /** The deferred removals never unwrap an absent peer: their list has no duplicate and names present peers only. */
  lemma {:induction false} EvictionsRemovable(s: State, env: Env)
    requires Ready(s, env)
    ensures AllIn(Evicted(s, env), s.peers) && NoDup(Evicted(s, env))
  {
    ScanIsOrder(s, env);
    NoDupTake(ScanOrder(s, env), Stop(s, env));
    RestrictNoDup(ScanOrder(s, env)[..Stop(s, env)], Gone(s.peers, env.net));
  }

  // ── The loop's progress, one attempt at a time ──

  /** `attempt` peers were asked in scan order and all failed; those gone are set aside. */
  ghost predicate Scanned(
    s: State, blockHashes: seq<B256>, env: Env, attempt: nat, toEvict: seq<PeerId>, lastErr: PeerError,
    contacts: seq<Contact>)
    requires Ready(s, env) && attempt <= |env.order|
  {
    && attempt <= Stop(s, env)
    && toEvict == Restrict(ScanOrder(s, env)[..attempt], Gone(s.peers, env.net))
    && (0 < attempt ==> Answer(s.peers, env.net, ScanOrder(s, env)[attempt - 1]) == Failure(lastErr))
    && contacts == s.contacts + ContactsOf(s.peers, ScanOrder(s, env)[..attempt], blockHashes)
  }

  lemma {:induction false} ScanStarts(s: State, blockHashes: seq<B256>, env: Env)
    requires Ready(s, env)
    ensures Scanned(s, blockHashes, env, 0, [], Disconnected(DEFAULT_PEER_ID), s.contacts)
  {
    assert ContactsOf(s.peers, ScanOrder(s, env)[..0], blockHashes) == [];
  }

  /** The scan's modular index is in range, and walks the scan order. */
  lemma {:induction false} ScanIndex(s: State, env: Env, attempt: nat, idx: nat)
    requires Ready(s, env) && attempt < |env.order|
    requires idx == Wrap(Wrap(s.rrIndex, |env.order|) + attempt, |env.order|)
    ensures env.order[idx] == ScanOrder(s, env)[attempt]
    ensures env.order[idx] in s.peers
  {
  }

  lemma {:induction false} FirstAsked(t: State, env: Env)
    requires Ready(t, env)
    ensures ScanOrder(t, env)[0] == env.order[Wrap(t.rrIndex, |env.order|)]
  {
    WrapNear(Wrap(t.rrIndex, |env.order|) + 0, |env.order|);
  }

  lemma {:induction false} ScanAsks(
    s: State, blockHashes: seq<B256>, env: Env, attempt: nat, asked: seq<Contact>, id: PeerId)
    requires Ready(s, env) && attempt < |env.order| && id == ScanOrder(s, env)[attempt]
    requires asked == s.contacts + ContactsOf(s.peers, ScanOrder(s, env)[..attempt], blockHashes)
    ensures asked + [Contact(s.peers[id], Request(s.peers[id], blockHashes))]
         == s.contacts + ContactsOf(s.peers, ScanOrder(s, env)[..attempt + 1], blockHashes)
  {
    var rot := ScanOrder(s, env);
    assert rot[..attempt + 1] == rot[..attempt] + [id];
    ContactsSnoc(s.peers, rot[..attempt], id, blockHashes);
  }

  lemma {:induction false} ScanGoesOn(
    s: State, blockHashes: seq<B256>, env: Env, attempt: nat, toEvict: seq<PeerId>, lastErr: PeerError,
    asked: seq<Contact>, id: PeerId, error: PeerError, more: seq<PeerId>, longer: seq<Contact>)
    requires Ready(s, env) && attempt < |env.order| && id == ScanOrder(s, env)[attempt]
    requires Scanned(s, blockHashes, env, attempt, toEvict, lastErr, asked)
    requires Answer(s.peers, env.net, id) == Failure(error)
    requires more == if error.Disconnected? then toEvict + [id] else toEvict
    requires longer == asked + [Contact(s.peers[id], Request(s.peers[id], blockHashes))]
    ensures Scanned(s, blockHashes, env, attempt + 1, more, error, longer)
  {
    var rot := ScanOrder(s, env);
    assert rot[..attempt + 1] == rot[..attempt] + [id];
    StopHere(s, env, attempt);
    RestrictSnoc(rot[..attempt], id, Gone(s.peers, env.net));
    ScanAsks(s, blockHashes, env, attempt, asked, id);
  }

  lemma {:induction false} StopsAt(s: State, env: Env, attempt: nat)
    requires Ready(s, env) && attempt < |env.order| && attempt <= Stop(s, env)
    requires Answer(s.peers, env.net, ScanOrder(s, env)[attempt]).Success?
    ensures Stop(s, env) == attempt
    ensures Contacted(s, env) == ScanOrder(s, env)[..attempt + 1]
    ensures NextCursor(s, env) == Wrap(Wrap(Wrap(s.rrIndex, |env.order|) + attempt, |env.order|) + 1, |env.order|)
  {
    StopHere(s, env, attempt);
    WrapAdd(Wrap(s.rrIndex, |env.order|) + attempt, 1, |env.order|);
  }

  lemma {:induction false} ScanStops(
    s: State, blockHashes: seq<B256>, env: Env, attempt: nat, toEvict: seq<PeerId>, lastErr: PeerError,
    asked: seq<Contact>, id: PeerId, cursor: nat)
    requires Ready(s, env) && attempt < |env.order| && id == ScanOrder(s, env)[attempt]
    requires cursor == Wrap(Wrap(Wrap(s.rrIndex, |env.order|) + attempt, |env.order|) + 1, |env.order|)
    requires Scanned(s, blockHashes, env, attempt, toEvict, lastErr, asked)
    requires Answer(s.peers, env.net, id).Success?
    ensures AllIn(toEvict, s.peers) && NoDup(toEvict)
    ensures Untargeted(s, blockHashes, env)
         == (EvictAll(s.(rrIndex := cursor,
                         contacts := asked + [Contact(s.peers[id], Request(s.peers[id], blockHashes))]),
                      toEvict),
             Answer(s.peers, env.net, id))
  {
    StopsAt(s, env, attempt);
    EvictionsRemovable(s, env);
    ScanAsks(s, blockHashes, env, attempt, asked, id);
  }

  lemma {:induction false} ScanRunsOut(
    s: State, blockHashes: seq<B256>, env: Env, toEvict: seq<PeerId>, lastErr: PeerError, asked: seq<Contact>,
    cursor: nat)
    requires Ready(s, env) && cursor == Wrap(s.rrIndex, |env.order|)
    requires Scanned(s, blockHashes, env, |env.order|, toEvict, lastErr, asked)
    ensures AllIn(toEvict, s.peers) && NoDup(toEvict)
    ensures Untargeted(s, blockHashes, env)
         == (EvictAll(s.(rrIndex := cursor, contacts := asked), toEvict), Failure(lastErr))
  {
    var rot := ScanOrder(s, env);
    assert rot[..|rot|] == rot;
    assert Stop(s, env) == |rot|;
    EvictionsRemovable(s, env);
  }

  // ── What one untargeted fetch means for the peers ──

  /** `result` is what peer `id` tells in this environment; a session the environment lacks refuses the send. */
  ghost predicate Says(s: State, env: Env, id: PeerId, result: FetchResult)
    requires id in s.peers
  {
    if id in env.net then Told(s.peers[id], env.net[id], result)
    else result == Failure(Disconnected(s.peers[id].info.id))
  }

  /** Peer `id` delivers a response to its request in this environment. */
  predicate Responds(s: State, env: Env, id: PeerId)
    requires id in s.peers
  {
    id in env.net && Delivers(s.peers[id], env.net[id])
  }

  lemma {:induction false} AnswerSaid(s: State, env: Env, id: PeerId, result: FetchResult)
    requires id in s.peers
    ensures result == Answer(s.peers, env.net, id) <==> Says(s, env, id, result)
    ensures Answer(s.peers, env.net, id).Success? <==> Responds(s, env, id)
  {
    ResponseDecides(s.peers[id], Conduct(env.net, id), result);
  }

  /** The `k`-th peer a fetch asks stands `k` places behind the cursor in the key order, cyclically. */
  lemma {:induction false} ScanPlaces(s: State, env: Env, k: nat)
    requires Ready(s, env) && k < |env.order|
    ensures ScanOrder(s, env)[k] == env.order[(s.rrIndex + k) % |env.order|]
    ensures ScanOrder(s, env)[k] in s.peers
  {
    WrapAdd(s.rrIndex, k, |env.order|);
    WrapIsRemainder(s.rrIndex + k, |env.order|);
  }

  /** The scan stops at the first peer that responds, if any does. */
  lemma {:induction false} StopsAtFirstResponse(s: State, env: Env)
    requires Ready(s, env)
    ensures var rot, k := ScanOrder(s, env), Stop(s, env);
      && (forall j :: 0 <= j < k ==> !Responds(s, env, rot[j]))
      && (k < |rot| ==> Responds(s, env, rot[k]))
      && (k < |rot| <==> exists id :: id in s.peers && Responds(s, env, id))
  {
    var rot, k := ScanOrder(s, env), Stop(s, env);
    StopIsFirst(s, env);
    forall j | 0 <= j < |rot| ensures Answer(s.peers, env.net, rot[j]).Success? <==> Responds(s, env, rot[j]) {
      AnswerSaid(s, env, rot[j], Answer(s.peers, env.net, rot[j]));
    }
    if k == |rot| {
      ScanIsOrder(s, env);
      ElementsMember(rot);
      forall id | id in s.peers ensures !Responds(s, env, id) {
        var j := IndexOf(rot, id);
      }
    }
  }

  /**
   * The fetch succeeds exactly when some peer would respond. It returns the receipts of the first response in scan
   * order, and otherwise the last peer's own failure.
   */
  lemma {:induction false} FetchOutcome(s: State, blockHashes: seq<B256>, env: Env)
    requires Ready(s, env)
    ensures var result := Untargeted(s, blockHashes, env).1;
      var rot, k := ScanOrder(s, env), Stop(s, env);
      && (result.Success? <==> exists id :: id in s.peers && Responds(s, env, id))
      && (forall j :: 0 <= j < k ==> !Responds(s, env, rot[j]))
      && (result.Success? ==> k < |rot| && Responds(s, env, rot[k]) && Says(s, env, rot[k], result))
      && (result.Failure? ==> k == |rot| && Says(s, env, rot[|rot| - 1], result))
  {
    var rot, k := ScanOrder(s, env), Stop(s, env);
    StopsAtFirstResponse(s, env);
    AnswerSaid(s, env, rot[if k < |rot| then k else |rot| - 1], Untargeted(s, blockHashes, env).1);
  }

  /** What an untargeted fetch has to return, without the scan: the first response, or the last peer's failure. */
  ghost predicate FirstResponse(s: State, env: Env, result: FetchResult)
    requires Ready(s, env)
  {
    var rot := ScanOrder(s, env);
    if result.Success? then
      exists k :: 0 <= k < |rot| && Responds(s, env, rot[k]) && Says(s, env, rot[k], result)
        && forall j :: 0 <= j < k ==> !Responds(s, env, rot[j])
    else
      && (forall j :: 0 <= j < |rot| ==> !Responds(s, env, rot[j]))
      && Says(s, env, rot[|rot| - 1], result)
  }

  /** That determines the result, and it is the one the fetch returns. */
  lemma {:induction false} FetchIsFirstResponse(s: State, blockHashes: seq<B256>, env: Env, result: FetchResult)
    requires Ready(s, env)
    ensures FirstResponse(s, env, result) <==> result == Untargeted(s, blockHashes, env).1
  {
    var rot, k := ScanOrder(s, env), Stop(s, env);
    StopsAtFirstResponse(s, env);
    AnswerSaid(s, env, rot[if k < |rot| then k else |rot| - 1], result);
  }

  /**
   * What a fetch command has to come to: with no peer left, the zero id's disconnect; for a target, what that peer
   * says, or its disconnect when it is absent; otherwise the first response.
   */
  ghost predicate Rightful(s: State, env: Env, target: Option<PeerId>, result: FetchResult) {
    if s.peers == map[] then result == Failure(Disconnected(0))
    else
      match target
      case Some(id) => if id in s.peers then Says(s, env, id, result) else result == Failure(Disconnected(id))
      case None => Ready(s, env) && FirstResponse(s, env, result)
  }

  /** Exactly one result is rightful, and the fetch returns it. */
  lemma {:induction false} FetchIsRightful(
    s: State, target: Option<PeerId>, blockHashes: seq<B256>, env: Env, result: FetchResult)
    requires IsOrder(env.order, s.peers.Keys)
    ensures Rightful(s, env, target, result) <==> result == DoFetch(s, target, blockHashes, env).1
  {
    if s.peers == map[] {
    } else {
      match target {
        case Some(id) =>
          if id in s.peers {
            AnswerSaid(s, env, id, result);
          }
        case None =>
          OrderLength(env.order, s.peers.Keys);
          FetchIsFirstResponse(s, blockHashes, env, result);
      }
    }
  }

  /** The state a fetch leaves, part by part. */
  lemma {:induction false} FetchParts(s: State, blockHashes: seq<B256>, env: Env)
    requires Ready(s, env)
    ensures Untargeted(s, blockHashes, env).0.peers == s.peers - Elements(Evicted(s, env))
    ensures Untargeted(s, blockHashes, env).0.rrIndex == NextCursor(s, env)
  {
  }

  lemma {:induction false} CursorAfterServer(s: State, env: Env, idx: nat)
    requires Ready(s, env) && idx < |env.order|
    requires Stop(s, env) < |env.order| && env.order[idx] == ScanOrder(s, env)[Stop(s, env)]
    ensures NextCursor(s, env) == if idx + 1 == |env.order| then 0 else idx + 1
  {
    var n, k := |env.order|, Stop(s, env);
    ScanIndex(s, env, k, Wrap(Wrap(s.rrIndex, n) + k, n));
    NoDupIndex(env.order, idx, Wrap(Wrap(s.rrIndex, n) + k, n));
    WrapAdd(Wrap(s.rrIndex, n) + k, 1, n);
  }

  /**
   * After a success the cursor stands just past the server's place in the key order; after a total failure it is only
   * normalised.
   */
  lemma {:induction false} CursorPassesServer(s: State, blockHashes: seq<B256>, env: Env, idx: nat)
    requires Ready(s, env) && idx < |env.order|
    ensures var s' := Untargeted(s, blockHashes, env).0;
      var n := |env.order|;
      && s'.rrIndex < n
      && (Stop(s, env) < n && env.order[idx] == ScanOrder(s, env)[Stop(s, env)] ==>
        s'.rrIndex == if idx + 1 == n then 0 else idx + 1)
      && (Stop(s, env) == n ==> s'.rrIndex == Wrap(s.rrIndex, n))
  {
    FetchParts(s, blockHashes, env);
    if Stop(s, env) < |env.order| && env.order[idx] == ScanOrder(s, env)[Stop(s, env)] {
      CursorAfterServer(s, env, idx);
    }
  }

  /**
   * Across the manager and the peer: a peer leaves exactly when it was asked before the scan stopped and its
   * request was never enqueued. Whoever accepted the request stays, whatever became of the reply; nobody is
   * added or altered.
   */
  lemma {:induction false} FetchEvictions(s: State, blockHashes: seq<B256>, env: Env)
    requires Ready(s, env)
    ensures var s' := Untargeted(s, blockHashes, env).0;
      && s'.peers.Keys <= s.peers.Keys
      && (forall id :: id in s'.peers ==> s'.peers[id] == s.peers[id])
      && (forall id :: id in s.peers ==>
        (id !in s'.peers <==> id in ScanOrder(s, env)[..Stop(s, env)] && !Accepted(s.peers[id], Conduct(env.net, id))))
  {
    var before := ScanOrder(s, env)[..Stop(s, env)];
    ElementsMember(Evicted(s, env));
    RestrictMember(before, Gone(s.peers, env.net));
    FetchParts(s, blockHashes, env);
    forall id | id in s.peers
      ensures id in Evicted(s, env) <==> id in before && !Accepted(s.peers[id], Conduct(env.net, id))
    {
      FetchErrors(s.peers[id], Conduct(env.net, id));
    }
  }

  /**
   * However stale the cursor, one fetch asks each peer at most once, through its own session, and nobody past the
   * server.
   */
  lemma {:induction false} FetchContacts(s: State, blockHashes: seq<B256>, env: Env)
    requires Ready(s, env)
    ensures var s' := Untargeted(s, blockHashes, env).0;
      var asked := s'.contacts[|s.contacts|..];
      && s.contacts <= s'.contacts
      && |asked| == (if Stop(s, env) < |s.peers| then Stop(s, env) + 1 else |s.peers|)
      && (forall i :: 0 <= i < |asked| ==>
        && ScanOrder(s, env)[i] in s.peers
        && Asks(asked[i], s.peers[ScanOrder(s, env)[i]], blockHashes))
      && NoDup(ScanOrder(s, env))
  {
    ScanIsOrder(s, env);
    OrderLength(env.order, s.peers.Keys);
    var s' := Untargeted(s, blockHashes, env).0;
    var asked := ContactsOf(s.peers, Contacted(s, env), blockHashes);
    assert s'.contacts[|s.contacts|..] == asked;
  }

  /** The contact puts a request for exactly these blocks, from their first receipt on, in the peer's version. */
  predicate Asks(contact: Contact, peer: Peer, blockHashes: seq<B256>) {
    && contact.peer == peer
    && contact.request.blockHashes == blockHashes
    && (contact.request.GetReceipts70? <==> peer.info.ethVersion.Eth70?)
    && (contact.request.GetReceipts69? <==> peer.info.ethVersion.Eth69?)
    && (contact.request.GetReceipts70? ==> contact.request.firstBlockReceiptIndex == 0)
  }

  // ── The deferred removals ──

  /** Removing `ids` one at a time; None is the panic of the unconditional lookup. */
  function RemoveEach(s: State, ids: seq<PeerId>): Option<State>
    decreases |ids|
  {
    if ids == [] then Some(s)
    else if ids[0] !in s.peers then None
    else RemoveEach(OnPeerRemoved(s, ids[0], None), ids[1..])
  }

  lemma {:induction false} SafeRemovals(s: State, ids: seq<PeerId>)
    requires AllIn(ids, s.peers) && NoDup(ids)
    ensures RemoveEach(s, ids) == Some(EvictAll(s, ids))
    decreases |ids|
  {
    if ids == [] {
      assert EvictAll(s, ids) == s;
    } else {
      var t, rest := OnPeerRemoved(s, ids[0], None), ids[1..];
      NoDupHead(ids);
      ElementsHead(ids);
      forall i | 0 <= i < |rest| ensures rest[i] in t.peers {
        assert rest[i] == ids[i + 1];
        assert rest[i] in rest;
      }
      SafeRemovals(t, rest);
      assert t.peers - Elements(rest) == s.peers - Elements(ids);
      assert t.events + Departures(t.peers, rest) == s.events + Departures(s.peers, ids);
    }
  }

  lemma {:induction false} SurvivedRemovals(s: State, ids: seq<PeerId>)
    requires RemoveEach(s, ids).Some?
    ensures AllIn(ids, s.peers) && NoDup(ids)
    decreases |ids|
  {
    if ids == [] {
    } else {
      var t, rest := OnPeerRemoved(s, ids[0], None), ids[1..];
      SurvivedRemovals(t, rest);
      NoDupHead(ids);
      forall i | 0 <= i < |ids| ensures ids[i] in s.peers {
        assert i > 0 ==> rest[i - 1] == ids[i];
      }
    }
  }

  /** Sequential removal panics exactly when an id is absent or repeated; otherwise it is the bulk removal. */
  lemma {:induction false} RemovalPanics(s: State, ids: seq<PeerId>)
    ensures RemoveEach(s, ids) == if AllIn(ids, s.peers) && NoDup(ids) then Some(EvictAll(s, ids)) else None
  {
    if AllIn(ids, s.peers) && NoDup(ids) {
      SafeRemovals(s, ids);
    } else if RemoveEach(s, ids).Some? {
      SurvivedRemovals(s, ids);
    }
  }

  /** No fetch ever panics: whatever the cursor and the outcomes, every removal it deferred finds its peer. */
  lemma {:induction false} FetchNeverPanics(s: State, env: Env)
    requires Ready(s, env)
    ensures RemoveEach(s, Evicted(s, env)) == Some(EvictAll(s, Evicted(s, env)))
  {
    EvictionsRemovable(s, env);
    RemovalPanics(s, Evicted(s, env));
  }
}
