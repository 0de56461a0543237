/**
 * What each input adds to the event log, and which input each event stems from, over every run
 * (src/network/manager.rs:224-266, 318-342).
 */
module EventCauses {
  import opened Wrappers
  import opened Cyclic
  import opened Peers
  import opened ManagerModel
  import opened FetchScan
  import opened EventLog
  import opened Fairness

  /** The session the input opens is the one `info` describes. */
  predicate Brings(input: Input, info: PeerInfo) {
    && input.Event? && input.event.ActivePeerSession?
    && info.id == input.event.info.peerId
    && info.remoteAddr == input.event.info.remoteAddr
    && info.ethVersion == input.event.info.version
    && info.clientVersion == input.event.info.clientVersion
    && info.capabilities == input.event.info.capabilities
    && info.connectedAt == input.event.now
  }

  /** Each of `added` reports, with no reason, a peer of `s` that is gone in `t`. */
  predicate Losses(s: State, added: seq<ManagerEvent>, t: State) {
    forall i :: 0 <= i < |added| ==>
      && added[i].PeerDisconnected? && added[i].reason == None
      && added[i].info.id in s.peers && added[i].info == s.peers[added[i].info.id].info
      && added[i].info.id !in t.peers
  }

  /** The disconnects a fetch adds: one for each peer lost, in the order in which they were asked. */
  ghost predicate LossesInTurn(s: State, env: Env, added: seq<ManagerEvent>, t: State) {
    && Losses(s, added, t)
    && (forall id :: id in s.peers && id !in t.peers ==> exists i :: 0 <= i < |added| && added[i].info.id == id)
    && (added == [] || Ready(s, env))
    && (forall i, j :: 0 <= i < j < |added| ==>
      AskedBefore(ScanOrder(s, env), added[i].info.id, added[j].info.id))
  }

  predicate AskedBefore(rot: seq<PeerId>, a: PeerId, b: PeerId) {
    exists i, j :: 0 <= i < j < |rot| && rot[i] == a && rot[j] == b
  }

  /** What the step from `s` to `t` has to add to the log, input by input. */
  ghost predicate Announced(s: State, input: Input, added: seq<ManagerEvent>, t: State) {
    match input
    case Event(ActivePeerSession(_, _, _)) =>
      |added| == 1 && added[0].PeerConnected? && Brings(input, added[0].info)
    case Event(SessionClosed(id, reason)) =>
      added == if id in s.peers then [PeerDisconnected(s.peers[id].info, reason)] else []
    case Event(PeerRemoved(id)) =>
      added == if id in s.peers then [PeerDisconnected(s.peers[id].info, None)] else []
    case Cmd(Fetch(None, _, _), env) =>
      LossesInTurn(s, env, added, t)
    case _ =>
      added == []
  }

  // ── One step ──

  lemma {:induction false} RestrictInOrder(s: seq<PeerId>, keep: set<PeerId>, i: nat, j: nat)
    requires i < j < |Restrict(s, keep)|
    ensures AskedBefore(s, Restrict(s, keep)[i], Restrict(s, keep)[j])
  {
    var m := |s| - 1;
    var r := Restrict(s[..m], keep);
    if j < |r| {
      RestrictInOrder(s[..m], keep, i, j);
      var a, b :| 0 <= a < b < m && s[..m][a] == r[i] && s[..m][b] == r[j];
      assert s[a] == r[i] && s[b] == r[j];
    } else {
      RestrictMember(s[..m], keep);
      assert r[i] in r;
      var a :| 0 <= a < m && s[..m][a] == r[i];
      assert s[a] == r[i] && s[m] == Restrict(s, keep)[j];
    }
  }

  lemma {:induction false} PrefixAsked(rot: seq<PeerId>, k: nat, a: PeerId, b: PeerId)
    requires k <= |rot| && AskedBefore(rot[..k], a, b)
    ensures AskedBefore(rot, a, b)
  {
    var i, j :| 0 <= i < j < k && rot[..k][i] == a && rot[..k][j] == b;
    assert rot[i] == a && rot[j] == b;
  }

  lemma {:induction false} EvictedInTurn(s: State, env: Env, i: nat, j: nat)
    requires Ready(s, env) && i < j < |Evicted(s, env)|
    ensures AskedBefore(ScanOrder(s, env), Evicted(s, env)[i], Evicted(s, env)[j])
  {
    RestrictInOrder(ScanOrder(s, env)[..Stop(s, env)], Gone(s.peers, env.net), i, j);
    PrefixAsked(ScanOrder(s, env), Stop(s, env), Evicted(s, env)[i], Evicted(s, env)[j]);
  }

  lemma {:induction false} DeparturesAreLosses(s: State, ids: seq<PeerId>, t: State)
    requires Keyed(s.peers) && AllIn(ids, s.peers) && t.peers == s.peers - Elements(ids)
    ensures Losses(s, Departures(s.peers, ids), t)
    ensures forall id :: id in s.peers && id !in t.peers ==>
      exists i :: 0 <= i < |ids| && Departures(s.peers, ids)[i].info.id == id
  {
    ElementsMember(ids);
    var added := Departures(s.peers, ids);
    forall i | 0 <= i < |added| ensures added[i].info.id == ids[i] && ids[i] !in t.peers {
      assert ids[i] in ids;
    }
    forall id | id in s.peers && id !in t.peers ensures exists i :: 0 <= i < |ids| && added[i].info.id == id {
      var i :| 0 <= i < |ids| && ids[i] == id;
      assert added[i].info.id == id;
    }
  }

  lemma {:induction false} DeparturesInTurn(s: State, env: Env)
    requires Keyed(s.peers) && Ready(s, env)
    ensures var added := Departures(s.peers, Evicted(s, env));
      forall i, j :: 0 <= i < j < |added| ==> AskedBefore(ScanOrder(s, env), added[i].info.id, added[j].info.id)
  {
    var ids := Evicted(s, env);
    forall i, j | 0 <= i < j < |ids| ensures AskedBefore(ScanOrder(s, env), ids[i], ids[j]) {
      EvictedInTurn(s, env, i, j);
    }
  }

  lemma {:induction false} FetchAdds(s: State, blockHashes: seq<B256>, env: Env)
    requires Ready(s, env)
    ensures Untargeted(s, blockHashes, env).0.events == s.events + Departures(s.peers, Evicted(s, env))
  {
  }

  lemma {:induction false} FetchAnnounces(s: State, blockHashes: seq<B256>, env: Env)
    requires Keyed(s.peers) && Ready(s, env)
    ensures var t := Untargeted(s, blockHashes, env).0;
      && s.events <= t.events
      && LossesInTurn(s, env, t.events[|s.events|..], t)
  {
    var t, ids := Untargeted(s, blockHashes, env).0, Evicted(s, env);
    FetchAdds(s, blockHashes, env);
    assert t.events[|s.events|..] == Departures(s.peers, ids);
    FetchParts(s, blockHashes, env);
    DeparturesAreLosses(s, ids, t);
    DeparturesInTurn(s, env);
  }

  lemma {:induction false} StepAnnounces(s: State, input: Input)
    requires Keyed(s.peers) && Possible(s, input)
    ensures s.events <= Step(s, input).events
    ensures Announced(s, input, Step(s, input).events[|s.events|..], Step(s, input))
    ensures input.Event? ==> Step(s, input) == s.(peers := Step(s, input).peers, events := Step(s, input).events)
  {
    if IsUntargeted(input) && s.peers != map[] {
      StepIsUntargeted(s, input);
      FetchAnnounces(s, input.cmd.blockHashes, input.env);
    }
  }

  // ── Runs ──

  lemma {:induction false} EventsGrow(s: State, inputs: seq<Input>)
    requires Inv(s) && PossibleRun(s, inputs)
    ensures s.events <= Run(s, inputs).events
    decreases |inputs|
  {
    if inputs == [] {
    } else {
      StepAnnounces(s, inputs[0]);
      StepKeepsInv(s, inputs[0]);
      EventsGrow(Step(s, inputs[0]), inputs[1..]);
    }
  }

  lemma {:induction false} EventsStay(inputs: seq<Input>, k: nat)
    requires PossibleRun(INITIAL, inputs) && k <= |inputs|
    ensures PossibleRun(INITIAL, inputs[..k])
    ensures Run(INITIAL, inputs[..k]).events <= Run(INITIAL, inputs).events
  {
    assert inputs == inputs[..k] + inputs[k..];
    RunAppend(INITIAL, inputs[..k], inputs[k..]);
    RunKeepsInv(INITIAL, inputs[..k]);
    EventsGrow(Run(INITIAL, inputs[..k]), inputs[k..]);
  }

  /**
   * Over every run, each input adds exactly its events at its place in the log: an opened session one connect with
   * its fields, the close of a live peer one disconnect with the close's reason, a removal one without, a fetch one
   * without for each peer it evicts, and nothing else any. A network event touches neither cursor, replies nor peers'
   * channels.
   */
  lemma {:induction false} InputAnnounced(inputs: seq<Input>, i: nat)
    requires PossibleRun(INITIAL, inputs) && i < |inputs|
    ensures PossibleRun(INITIAL, inputs[..i]) && PossibleRun(INITIAL, inputs[..i + 1])
    ensures var s, t := Run(INITIAL, inputs[..i]), Run(INITIAL, inputs[..i + 1]);
      && s.events <= t.events <= Run(INITIAL, inputs).events
      && Announced(s, inputs[i], t.events[|s.events|..], t)
      && (inputs[i].Event? ==> t == s.(peers := t.peers, events := t.events))
  {
    RunSnoc(INITIAL, inputs, i);
    EventsStay(inputs, i + 1);
    RunKeepsInv(INITIAL, inputs[..i]);
    StepAnnounces(Run(INITIAL, inputs[..i]), inputs[i]);
  }

  /** The step on `input` from `s` to `t` accounts for the event, with its info and its reason. */
  predicate Causes(s: State, input: Input, event: ManagerEvent, t: State) {
    match event
    case PeerConnected(info) => Brings(input, info)
    case PeerDisconnected(info, reason) =>
      && info.id in s.peers && s.peers[info.id].info == info && info.id !in t.peers
      && (|| input == Event(SessionClosed(info.id, reason))
          || (input == Event(PeerRemoved(info.id)) && reason == None)
          || (IsUntargeted(input) && reason == None))
    case NewBlock(_) => false
  }

  lemma {:induction false} AddedIsCaused(s: State, input: Input, k: nat)
    requires Keyed(s.peers) && Possible(s, input)
    requires |s.events| <= k < |Step(s, input).events|
    ensures Causes(s, input, Step(s, input).events[k], Step(s, input))
  {
    StepAnnounces(s, input);
    var added := Step(s, input).events[|s.events|..];
    assert Step(s, input).events[k] == added[k - |s.events|];
  }

  /**
   * Over every run, each event stems from the input at whose step it was added. A disconnect carries the reason of
   * the close that removed the peer, and none when a removal or a fetch did.
   */
  lemma {:induction false} EventCause(inputs: seq<Input>, j: nat) returns (i: nat)
    requires PossibleRun(INITIAL, inputs) && j < |Run(INITIAL, inputs).events|
    ensures i < |inputs| && PossibleRun(INITIAL, inputs[..i]) && PossibleRun(INITIAL, inputs[..i + 1])
    ensures var s, t := Run(INITIAL, inputs[..i]), Run(INITIAL, inputs[..i + 1]);
      && |s.events| <= j < |t.events|
      && Causes(s, inputs[i], Run(INITIAL, inputs).events[j], t)
    decreases |inputs|
  {
    var m := |inputs| - 1;
    RunSnoc(INITIAL, inputs, m);
    assert inputs[..m + 1] == inputs;
    EventsStay(inputs, m);
    if j < |Run(INITIAL, inputs[..m]).events| {
      i := EventCause(inputs[..m], j);
      assert inputs[..m][..i] == inputs[..i] && inputs[..m][..i + 1] == inputs[..i + 1];
    } else {
      i := m;
      RunKeepsInv(INITIAL, inputs[..m]);
      AddedIsCaused(Run(INITIAL, inputs[..m]), inputs[m], j);
    }
  }
}
