/** The runs that open sessions with peers 1 to n, where the concrete runs of other modules start. */
module OpenRuns {
  import opened Cyclic
  import opened Peers
  import opened ManagerModel

  const REFUSES := Remote(NotEnqueued, NotEnqueued, NotEnqueued)
  const ANSWERS := Remote(Delivered(Receipts([])), Delivered(Receipts69([])), Delivered(Receipts70(false, [])))

  lemma {:induction false} AnsweringSucceeds(peers: map<PeerId, Peer>, net: map<PeerId, Remote>, id: PeerId)
    requires id in peers && id in net && net[id] == ANSWERS
    ensures Answer(peers, net, id).Success?
  {
  }

  /** 1, 2, up to n. */
  function Ids(n: nat): (ids: seq<PeerId>)
    ensures |ids| == n
  {
    if n == 0 then [] else Ids(n - 1) + [n]
  }

  function OpenSession(id: PeerId): Input {
    Event(ActivePeerSession(SessionInfo(id, "", Eth68, "", []), id, 0))
  }

  function Openings(n: nat): seq<Input> {
    if n == 0 then [] else Openings(n - 1) + [OpenSession(n)]
  }

  lemma {:induction false} IdsRange(n: nat, x: PeerId)
    ensures x in Ids(n) <==> 1 <= x <= n
  {
    if n == 0 {
    } else {
      IdsRange(n - 1, x);
    }
  }

  lemma {:induction false} IdsSnoc(n: nat)
    requires 0 < n && NoDup(Ids(n - 1))
    ensures NoDup(Ids(n)) && Elements(Ids(n)) == Elements(Ids(n - 1)) + {n}
  {
    IdsRange(n - 1, n);
    assert Ids(n)[..n - 1] == Ids(n - 1);
  }

  lemma {:induction false} OneStep(s: State, input: Input)
    requires Possible(s, input)
    ensures PossibleRun(s, [input]) && Run(s, [input]) == Step(s, input)
  {
    assert [input][1..] == [];
  }

  lemma {:induction false} OpenOne(s: State, n: nat)
    requires 0 < n && IsOrder(Ids(n - 1), s.peers.Keys)
    ensures IsOrder(Ids(n), Step(s, OpenSession(n)).peers.Keys)
    ensures Step(s, OpenSession(n)).rrIndex == s.rrIndex
  {
    IdsSnoc(n);
  }

  lemma {:induction false} OpenOneMore(n: nat)
    requires 0 < n && PossibleRun(INITIAL, Openings(n - 1))
    ensures PossibleRun(INITIAL, Openings(n))
    ensures Run(INITIAL, Openings(n)) == Step(Run(INITIAL, Openings(n - 1)), OpenSession(n))
  {
    OneStep(Run(INITIAL, Openings(n - 1)), OpenSession(n));
    RunJoin(INITIAL, Openings(n - 1), [OpenSession(n)]);
  }

  /** The state such a run reaches: exactly these peers, and the cursor still at zero. */
  lemma {:induction false} Opened(n: nat)
    ensures PossibleRun(INITIAL, Openings(n))
    ensures IsOrder(Ids(n), Run(INITIAL, Openings(n)).peers.Keys)
    ensures Run(INITIAL, Openings(n)).rrIndex == 0
  {
    if n == 0 {
    } else {
      Opened(n - 1);
      OpenOneMore(n);
      OpenOne(Run(INITIAL, Openings(n - 1)), n);
    }
  }
}
