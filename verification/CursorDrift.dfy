/**
 * Where round-robin resumes after a fetch that evicted peers (src/network/manager.rs:318-320, 340-342).
 * The cursor is set against the key snapshot, and the evictions then shorten the key list under it.
 */
module CursorDrift {
  import opened Wrappers
  import opened Cyclic
  import opened Peers
  import opened ManagerModel
  import opened FetchScan
  import opened Fairness
  import opened OpenRuns
  import opened EventLog

  lemma {:induction false} WrapSame(a: nat, b: nat, n: nat)
    requires 0 < n && b <= a
    ensures Wrap(a, n) == Wrap(b, n) <==> Wrap(a - b, n) == 0
    decreases a
  {
    if a - b >= n {
      WrapSame(a - n, b, n);
    } else {
      WrapAdd(b, a - b, n);
      WrapNear(Wrap(b, n) + (a - b), n);
    }
  }

  lemma {:induction false} SwapIsRotation(a: seq<PeerId>, b: seq<PeerId>)
    requires a + b != []
    ensures b + a == Rotate(a + b, Wrap(|a|, |a + b|))
  {
    WrapNear(|a|, |a + b|);
    RotateSplits(a + b, Wrap(|a|, |a + b|));
    if b == [] {
      assert a + b == a == b + a;
    } else {
      assert (a + b)[|a|..] == b && (a + b)[..|a|] == a;
    }
  }

  /** Two rotations of a duplicate-free sequence are the same exactly when they start at the same place. */
  lemma {:induction false} SameRotation(s: seq<PeerId>, i: nat, j: nat)
    requires NoDup(s) && i < |s| && j < |s|
    ensures Rotate(s, i) == Rotate(s, j) <==> i == j
  {
    WrapNear(i, |s|);
    WrapNear(j, |s|);
    assert Rotate(s, i)[0] == s[i] && Rotate(s, j)[0] == s[j];
    NoDupIndex(s, i, j);
  }

  /** What remains of a rotated key order is what remains of it, rotated by what remains before the cursor. */
  lemma {:induction false} RotatedRemainder(order: seq<PeerId>, keep: set<PeerId>, c: nat)
    requires c < |order| && Restrict(order, keep) != []
    ensures var after, before := Restrict(order, keep), |Restrict(order[..c], keep)|;
      Restrict(Rotate(order, c), keep) == Rotate(after, Wrap(before, |after|))
  {
    var a, b := Restrict(order[..c], keep), Restrict(order[c..], keep);
    RotateSplits(order, c);
    RestrictAppend(order[c..], order[..c], keep);
    assert order == order[..c] + order[c..];
    RestrictAppend(order[..c], order[c..], keep);
    SwapIsRotation(a, b);
  }

  /** Who is kept and who is gone add up. */
  lemma {:induction false} RestrictParts(s: seq<PeerId>, keep: set<PeerId>, gone: set<PeerId>)
    requires Elements(s) <= keep + gone && keep !! gone
    ensures |Restrict(s, keep)| + |Restrict(s, gone)| == |s|
  {
    if s == [] {
    } else {
      RestrictParts(s[..|s| - 1], keep, gone);
    }
  }

  lemma {:induction false} ElementsPrefix(s: seq<PeerId>, c: nat)
    requires c <= |s|
    ensures Elements(s[..c]) <= Elements(s)
  {
    ElementsMember(s);
    ElementsMember(s[..c]);
  }

  /**
   * The peers of `t` in the order they had among `order`: removing entries from a hash map leaves the others in
   * place.
   */
  function Remaining(order: seq<PeerId>, t: State): (after: seq<PeerId>) {
    Restrict(order, t.peers.Keys)
  }

  lemma {:induction false} RemainingIsOrder(order: seq<PeerId>, keys: set<PeerId>, t: State)
    requires IsOrder(order, keys) && t.peers.Keys <= keys
    ensures IsOrder(Remaining(order, t), t.peers.Keys) && |Remaining(order, t)| == |t.peers|
  {
    RestrictNoDup(order, t.peers.Keys);
    RestrictMember(order, t.peers.Keys);
    ElementsMember(order);
    ElementsMember(Remaining(order, t));
    OrderLength(Remaining(order, t), t.peers.Keys);
  }

  /** The survivors in `t` in the cyclic order of `order` from position `c`: whose turn it is, and who follows. */
  function Turns(order: seq<PeerId>, c: nat, t: State): seq<PeerId>
    requires c < |order|
  {
    Restrict(Rotate(order, c), t.peers.Keys)
  }

  lemma {:induction false} LeftBefore(order: seq<PeerId>, keys: set<PeerId>, keep: set<PeerId>, c: nat)
    returns (before: nat)
    requires Elements(order) == keys && keep <= keys && c <= |order|
    ensures before == |Restrict(order[..c], keep)| == c - |Restrict(order[..c], keys - keep)|
  {
    before := |Restrict(order[..c], keep)|;
    ElementsPrefix(order, c);
    RestrictParts(order[..c], keep, keys - keep);
  }

  /**
   * A state that has lost some of the peers of `order`: the next scan goes through the survivors in turn from
   * the place the cursor stood at exactly when the surplus of the cursor over that place, and the lost peers before
   * it, come to a multiple of the survivors.
   */
  lemma {:induction false} ResumesInTurn(order: seq<PeerId>, keys: set<PeerId>, t: State, net: map<PeerId, Remote>)
    requires IsOrder(order, keys) && t.peers.Keys <= keys && t.peers != map[]
    ensures var next := Env(Remaining(order, t), net);
      && 0 < |order|
      && Ready(t, next)
      && var c := Wrap(t.rrIndex, |order|);
      && c <= t.rrIndex
      && var lost := |Restrict(order[..c], keys - t.peers.Keys)|;
      (ScanOrder(t, next) == Turns(order, c, t) <==> (t.rrIndex - c + lost) % |t.peers| == 0)
  {
    var after := Remaining(order, t);
    RemainingIsOrder(order, keys, t);
    assert |t.peers| == |t.peers.Keys|;
    var c := Wrap(t.rrIndex, |order|);
    WrapBelow(t.rrIndex, |order|);
    RotatedRemainder(order, t.peers.Keys, c);
    var before := LeftBefore(order, keys, t.peers.Keys, c);
    SameRotation(after, Wrap(t.rrIndex, |after|), Wrap(before, |after|));
    WrapSame(t.rrIndex, before, |after|);
    WrapIsRemainder(t.rrIndex - before, |after|);
  }

  lemma {:induction false} WrapBelow(i: nat, n: nat)
    requires 0 < n
    ensures Wrap(i, n) <= i
    decreases i
  {
    if i < n {
    } else {
      WrapBelow(i - n, n);
    }
  }

  lemma {:induction false} Survivors(s: State, blockHashes: seq<B256>, env: Env)
    requires Ready(s, env)
    ensures var t := Untargeted(s, blockHashes, env).0;
      && t.peers.Keys == s.peers.Keys - Elements(Evicted(s, env))
      && s.peers.Keys - t.peers.Keys == Elements(Evicted(s, env))
      && |t.peers| == |env.order| - |Evicted(s, env)|
  {
    var t, ids := Untargeted(s, blockHashes, env).0, Evicted(s, env);
    EvictionsRemovable(s, env);
    ElementsMember(ids);
    assert Elements(ids) <= s.peers.Keys;
    OrderLength(ids, Elements(ids));
    OrderLength(env.order, s.peers.Keys);
    FetchParts(s, blockHashes, env);
    assert |t.peers| == |t.peers.Keys|;
  }

  /**
   * A fetch that leaves a survivor: the next one goes through the survivors in turn from the new cursor exactly when
   * the number of evicted peers standing before that cursor in the key order is a multiple of the number of
   * survivors. Otherwise it starts elsewhere and skips survivors whose turn it was.
   */
  lemma {:induction false} TurnKeptIff(s: State, blockHashes: seq<B256>, env: Env, net: map<PeerId, Remote>)
    requires Ready(s, env) && |Evicted(s, env)| < |env.order|
    ensures var t := Untargeted(s, blockHashes, env).0;
      var c, evicted := NextCursor(s, env), Evicted(s, env);
      var next := Env(Remaining(env.order, t), net);
      && Ready(t, next)
      && (ScanOrder(t, next) == Turns(env.order, c, t)
        <==> |Restrict(env.order[..c], Elements(evicted))| % (|env.order| - |evicted|) == 0)
  {
    var t := Untargeted(s, blockHashes, env).0;
    FetchParts(s, blockHashes, env);
    Survivors(s, blockHashes, env);
    ResumesInTurn(env.order, s.peers.Keys, t, net);
  }

  // ── Sessions closed ──

  predicate ClosesOne(s: State, input: Input, id: PeerId) {
    id in s.peers && Closes(input, id)
  }

  lemma {:induction false} ClosedState(s: State, input: Input, id: PeerId)
    requires ClosesOne(s, input, id)
    ensures Possible(s, input)
    ensures Step(s, input).peers == s.peers - {id} && Step(s, input).rrIndex == s.rrIndex
    ensures s.peers.Keys - Step(s, input).peers.Keys == {id}
    ensures |Step(s, input).peers| == |s.peers| - 1
  {
    assert (s.peers - {id}).Keys == s.peers.Keys - {id};
  }

  lemma {:induction false} RestrictOne(s: seq<PeerId>, id: PeerId)
    requires NoDup(s)
    ensures |Restrict(s, {id})| == if id in s then 1 else 0
  {
    if s == [] {
    } else {
      var m := |s| - 1;
      RestrictOne(s[..m], id);
      assert s == s[..m] + [s[m]];
    }
  }

  lemma {:induction false} StandsBefore(order: seq<PeerId>, id: PeerId, c: nat)
    requires NoDup(order) && id in order && c <= |order|
    ensures |Restrict(order[..c], {id})| == if IndexOf(order, id) < c then 1 else 0
  {
    NoDupTake(order, c);
    RestrictOne(order[..c], id);
    var i := IndexOf(order, id);
    assert i < c ==> order[..c][i] == id;
  }

  lemma {:induction false} AtMostOne(lost: nat, m: nat)
    requires lost <= 1 && 1 <= m
    ensures lost % m == 0 <==> lost == 0 || m == 1
  {
    WrapIsRemainder(lost, m);
    WrapNear(lost, m);
  }

  lemma {:induction false} CloseResumes(
    s: State, input: Input, id: PeerId, order: seq<PeerId>, net: map<PeerId, Remote>)
    requires IsOrder(order, s.peers.Keys) && ClosesOne(s, input, id) && 2 <= |s.peers|
    requires id in order && |order| == |s.peers|
    ensures Possible(s, input)
    ensures var t := Step(s, input);
      var c := Wrap(s.rrIndex, |order|);
      var next := Env(Remaining(order, t), net);
      && Ready(t, next)
      && c <= s.rrIndex
      && var lost := if IndexOf(order, id) < c then 1 else 0;
      (ScanOrder(t, next) == Turns(order, c, t) <==> (s.rrIndex - c + lost) % (|order| - 1) == 0)
  {
    ClosedState(s, input, id);
    ResumesInTurn(order, s.peers.Keys, Step(s, input), net);
    StandsBefore(order, id, Wrap(s.rrIndex, |order|));
  }

  /**
   * The same happens when a session closes: the next fetch goes through the survivors in turn exactly when the
   * closed peer's standing before the cursor, and the cursor's surplus over its place, come to a multiple of the
   * survivors. With the cursor inside the key order that is: the closed peer did not stand before it, or one
   * survivor is left.
   */
  lemma {:induction false} CloseKeepsTurnIff(
    s: State, input: Input, id: PeerId, order: seq<PeerId>, net: map<PeerId, Remote>)
    requires IsOrder(order, s.peers.Keys) && ClosesOne(s, input, id) && 2 <= |s.peers|
    ensures Possible(s, input) && id in order && 2 <= |order|
    ensures var t := Step(s, input);
      var c := Wrap(s.rrIndex, |order|);
      var next := Env(Remaining(order, t), net);
      && Ready(t, next)
      && c <= s.rrIndex
      && var kept := ScanOrder(t, next) == Turns(order, c, t);
      && (kept <==> (s.rrIndex - c + if IndexOf(order, id) < c then 1 else 0) % (|order| - 1) == 0)
      && (s.rrIndex < |order| ==> (kept <==> c <= IndexOf(order, id) || |order| == 2))
  {
    assert id in order && |order| == |s.peers| by {
      ElementsMember(order);
      OrderLength(order, s.peers.Keys);
    }
    CloseResumes(s, input, id, order, net);
    var c := Wrap(s.rrIndex, |order|);
    var lost := if IndexOf(order, id) < c then 1 else 0;
    AtMostOne(lost, |order| - 1);
  }

  // ── A turn that is lost, in a run ──

  const NET := map[1 := REFUSES, 2 := ANSWERS, 3 := ANSWERS, 4 := ANSWERS]
  const FETCH := Cmd(Fetch(None, [], 0), Env([1, 2, 3, 4], NET))
  const NEXT_FETCH := Cmd(Fetch(None, [], 1), Env([2, 3, 4], NET))

  lemma {:induction false} FourIds()
    ensures Ids(4) == [1, 2, 3, 4]
  {
    assert Ids(1) == [] + [1] && Ids(2) == [1] + [2] && Ids(3) == [1, 2] + [3];
  }

  lemma {:induction false} FirstTwo(s: State)
    requires IsOrder([1, 2, 3, 4], s.peers.Keys) && s.rrIndex == 0
    ensures Ready(s, FETCH.env)
    ensures ScanOrder(s, FETCH.env)[..1] == [1] && ScanOrder(s, FETCH.env)[1] == 2
  {
    WrapNear(0, 4);
    WrapNear(1, 4);
  }

  lemma {:induction false} FirstEvicted(s: State)
    requires IsOrder([1, 2, 3, 4], s.peers.Keys) && s.rrIndex == 0
    requires Ready(s, FETCH.env) && ScanOrder(s, FETCH.env)[..1] == [1] && Stop(s, FETCH.env) == 1
    ensures Evicted(s, FETCH.env) == [1]
  {
    InElements(FETCH.env.order, 0);
    RestrictSnoc([], 1, Gone(s.peers, NET));
    assert [] + [1] == [1];
  }

  /** The scan stops at the second peer, with the first refusing. */
  lemma {:induction false} FirstStop(s: State)
    requires IsOrder([1, 2, 3, 4], s.peers.Keys) && s.rrIndex == 0
    ensures Ready(s, FETCH.env)
    ensures Stop(s, FETCH.env) == 1 && ScanOrder(s, FETCH.env)[1] == 2
    ensures Evicted(s, FETCH.env) == [1] && NextCursor(s, FETCH.env) == 2
  {
    FirstTwo(s);
    assert ScanOrder(s, FETCH.env)[0] == ScanOrder(s, FETCH.env)[..1][0];
    StopHere(s, FETCH.env, 0);
    StopHere(s, FETCH.env, 1);
    FirstEvicted(s);
    WrapNear(0, 4);
    WrapNear(2, 4);
  }

  lemma {:induction false} FirstFetch(s: State)
    requires IsOrder([1, 2, 3, 4], s.peers.Keys) && s.rrIndex == 0
    ensures Possible(s, FETCH) && Server(s, FETCH) == Some(2)
    ensures Step(s, FETCH).peers.Keys == s.peers.Keys - {1} && Step(s, FETCH).rrIndex == 2
  {
    FirstStop(s);
    UntargetedStep(s, FETCH);
    assert [1][..0] == [];
    assert Elements([1]) == {1};
  }

  lemma {:induction false} FourIn(keys: set<PeerId>)
    requires IsOrder([1, 2, 3, 4], keys)
    ensures 2 in keys && 3 in keys && 4 in keys
  {
    var ids: seq<PeerId> := [1, 2, 3, 4];
    InElements(ids, 1);
    InElements(ids, 2);
    InElements(ids, 3);
  }

  lemma {:induction false} RestrictFour(left: set<PeerId>)
    requires 1 !in left && 2 in left && 3 in left && 4 in left
    ensures Restrict([1, 2, 3, 4], left) == [2, 3, 4]
  {
    RestrictSnoc([], 1, left);
    RestrictSnoc([1], 2, left);
    RestrictSnoc([1, 2], 3, left);
    RestrictSnoc([1, 2, 3], 4, left);
    assert [] + [1] == [1] && [1] + [2] == [1, 2] && [1, 2] + [3] == [1, 2, 3] && [1, 2, 3] + [4] == [1, 2, 3, 4];
  }

  /** Without the first, the others remain in order. */
  lemma {:induction false} ThreeRemain(keys: set<PeerId>, t: State)
    requires IsOrder([1, 2, 3, 4], keys) && t.peers.Keys == keys - {1}
    ensures 3 in t.peers
    ensures Remaining([1, 2, 3, 4], t) == [2, 3, 4]
    ensures IsOrder([2, 3, 4], t.peers.Keys)
  {
    FourIn(keys);
    RestrictFour(t.peers.Keys);
    RemainingIsOrder([1, 2, 3, 4], keys, t);
  }

  lemma {:induction false} SecondFetch(t: State)
    requires IsOrder([2, 3, 4], t.peers.Keys) && t.rrIndex == 2
    ensures Possible(t, NEXT_FETCH) && Server(t, NEXT_FETCH) == Some(4)
  {
    FirstAsked(t, NEXT_FETCH.env);
    WrapNear(2, 3);
    StopHere(t, NEXT_FETCH.env, 0);
    OrderLength([2, 3, 4], t.peers.Keys);
  }

  lemma {:induction false} LostTurnFrom(s: State)
    requires IsOrder([1, 2, 3, 4], s.peers.Keys) && s.rrIndex == 0
    ensures Possible(s, FETCH) && Server(s, FETCH) == Some(2)
    ensures var t := Step(s, FETCH);
      && Possible(t, NEXT_FETCH) && Server(t, NEXT_FETCH) == Some(4)
      && NEXT_FETCH.env.order == Remaining(FETCH.env.order, t)
      && 3 in t.peers && Answer(t.peers, NET, 3).Success?
  {
    FirstFetch(s);
    var t := Step(s, FETCH);
    ThreeRemain(s.peers.Keys, t);
    SecondFetch(t);
    AnsweringSucceeds(t.peers, NET, 3);
  }

  /**
   * A run: four sessions open, then two untargeted fetches, the first peer gone. The second peer serves the first
   * fetch and the fourth the next one, though the third is live, answers, and was next in turn.
   */
  lemma {:induction false} LostTurn()
    ensures PossibleRun(INITIAL, Openings(4)) && PossibleRun(INITIAL, Openings(4) + [FETCH])
    ensures var s, t := Run(INITIAL, Openings(4)), Run(INITIAL, Openings(4) + [FETCH]);
      && Possible(s, FETCH) && Server(s, FETCH) == Some(2)
      && Possible(t, NEXT_FETCH) && Server(t, NEXT_FETCH) == Some(4)
      && NEXT_FETCH.env.order == Remaining(FETCH.env.order, t)
      && 3 in t.peers && Answer(t.peers, NET, 3).Success?
  {
    Opened(4);
    FourIds();
    var s := Run(INITIAL, Openings(4));
    LostTurnFrom(s);
    OneStep(s, FETCH);
    RunJoin(INITIAL, Openings(4), [FETCH]);
  }
}
