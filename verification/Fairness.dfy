/** How the cursor shares untargeted fetches among the peers (src/network/manager.rs:303-345). */
module Fairness {
  import opened Wrappers
  import opened Cyclic
  import opened Peers
  import opened ManagerModel
  import opened FetchScan

  predicate IsUntargeted(input: Input) {
    input.Cmd? && input.cmd.Fetch? && input.cmd.target == None
  }

  function UntargetedCount(inputs: seq<Input>): nat {
    if inputs == [] then 0
    else (if IsUntargeted(inputs[0]) then 1 else 0) + UntargetedCount(inputs[1..])
  }

  /** The peer whose receipts an untargeted fetch returns. */
  function Server(s: State, input: Input): (server: Option<PeerId>)
    requires Possible(s, input)
  {
    if !IsUntargeted(input) || s.peers == map[] then None
    else
      OrderLength(input.env.order, s.peers.Keys);
      if Stop(s, input.env) == |input.env.order| then None
      else Some(ScanOrder(s, input.env)[Stop(s, input.env)])
  }

  /** The server is a live peer that responds, and the caller of the fetch is sent the receipts it delivered. */
  lemma {:induction false} ServerAnswers(s: State, input: Input, p: PeerId)
    requires Possible(s, input) && Server(s, input) == Some(p)
    ensures p in s.peers && Answer(s.peers, input.env.net, p).Success?
    ensures Step(s, input).replies == s.replies + [FetchReply(input.cmd.reply, Answer(s.peers, input.env.net, p))]
    ensures Responds(s, input.env, p) && Says(s, input.env, p, Answer(s.peers, input.env.net, p))
  {
    OrderLength(input.env.order, s.peers.Keys);
    StopIsFirst(s, input.env);
    AnswerSaid(s, input.env, p, Answer(s.peers, input.env.net, p));
  }

  /** Some untargeted fetch of the run is served by `p`. */
  ghost predicate Serves(s: State, inputs: seq<Input>, p: PeerId)
    requires PossibleRun(s, inputs)
    decreases |inputs|
  {
    inputs != [] && (Server(s, inputs[0]) == Some(p) || Serves(Step(s, inputs[0]), inputs[1..], p))
  }

  // ── Segments ──

  /** A map's key order, fixed for as long as its key set is. */
  type Layout = map<set<PeerId>, seq<PeerId>>

  ghost predicate Laid(s: State, layout: Layout) {
    s.peers.Keys in layout && IsOrder(layout[s.peers.Keys], s.peers.Keys)
  }

  /** `input` brings no new peer, does not close `p`, and finds `p` answering if it asks it. */
  predicate CalmStep(s: State, input: Input, p: PeerId) {
    match input
    case Event(ActivePeerSession(info, _, _)) => info.peerId in s.peers
    case Event(SessionClosed(id, _)) => id != p
    case Event(PeerRemoved(id)) => id != p
    case Cmd(_, env) => IsUntargeted(input) && p in s.peers ==> Answer(s.peers, env.net, p).Success?
    case _ => true
  }

  /**
   * A segment of a run in which no peer joins, `p` is not closed and always answers, and key orders follow
   * `layout`.
   */
  ghost predicate Calm(s: State, inputs: seq<Input>, layout: Layout, p: PeerId)
    requires PossibleRun(s, inputs)
    decreases |inputs|
  {
    && Laid(s, layout)
    && (inputs != [] ==>
      && (inputs[0].Cmd? ==> inputs[0].env.order == layout[s.peers.Keys])
      && CalmStep(s, inputs[0], p)
      && Calm(Step(s, inputs[0]), inputs[1..], layout, p))
  }

  /** How many places after `c`, cyclically, `p` stands in `order`. */
  function Place(order: seq<PeerId>, c: nat, p: PeerId): (d: nat)
    requires p in order && c < |order|
    ensures d < |order|
  {
    var i := IndexOf(order, p);
    if c <= i then i - c else i - c + |order|
  }

  /** How many peers a scan would ask before it reached `p`; see PlaceInScan. */
  ghost function Wait(s: State, layout: Layout, p: PeerId): (d: nat)
    requires Laid(s, layout) && p in s.peers
    ensures d < |s.peers|
  {
    var order := layout[s.peers.Keys];
    ElementsMember(order);
    OrderLength(order, s.peers.Keys);
    Place(order, Wrap(s.rrIndex, |order|), p)
  }

  lemma {:induction false} PlaceInScan(order: seq<PeerId>, c: nat, p: PeerId)
    requires p in order && c < |order|
    ensures Rotate(order, c)[Place(order, c, p)] == p
  {
    WrapNear(c + Place(order, c, p), |order|);
  }

  /** Moving the cursor `j` places brings every peer `j` places nearer, cyclically. */
  lemma {:induction false} CursorMoves(order: seq<PeerId>, c: nat, j: nat, p: PeerId)
    requires c < |order| && j <= |order| && p in order
    ensures var d := Place(order, c, p);
      Place(order, Wrap(c + j, |order|), p) == if j <= d then d - j else d - j + |order|
  {
    WrapNear(c + j, |order|);
  }

  /** An untargeted fetch while `p` answers: `p` serves it, or the server came before `p` in the scan. */
  lemma {:induction false} ServerComesFirst(s: State, env: Env, p: PeerId)
    requires Ready(s, env) && p in s.peers && Answer(s.peers, env.net, p).Success?
    ensures p in env.order
    ensures var d := Place(env.order, Wrap(s.rrIndex, |env.order|), p);
      && Stop(s, env) <= d
      && (Stop(s, env) == d <==> ScanOrder(s, env)[Stop(s, env)] == p)
  {
    ElementsMember(env.order);
    PlaceInScan(env.order, Wrap(s.rrIndex, |env.order|), p);
    StopIsFirst(s, env);
    ScanIsOrder(s, env);
    NoDupPairwise(ScanOrder(s, env));
  }

  /** `p` survives an untargeted fetch it would answer, and nobody joins in one. */
  lemma {:induction false} FetchKeeps(s: State, blockHashes: seq<B256>, env: Env, p: PeerId)
    requires Ready(s, env) && p in s.peers && Answer(s.peers, env.net, p).Success?
    ensures var s' := Untargeted(s, blockHashes, env).0;
      && p in s'.peers
      && s'.peers.Keys <= s.peers.Keys
  {
    FetchEvictions(s, blockHashes, env);
    FetchErrors(s.peers[p], Conduct(env.net, p));
  }

  /** A cursor set just past a server other than `p` is nearer to `p`. */
  lemma {:induction false} WaitShrinks(s: State, t: State, env: Env, layout: Layout, p: PeerId)
    requires Ready(s, env) && Laid(s, layout) && env.order == layout[s.peers.Keys]
    requires p in s.peers && Answer(s.peers, env.net, p).Success?
    requires Stop(s, env) < |env.order| && ScanOrder(s, env)[Stop(s, env)] != p
    requires t.peers.Keys == s.peers.Keys
    requires t.rrIndex == NextCursor(s, env)
    ensures Wait(t, layout, p) < Wait(s, layout, p)
  {
    ServerComesFirst(s, env, p);
    CursorMoves(env.order, Wrap(s.rrIndex, |env.order|), Stop(s, env) + 1, p);
  }

  lemma {:induction false} StepIsUntargeted(s: State, input: Input)
    requires Possible(s, input) && IsUntargeted(input) && s.peers != map[]
    ensures Ready(s, input.env)
    ensures Step(s, input).peers == Untargeted(s, input.cmd.blockHashes, input.env).0.peers
    ensures Step(s, input).rrIndex == Untargeted(s, input.cmd.blockHashes, input.env).0.rrIndex
  {
    OrderLength(input.env.order, s.peers.Keys);
  }

  /** The step an untargeted fetch takes, part by part. */
  lemma {:induction false} UntargetedStep(s: State, input: Input)
    requires Possible(s, input) && IsUntargeted(input) && s.peers != map[]
    ensures Ready(s, input.env)
    ensures var n, k, s' := |input.env.order|, Stop(s, input.env), Step(s, input);
      && Server(s, input) == (if k < n then Some(ScanOrder(s, input.env)[k]) else None)
      && s'.peers == s.peers - Elements(Evicted(s, input.env))
      && s'.rrIndex == NextCursor(s, input.env)
  {
    StepIsUntargeted(s, input);
    FetchParts(s, input.cmd.blockHashes, input.env);
  }

  /** Only an untargeted fetch moves the cursor, and only a new session brings a peer. */
  lemma {:induction false} OtherSteps(s: State, input: Input)
    requires Possible(s, input) && !IsUntargeted(input)
    ensures Step(s, input).rrIndex == s.rrIndex
    ensures Step(s, input).peers.Keys <= s.peers.Keys || (input.Event? && input.event.ActivePeerSession?)
  {
  }

  /** An untargeted fetch that `p` does not serve, though it would answer, finds the cursor before `p`. */
  lemma {:induction false} PassedOver(s: State, input: Input, layout: Layout, p: PeerId)
    requires Possible(s, input) && Laid(s, layout) && p in s.peers && CalmStep(s, input, p)
    requires IsUntargeted(input) && input.env.order == layout[s.peers.Keys]
    ensures Ready(s, input.env) && Stop(s, input.env) < |input.env.order|
    ensures Server(s, input) == Some(p) || 0 < Wait(s, layout, p)
    ensures Server(s, input) == Some(p) || ScanOrder(s, input.env)[Stop(s, input.env)] != p
  {
    UntargetedStep(s, input);
    ServerComesFirst(s, input.env, p);
  }

  lemma {:induction false} CalmFetch(s: State, input: Input, p: PeerId)
    requires Possible(s, input) && p in s.peers && CalmStep(s, input, p) && IsUntargeted(input)
    ensures p in Step(s, input).peers && Step(s, input).peers.Keys <= s.peers.Keys
  {
    StepIsUntargeted(s, input);
    FetchKeeps(s, input.cmd.blockHashes, input.env, p);
  }

  /**
   * One step of a calm segment keeps `p`, adds nobody, and, while nobody leaves, moves the cursor strictly
   * nearer to `p` with every untargeted fetch that `p` does not serve.
   */
  lemma {:induction false} CalmProgress(s: State, input: Input, layout: Layout, p: PeerId)
    requires Possible(s, input) && Laid(s, layout) && p in s.peers && CalmStep(s, input, p)
    requires input.Cmd? ==> input.env.order == layout[s.peers.Keys]
    ensures p in Step(s, input).peers && Step(s, input).peers.Keys <= s.peers.Keys
    ensures IsUntargeted(input) && Server(s, input) != Some(p) ==> 0 < Wait(s, layout, p)
    ensures var s' := Step(s, input);
      s'.peers.Keys == s.peers.Keys && Server(s, input) != Some(p) ==>
        if IsUntargeted(input) then Wait(s', layout, p) < Wait(s, layout, p)
        else Wait(s', layout, p) == Wait(s, layout, p)
  {
    if IsUntargeted(input) {
      CalmFetch(s, input, p);
      PassedOver(s, input, layout, p);
      UntargetedStep(s, input);
      if Step(s, input).peers.Keys == s.peers.Keys && Server(s, input) != Some(p) {
        WaitShrinks(s, Step(s, input), input.env, layout, p);
      }
    } else {
      OtherSteps(s, input);
    }
  }

  // ── Bounded wait ──

  /** The sum of the numbers below `n`. */
  function Tri(n: nat): nat {
    if n == 0 then 0 else Tri(n - 1) + n - 1
  }

  lemma {:induction false} TriClosed(n: nat)
    ensures 2 * Tri(n) == n * (n - 1)
  {
    if n == 0 {
    } else {
      TriClosed(n - 1);
    }
  }

  lemma {:induction false} TriGrows(m: nat, n: nat)
    requires m <= n
    ensures Tri(m) <= Tri(n)
    decreases n
  {
    if m == n {
    } else {
      TriGrows(m, n - 1);
    }
  }

  /**
   * What is left of `p`'s wait when peers may still drop out: never grows, and falls with each fetch `p` does not
   * serve.
   */
  ghost function Potential(s: State, layout: Layout, p: PeerId): nat
    requires Laid(s, layout) && p in s.peers
  {
    Tri(|s.peers| - 1) + Wait(s, layout, p)
  }

  lemma {:induction false} SmallerSet(a: set<PeerId>, b: set<PeerId>)
    requires a <= b && a != b
    ensures |a| < |b|
  {
    assert b == a + (b - a);
    assert b - a != {};
  }

  /** Losing a peer makes up for whatever wait the new key order brings. */
  lemma {:induction false} FewerPeers(s: State, t: State, layout: Layout, p: PeerId)
    requires Laid(t, layout) && p in t.peers && t.peers.Keys <= s.peers.Keys && t.peers.Keys != s.peers.Keys
    ensures 0 < |s.peers|
    ensures Potential(t, layout, p) <= Tri(|s.peers| - 1)
  {
    SmallerSet(t.peers.Keys, s.peers.Keys);
    assert |t.peers| == |t.peers.Keys| && |s.peers| == |s.peers.Keys|;
    TriGrows(|t.peers|, |s.peers| - 1);
  }

  /** A move from `s` to `t` that passes `p` over `took` times, one at most. */
  lemma {:induction false} PotentialDrops(s: State, t: State, layout: Layout, p: PeerId, took: nat)
    requires Laid(s, layout) && Laid(t, layout) && p in s.peers && p in t.peers && t.peers.Keys <= s.peers.Keys
    requires took <= Wait(s, layout, p) && took <= 1
    requires t.peers.Keys == s.peers.Keys ==> Wait(t, layout, p) + took <= Wait(s, layout, p)
    ensures Potential(t, layout, p) + took <= Potential(s, layout, p)
  {
    if t.peers.Keys == s.peers.Keys {
      assert |t.peers| == |t.peers.Keys| && |s.peers| == |s.peers.Keys|;
    } else {
      FewerPeers(s, t, layout, p);
    }
  }

  lemma {:induction false} PotentialFalls(s: State, input: Input, layout: Layout, p: PeerId)
    requires Possible(s, input) && Laid(s, layout) && p in s.peers && CalmStep(s, input, p)
    requires input.Cmd? ==> input.env.order == layout[s.peers.Keys]
    requires Laid(Step(s, input), layout) && Server(s, input) != Some(p)
    ensures p in Step(s, input).peers
    ensures Potential(Step(s, input), layout, p) + (if IsUntargeted(input) then 1 else 0) <= Potential(s, layout, p)
  {
    CalmProgress(s, input, layout, p);
    PotentialDrops(s, Step(s, input), layout, p, if IsUntargeted(input) then 1 else 0);
  }

  lemma {:induction false} WaitIsBounded(s: State, inputs: seq<Input>, layout: Layout, p: PeerId)
    requires PossibleRun(s, inputs) && Calm(s, inputs, layout, p) && p in s.peers
    requires UntargetedCount(inputs) > Potential(s, layout, p)
    ensures Serves(s, inputs, p)
    decreases |inputs|
  {
    if Server(s, inputs[0]) == Some(p) {
    } else {
      PotentialFalls(s, inputs[0], layout, p);
      WaitIsBounded(Step(s, inputs[0]), inputs[1..], layout, p);
    }
  }

  /**
   * Fairness under churn: in any segment without new peers in which `p` is live and always answers, whatever the
   * other peers, closes and reconnects do, `p` serves one of any n(n-1)/2 + 1 untargeted fetches, n the peer count
   * at the start. ChurnBound.Attained is a run in which n(n-1)/2 are not enough.
   */
  lemma {:induction false} BoundedWaitUnderChurn(s: State, inputs: seq<Input>, layout: Layout, p: PeerId)
    requires PossibleRun(s, inputs) && Calm(s, inputs, layout, p) && p in s.peers
    requires 2 * UntargetedCount(inputs) > |s.peers| * (|s.peers| - 1)
    ensures Serves(s, inputs, p)
  {
    TriClosed(|s.peers|);
    WaitIsBounded(s, inputs, layout, p);
  }

  /** The key set never changes over the run. */
  ghost predicate SameMembers(s: State, inputs: seq<Input>)
    requires PossibleRun(s, inputs)
    decreases |inputs|
  {
    inputs != [] ==>
      && Step(s, inputs[0]).peers.Keys == s.peers.Keys
      && SameMembers(Step(s, inputs[0]), inputs[1..])
  }

  lemma {:induction false} WaitOverFixedMembers(s: State, inputs: seq<Input>, layout: Layout, p: PeerId)
    requires PossibleRun(s, inputs) && Calm(s, inputs, layout, p) && SameMembers(s, inputs) && p in s.peers
    requires UntargetedCount(inputs) > Wait(s, layout, p)
    ensures Serves(s, inputs, p)
    decreases |inputs|
  {
    if Server(s, inputs[0]) == Some(p) {
    } else {
      CalmProgress(s, inputs[0], layout, p);
      WaitOverFixedMembers(Step(s, inputs[0]), inputs[1..], layout, p);
    }
  }

  /** Fairness over n fixed members: a peer that always answers serves one of any n untargeted fetches. */
  lemma {:induction false} BoundedWait(s: State, inputs: seq<Input>, layout: Layout, p: PeerId)
    requires PossibleRun(s, inputs) && Calm(s, inputs, layout, p) && SameMembers(s, inputs) && p in s.peers
    requires UntargetedCount(inputs) >= |s.peers|
    ensures Serves(s, inputs, p)
  {
    WaitOverFixedMembers(s, inputs, layout, p);
  }

  // ── Load balance ──

  /** Members and key order are fixed, and every untargeted fetch is answered by the first peer it asks. */
  ghost predicate Steady(s: State, inputs: seq<Input>, order: seq<PeerId>)
    requires PossibleRun(s, inputs)
    decreases |inputs|
  {
    && IsOrder(order, s.peers.Keys)
    && (inputs != [] ==>
      && (inputs[0].Cmd? ==> inputs[0].env.order == order)
      && (IsUntargeted(inputs[0]) && 0 < |order| ==> Stop(s, inputs[0].env) == 0)
      && Steady(Step(s, inputs[0]), inputs[1..], order))
  }

  /** How many untargeted fetches of the run `p` serves. */
  ghost function Servings(s: State, inputs: seq<Input>, p: PeerId): nat
    requires PossibleRun(s, inputs)
    decreases |inputs|
  {
    if inputs == [] then 0
    else (if Server(s, inputs[0]) == Some(p) then 1 else 0) + Servings(Step(s, inputs[0]), inputs[1..], p)
  }

  /** A cursor moved one place: the first peer in line goes last, everyone else moves up. */
  lemma {:induction false} WaitRotates(s: State, t: State, env: Env, layout: Layout, p: PeerId)
    requires Ready(s, env) && Laid(s, layout) && env.order == layout[s.peers.Keys] && p in s.peers
    requires t.peers == s.peers && Stop(s, env) == 0 && t.rrIndex == NextCursor(s, env)
    ensures var d := Wait(s, layout, p);
      && (ScanOrder(s, env)[0] == p <==> d == 0)
      && Wait(t, layout, p) == if d == 0 then |env.order| - 1 else d - 1
  {
    ElementsMember(env.order);
    NoDupPairwise(env.order);
    PlaceInScan(env.order, Wrap(s.rrIndex, |env.order|), p);
    FirstAsked(s, env);
    CursorMoves(env.order, Wrap(s.rrIndex, |env.order|), 1, p);
  }

  lemma {:induction false} SteadyStep(s: State, input: Input, order: seq<PeerId>, p: PeerId)
    requires Possible(s, input) && IsOrder(order, s.peers.Keys) && p in s.peers
    requires IsOrder(order, Step(s, input).peers.Keys)
    requires input.Cmd? ==> input.env.order == order
    requires IsUntargeted(input) && 0 < |order| ==> Stop(s, input.env) == 0
    ensures var layout := map[s.peers.Keys := order];
      var s' := Step(s, input);
      var d := Wait(s, layout, p);
      && s'.peers.Keys == s.peers.Keys
      && (Server(s, input) == Some(p) <==> IsUntargeted(input) && d == 0)
      && Wait(s', layout, p) == if !IsUntargeted(input) then d else if d == 0 then |order| - 1 else d - 1
  {
    OrderLength(order, s.peers.Keys);
    if IsUntargeted(input) {
      UntargetedStep(s, input);
      assert Evicted(s, input.env) == [];
      assert s.peers - Elements([]) == s.peers;
      WaitRotates(s, Step(s, input), input.env, map[s.peers.Keys := order], p);
    } else {
      OtherSteps(s, input);
    }
  }

  /** The exact share: of m such fetches a peer first reached after d others serves (m + n - 1 - d) / n. */
  lemma {:induction false} ExactShare(s: State, inputs: seq<Input>, order: seq<PeerId>, p: PeerId)
    requires PossibleRun(s, inputs) && Steady(s, inputs, order) && p in s.peers
    ensures 0 < |order|
    ensures var d := Wait(s, map[s.peers.Keys := order], p);
      Servings(s, inputs, p) == (UntargetedCount(inputs) + |order| - 1 - d) / |order|
    decreases |inputs|
  {
    var n := |order|;
    var m := UntargetedCount(inputs);
    var d := Wait(s, map[s.peers.Keys := order], p);
    OrderLength(order, s.peers.Keys);
    if inputs == [] {
      SmallQuotient(n - 1 - d, n);
    } else {
      SteadyStep(s, inputs[0], order, p);
      ExactShare(Step(s, inputs[0]), inputs[1..], order, p);
      if IsUntargeted(inputs[0]) && d == 0 {
        ModMinus(m + n - 1, n);
      }
    }
  }

  lemma {:induction false} SmallQuotient(x: nat, n: nat)
    requires x < n
    ensures x / n == 0
  {
  }

  /**
   * Load balance: of m untargeted fetches each answered at the first peer asked, every peer serves floor(m/n) or
   * ceil(m/n).
   */
  lemma {:induction false} LoadBalance(s: State, inputs: seq<Input>, order: seq<PeerId>, p: PeerId)
    requires PossibleRun(s, inputs) && Steady(s, inputs, order) && p in s.peers
    ensures var m, n := UntargetedCount(inputs), |s.peers|;
      && 0 < n
      && m / n <= Servings(s, inputs, p) <= (m + n - 1) / n
  {
    ExactShare(s, inputs, order, p);
    OrderLength(order, s.peers.Keys);
    var m, n := UntargetedCount(inputs), |order|;
    var d := Wait(s, map[s.peers.Keys := order], p);
    QuotientGrows(m, m + n - 1 - d, n);
    QuotientGrows(m + n - 1 - d, m + n - 1, n);
  }

  lemma {:induction false} QuotientGrows(x: nat, y: nat, n: nat)
    requires x <= y && 0 < n
    ensures x / n <= y / n
  {
    var e: int := y / n - x / n;
    assert e * n == (y - y % n) - (x - x % n);
    assert e < 0 ==> (e + 1) * n <= 0;
  }

  // ── Shrinking ──

  /** No session of a new peer is opened over the run. */
  ghost predicate NoneJoin(s: State, inputs: seq<Input>)
    requires PossibleRun(s, inputs)
    decreases |inputs|
  {
    inputs != [] ==>
      && (inputs[0].Event? && inputs[0].event.ActivePeerSession? ==> inputs[0].event.info.peerId in s.peers)
      && NoneJoin(Step(s, inputs[0]), inputs[1..])
  }

  predicate Evicts(s: State, input: Input)
    requires Possible(s, input)
  {
    IsUntargeted(input) && s.peers != map[] &&
    (OrderLength(input.env.order, s.peers.Keys); Evicted(s, input.env) != [])
  }

  ghost function EvictingFetches(s: State, inputs: seq<Input>): nat
    requires PossibleRun(s, inputs)
    decreases |inputs|
  {
    if inputs == [] then 0
    else (if Evicts(s, inputs[0]) then 1 else 0) + EvictingFetches(Step(s, inputs[0]), inputs[1..])
  }

  lemma {:induction false} ShrinkStep(s: State, input: Input)
    requires Possible(s, input)
    requires input.Event? && input.event.ActivePeerSession? ==> input.event.info.peerId in s.peers
    ensures |Step(s, input).peers| + (if Evicts(s, input) then 1 else 0) <= |s.peers|
  {
    var s' := Step(s, input);
    assert |s'.peers| == |s'.peers.Keys| && |s.peers| == |s.peers.Keys|;
    assert s'.peers.Keys <= s.peers.Keys;
    if Evicts(s, input) {
      OrderLength(input.env.order, s.peers.Keys);
      var ids := Evicted(s, input.env);
      ElementsMember(ids);
      assert ids[0] in ids;
      assert ids[0] in s.peers && ids[0] !in s'.peers;
    }
    if s'.peers.Keys != s.peers.Keys {
      SmallerSet(s'.peers.Keys, s.peers.Keys);
    }
  }

  /**
   * Without new peers, the fetches that evict someone number at most the peers lost; and an emptied map serves
   * nobody and asks nobody.
   */
  lemma {:induction false} Shrinking(s: State, inputs: seq<Input>)
    requires PossibleRun(s, inputs) && NoneJoin(s, inputs)
    ensures EvictingFetches(s, inputs) + |Run(s, inputs).peers| <= |s.peers|
    ensures s.peers == map[] ==> Run(s, inputs) == s.(replies := Run(s, inputs).replies)
    decreases |inputs|
  {
    if inputs == [] {
    } else {
      ShrinkStep(s, inputs[0]);
      Shrinking(Step(s, inputs[0]), inputs[1..]);
    }
  }

  /** Once the map is empty, and until a peer joins, every fetch fails with the placeholder id. */
  lemma {:induction false} EmptyMapServesNobody(s: State, inputs: seq<Input>)
    requires PossibleRun(s, inputs) && NoneJoin(s, inputs) && s.peers == map[]
    ensures var replies := Run(s, inputs).replies;
      && s.replies <= replies
      && forall j :: |s.replies| <= j < |replies| ==>
        match replies[j]
        case FetchReply(_, result) => result == Failure(Disconnected(DEFAULT_PEER_ID))
        case PeersReply(_, infos) => infos == []
    decreases |inputs|
  {
    if inputs == [] {
    } else {
      if inputs[0].Cmd? {
        OrderLength(inputs[0].env.order, {});
      }
      EmptyMapServesNobody(Step(s, inputs[0]), inputs[1..]);
    }
  }
}
