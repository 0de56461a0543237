/**
 * The bound of Fairness.BoundedWaitUnderChurn is attained: a run in which a peer that always answers is passed over
 * n(n-1)/2 times. Whenever that peer is next, the first key of the map closes, and the shorter key list carries the
 * cursor back to its start (src/network/manager.rs:304-318).
 */
module ChurnBound {
  import opened Wrappers
  import opened Cyclic
  import opened Peers
  import opened ManagerModel
  import opened FetchScan
  import opened Fairness
  import opened OpenRuns

  function AllAnswer(order: seq<PeerId>): map<PeerId, Remote> {
    map id | id in order :: ANSWERS
  }

  function FetchOver(order: seq<PeerId>): Input {
    Cmd(Fetch(None, [], 0), Env(order, AllAnswer(order)))
  }

  /** Fetch until the last key is next, close the first key, and begin again; `c` is where the cursor stands. */
  function Worst(order: seq<PeerId>, c: nat): seq<Input>
    requires c < |order|
    decreases |order|, |order| - c
  {
    if c + 1 < |order| then [FetchOver(order)] + Worst(order, c + 1)
    else if |order| == 1 then []
    else [Event(PeerRemoved(order[0]))] + Worst(order[1..], 0)
  }

  /** Removals leave the other keys of `order` in place. */
  ghost function Stable(order: seq<PeerId>): Layout {
    map keys | keys <= Elements(order) :: Restrict(order, keys)
  }

  lemma {:induction false} RestrictAll(s: seq<PeerId>, keep: set<PeerId>)
    requires Elements(s) <= keep
    ensures Restrict(s, keep) == s
  {
    if s == [] {
    } else {
      RestrictAll(s[..|s| - 1], keep);
      assert s == s[..|s| - 1] + [s[|s| - 1]];
    }
  }

  lemma {:induction false} RestrictNone(s: seq<PeerId>, keep: set<PeerId>)
    requires Elements(s) !! keep
    ensures Restrict(s, keep) == []
  {
    if s == [] {
    } else {
      RestrictNone(s[..|s| - 1], keep);
    }
  }

  lemma {:induction false} SuffixParts(all: seq<PeerId>, j: nat)
    requires NoDup(all) && j <= |all|
    ensures Elements(all[j..]) <= Elements(all)
    ensures Elements(all[..j]) !! Elements(all[j..])
  {
    ElementsMember(all);
    ElementsMember(all[..j]);
    ElementsMember(all[j..]);
    NoDupPairwise(all);
  }

  /** What is left when the first `j` keys are gone is the rest of the key order. */
  lemma {:induction false} StableSuffix(all: seq<PeerId>, j: nat)
    requires NoDup(all) && j <= |all|
    ensures Elements(all[j..]) in Stable(all) && Stable(all)[Elements(all[j..])] == all[j..]
  {
    SuffixParts(all, j);
    assert all == all[..j] + all[j..];
    RestrictAppend(all[..j], all[j..], Elements(all[j..]));
    RestrictNone(all[..j], Elements(all[j..]));
    RestrictAll(all[j..], Elements(all[j..]));
  }

  /** The layout keeps `order` as its first keys are removed one by one. */
  ghost predicate Covers(layout: Layout, order: seq<PeerId>) {
    order != [] ==>
      && Elements(order) in layout
      && layout[Elements(order)] == order
      && Covers(layout, order[1..])
  }

  lemma {:induction false} StableCovers(all: seq<PeerId>, j: nat)
    requires NoDup(all) && j <= |all|
    ensures Covers(Stable(all), all[j..])
    decreases |all| - j
  {
    if j == |all| {
    } else {
      StableSuffix(all, j);
      StableCovers(all, j + 1);
      assert all[j..][1..] == all[j + 1..];
    }
  }

  /** `s` has the keys of `order` and its cursor stands at `c`, or is still to be wrapped to zero. */
  ghost predicate At(s: State, order: seq<PeerId>, c: nat) {
    && c < |order|
    && IsOrder(order, s.peers.Keys)
    && (s.rrIndex == c || (c == 0 && s.rrIndex == |order|))
  }

  lemma {:induction false} EachAnswers(s: State, order: seq<PeerId>, id: PeerId)
    requires IsOrder(order, s.peers.Keys) && id in s.peers
    ensures Answer(s.peers, AllAnswer(order), id).Success?
  {
    ElementsMember(order);
    AnsweringSucceeds(s.peers, AllAnswer(order), id);
  }

  /** A fetch is served by the key at the cursor and moves the cursor one place. */
  lemma {:induction false} FetchStep(s: State, order: seq<PeerId>, c: nat)
    requires At(s, order, c) && c + 1 < |order|
    ensures Possible(s, FetchOver(order)) && Server(s, FetchOver(order)) == Some(order[c])
    ensures At(Step(s, FetchOver(order)), order, c + 1)
  {
    var env := FetchOver(order).env;
    WrapNear(s.rrIndex, |order|);
    FirstAsked(s, env);
    EachAnswers(s, order, ScanOrder(s, env)[0]);
    StopHere(s, env, 0);
    OrderLength(order, s.peers.Keys);
    UntargetedStep(s, FetchOver(order));
    assert Evicted(s, env) == [];
    assert s.peers - Elements([]) == s.peers;
    WrapNear(c + 1, |order|);
  }

  lemma {:induction false} CloseStep(s: State, order: seq<PeerId>)
    requires 2 <= |order| && At(s, order, |order| - 1)
    ensures At(Step(s, Event(PeerRemoved(order[0]))), order[1..], 0)
    ensures Server(s, Event(PeerRemoved(order[0]))) == None
  {
    NoDupHead(order);
    ElementsHead(order);
    NotElement(order[1..], order[0]);
    assert (s.peers - {order[0]}).Keys == Elements(order[1..]);
  }

  lemma {:induction false} NotElement(s: seq<PeerId>, x: PeerId)
    requires x !in s
    ensures x !in Elements(s)
  {
    ElementsMember(s);
  }

  lemma {:induction false} FetchesOfWorst(order: seq<PeerId>, c: nat)
    requires c < |order|
    ensures UntargetedCount(Worst(order, c)) == Tri(|order| - 1) + (|order| - 1 - c)
    decreases |order|, |order| - c
  {
    if c + 1 < |order| {
      FetchesOfWorst(order, c + 1);
      assert Worst(order, c)[1..] == Worst(order, c + 1);
    } else if |order| == 1 {
    } else {
      FetchesOfWorst(order[1..], 0);
      assert Worst(order, c)[1..] == Worst(order[1..], 0);
    }
  }

  lemma {:induction false} CalmFetchOver(s: State, order: seq<PeerId>, p: PeerId)
    requires IsOrder(order, s.peers.Keys)
    ensures CalmStep(s, FetchOver(order), p)
  {
    if p in s.peers {
      EachAnswers(s, order, p);
    }
  }

  /** A calm run over which `p` is never served, step by step; see NeverServed. */
  ghost predicate PassesOver(s: State, inputs: seq<Input>, layout: Layout, p: PeerId)
    decreases |inputs|
  {
    && Laid(s, layout)
    && (inputs != [] ==>
      && Possible(s, inputs[0]) && CalmStep(s, inputs[0], p)
      && (inputs[0].Cmd? ==> inputs[0].env.order == layout[s.peers.Keys])
      && Server(s, inputs[0]) != Some(p)
      && PassesOver(Step(s, inputs[0]), inputs[1..], layout, p))
  }

  lemma {:induction false} NeverServed(s: State, inputs: seq<Input>, layout: Layout, p: PeerId)
    requires PassesOver(s, inputs, layout, p)
    ensures PossibleRun(s, inputs) && Calm(s, inputs, layout, p) && !Serves(s, inputs, p)
    decreases |inputs|
  {
    if inputs == [] {
    } else {
      NeverServed(Step(s, inputs[0]), inputs[1..], layout, p);
    }
  }

  lemma {:induction false} PassNothing(s: State, layout: Layout, p: PeerId)
    requires Laid(s, layout)
    ensures PassesOver(s, [], layout, p)
  {
  }

  /** Wherever the cursor may stand at `c`, the worst run from there passes over `p`. */
  ghost predicate WorstPasses(order: seq<PeerId>, layout: Layout, c: nat, p: PeerId)
    requires c < |order|
  {
    forall s :: At(s, order, c) ==> PassesOver(s, Worst(order, c), layout, p)
  }

  lemma {:induction false} WorstAfter(
    s: State, input: Input, order: seq<PeerId>, c: nat, layout: Layout, p: PeerId)
    requires Possible(s, input) && Laid(s, layout) && CalmStep(s, input, p)
    requires input.Cmd? ==> input.env.order == layout[s.peers.Keys]
    requires Server(s, input) != Some(p)
    requires At(Step(s, input), order, c) && WorstPasses(order, layout, c, p)
    ensures PassesOver(s, [input] + Worst(order, c), layout, p)
  {
    assert ([input] + Worst(order, c))[1..] == Worst(order, c);
  }

  lemma {:induction false} WorstFetch(s: State, order: seq<PeerId>, layout: Layout, c: nat, p: PeerId)
    requires At(s, order, c) && c + 1 < |order| && p == order[|order| - 1]
    requires Laid(s, layout) && order == layout[s.peers.Keys]
    requires WorstPasses(order, layout, c + 1, p)
    ensures PassesOver(s, [FetchOver(order)] + Worst(order, c + 1), layout, p)
  {
    FetchStep(s, order, c);
    CalmFetchOver(s, order, p);
    NoDupIndex(order, c, |order| - 1);
    WorstAfter(s, FetchOver(order), order, c + 1, layout, p);
  }

  lemma {:induction false} WorstClose(s: State, order: seq<PeerId>, layout: Layout, p: PeerId)
    requires 2 <= |order| && At(s, order, |order| - 1) && p == order[|order| - 1]
    requires Laid(s, layout)
    requires WorstPasses(order[1..], layout, 0, p)
    ensures PassesOver(s, Worst(order, |order| - 1), layout, p)
  {
    CloseStep(s, order);
    NoDupIndex(order, 0, |order| - 1);
    WorstAfter(s, Event(PeerRemoved(order[0])), order[1..], 0, layout, p);
  }

  lemma {:induction false} WorstAt(s: State, order: seq<PeerId>, layout: Layout, c: nat, p: PeerId)
    requires At(s, order, c) && Covers(layout, order) && p == order[|order| - 1]
    requires c + 1 < |order| ==> WorstPasses(order, layout, c + 1, p)
    requires c + 1 == |order| && 1 < |order| ==> WorstPasses(order[1..], layout, 0, p)
    ensures PassesOver(s, Worst(order, c), layout, p)
  {
    if c + 1 < |order| {
      WorstFetch(s, order, layout, c, p);
    } else if |order| == 1 {
      PassNothing(s, layout, p);
    } else {
      WorstClose(s, order, layout, p);
    }
  }

  lemma {:induction false} WorstFromAny(order: seq<PeerId>, layout: Layout, c: nat, p: PeerId)
    requires Covers(layout, order) && c < |order| && p == order[|order| - 1]
    requires c + 1 < |order| ==> WorstPasses(order, layout, c + 1, p)
    requires c + 1 == |order| && 1 < |order| ==> WorstPasses(order[1..], layout, 0, p)
    ensures WorstPasses(order, layout, c, p)
  {
    forall s | At(s, order, c) ensures PassesOver(s, Worst(order, c), layout, p) {
      WorstAt(s, order, layout, c, p);
    }
  }

  /** The run goes through, is calm for the last key, and never has it serve. */
  lemma {:induction false} WorstRun(order: seq<PeerId>, layout: Layout, c: nat, p: PeerId)
    requires Covers(layout, order) && c < |order| && p == order[|order| - 1]
    ensures WorstPasses(order, layout, c, p)
    decreases |order|, |order| - c
  {
    if c + 1 < |order| {
      WorstRun(order, layout, c + 1, p);
    } else if |order| == 1 {
    } else {
      WorstRun(order[1..], layout, 0, p);
    }
    WorstFromAny(order, layout, c, p);
  }

  lemma {:induction false} FetchesOfWorstAll(order: seq<PeerId>)
    requires 0 < |order|
    ensures 2 * UntargetedCount(Worst(order, 0)) == |order| * (|order| - 1)
  {
    FetchesOfWorst(order, 0);
    TriClosed(|order|);
  }

  lemma {:induction false} WorstFrom(s: State, order: seq<PeerId>)
    requires 0 < |order| && IsOrder(order, s.peers.Keys) && s.rrIndex == 0
    ensures |s.peers| == |order| && order[|order| - 1] in s.peers
    ensures PassesOver(s, Worst(order, 0), Stable(order), order[|order| - 1])
  {
    assert order[0..] == order;
    StableCovers(order, 0);
    OrderLength(order, s.peers.Keys);
    assert |s.peers| == |s.peers.Keys|;
    InElements(order, |order| - 1);
    WorstRun(order, Stable(order), 0, order[|order| - 1]);
  }

  /**
   * For every n there is a run after which n peers are live, and a calm continuation with n(n-1)/2 untargeted fetches
   * none of which a peer that always answers serves.
   */
  lemma {:induction false} Attained(n: nat) returns (inputs: seq<Input>, layout: Layout, p: PeerId)
    requires 0 < n
    ensures PossibleRun(INITIAL, Openings(n))
    ensures var s := Run(INITIAL, Openings(n));
      && |s.peers| == n && p in s.peers
      && PossibleRun(s, inputs) && Calm(s, inputs, layout, p)
      && 2 * UntargetedCount(inputs) == n * (n - 1)
      && !Serves(s, inputs, p)
  {
    inputs, layout, p := Worst(Ids(n), 0), Stable(Ids(n)), Ids(n)[n - 1];
    Opened(n);
    var s := Run(INITIAL, Openings(n));
    WorstFrom(s, Ids(n));
    NeverServed(s, inputs, layout, p);
    FetchesOfWorstAll(Ids(n));
  }
}
