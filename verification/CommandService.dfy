/**
 * Every command the main loop receives is answered once, in order (src/network/manager.rs:99-152, 197-220,
 * 270-284).
 */
module CommandService {
  import opened Wrappers
  import opened Cyclic
  import opened Peers
  import opened ManagerModel
  import opened FetchScan
  import opened EventLog

  function Commands(inputs: seq<Input>): seq<Command> {
    if inputs == [] then []
    else (if inputs[0].Cmd? then [inputs[0].cmd] else []) + Commands(inputs[1..])
  }

  /** The reply answers the command: on its channel, and of its kind. */
  predicate Replies(reply: Reply, cmd: Command) {
    && reply.to == cmd.reply
    && (reply.FetchReply? <==> cmd.Fetch?)
  }

  lemma {:induction false} StepReplies(s: State, input: Input)
    requires Possible(s, input)
    ensures var t := Step(s, input);
      && s.replies <= t.replies
      && |t.replies| == |s.replies| + (if input.Cmd? then 1 else 0)
      && (input.Cmd? ==> Replies(t.replies[|s.replies|], input.cmd))
  {
  }

  /** A run only appends replies, as many as it handles commands. */
  lemma {:induction false} RepliesGrow(s: State, inputs: seq<Input>)
    requires PossibleRun(s, inputs)
    ensures s.replies <= Run(s, inputs).replies
    ensures |Run(s, inputs).replies| == |s.replies| + |Commands(inputs)|
    decreases |inputs|
  {
    if inputs == [] {
    } else {
      StepReplies(s, inputs[0]);
      RepliesGrow(Step(s, inputs[0]), inputs[1..]);
    }
  }

  lemma {:induction false} ReplyAt(s: State, inputs: seq<Input>, j: nat)
    requires PossibleRun(s, inputs) && j < |Commands(inputs)|
    ensures |s.replies| + j < |Run(s, inputs).replies|
    ensures Replies(Run(s, inputs).replies[|s.replies| + j], Commands(inputs)[j])
    decreases |inputs|
  {
    var t := Step(s, inputs[0]);
    StepReplies(s, inputs[0]);
    RepliesGrow(t, inputs[1..]);
    if inputs[0].Cmd? && j == 0 {
    } else {
      var here := if inputs[0].Cmd? then 1 else 0;
      assert Commands(inputs)[j] == Commands(inputs[1..])[j - here];
      ReplyAt(t, inputs[1..], j - here);
    }
  }

  /** One reply per command handled, in arrival order, whatever network events fall between. */
  lemma {:induction false} OneReplyEach(s: State, inputs: seq<Input>)
    requires PossibleRun(s, inputs)
    ensures var replies := Run(s, inputs).replies;
      && s.replies <= replies
      && |replies| == |s.replies| + |Commands(inputs)|
      && forall j :: 0 <= j < |Commands(inputs)| ==> Replies(replies[|s.replies| + j], Commands(inputs)[j])
  {
    RepliesGrow(s, inputs);
    forall j | 0 <= j < |Commands(inputs)|
      ensures Replies(Run(s, inputs).replies[|s.replies| + j], Commands(inputs)[j])
    {
      ReplyAt(s, inputs, j);
    }
  }

  // ── The callers' side ──

  predicate DistinctTickets(inputs: seq<Input>) {
    forall i, j :: 0 <= i < j < |inputs| && inputs[i].Cmd? && inputs[j].Cmd? ==>
      inputs[i].cmd.reply != inputs[j].cmd.reply
  }

  /** What arrives on one reply channel: the message sent there, or nothing once the channel is dropped. */
  function Received(replies: seq<Reply>, ticket: Ticket): (r: Option<Reply>)
    ensures r.None? <==> forall k :: 0 <= k < |replies| ==> replies[k].to != ticket
    ensures r.Some? ==> r.value in replies && r.value.to == ticket
  {
    if replies == [] then None
    else if replies[0].to == ticket then Some(replies[0])
    else Received(replies[1..], ticket)
  }

  lemma {:induction false} CommandSource(inputs: seq<Input>, j: nat) returns (i: nat)
    requires j < |Commands(inputs)|
    ensures i < |inputs| && inputs[i].Cmd? && inputs[i].cmd == Commands(inputs)[j] && |Commands(inputs[..i])| == j
    decreases |inputs|
  {
    if inputs[0].Cmd? && j == 0 {
      i := 0;
    } else {
      var here := if inputs[0].Cmd? then 1 else 0;
      assert Commands(inputs)[j] == Commands(inputs[1..])[j - here];
      i := CommandSource(inputs[1..], j - here);
      assert inputs[..i + 1][0] == inputs[0] && inputs[..i + 1][1..] == inputs[1..][..i];
      i := i + 1;
    }
  }

  /** What is replied by some point of a run stays, one reply for each command before it. */
  lemma {:induction false} RepliesStay(s: State, inputs: seq<Input>, k: nat)
    requires PossibleRun(s, inputs) && k <= |inputs|
    ensures PossibleRun(s, inputs[..k])
    ensures Run(s, inputs[..k]).replies <= Run(s, inputs).replies
    ensures |Run(s, inputs[..k]).replies| == |s.replies| + |Commands(inputs[..k])|
  {
    assert inputs == inputs[..k] + inputs[k..];
    RunAppend(s, inputs[..k], inputs[k..]);
    RepliesGrow(s, inputs[..k]);
    RepliesGrow(Run(s, inputs[..k]), inputs[k..]);
  }

  /** A command's reply lands behind those of the commands before it, and stays there. */
  lemma {:induction false} ReplyPosition(s: State, inputs: seq<Input>, i: nat)
    requires PossibleRun(s, inputs) && i < |inputs| && inputs[i].Cmd?
    ensures PossibleRun(s, inputs[..i]) && Possible(Run(s, inputs[..i]), inputs[i])
    ensures var before := Run(s, inputs[..i]);
      var after := Step(before, inputs[i]);
      && |before.replies| == |s.replies| + |Commands(inputs[..i])|
      && |after.replies| == |before.replies| + 1
      && after.replies <= Run(s, inputs).replies
  {
    RunSnoc(s, inputs, i);
    RepliesStay(s, inputs, i);
    RepliesStay(s, inputs, i + 1);
    StepReplies(Run(s, inputs[..i]), inputs[i]);
  }

  /** With one channel per command, nobody else's reply lands on a command's channel. */
  lemma {:induction false} OneTicketOneReply(s: State, inputs: seq<Input>, i: nat, k: nat)
    requires PossibleRun(s, inputs) && DistinctTickets(inputs) && s.replies == []
    requires i < |inputs| && inputs[i].Cmd?
    requires k < |Run(s, inputs).replies| && Run(s, inputs).replies[k].to == inputs[i].cmd.reply
    ensures k == |Commands(inputs[..i])|
  {
    RepliesGrow(s, inputs);
    ReplyAt(s, inputs, k);
    var src := CommandSource(inputs, k);
  }

  /** With one channel per command, a handled command's caller receives exactly the reply computed at its own step. */
  lemma {:induction false} OwnReply(s: State, inputs: seq<Input>, i: nat)
    requires PossibleRun(s, inputs) && DistinctTickets(inputs) && s.replies == []
    requires i < |inputs| && inputs[i].Cmd?
    ensures PossibleRun(s, inputs[..i]) && Possible(Run(s, inputs[..i]), inputs[i])
    ensures var before := Run(s, inputs[..i]);
      var after := Step(before, inputs[i]);
      && |after.replies| == |before.replies| + 1
      && Received(Run(s, inputs).replies, inputs[i].cmd.reply) == Some(after.replies[|before.replies|])
  {
    ReplyPosition(s, inputs, i);
    StepReplies(Run(s, inputs[..i]), inputs[i]);
    var replies := Run(s, inputs).replies;
    var mine := |Commands(inputs[..i])|;
    forall k | 0 <= k < |replies| && replies[k].to == inputs[i].cmd.reply ensures k == mine {
      OneTicketOneReply(s, inputs, i, k);
    }
    ReceivedUnique(replies, inputs[i].cmd.reply, mine);
  }

  lemma {:induction false} ReceivedUnique(replies: seq<Reply>, ticket: Ticket, k: nat)
    requires k < |replies| && replies[k].to == ticket
    requires forall j :: 0 <= j < |replies| && replies[j].to == ticket ==> j == k
    ensures Received(replies, ticket) == Some(replies[k])
  {
    var r := Received(replies, ticket);
    assert r.Some?;
    var j :| 0 <= j < |replies| && replies[j] == r.value;
  }

  /** A command the loop never handled gets nothing. */
  lemma {:induction false} Unanswered(s: State, inputs: seq<Input>, i: nat)
    requires PossibleRun(s, Handled(inputs)) && DistinctTickets(inputs) && s.replies == []
    requires |Handled(inputs)| <= i < |inputs| && inputs[i].Cmd?
    ensures Received(Run(s, Handled(inputs)).replies, inputs[i].cmd.reply) == None
  {
    var done := Handled(inputs);
    var replies := Run(s, done).replies;
    OneReplyEach(s, done);
    forall k | 0 <= k < |replies| ensures replies[k].to != inputs[i].cmd.reply {
      var src := CommandSource(done, k);
      assert done[src] == inputs[src];
    }
  }

  // ── PeerManagerHandle ──

  /** The handle's errors, by cause rather than by text. */
  datatype AppError = ManagerGone | ReplyDropped | PeerFailed(error: PeerError)

  /** `sent` says whether the command channel took the command. */
  function FetchReceiptsFrom(id: PeerId, sent: bool, received: Option<Reply>): FetchResult {
    if !sent then Failure(Disconnected(id))
    else if received.Some? && received.value.FetchReply? then received.value.result
    else Failure(ResponseChannelClosed(id))
  }

  function FetchReceiptsFromAny(sent: bool, received: Option<Reply>): Result<Blocks, AppError> {
    if !sent then Failure(ManagerGone)
    else if received.Some? && received.value.FetchReply? then
      match received.value.result
      case Success(blocks) => Success(blocks)
      case Failure(e) => Failure(PeerFailed(e))
    else Failure(AppError.ReplyDropped)
  }

  function ConnectedPeerInfos(sent: bool, received: Option<Reply>): Result<seq<PeerInfo>, AppError> {
    if !sent then Failure(ManagerGone)
    else if received.Some? && received.value.PeersReply? then Success(received.value.infos)
    else Failure(AppError.ReplyDropped)
  }

  function PeerCount(sent: bool, received: Option<Reply>): Result<nat, AppError> {
    match ConnectedPeerInfos(sent, received)
    case Success(infos) => Success(|infos|)
    case Failure(e) => Failure(e)
  }

  /**
   * Over every run of the loop and any interleaving, a caller whose command was handled sees the result of the
   * state at its turn: what the peers asked said, or the infos a subscriber would have replayed by then.
   */
  lemma {:induction false} CallersSeeTheirTurn(inputs: seq<Input>, i: nat)
    requires PossibleRun(INITIAL, Handled(inputs)) && DistinctTickets(inputs)
    requires i < |Handled(inputs)| && inputs[i].Cmd?
    ensures PossibleRun(INITIAL, inputs[..i]) && Possible(Run(INITIAL, inputs[..i]), inputs[i])
    ensures var received := Received(Run(INITIAL, Handled(inputs)).replies, inputs[i].cmd.reply);
      var s := Run(INITIAL, inputs[..i]);
      match inputs[i].cmd
      case Fetch(Some(id), _, _) =>
        Rightful(s, inputs[i].env, Some(id), FetchReceiptsFrom(id, true, received))
      case Fetch(None, _, _) =>
        (match FetchReceiptsFromAny(true, received)
         case Success(blocks) => Rightful(s, inputs[i].env, None, Success(blocks))
         case Failure(e) => e.PeerFailed? && Rightful(s, inputs[i].env, None, Failure(e.error)))
      case ConnectedPeers(_) =>
        && ConnectedPeerInfos(true, received).Success?
        && ListsExactly(ConnectedPeerInfos(true, received).value, Replay(s.events))
        && PeerCount(true, received) == Success(|Replay(s.events)|)
  {
    var done := Handled(inputs);
    assert done[i] == inputs[i] && done[..i] == inputs[..i];
    OwnReply(INITIAL, done, i);
    match inputs[i].cmd {
      case Fetch(target, blockHashes, _) =>
        var s, env := Run(INITIAL, inputs[..i]), inputs[i].env;
        FetchIsRightful(s, target, blockHashes, env, DoFetch(s, target, blockHashes, env).1);
      case ConnectedPeers(reply) =>
        SnapshotMatchesLog(inputs[..i], reply, inputs[i].env);
    }
  }

  /**
   * A caller whose command was never handled is told which way it was lost: left in the queue when the loop ended,
   * or never taken by the closed channel.
   */
  lemma {:induction false} CallersSeeTheEnd(inputs: seq<Input>, i: nat, sent: bool)
    requires PossibleRun(INITIAL, Handled(inputs)) && DistinctTickets(inputs)
    requires |Handled(inputs)| <= i < |inputs| && inputs[i].Cmd?
    ensures var received := Received(Run(INITIAL, Handled(inputs)).replies, inputs[i].cmd.reply);
      var lost := if sent then AppError.ReplyDropped else ManagerGone;
      match inputs[i].cmd
      case Fetch(Some(id), _, _) =>
        FetchReceiptsFrom(id, sent, received) == Failure(if sent then ResponseChannelClosed(id) else Disconnected(id))
      case Fetch(None, _, _) =>
        FetchReceiptsFromAny(sent, received) == Failure(lost)
      case ConnectedPeers(_) =>
        && ConnectedPeerInfos(sent, received) == Failure(lost)
        && PeerCount(sent, received) == Failure(lost)
  {
    Unanswered(INITIAL, inputs, i);
  }

  /**
   * What an error tells the caller, over every run. The untargeted fetch and the snapshot name the three causes
   * apart; the targeted fetch says Disconnected for a closed manager, an absent peer and a refused send alike.
   */
  lemma {:induction false} ErrorsTellCause(inputs: seq<Input>, i: nat, sent: bool)
    requires PossibleRun(INITIAL, Handled(inputs)) && DistinctTickets(inputs)
    requires i < |inputs| && inputs[i].Cmd? && (i < |Handled(inputs)| ==> sent)
    ensures i < |Handled(inputs)| ==> PossibleRun(INITIAL, inputs[..i])
    ensures var received := Received(Run(INITIAL, Handled(inputs)).replies, inputs[i].cmd.reply);
      var handled := i < |Handled(inputs)|;
      match inputs[i].cmd
      case Fetch(Some(id), _, _) =>
        var r := FetchReceiptsFrom(id, sent, received);
        (r.Failure? && r.error.Disconnected?)
          <==> !sent || (handled && (id in Run(INITIAL, inputs[..i]).peers ==>
            !Accepted(Run(INITIAL, inputs[..i]).peers[id], Conduct(inputs[i].env.net, id))))
      case Fetch(None, _, _) =>
        var r := FetchReceiptsFromAny(sent, received);
        && (r == Failure(ManagerGone) <==> !sent)
        && (r == Failure(AppError.ReplyDropped) <==> sent && !handled)
      case ConnectedPeers(_) =>
        var r := ConnectedPeerInfos(sent, received);
        && (r == Failure(ManagerGone) <==> !sent)
        && (r == Failure(AppError.ReplyDropped) <==> sent && !handled)
        && (r.Success? <==> handled)
  {
    if i < |Handled(inputs)| {
      CallersSeeTheirTurn(inputs, i);
    } else {
      CallersSeeTheEnd(inputs, i, sent);
    }
  }
}
