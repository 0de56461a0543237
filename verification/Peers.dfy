/** A live session with a remote peer, and one receipt request put to it (src/network/peer.rs). */
module Peers {
  import opened Wrappers

  /** A 512-bit node key, as a number. */
  type PeerId = nat
  /** A block hash, as a number. */
  type B256 = nat
  /** The write end of one session's request channel. */
  type Sender = nat

  const DEFAULT_PEER_ID: PeerId := 0

  datatype EthVersion = Eth66 | Eth67 | Eth68 | Eth69 | Eth70

  datatype SessionInfo = SessionInfo(
    peerId: PeerId, remoteAddr: string, version: EthVersion, clientVersion: string, capabilities: seq<string>)

  datatype PeerInfo = PeerInfo(
    id: PeerId, remoteAddr: string, ethVersion: EthVersion, clientVersion: string, capabilities: seq<string>,
    connectedAt: nat)

  datatype Peer = Peer(info: PeerInfo, sender: Sender)

  datatype PeerError =
    | Disconnected(id: PeerId)
    | RequestFailed(id: PeerId, reason: string)
    | ResponseChannelClosed(id: PeerId)

  datatype Receipt = Receipt(txType: nat, success: bool, cumulativeGasUsed: nat, logs: seq<string>)
  datatype ReceiptWithBloom = ReceiptWithBloom(receipt: Receipt, bloom: nat)

  // The three response messages, one per request kind.
  datatype Receipts = Receipts(blocks: seq<seq<ReceiptWithBloom>>)
  datatype Receipts69 = Receipts69(blocks: seq<seq<Receipt>>)
  datatype Receipts70 = Receipts70(lastBlockIncomplete: bool, blocks: seq<seq<ReceiptWithBloom>>)

  datatype PeerRequest =
    | GetReceipts(blockHashes: seq<B256>)
    | GetReceipts69(blockHashes: seq<B256>)
    | GetReceipts70(firstBlockReceiptIndex: nat, blockHashes: seq<B256>)

  /** What becomes of one request: the send is refused, the reply channel is dropped, or a reply arrives. */
  datatype Channel<+T> = NotEnqueued | ReplyDropped | Failed(reason: string) | Delivered(value: T)

  /** What a session does with one request of each kind; only the kind of its version is ever sent. */
  datatype Remote = Remote(
    receipts: Channel<Receipts>, receipts69: Channel<Receipts69>, receipts70: Channel<Receipts70>)

  type Blocks = seq<seq<Receipt>>
  type FetchResult = Result<Blocks, PeerError>

  function FromSession(info: SessionInfo, sender: Sender, now: nat): Peer {
    Peer(PeerInfo(info.peerId, info.remoteAddr, info.version, info.clientVersion, info.capabilities, now), sender)
  }

  /** The request message for the peer's negotiated version. */
  function Request(peer: Peer, blockHashes: seq<B256>): PeerRequest {
    match peer.info.ethVersion
    case Eth70 => GetReceipts70(0, blockHashes)
    case Eth69 => GetReceipts69(blockHashes)
    case _ => GetReceipts(blockHashes)
  }

  /** Each block's receipts without their blooms. */
  function StripBlooms(blocks: seq<seq<ReceiptWithBloom>>): Blocks {
    seq(|blocks|, b requires 0 <= b < |blocks| =>
      seq(|blocks[b]|, i requires 0 <= i < |blocks[b]| => blocks[b][i].receipt))
  }

  function IntoReceipts(r: Receipts70): Receipts {
    Receipts(r.blocks)
  }

  /** The refused send, the dropped reply and the error reply, each turned into the peer's error. */
  function Await<T>(id: PeerId, channel: Channel<T>): Result<T, PeerError> {
    match channel
    case NotEnqueued => Failure(Disconnected(id))
    case ReplyDropped => Failure(ResponseChannelClosed(id))
    case Failed(reason) => Failure(RequestFailed(id, reason))
    case Delivered(value) => Success(value)
  }

  function FetchReceipts(peer: Peer, remote: Remote): FetchResult {
    var id := peer.info.id;
    match peer.info.ethVersion
    case Eth70 =>
      (match Await(id, remote.receipts70)
       case Failure(e) => Failure(e)
       case Success(r) => Success(StripBlooms(IntoReceipts(r).blocks)))
    case Eth69 =>
      (match Await(id, remote.receipts69)
       case Failure(e) => Failure(e)
       case Success(r) => Success(r.blocks))
    case _ =>
      (match Await(id, remote.receipts)
       case Failure(e) => Failure(e)
       case Success(r) => Success(StripBlooms(r.blocks)))
  }

  /** The peer took the request in: its send queue accepted the message. */
  predicate Accepted(peer: Peer, remote: Remote) {
    match peer.info.ethVersion
    case Eth70 => !remote.receipts70.NotEnqueued?
    case Eth69 => !remote.receipts69.NotEnqueued?
    case _ => !remote.receipts.NotEnqueued?
  }

  /**
   * A failed fetch names the peer it was put to, and reads Disconnected exactly when the request was never
   * enqueued.
   */
  lemma {:induction false} FetchErrors(peer: Peer, remote: Remote)
    ensures FetchReceipts(peer, remote).Failure? ==> FetchReceipts(peer, remote).error.id == peer.info.id
    ensures (FetchReceipts(peer, remote).Failure? && FetchReceipts(peer, remote).error.Disconnected?)
      <==> !Accepted(peer, remote)
  {
  }

  /** `blocks` holds the receipts of `content`: block by block, each in its place, blooms dropped. */
  ghost predicate Carries(blocks: Blocks, content: seq<seq<ReceiptWithBloom>>) {
    && |blocks| == |content|
    && (forall b :: 0 <= b < |content| ==> |blocks[b]| == |content[b]|)
    && (forall b, i :: 0 <= b < |content| && 0 <= i < |content[b]| && i < |blocks[b]| ==>
      blocks[b][i] == content[b][i].receipt)
  }

  /** What a request's fate on its own channel says of the result, up to the content delivered. */
  ghost predicate Reports<T>(channel: Channel<T>, id: PeerId, result: FetchResult) {
    match channel
    case NotEnqueued => result == Failure(Disconnected(id))
    case ReplyDropped => result == Failure(ResponseChannelClosed(id))
    case Failed(reason) => result == Failure(RequestFailed(id, reason))
    case Delivered(_) => result.Success?
  }

  /** `result` is what the session's fate of the one request its version sends comes to. */
  ghost predicate Told(peer: Peer, remote: Remote, result: FetchResult) {
    match peer.info.ethVersion
    case Eth70 =>
      && Reports(remote.receipts70, peer.info.id, result)
      && (remote.receipts70.Delivered? ==> Carries(result.value, remote.receipts70.value.blocks))
    case Eth69 =>
      && Reports(remote.receipts69, peer.info.id, result)
      && (remote.receipts69.Delivered? ==> result.value == remote.receipts69.value.blocks)
    case _ =>
      && Reports(remote.receipts, peer.info.id, result)
      && (remote.receipts.Delivered? ==> Carries(result.value, remote.receipts.value.blocks))
  }

  /** The session delivers a response to the request its version sends. */
  predicate Delivers(peer: Peer, remote: Remote) {
    match peer.info.ethVersion
    case Eth70 => remote.receipts70.Delivered?
    case Eth69 => remote.receipts69.Delivered?
    case _ => remote.receipts.Delivered?
  }

  lemma {:induction false} CarriesStripped(blocks: Blocks, content: seq<seq<ReceiptWithBloom>>)
    ensures Carries(blocks, content) <==> blocks == StripBlooms(content)
  {
    if Carries(blocks, content) {
      forall b | 0 <= b < |content| ensures blocks[b] == StripBlooms(content)[b] {
        assert forall i :: 0 <= i < |content[b]| ==> blocks[b][i] == content[b][i].receipt;
      }
    }
  }

  /**
   * For every version, each fate of that version's own request fixes the result and the other two kinds do not
   * matter: the three failures by name and peer, a delivery by its receipts.
   */
  lemma {:induction false} ResponseDecides(peer: Peer, remote: Remote, result: FetchResult)
    ensures result == FetchReceipts(peer, remote) <==> Told(peer, remote, result)
    ensures FetchReceipts(peer, remote).Success? <==> Delivers(peer, remote)
  {
    if result.Success? {
      if remote.receipts70.Delivered? {
        CarriesStripped(result.value, remote.receipts70.value.blocks);
      }
      if remote.receipts.Delivered? {
        CarriesStripped(result.value, remote.receipts.value.blocks);
      }
    }
  }

  /** The remote end answers every request kind out of the same nested receipts. */
  ghost predicate Answers(remote: Remote, content: seq<seq<ReceiptWithBloom>>) {
    && remote.receipts == Delivered(Receipts(content))
    && remote.receipts69.Delivered?
    && |remote.receipts69.value.blocks| == |content|
    && (forall b :: 0 <= b < |content| ==>
      && |remote.receipts69.value.blocks[b]| == |content[b]|
      && forall i :: 0 <= i < |content[b]| ==> remote.receipts69.value.blocks[b][i] == content[b][i].receipt)
    && remote.receipts70.Delivered?
    && remote.receipts70.value.blocks == content
  }

  /** Two nested contents agree block by block and receipt by receipt, blooms aside. */
  ghost predicate SameReceipts(a: seq<seq<ReceiptWithBloom>>, b: seq<seq<ReceiptWithBloom>>) {
    && |a| == |b|
    && (forall k :: 0 <= k < |a| ==> |a[k]| == |b[k]|)
    && (forall k, i :: 0 <= k < |a| && 0 <= i < |a[k]| && i < |b[k]| ==> a[k][i].receipt == b[k][i].receipt)
  }

  /**
   * Whatever versions two peers speak, their fetched results are equal exactly when the receipts they hold
   * agree in block order, receipt order and count; blooms and the eth/70 truncation flag never show.
   */
  lemma {:induction false} VersionIndependence(
    p: Peer, q: Peer, atP: Remote, atQ: Remote,
    contentP: seq<seq<ReceiptWithBloom>>, contentQ: seq<seq<ReceiptWithBloom>>)
    requires Answers(atP, contentP) && Answers(atQ, contentQ)
    ensures FetchReceipts(p, atP).Success? && FetchReceipts(q, atQ).Success?
    ensures FetchReceipts(p, atP) == FetchReceipts(q, atQ) <==> SameReceipts(contentP, contentQ)
  {
    FetchYieldsContent(p, atP, contentP);
    FetchYieldsContent(q, atQ, contentQ);
    var a, b := StripBlooms(contentP), StripBlooms(contentQ);
    if SameReceipts(contentP, contentQ) {
      forall k | 0 <= k < |a| ensures a[k] == b[k] {
        assert forall i :: 0 <= i < |a[k]| ==> a[k][i] == contentP[k][i].receipt;
      }
      assert a == b;
    } else if a == b {
      forall k | 0 <= k < |contentP| ensures |contentP[k]| == |contentQ[k]| {
        assert |a[k]| == |b[k]|;
      }
      forall k, i | 0 <= k < |contentP| && 0 <= i < |contentP[k]| && i < |contentQ[k]|
        ensures contentP[k][i].receipt == contentQ[k][i].receipt
      {
        assert a[k][i] == b[k][i];
      }
    }
  }

  lemma {:induction false} FetchYieldsContent(p: Peer, remote: Remote, content: seq<seq<ReceiptWithBloom>>)
    requires Answers(remote, content)
    ensures FetchReceipts(p, remote) == Success(StripBlooms(content))
  {
    var bare := remote.receipts69.value.blocks;
    forall b | 0 <= b < |content| ensures bare[b] == StripBlooms(content)[b] {
      assert forall i :: 0 <= i < |content[b]| ==> bare[b][i] == StripBlooms(content)[b][i];
    }
    assert bare == StripBlooms(content);
  }
}
