/** The client's picture of its room: app/core/app_state.py fed by app/net/signaling_client.py. */
module ClientView {
  import opened Wrappers
  import opened Protocol

  /** The frames a server sends down one connection, as far as the client tells them apart. */
  datatype Envelope =
    | Peers(ids: set<string>)
    | PeerJoined(id: string)
    | PeerLeft(id: string)
    | Relayed(wire: Payload)
    | Notice(code: string)

  function ApplyFrame(known: set<string>, e: Envelope): set<string> {
    match e
    case Peers(ids) => ids - {""}
    case PeerJoined(id) => if id == "" then known else known + {id}
    case PeerLeft(id) => if id == "" then known else known - {id}
    case Relayed(_) => known
    case Notice(_) => known
  }

  /** `known_peers` after the frames, starting from whatever the client knew before. */
  function View(known: set<string>, frames: seq<Envelope>): set<string> {
    if frames == [] then known
    else ApplyFrame(View(known, frames[..|frames| - 1]), frames[|frames| - 1])
  }

  lemma ViewSend(known: set<string>, frames: seq<Envelope>, e: Envelope)
    ensures View(known, frames + [e]) == ApplyFrame(View(known, frames), e)
  {
    assert (frames + [e])[..|frames|] == frames;
  }

  datatype ConnectionState = Disconnected | Connecting | Connected | Reconnecting | Failed

  class AppState {
    var roomId: Option<string>
    var peerId: Option<string>
    var connectionState: ConnectionState
    var knownPeers: set<string>

    constructor ()
      ensures roomId == None && peerId == None && connectionState == Disconnected && knownPeers == {}
    {
      roomId, peerId := None, None;
      connectionState := Disconnected;
      knownPeers := {};
    }

    /** Empty identifiers are refused and leave the state alone. */
    method SetIdentity(room: string, peer: string) returns (ok: bool)
      modifies this`roomId, this`peerId
      ensures ok <==> room != "" && peer != ""
      ensures ok ==> roomId == Some(room) && peerId == Some(peer)
      ensures !ok ==> roomId == old(roomId) && peerId == old(peerId)
    {
      if room == "" || peer == "" {
        return false;
      }
      roomId, peerId := Some(room), Some(peer);
      return true;
    }

    method ReplacePeers(peers: set<string>)
      modifies this`knownPeers
      ensures knownPeers == ApplyFrame(old(knownPeers), Peers(peers))
    {
      knownPeers := set p | p in peers && p != "";
    }

    method AddPeer(id: string)
      modifies this`knownPeers
      ensures knownPeers == ApplyFrame(old(knownPeers), PeerJoined(id))
    {
      if id != "" {
        knownPeers := knownPeers + {id};
      }
    }

    method RemovePeer(id: string)
      modifies this`knownPeers
      ensures knownPeers == old(knownPeers) - {id}
    {
      knownPeers := knownPeers - {id};
    }

    method HandleFrame(e: Envelope)
      modifies this`knownPeers
      ensures knownPeers == ApplyFrame(old(knownPeers), e)
    {
      match e
      case Peers(ids) => ReplacePeers(ids);
      case PeerJoined(id) =>
        if id != "" {
          AddPeer(id);
        }
      case PeerLeft(id) =>
        if id != "" {
          RemovePeer(id);
        }
      case Relayed(_) =>
      case Notice(_) =>
    }

    /** The receive loop: frames one after the other fold into the view. */
    method ReceiveAll(frames: seq<Envelope>)
      modifies this`knownPeers
      ensures knownPeers == View(old(knownPeers), frames)
    {
      ghost var before := knownPeers;
      for i := 0 to |frames|
        invariant knownPeers == View(before, frames[..i])
      {
        HandleFrame(frames[i]);
        assert frames[..i + 1] == frames[..i] + [frames[i]];
        ViewSend(before, frames[..i], frames[i]);
      }
      assert frames[..|frames|] == frames;
    }
  }
}
