/** `PeerFactory.create`: builds a fresh peer from an id and a role. */
module PeerFactory {
  import opened Values
  import opened PeerModel

  /** The id a new peer gets: the given one, or the clock reading `now` (`Date.now()`) when
      the given one is falsy. */
  function ResolveId(peerId: PeerId, now: PeerId): (id: PeerId)
    ensures peerId != "" ==> id == peerId
    ensures peerId == "" ==> id == now
  {
    if peerId == "" then now else peerId
  }

  /** A fresh peer with the resolved id, the given role and nothing attached; no registry is
      touched. */
  method Create(peerId: PeerId, isSender: bool, now: PeerId) returns (p: Peer)
    ensures fresh(p)
    ensures p.State() == PeerState(ResolveId(peerId, now), isSender, [], [])
  {
    var id := if peerId == "" then now else peerId;
    p := new Peer(id);
    p.isSender := isSender;
  }
}
