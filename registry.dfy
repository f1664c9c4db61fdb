/** The peer registry and subscription graph of the broadcast manager as values: every
    operation of the manager on its peers is specified here as a function of the list of
    peers (without object identity). The functions only compute; what they guarantee is
    stated by the lemmas beside them. */
module Registry {
  import opened Values
  import opened Lists
  import opened PeerModel
  import opened PeerFactory

  // ---------------------------------------------------------------------------------------
  // Lookup and creation

  /** An omitted role matches either role. */
  predicate IsPeer(p: PeerState, id: PeerId, role: Option<bool>)
  {
    p.id == id && (role.None? || role.value == p.isSender)
  }

  /** `getPeer(peerId, isSender?)`: the position of the first peer with that id (and that
      role, when one is given). Lookup never changes the registry. */
  function FindPeer(ps: seq<PeerState>, id: PeerId, role: Option<bool>): (k: Option<nat>)
    ensures k.Some? ==> k.value < |ps| && IsPeer(ps[k.value], id, role)
    ensures k.Some? ==> forall j :: 0 <= j < k.value ==> !IsPeer(ps[j], id, role)
    ensures k.None? <==> forall j :: 0 <= j < |ps| ==> !IsPeer(ps[j], id, role)
  {
    if |ps| == 0 then None
    else if IsPeer(ps[0], id, role) then Some(0)
    else match FindPeer(ps[1..], id, role)
      case None => None
      case Some(k) => Some(k + 1)
  }

  /** The records of the first peer with that id, whatever its role (none when there is no
      such peer): a lookup written without positions, to keep long traces cheap to reason about. */
  function ConnectionsById(ps: seq<PeerState>, id: PeerId): seq<Connection>
  {
    if |ps| == 0 then []
    else if IsPeer(ps[0], id, None) then ps[0].connections
    else ConnectionsById(ps[1..], id)
  }

  /** It gives the records of the peer `getPeer(id)` finds. */
  lemma {:induction false} ConnectionsByIdIsFindPeer(ps: seq<PeerState>, id: PeerId)
    ensures FindPeer(ps, id, None).None? ==> ConnectionsById(ps, id) == []
    ensures FindPeer(ps, id, None).Some? ==> ConnectionsById(ps, id) == ps[FindPeer(ps, id, None).value].connections
  {
    if |ps| > 0 && !IsPeer(ps[0], id, None) {
      ConnectionsByIdIsFindPeer(ps[1..], id);
    }
  }

  /** `createPeer(peerId, isSender)`: the registry afterwards and the position of the peer it
      returns. An existing (id, role) peer is returned and nothing changes; otherwise exactly
      one new, empty peer with that role is appended. */
  function CreatePeer(ps: seq<PeerState>, id: PeerId, isSender: bool, now: PeerId): (r: (seq<PeerState>, nat))
    ensures r.1 < |r.0| && r.0[r.1].isSender == isSender
    ensures FindPeer(ps, id, Some(isSender)).Some? ==> r.0 == ps && r.1 == FindPeer(ps, id, Some(isSender)).value
    ensures FindPeer(ps, id, Some(isSender)).None? ==>
      |r.0| == |ps| + 1 && r.0[..|ps|] == ps && r.1 == |ps| &&
      r.0[r.1] == PeerState(ResolveId(id, now), isSender, [], [])
  {
    match FindPeer(ps, id, Some(isSender))
    case Some(k) => (ps, k)
    case None => (ps + [PeerState(ResolveId(id, now), isSender, [], [])], |ps|)
  }

  /** `addPeerConnection`. */
  function AddPeerConnection(ps: seq<PeerState>, id: PeerId, socket: SocketId, rtc: RtcId, isSender: bool, now: PeerId): seq<PeerState>
  {
    var (ps1, k) := CreatePeer(ps, id, isSender, now);
    ps1[k := ps1[k].(connections := ps1[k].connections + [Connection(socket, rtc, [], [])])]
  }

  /** `addPeerConnection` gives the (id, role) peer, created first when absent, exactly one new
      record with no tracks and no channels, at the end; no other peer changes. */
  lemma AddPeerConnectionAppendsRecord(ps: seq<PeerState>, id: PeerId, socket: SocketId, rtc: RtcId, isSender: bool, now: PeerId)
    ensures var (ps1, k) := CreatePeer(ps, id, isSender, now);
      var r := AddPeerConnection(ps, id, socket, rtc, isSender, now);
      |r| == |ps1| && k < |r| &&
      r[k] == ps1[k].(connections := ps1[k].connections + [Connection(socket, rtc, [], [])]) &&
      forall j :: 0 <= j < |r| && j != k ==> r[j] == ps1[j]
  {
  }

  /** `destroyPeerConnection(peerId, socket, rtc)`. */
  function DestroyPeerConnection(ps: seq<PeerState>, id: PeerId, socket: Val, rtc: Val): seq<PeerState>
  {
    match FindPeer(ps, id, None)
    case None => ps
    case Some(k) =>
      var cs := AfterDestroy(ps[k].connections, socket, rtc);
      if cs == [] then RemoveAt(ps, k) else ps[k := ps[k].(connections := cs)]
  }

  /** The outside-world effects of `destroyPeerConnection`: those of the peer's
      `destroyConnection` (the `end()` of a removed peer has none). */
  function DestroyPeerConnectionEffects(ps: seq<PeerState>, id: PeerId, socket: Val, rtc: Val): seq<Effect>
  {
    match FindPeer(ps, id, None)
    case None => []
    case Some(k) => DestroyEffects(ps[k].connections, socket, rtc)
  }

  /** `destroyPeerConnection` looks the peer up by id alone, whatever its role: the first peer
      with that id loses the selected record, and is removed when that leaves it without
      records; every other peer is untouched. An unknown id changes nothing. */
  lemma DestroyPeerConnectionTouchesFirstById(ps: seq<PeerState>, id: PeerId, socket: Val, rtc: Val)
    ensures FindPeer(ps, id, None).None? ==>
      DestroyPeerConnection(ps, id, socket, rtc) == ps && DestroyPeerConnectionEffects(ps, id, socket, rtc) == []
    ensures FindPeer(ps, id, None).Some? ==>
      var k := FindPeer(ps, id, None).value;
      var cs := AfterDestroy(ps[k].connections, socket, rtc);
      var r := DestroyPeerConnection(ps, id, socket, rtc);
      if cs == [] then r == RemoveAt(ps, k)
      else |r| == |ps| && r[k] == ps[k].(connections := cs) && forall j :: 0 <= j < |ps| && j != k ==> r[j] == ps[j]
  {
  }

  /** Attaching a connection and then destroying it by its own socket and RTC session gives
      the registry back and closes exactly that socket and that session. This needs a
      non-empty id (an empty one is replaced by the clock reading), no earlier peer of the
      other role with that id, and, for a peer that already exists, at least one record and
      none on that socket. */
  lemma {:induction false} AddThenDestroyConnection(ps: seq<PeerState>, id: PeerId, socket: SocketId, rtc: RtcId, isSender: bool, now: PeerId)
    requires id != ""
    requires FindPeer(ps, id, None) == FindPeer(ps, id, Some(isSender))
    requires FindPeer(ps, id, None).Some? ==> ps[FindPeer(ps, id, None).value].connections != []
    requires FindPeer(ps, id, None).Some? ==> forall c :: c in ps[FindPeer(ps, id, None).value].connections ==> c.socket != socket
    ensures DestroyPeerConnection(AddPeerConnection(ps, id, socket, rtc, isSender, now), id, SocketRef(socket), RtcRef(rtc)) == ps
    ensures DestroyPeerConnectionEffects(AddPeerConnection(ps, id, socket, rtc, isSender, now), id, SocketRef(socket), RtcRef(rtc)) ==
      [SocketClose(socket), RtcClose(rtc)]
  {
    var (ps1, k) := CreatePeer(ps, id, isSender, now);
    var r := AddPeerConnection(ps, id, socket, rtc, isSender, now);
    var olds := ps1[k].connections;
    var cs := olds + [Connection(socket, rtc, [], [])];
    assert r[k].connections == cs;
    assert FindPeer(r, id, None) == Some(k) by {
      assert IsPeer(r[k], id, None);
      forall j | 0 <= j < k ensures !IsPeer(r[j], id, None) {
        assert r[j] == ps[j];
      }
    }
    forall j | 0 <= j < |olds| ensures !Selects(SocketRef(socket), RtcRef(rtc), cs[j]) {
      assert cs[j] == olds[j] && olds[j] in olds;
    }
    assert Selects(SocketRef(socket), RtcRef(rtc), cs[|olds|]);
    assert SelectedIndex(cs, SocketRef(socket), RtcRef(rtc)) == Some(|olds|);
    assert RemoveAt(cs, |olds|) == olds;
    if olds == [] {
      assert RemoveAt(r, k) == ps;
    } else {
      assert r[k := r[k].(connections := olds)] == ps;
    }
  }

  // ---------------------------------------------------------------------------------------
  // Tracks and data channels

  /** `addPeerTrack` / `addPeerDataChannel` locate the first peer with that id (any role) and
      its first record on that socket. */
  function RecordOf(ps: seq<PeerState>, id: PeerId, socket: SocketId): (r: Option<(nat, nat)>)
    ensures r.Some? ==> r.value.0 < |ps| && r.value.1 < |ps[r.value.0].connections|
  {
    match FindPeer(ps, id, None)
    case None => None
    case Some(k) =>
      match SelectedIndex(ps[k].connections, SocketRef(socket), Undefined)
      case None => None
      case Some(i) => Some((k, i))
  }

  /** `RecordOf` finds the first record on that socket of the first peer with that id, and
      finds nothing exactly when there is no such peer or it has no record on that socket. */
  lemma RecordOfLocatesSocket(ps: seq<PeerState>, id: PeerId, socket: SocketId)
    ensures RecordOf(ps, id, socket).Some? ==>
      var (k, i) := RecordOf(ps, id, socket).value;
      FindPeer(ps, id, None) == Some(k) && ps[k].connections[i].socket == socket &&
      forall j :: 0 <= j < i ==> ps[k].connections[j].socket != socket
    ensures RecordOf(ps, id, socket).None? <==>
      FindPeer(ps, id, None).None? || forall c :: c in ps[FindPeer(ps, id, None).value].connections ==> c.socket != socket
  {
    if FindPeer(ps, id, None).Some? {
      var k := FindPeer(ps, id, None).value;
      var cs := ps[k].connections;
      if RecordOf(ps, id, socket).None? {
        forall c | c in cs ensures c.socket != socket {
          var j :| 0 <= j < |cs| && cs[j] == c;
          assert !Selects(SocketRef(socket), Undefined, cs[j]);
        }
      } else {
        var i := RecordOf(ps, id, socket).value.1;
        forall j | 0 <= j < i ensures cs[j].socket != socket {
          assert !Selects(SocketRef(socket), Undefined, cs[j]);
        }
      }
    }
  }

  /** `addPeerTrack`. */
  function AddPeerTrack(ps: seq<PeerState>, id: PeerId, socket: SocketId, track: TrackId): seq<PeerState>
  {
    match RecordOf(ps, id, socket)
    case None => ps
    case Some((k, i)) =>
      var c := ps[k].connections[i];
      ps[k := ps[k].(connections := ps[k].connections[i := c.(tracks := c.tracks + [track])])]
  }

  /** `addPeerDataChannel`. */
  function AddPeerDataChannel(ps: seq<PeerState>, id: PeerId, socket: SocketId, channel: ChannelId): seq<PeerState>
  {
    match RecordOf(ps, id, socket)
    case None => ps
    case Some((k, i)) =>
      var c := ps[k].connections[i];
      ps[k := ps[k].(connections := ps[k].connections[i := c.(channels := c.channels + [channel])])]
  }

  /** `addPeerTrack` appends the track to exactly the located record, leaving its socket, RTC
      session and channels, and every other record and peer, as they were; when no record is
      located nothing changes. */
  lemma AddPeerTrackAppendsToRecord(ps: seq<PeerState>, id: PeerId, socket: SocketId, track: TrackId)
    ensures RecordOf(ps, id, socket).None? ==> AddPeerTrack(ps, id, socket, track) == ps
    ensures RecordOf(ps, id, socket).Some? ==>
      var (k, i) := RecordOf(ps, id, socket).value;
      var r := AddPeerTrack(ps, id, socket, track);
      |r| == |ps| && r[k].receivers == ps[k].receivers && |r[k].connections| == |ps[k].connections| &&
      r[k].connections[i] == ps[k].connections[i].(tracks := ps[k].connections[i].tracks + [track]) &&
      (forall j :: 0 <= j < |ps[k].connections| && j != i ==> r[k].connections[j] == ps[k].connections[j]) &&
      (forall j :: 0 <= j < |ps| && j != k ==> r[j] == ps[j])
  {
  }

  /** `addPeerDataChannel` appends the channel to exactly the located record, and to nothing
      else; when no record is located nothing changes. */
  lemma AddPeerDataChannelAppendsToRecord(ps: seq<PeerState>, id: PeerId, socket: SocketId, channel: ChannelId)
    ensures RecordOf(ps, id, socket).None? ==> AddPeerDataChannel(ps, id, socket, channel) == ps
    ensures RecordOf(ps, id, socket).Some? ==>
      var (k, i) := RecordOf(ps, id, socket).value;
      var r := AddPeerDataChannel(ps, id, socket, channel);
      |r| == |ps| && r[k].receivers == ps[k].receivers && |r[k].connections| == |ps[k].connections| &&
      r[k].connections[i] == ps[k].connections[i].(channels := ps[k].connections[i].channels + [channel]) &&
      (forall j :: 0 <= j < |ps[k].connections| && j != i ==> r[k].connections[j] == ps[k].connections[j]) &&
      (forall j :: 0 <= j < |ps| && j != k ==> r[j] == ps[j])
  {
  }

  // ---------------------------------------------------------------------------------------
  // The subscription graph

  /** The `{id, socket}` object the signaling layer passes for the requesting connection. */
  datatype Subscriber = Subscriber(id: PeerId, socket: SocketId)

  /** The string `subscribe` throws for an unknown publisher. */
  function NotFoundMessage(publisherId: PeerId): string
  {
    "Publisher with id " + publisherId + " not found"
  }

  /** The entries `subscribe` pushes onto the viewer: one `{id: publisherId, socket}` per
      publisher record. The code copies `c.rtConnection`, a field records do not have, so no
      entry carries an RTC handle. */
  function SourceBindings(publisherId: PeerId, cs: seq<Connection>): (rs: seq<Receiver>)
    ensures |rs| == |cs|
    ensures forall i :: 0 <= i < |cs| ==> rs[i] == Receiver(publisherId, cs[i].socket, None)
  {
    seq(|cs|, i requires 0 <= i < |cs| => Receiver(publisherId, cs[i].socket, None))
  }

  /** Same identity and records; only `receivers` may differ. */
  predicate SameButReceivers(a: PeerState, b: PeerState)
  {
    a.id == b.id && a.isSender == b.isSender && a.connections == b.connections
  }

  /** The edge part of `subscribe`. */
  function AddEdges(ps: seq<PeerState>, sub: Subscriber, publisherId: PeerId): Result<seq<PeerState>>
  {
    match FindPeer(ps, publisherId, Some(true))
    case None => Failure(NotFoundMessage(publisherId))
    case Some(pk) =>
      match FindPeer(ps, sub.id, Some(false))
      case None => Success(ps)
      case Some(vk) =>
        var pub := ps[pk];
        var viewer := ps[vk];
        var ps1 := ps[pk := pub.(receivers := pub.receivers + [Receiver(sub.id, sub.socket, None)])];
        Success(ps1[vk := viewer.(receivers := viewer.receivers + SourceBindings(publisherId, pub.connections))])
  }

  /** `subscribe` throws exactly for an unknown publisher; it does nothing (and does not
      throw) for an unknown viewer; otherwise the publisher gains exactly one entry for the
      subscriber, at the end, and the viewer one entry per publisher record, with no
      deduplication. Ids, roles and records never change. */
  lemma SubscribeAddsEdges(ps: seq<PeerState>, sub: Subscriber, publisherId: PeerId)
    ensures AddEdges(ps, sub, publisherId).Failure? <==> FindPeer(ps, publisherId, Some(true)).None?
    ensures AddEdges(ps, sub, publisherId).Failure? ==> AddEdges(ps, sub, publisherId).error == NotFoundMessage(publisherId)
    ensures AddEdges(ps, sub, publisherId).Success? && FindPeer(ps, sub.id, Some(false)).None? ==>
      AddEdges(ps, sub, publisherId).value == ps
    ensures AddEdges(ps, sub, publisherId).Success? && FindPeer(ps, sub.id, Some(false)).Some? ==>
      var pk := FindPeer(ps, publisherId, Some(true)).value;
      var vk := FindPeer(ps, sub.id, Some(false)).value;
      var qs := AddEdges(ps, sub, publisherId).value;
      |qs| == |ps| && pk != vk &&
      qs[pk].receivers == ps[pk].receivers + [Receiver(sub.id, sub.socket, None)] &&
      qs[vk].receivers == ps[vk].receivers + SourceBindings(publisherId, ps[pk].connections) &&
      (forall j :: 0 <= j < |ps| ==> SameButReceivers(qs[j], ps[j])) &&
      (forall j :: 0 <= j < |ps| && j != pk && j != vk ==> qs[j] == ps[j])
  {
  }

  /** A publisher entry naming the subscriber: same socket and same id. */
  predicate IsEntryOf(r: Receiver, sub: Subscriber)
  {
    r.socket == sub.socket && r.id == sub.id
  }

  /** Position of the first publisher entry naming the subscriber (`findIndex`). */
  function EntryIndex(rs: seq<Receiver>, sub: Subscriber): (k: Option<nat>)
    ensures k.Some? ==> k.value < |rs| && IsEntryOf(rs[k.value], sub)
    ensures k.Some? ==> forall j :: 0 <= j < k.value ==> !IsEntryOf(rs[j], sub)
    ensures k.None? <==> forall j :: 0 <= j < |rs| ==> !IsEntryOf(rs[j], sub)
  {
    if |rs| == 0 then None
    else if IsEntryOf(rs[0], sub) then Some(0)
    else match EntryIndex(rs[1..], sub)
      case None => None
      case Some(k) => Some(k + 1)
  }

  /** The edge part of `unSubscribe`. The viewer's list is cut with
      `splice(indexOf(publisherPeer))`: the search is for a peer object among receiver
      records, yields -1, and `splice(-1)` removes the last entry. */
  function RemoveEdges(ps: seq<PeerState>, sub: Subscriber, publisherId: PeerId): seq<PeerState>
  {
    match FindPeer(ps, publisherId, Some(true))
    case None => ps
    case Some(pk) =>
      match FindPeer(ps, sub.id, Some(false))
      case None => ps
      case Some(vk) =>
        var viewer := ps[vk];
        var ps1 := ps[vk := viewer.(receivers := JsSplice(viewer.receivers, -1))];
        var pub := ps1[pk];
        match EntryIndex(pub.receivers, sub)
        case None => ps1
        case Some(i) => ps1[pk := pub.(receivers := RemoveAt(pub.receivers, i))]
  }

  /** `unSubscribe` changes nothing unless both the publisher and the viewer exist. Then the
      publisher loses at most one entry, the first naming the subscriber, and the viewer loses
      its LAST entry, whichever publisher that entry belongs to. */
  lemma UnsubscribeRemovesEdges(ps: seq<PeerState>, sub: Subscriber, publisherId: PeerId)
    ensures FindPeer(ps, publisherId, Some(true)).None? || FindPeer(ps, sub.id, Some(false)).None? ==>
      RemoveEdges(ps, sub, publisherId) == ps
    ensures FindPeer(ps, publisherId, Some(true)).Some? && FindPeer(ps, sub.id, Some(false)).Some? ==>
      var pk := FindPeer(ps, publisherId, Some(true)).value;
      var vk := FindPeer(ps, sub.id, Some(false)).value;
      var rs := ps[pk].receivers;
      var r := RemoveEdges(ps, sub, publisherId);
      |r| == |ps| && pk != vk &&
      (|ps[vk].receivers| > 0 ==> r[vk].receivers == ps[vk].receivers[..|ps[vk].receivers| - 1]) &&
      (|ps[vk].receivers| == 0 ==> r[vk].receivers == []) &&
      (EntryIndex(rs, sub).None? ==> r[pk].receivers == rs) &&
      (EntryIndex(rs, sub).Some? ==> r[pk].receivers == RemoveAt(rs, EntryIndex(rs, sub).value)) &&
      (forall j :: 0 <= j < |ps| ==> SameButReceivers(r[j], ps[j])) &&
      (forall j :: 0 <= j < |ps| && j != pk && j != vk ==> r[j] == ps[j])
  {
    var pko, vko := FindPeer(ps, publisherId, Some(true)), FindPeer(ps, sub.id, Some(false));
    if pko.Some? && vko.Some? {
      var pk, vk := pko.value, vko.value;
      assert pk != vk by { assert ps[pk].isSender && !ps[vk].isSender; }
      var viewer := ps[vk];
      var ps1 := ps[vk := viewer.(receivers := JsSplice(viewer.receivers, -1))];
      assert ps1[pk] == ps[pk];
      var rs := ps[pk].receivers;
      var r := RemoveEdges(ps, sub, publisherId);
      match EntryIndex(rs, sub)
      case None =>
        assert r == ps1;
      case Some(i) =>
        assert r == ps1[pk := ps[pk].(receivers := RemoveAt(rs, i))];
    }
  }

  /** Lookup reads ids and roles only, so changing entries never changes what it finds. */
  lemma {:induction false} FindPeerIgnoresReceivers(ps: seq<PeerState>, qs: seq<PeerState>, id: PeerId, role: Option<bool>)
    requires |qs| == |ps| && forall j :: 0 <= j < |ps| ==> SameButReceivers(qs[j], ps[j])
    ensures FindPeer(qs, id, role) == FindPeer(ps, id, role)
  {
    forall j | 0 <= j < |ps| ensures IsPeer(qs[j], id, role) == IsPeer(ps[j], id, role) {
      assert SameButReceivers(qs[j], ps[j]);
    }
  }

  /** An entry appended for a subscriber with no earlier entry is the one `findIndex` finds. */
  lemma EntryIndexOfAppended(rs: seq<Receiver>, sub: Subscriber)
    requires EntryIndex(rs, sub).None?
    ensures EntryIndex(rs + [Receiver(sub.id, sub.socket, None)], sub) == Some(|rs|)
  {
    var ts := rs + [Receiver(sub.id, sub.socket, None)];
    forall j | 0 <= j < |rs| ensures !IsEntryOf(ts[j], sub) {
      assert ts[j] == rs[j];
    }
    assert IsEntryOf(ts[|rs|], sub);
  }

  /** Subscribing and then unsubscribing gives the registry back when the publisher has
      exactly one record and the subscriber was not yet among its entries. */
  lemma {:induction false} SubscribeUnsubscribeRoundTrip(ps: seq<PeerState>, sub: Subscriber, publisherId: PeerId)
    requires FindPeer(ps, publisherId, Some(true)).Some? && FindPeer(ps, sub.id, Some(false)).Some?
    requires |ps[FindPeer(ps, publisherId, Some(true)).value].connections| == 1
    requires EntryIndex(ps[FindPeer(ps, publisherId, Some(true)).value].receivers, sub).None?
    ensures AddEdges(ps, sub, publisherId).Success?
    ensures RemoveEdges(AddEdges(ps, sub, publisherId).value, sub, publisherId) == ps
  {
    var pk := FindPeer(ps, publisherId, Some(true)).value;
    var vk := FindPeer(ps, sub.id, Some(false)).value;
    SubscribeAddsEdges(ps, sub, publisherId);
    var qs := AddEdges(ps, sub, publisherId).value;
    FindPeerIgnoresReceivers(ps, qs, publisherId, Some(true));
    FindPeerIgnoresReceivers(ps, qs, sub.id, Some(false));
    UnsubscribeRemovesEdges(qs, sub, publisherId);
    var r := RemoveEdges(qs, sub, publisherId);
    var rs := ps[pk].receivers;
    assert qs[vk].receivers[..|qs[vk].receivers| - 1] == ps[vk].receivers;
    var e := Receiver(sub.id, sub.socket, None);
    assert qs[pk].receivers == rs + [e];
    EntryIndexOfAppended(rs, sub);
    assert RemoveAt(qs[pk].receivers, |rs|) == rs;
    forall j | 0 <= j < |ps| ensures r[j] == ps[j] {
      assert SameButReceivers(r[j], qs[j]) && SameButReceivers(qs[j], ps[j]);
      if j == pk {
        assert r[j].receivers == rs;
      } else if j == vk {
        assert r[j].receivers == ps[vk].receivers;
      }
    }
  }

  /** With a publisher of two or more records the round trip fails: the viewer keeps one
      stale entry for every publisher record beyond the first. */
  lemma {:induction false} SubscribeUnsubscribeLeavesBindings(ps: seq<PeerState>, sub: Subscriber, publisherId: PeerId)
    requires FindPeer(ps, publisherId, Some(true)).Some? && FindPeer(ps, sub.id, Some(false)).Some?
    requires |ps[FindPeer(ps, publisherId, Some(true)).value].connections| >= 2
    ensures AddEdges(ps, sub, publisherId).Success?
    ensures var vk := FindPeer(ps, sub.id, Some(false)).value;
      var n := |ps[FindPeer(ps, publisherId, Some(true)).value].connections|;
      var r := RemoveEdges(AddEdges(ps, sub, publisherId).value, sub, publisherId);
      |r| == |ps| && |r[vk].receivers| == |ps[vk].receivers| + n - 1 && r != ps
  {
    var pk := FindPeer(ps, publisherId, Some(true)).value;
    var vk := FindPeer(ps, sub.id, Some(false)).value;
    SubscribeAddsEdges(ps, sub, publisherId);
    var qs := AddEdges(ps, sub, publisherId).value;
    FindPeerIgnoresReceivers(ps, qs, publisherId, Some(true));
    FindPeerIgnoresReceivers(ps, qs, sub.id, Some(false));
    UnsubscribeRemovesEdges(qs, sub, publisherId);
    var r := RemoveEdges(qs, sub, publisherId);
    assert |r[vk].receivers| != |ps[vk].receivers|;
  }

  /** Leaving one publisher removes the viewer's last entry even when it belongs to another
      publisher: every entry for the publisher being left stays. */
  lemma {:induction false} UnsubscribeKeepsBindingsOfLeftPublisher(ps: seq<PeerState>, sub: Subscriber, publisherId: PeerId)
    requires FindPeer(ps, publisherId, Some(true)).Some? && FindPeer(ps, sub.id, Some(false)).Some?
    requires var rs := ps[FindPeer(ps, sub.id, Some(false)).value].receivers; |rs| > 0 && rs[|rs| - 1].id != publisherId
    ensures var vk := FindPeer(ps, sub.id, Some(false)).value;
      var r := RemoveEdges(ps, sub, publisherId);
      forall x :: x in ps[vk].receivers && x.id == publisherId ==> x in r[vk].receivers
  {
    var vk := FindPeer(ps, sub.id, Some(false)).value;
    var rs := ps[vk].receivers;
    UnsubscribeRemovesEdges(ps, sub, publisherId);
    var r := RemoveEdges(ps, sub, publisherId);
    forall x | x in rs && x.id == publisherId ensures x in r[vk].receivers {
      var j :| 0 <= j < |rs| && rs[j] == x;
      assert j < |rs| - 1;
      assert r[vk].receivers[j] == x;
    }
  }

  /** `subscribe` does not check for an existing subscription: subscribing twice leaves two
      identical entries on the publisher. */
  lemma {:induction false} SubscribeTwiceDuplicates(ps: seq<PeerState>, sub: Subscriber, publisherId: PeerId)
    requires FindPeer(ps, publisherId, Some(true)).Some? && FindPeer(ps, sub.id, Some(false)).Some?
    ensures AddEdges(ps, sub, publisherId).Success?
    ensures AddEdges(AddEdges(ps, sub, publisherId).value, sub, publisherId).Success?
    ensures var pk := FindPeer(ps, publisherId, Some(true)).value;
      var e := Receiver(sub.id, sub.socket, None);
      AddEdges(AddEdges(ps, sub, publisherId).value, sub, publisherId).value[pk].receivers == ps[pk].receivers + [e, e]
  {
    var pk := FindPeer(ps, publisherId, Some(true)).value;
    var vk := FindPeer(ps, sub.id, Some(false)).value;
    SubscribeAddsEdges(ps, sub, publisherId);
    var qs := AddEdges(ps, sub, publisherId).value;
    FindPeerIgnoresReceivers(ps, qs, publisherId, Some(true));
    FindPeerIgnoresReceivers(ps, qs, sub.id, Some(false));
    SubscribeAddsEdges(qs, sub, publisherId);
  }

  // ---------------------------------------------------------------------------------------
  // The cleanup sweep

  /** An entry the sweep removes: it carries an RTC handle whose `readyState` is not `OPEN`. */
  predicate Stale(r: Receiver, ready: set<RtcId>)
  {
    r.rtc.Some? && r.rtc.value !in ready
  }

  /** The entries of one list the sweep keeps. */
  function Kept(rs: seq<Receiver>, ready: set<RtcId>): seq<Receiver>
  {
    Filter(rs, x => !Stale(x, ready))
  }

  function CleanPeer(p: PeerState, ready: set<RtcId>): PeerState
  {
    p.(receivers := Kept(p.receivers, ready))
  }

  /** `cleanUpPeersReceivers`. */
  function CleanUp(ps: seq<PeerState>, ready: set<RtcId>): (r: seq<PeerState>)
    ensures |r| == |ps|
  {
    seq(|ps|, i requires 0 <= i < |ps| => CleanPeer(ps[i], ready))
  }

  /** The sweep keeps every peer, role and record, and each peer keeps exactly its entries
      that are not stale: in their order (`filter`, see `FilterSnoc`), each as often as before. */
  lemma {:induction false} CleanUpKeepsLiveEntries(ps: seq<PeerState>, ready: set<RtcId>)
    ensures forall i :: 0 <= i < |ps| ==> SameButReceivers(CleanUp(ps, ready)[i], ps[i])
    ensures forall i :: 0 <= i < |ps| ==> CleanUp(ps, ready)[i].receivers == Filter(ps[i].receivers, x => !Stale(x, ready))
    ensures forall i, x :: 0 <= i < |ps| ==>
      multiset(CleanUp(ps, ready)[i].receivers)[x] == (if Stale(x, ready) then 0 else multiset(ps[i].receivers)[x])
  {
    forall i | 0 <= i < |ps|
      ensures forall x :: multiset(CleanUp(ps, ready)[i].receivers)[x] == (if Stale(x, ready) then 0 else multiset(ps[i].receivers)[x])
    {
      FilterCounts(ps[i].receivers, x => !Stale(x, ready));
    }
  }

  /** Sweeping twice is sweeping once. */
  lemma {:induction false} CleanUpIdempotent(ps: seq<PeerState>, ready: set<RtcId>)
    ensures CleanUp(CleanUp(ps, ready), ready) == CleanUp(ps, ready)
  {
    var once := CleanUp(ps, ready);
    forall i | 0 <= i < |ps|
      ensures CleanPeer(once[i], ready) == once[i]
    {
      FilterAllKept(once[i].receivers, x => !Stale(x, ready));
    }
  }

  /** No entry carries an RTC handle. */
  ghost predicate Unbound(ps: seq<PeerState>)
  {
    forall i, x :: 0 <= i < |ps| && x in ps[i].receivers ==> x.rtc.None?
  }

  /** Where no entry carries an RTC handle, the sweep removes nothing at all. */
  lemma {:induction false} CleanUpKeepsUnbound(ps: seq<PeerState>, ready: set<RtcId>)
    requires Unbound(ps)
    ensures CleanUp(ps, ready) == ps
  {
    forall i | 0 <= i < |ps|
      ensures CleanPeer(ps[i], ready) == ps[i]
    {
      FilterAllKept(ps[i].receivers, x => !Stale(x, ready));
    }
  }

  /** Every entry the broker itself creates is unbound, so every reachable registry is. */
  lemma {:induction false} AddEdgesKeepsUnbound(ps: seq<PeerState>, sub: Subscriber, publisherId: PeerId)
    requires Unbound(ps)
    requires AddEdges(ps, sub, publisherId).Success?
    ensures Unbound(AddEdges(ps, sub, publisherId).value)
  {
    SubscribeAddsEdges(ps, sub, publisherId);
    var qs := AddEdges(ps, sub, publisherId).value;
    if FindPeer(ps, sub.id, Some(false)).Some? {
      var pk := FindPeer(ps, publisherId, Some(true)).value;
      var vk := FindPeer(ps, sub.id, Some(false)).value;
      forall i, x | 0 <= i < |qs| && x in qs[i].receivers
        ensures x.rtc.None?
      {
        if i == pk {
          assert x in ps[pk].receivers || x == Receiver(sub.id, sub.socket, None);
        } else if i == vk {
          var bs := SourceBindings(publisherId, ps[pk].connections);
          assert x in ps[vk].receivers || x in bs;
        }
      }
    }
  }

  lemma {:induction false} RemoveEdgesKeepsUnbound(ps: seq<PeerState>, sub: Subscriber, publisherId: PeerId)
    requires Unbound(ps)
    ensures Unbound(RemoveEdges(ps, sub, publisherId))
  {
    UnsubscribeRemovesEdges(ps, sub, publisherId);
    var qs := RemoveEdges(ps, sub, publisherId);
    if FindPeer(ps, publisherId, Some(true)).Some? && FindPeer(ps, sub.id, Some(false)).Some? {
      var pk := FindPeer(ps, publisherId, Some(true)).value;
      var vk := FindPeer(ps, sub.id, Some(false)).value;
      forall i, x | 0 <= i < |qs| && x in qs[i].receivers
        ensures x.rtc.None?
      {
        if i == pk {
          var rs := ps[pk].receivers;
          match EntryIndex(rs, sub)
          case None =>
          case Some(k) =>
            assert x in RemoveAt(rs, k);
            assert x in rs;
        } else if i == vk {
          assert x in ps[vk].receivers;
        }
      }
    }
  }
}
