/** `BroadCastManager`: the registry of peers, the generic sockets, the subscription graph and
    the fan-out of notifications and data. Every method is proved against the value-level
    specification in modules Registry and Fanout. */
module BroadcastManager {
  import opened Values
  import opened Lists
  import opened Network
  import opened PeerModel
  import PeerFactory
  import opened Registry
  import opened Fanout

  /** The values of a list of peer objects. */
  function Snapshot(ps: seq<Peer>): (v: seq<PeerState>)
    reads ps
    ensures |v| == |ps|
    ensures forall i :: 0 <= i < |ps| ==> v[i] == ps[i].State()
  {
    seq(|ps|, i reads ps requires 0 <= i < |ps| => ps[i].State())
  }

  /** Replacing one peer by one with the same entries keeps a registry unbound. */
  lemma UnboundReplace(ps: seq<PeerState>, k: nat, q: PeerState)
    requires k < |ps| && Unbound(ps) && q.receivers == ps[k].receivers
    ensures Unbound(ps[k := q])
  {
    var qs := ps[k := q];
    forall i, x | 0 <= i < |qs| && x in qs[i].receivers ensures x.rtc.None? {
      assert x in ps[i].receivers;
    }
  }

  /** Removing a peer keeps a registry unbound. */
  lemma UnboundRemove(ps: seq<PeerState>, k: nat)
    requires k < |ps| && Unbound(ps)
    ensures Unbound(RemoveAt(ps, k))
  {
    var qs := RemoveAt(ps, k);
    forall i, x | 0 <= i < |qs| && x in qs[i].receivers ensures x.rtc.None? {
      if i < k { assert qs[i] == ps[i]; } else { assert qs[i] == ps[i + 1]; }
    }
  }

  /** The generic socket list after `destroyGenericConnection(socket)`: the first entry for
      that socket is dropped. */
  function WithoutSocket(gs: seq<SocketId>, socket: SocketId): (r: seq<SocketId>)
    ensures socket !in gs ==> r == gs
    ensures socket in gs ==> |r| == |gs| - 1 && multiset(r) == multiset(gs) - multiset{socket}
  {
    match FirstWhere(gs, (s: SocketId) => s == socket)
    case None => gs
    case Some(k) =>
      assert gs == gs[..k] + [gs[k]] + gs[k + 1..];
      RemoveAt(gs, k)
  }

  /** Registering a socket that was not registered and then destroying it restores the list. */
  lemma {:induction false} GenericRoundTrip(gs: seq<SocketId>, socket: SocketId)
    requires socket !in gs
    ensures WithoutSocket(gs + [socket], socket) == gs
  {
    var k := FirstWhere(gs + [socket], (s: SocketId) => s == socket);
    assert (gs + [socket])[|gs|] == socket;
    assert k == Some(|gs|) by {
      forall j | 0 <= j < |gs| ensures (gs + [socket])[j] != socket { assert (gs + [socket])[j] == gs[j]; }
    }
    assert RemoveAt(gs + [socket], |gs|) == gs;
  }

  class BroadCastManager {
    var peers: seq<Peer>
    var genericConnections: seq<SocketId>
    const net: Network

    /** Peers are distinct objects, and no receiver entry carries an RTC handle (the broker
        never builds one that does). */
    ghost predicate Valid()
      reads this, peers
    {
      (forall i, j :: 0 <= i < j < |peers| ==> peers[i] != peers[j]) &&
      Unbound(Snapshot(peers))
    }

    function View(): (v: seq<PeerState>)
      reads this, peers
      ensures |v| == |peers|
      ensures forall i :: 0 <= i < |peers| ==> v[i] == peers[i].State()
    {
      Snapshot(peers)
    }

    constructor (net: Network)
      ensures Valid() && this.net == net
      ensures peers == [] && genericConnections == []
    {
      peers := [];
      genericConnections := [];
      this.net := net;
    }

    /** `getPeer(peerId, isSender?)`: the first peer object with that id (and role). */
    function GetPeer(id: PeerId, role: Option<bool>): (r: Option<Peer>)
      reads this, peers
      ensures r.None? <==> FindPeer(View(), id, role).None?
      ensures r.Some? ==> r.value == peers[FindPeer(View(), id, role).value]
      ensures r.Some? ==> r.value in peers && r.value.id == id && (role.None? || r.value.isSender == role.value)
    {
      match FindPeer(View(), id, role)
      case None => None
      case Some(k) => Some(peers[k])
    }

    /** `createPeer(peerId, isSender)`. */
    method CreatePeer(id: PeerId, isSender: bool, now: PeerId) returns (p: Peer)
      requires Valid()
      modifies this`peers
      ensures Valid()
      ensures var (v, k) := Registry.CreatePeer(old(View()), id, isSender, now);
        View() == v && k < |peers| && p == peers[k]
      ensures peers[..|old(peers)|] == old(peers)
      ensures fresh(p) || p in old(peers)
    {
      var found := GetPeer(id, Some(isSender));
      if found.Some? {
        p := found.value;
      } else {
        p := PeerFactory.Create(id, isSender, now);
        peers := peers + [p];
        assert View() == old(View()) + [p.State()];
      }
    }

    /** `addPeerConnection(peerId, socket, rtc, isSender)`. */
    method AddPeerConnection(id: PeerId, socket: SocketId, rtc: RtcId, isSender: bool, now: PeerId)
      requires Valid()
      modifies this`peers, peers
      ensures Valid()
      ensures View() == Registry.AddPeerConnection(old(View()), id, socket, rtc, isSender, now)
    {
      var p := CreatePeer(id, isSender, now);
      ghost var mid := View();
      ghost var k := Registry.CreatePeer(old(View()), id, isSender, now).1;
      p.AddConnection(socket, rtc);
      UnboundReplace(mid, k, p.State());
      assert View() == mid[k := p.State()] by {
        assert forall j :: 0 <= j < |peers| && j != k ==> peers[j] != p;
      }
    }

    /** `destroyPeer(peer)`: a registered peer is ended (which closes nothing) and removed;
        an unregistered one is left alone. */
    method DestroyPeer(p: Peer)
      requires Valid()
      modifies this`peers, p`connections, net`trace
      ensures Valid()
      ensures p !in peers
      ensures p !in old(peers) ==> peers == old(peers)
      ensures forall k :: 0 <= k < |old(peers)| && old(peers)[k] == p ==>
        peers == RemoveAt(old(peers), k) && View() == RemoveAt(old(View()), k)
      ensures p.connections == old(p.connections) && net.trace == old(net.trace)
    {
      var k := FirstWhere(peers, (q: Peer) => q == p);
      if k.Some? {
        p.End(net);
        UnboundRemove(View(), k.value);
        peers := RemoveAt(peers, k.value);
        assert View() == RemoveAt(old(View()), k.value);
      }
    }

    /** `destroyPeerConnection(peerId, socket, rtc)`. */
    method DestroyPeerConnection(id: PeerId, socket: Val, rtc: Val)
      requires Valid()
      modifies this`peers, peers, net`trace
      ensures Valid()
      ensures View() == Registry.DestroyPeerConnection(old(View()), id, socket, rtc)
      ensures net.trace == old(net.trace) + DestroyPeerConnectionEffects(old(View()), id, socket, rtc)
    {
      var found := GetPeer(id, None);
      if found.Some? {
        ghost var before := View();
        ghost var k := FindPeer(before, id, None).value;
        var p := found.value;
        p.DestroyConnection(net, socket, rtc);
        UnboundReplace(before, k, p.State());
        assert View() == before[k := p.State()] by {
          assert forall j :: 0 <= j < |peers| && j != k ==> peers[j] != p;
        }
        if |p.connections| == 0 {
          DestroyPeer(p);
        }
      }
    }

    /** `notifyBroadcastEndedFor(peerId)`: every entry of the publisher with an open socket is
        told that the broadcast ended. */
    method NotifyBroadcastEndedFor(ownerId: PeerId)
      modifies net`trace
      ensures net.trace == old(net.trace) + NotifyEndedEffects(old(View()), ownerId, net.openSockets)
    {
      var found := GetPeer(ownerId, Some(true));
      if found.Some? {
        SendEnded(found.value.receivers, ownerId);
      }
    }

    /** The loop of `notifyBroadcastEndedFor` over one publisher's entries. */
    method SendEnded(rs: seq<Receiver>, ownerId: PeerId)
      modifies net`trace
      ensures net.trace == old(net.trace) + EndedSends(rs, ownerId, net.openSockets)
    {
      var i := 0;
      while i < |rs|
        invariant 0 <= i <= |rs|
        invariant net.trace == old(net.trace) + EndedSends(rs[..i], ownerId, net.openSockets)
      {
        if rs[i].socket in net.openSockets {
          net.Emit(SocketSend(rs[i].socket, BroadCastEnded(ownerId)));
        }
        assert rs[..i + 1][..i] == rs[..i];
        i := i + 1;
      }
      assert rs[..|rs|] == rs;
    }

    /** `getPeerRtcConnection(peerId, socket, isSender)`: the RTC session of the (id, role)
        peer's first record on that socket. */
    function GetPeerRtcConnection(id: PeerId, socket: SocketId, isSender: bool): (r: Option<RtcId>)
      reads this, peers
      ensures FindPeer(View(), id, Some(isSender)).None? ==> r.None?
      ensures FindPeer(View(), id, Some(isSender)).Some? ==>
        var cs := View()[FindPeer(View(), id, Some(isSender)).value].connections;
        (r.None? <==> forall c :: c in cs ==> c.socket != socket) &&
        (r.Some? ==> exists c :: c in cs && c.socket == socket && c.rtc == r.value)
    {
      match GetPeer(id, Some(isSender))
      case None => None
      case Some(p) =>
        match p.GetPeerConnection(SocketRef(socket), Undefined)
        case None => None
        case Some(c) => Some(c.rtc)
    }

    /** `addPeerTrack(peerId, socket, track)`. */
    method AddPeerTrack(id: PeerId, socket: SocketId, track: TrackId)
      requires Valid()
      modifies peers
      ensures Valid()
      ensures View() == Registry.AddPeerTrack(old(View()), id, socket, track)
    {
      var found := GetPeer(id, None);
      if found.Some? {
        var p := found.value;
        ghost var before := View();
        ghost var k := FindPeer(before, id, None).value;
        var i := SelectedIndex(p.connections, SocketRef(socket), Undefined);
        if i.Some? {
          var c := p.connections[i.value];
          p.connections := p.connections[i.value := c.(tracks := c.tracks + [track])];
          UnboundReplace(before, k, p.State());
          assert View() == before[k := p.State()] by {
            assert forall j :: 0 <= j < |peers| && j != k ==> peers[j] != p;
          }
        }
      }
    }

    /** `addPeerDataChannel(peerId, socket, channel)`. */
    method AddPeerDataChannel(id: PeerId, socket: SocketId, channel: ChannelId)
      requires Valid()
      modifies peers
      ensures Valid()
      ensures View() == Registry.AddPeerDataChannel(old(View()), id, socket, channel)
    {
      var found := GetPeer(id, None);
      if found.Some? {
        var p := found.value;
        ghost var before := View();
        ghost var k := FindPeer(before, id, None).value;
        var i := SelectedIndex(p.connections, SocketRef(socket), Undefined);
        if i.Some? {
          var c := p.connections[i.value];
          p.connections := p.connections[i.value := c.(channels := c.channels + [channel])];
          UnboundReplace(before, k, p.State());
          assert View() == before[k := p.State()] by {
            assert forall j :: 0 <= j < |peers| && j != k ==> peers[j] != p;
          }
        }
      }
    }

    /** `cleanUpPeersReceivers()`: every peer drops its stale entries. In a valid registry no
        entry is stale, so nothing changes. */
    method CleanUpPeersReceivers()
      requires Valid()
      modifies peers
      ensures Valid()
      ensures View() == CleanUp(old(View()), net.readyRtcs)
      ensures View() == old(View())
    {
      ghost var before := View();
      var i := 0;
      while i < |peers|
        invariant 0 <= i <= |peers|
        invariant forall j :: 0 <= j < |peers| ==> peers[j].State() == if j < i then CleanPeer(before[j], net.readyRtcs) else before[j]
      {
        peers[i].receivers := Kept(peers[i].receivers, net.readyRtcs);
        i := i + 1;
      }
      assert View() == CleanUp(before, net.readyRtcs);
      CleanUpKeepsUnbound(before, net.readyRtcs);
    }

    /** `sendViewersInfo(publisherId)`. */
    method SendViewersInfo(publisherId: PeerId)
      modifies net`trace
      ensures net.trace == old(net.trace) + SendViewersInfoEffects(old(View()), publisherId, net.openSockets, net.connectedRtcs)
    {
      var found := GetPeer(publisherId, Some(true));
      if found.Some? {
        var p := found.value;
        SendCount(p.connections, CountOpen(p.receivers, net.openSockets));
      }
    }

    /** The loop of `sendViewersInfo` over the publisher's records. */
    method SendCount(cs: seq<Connection>, count: nat)
      modifies net`trace
      ensures net.trace == old(net.trace) + ViewersInfoSends(cs, count, net.connectedRtcs)
    {
      var i := 0;
      while i < |cs|
        invariant 0 <= i <= |cs|
        invariant net.trace == old(net.trace) + ViewersInfoSends(cs[..i], count, net.connectedRtcs)
      {
        if cs[i].rtc in net.connectedRtcs {
          net.Emit(SocketSend(cs[i].socket, ViewersInfo(count)));
        }
        assert cs[..i + 1][..i] == cs[..i];
        i := i + 1;
      }
      assert cs[..|cs|] == cs;
    }

    /** The loop of `subscribe` that pushes one entry per publisher record onto the viewer. */
    method PushBindings(v: Peer, ghost k: nat, publisherId: PeerId, cs: seq<Connection>)
      requires k < |peers| && peers[k] == v
      requires forall i, j :: 0 <= i < j < |peers| ==> peers[i] != peers[j]
      modifies v`receivers
      ensures v.receivers == old(v.receivers) + SourceBindings(publisherId, cs)
      ensures View() == old(View())[k := old(View())[k].(receivers := v.receivers)]
    {
      var i := 0;
      while i < |cs|
        invariant 0 <= i <= |cs|
        invariant v.receivers == old(v.receivers) + SourceBindings(publisherId, cs[..i])
      {
        v.receivers := v.receivers + [Receiver(publisherId, cs[i].socket, None)];
        assert SourceBindings(publisherId, cs[..i + 1]) == SourceBindings(publisherId, cs[..i]) + [Receiver(publisherId, cs[i].socket, None)];
        i := i + 1;
      }
      assert cs[..|cs|] == cs;
      assert forall j :: 0 <= j < |peers| && j != k ==> peers[j] != v;
    }

    /** Replaces the entries of the `k`-th peer, leaving every other peer as it was. */
    method SetReceivers(q: Peer, ghost k: nat, rs: seq<Receiver>)
      requires k < |peers| && peers[k] == q
      requires forall i, j :: 0 <= i < j < |peers| ==> peers[i] != peers[j]
      modifies q`receivers
      ensures View() == old(View())[k := old(View())[k].(receivers := rs)]
    {
      q.receivers := rs;
      assert forall j :: 0 <= j < |peers| && j != k ==> peers[j] != q;
    }

    /** The edge part of `subscribe` on the objects, for a publisher and a viewer that exist. */
    method LinkEdges(sub: Subscriber, publisherId: PeerId, p: Peer, v: Peer)
      requires Valid()
      requires FindPeer(View(), publisherId, Some(true)).Some? && p == peers[FindPeer(View(), publisherId, Some(true)).value]
      requires FindPeer(View(), sub.id, Some(false)).Some? && v == peers[FindPeer(View(), sub.id, Some(false)).value]
      modifies p`receivers, v`receivers
      ensures Valid()
      ensures AddEdges(old(View()), sub, publisherId).Success? && View() == AddEdges(old(View()), sub, publisherId).value
    {
      ghost var ps := View();
      ghost var pk := FindPeer(ps, publisherId, Some(true)).value;
      ghost var vk := FindPeer(ps, sub.id, Some(false)).value;
      assert pk != vk by { assert ps[pk].isSender && !ps[vk].isSender; }
      SetReceivers(p, pk, p.receivers + [Receiver(sub.id, sub.socket, None)]);
      PushBindings(v, vk, publisherId, p.connections);
      AddEdgesKeepsUnbound(ps, sub, publisherId);
    }

    /** The tail of `subscribe`: the (no-op) sweep, then the viewer count to the publisher. */
    method SweepThenReport(publisherId: PeerId)
      requires Valid()
      modifies peers, net`trace
      ensures Valid() && View() == old(View())
      ensures net.trace == old(net.trace) + SendViewersInfoEffects(old(View()), publisherId, net.openSockets, net.connectedRtcs)
    {
      CleanUpPeersReceivers();
      SendViewersInfo(publisherId);
    }

    /** `subscribe(subscriber, publisherId)`: the thrown message, if any. On success the edges
        are added, the (no-op) sweep runs and the publisher gets the new viewer count. */
    method Subscribe(sub: Subscriber, publisherId: PeerId) returns (thrown: Option<string>)
      requires Valid()
      modifies peers, net`trace
      ensures Valid()
      ensures AddEdges(old(View()), sub, publisherId).Failure? ==>
        thrown == Some(NotFoundMessage(publisherId)) && View() == old(View()) && net.trace == old(net.trace)
      ensures AddEdges(old(View()), sub, publisherId).Success? ==>
        thrown.None? && View() == AddEdges(old(View()), sub, publisherId).value
      ensures AddEdges(old(View()), sub, publisherId).Success? && FindPeer(old(View()), sub.id, Some(false)).None? ==>
        net.trace == old(net.trace)
      ensures AddEdges(old(View()), sub, publisherId).Success? && FindPeer(old(View()), sub.id, Some(false)).Some? ==>
        net.trace == old(net.trace) +
          SendViewersInfoEffects(AddEdges(old(View()), sub, publisherId).value, publisherId, net.openSockets, net.connectedRtcs)
    {
      SubscribeAddsEdges(View(), sub, publisherId);
      var pub := GetPeer(publisherId, Some(true));
      if pub.None? {
        return Some(NotFoundMessage(publisherId));
      }
      var viewer := GetPeer(sub.id, Some(false));
      if viewer.Some? {
        LinkEdges(sub, publisherId, pub.value, viewer.value);
        SweepThenReport(publisherId);
      }
      thrown := None;
    }

    /** The edge part of `unSubscribe` on the objects, for a publisher and a viewer that exist. */
    method UnlinkEdges(sub: Subscriber, publisherId: PeerId, p: Peer, v: Peer)
      requires Valid()
      requires FindPeer(View(), publisherId, Some(true)).Some? && p == peers[FindPeer(View(), publisherId, Some(true)).value]
      requires FindPeer(View(), sub.id, Some(false)).Some? && v == peers[FindPeer(View(), sub.id, Some(false)).value]
      modifies p`receivers, v`receivers
      ensures Valid()
      ensures View() == RemoveEdges(old(View()), sub, publisherId)
    {
      ghost var ps := View();
      ghost var pk := FindPeer(ps, publisherId, Some(true)).value;
      ghost var vk := FindPeer(ps, sub.id, Some(false)).value;
      assert pk != vk by { assert ps[pk].isSender && !ps[vk].isSender; }
      SetReceivers(v, vk, JsSplice(v.receivers, -1));
      var k := EntryIndex(p.receivers, sub);
      if k.Some? {
        SetReceivers(p, pk, RemoveAt(p.receivers, k.value));
      }
      RemoveEdgesKeepsUnbound(ps, sub, publisherId);
    }

    /** The tail of `unSubscribe`: the viewer count to the publisher, then the (no-op) sweep. */
    method ReportThenSweep(publisherId: PeerId)
      requires Valid()
      modifies peers, net`trace
      ensures Valid() && View() == old(View())
      ensures net.trace == old(net.trace) + SendViewersInfoEffects(old(View()), publisherId, net.openSockets, net.connectedRtcs)
    {
      SendViewersInfo(publisherId);
      CleanUpPeersReceivers();
    }

    /** `unSubscribe(subscriber, publisherId)`: the edges are removed, the publisher gets the
        new viewer count, and the (no-op) sweep runs. */
    method UnSubscribe(sub: Subscriber, publisherId: PeerId)
      requires Valid()
      modifies peers, net`trace
      ensures Valid()
      ensures View() == RemoveEdges(old(View()), sub, publisherId)
      ensures FindPeer(old(View()), publisherId, Some(true)).None? || FindPeer(old(View()), sub.id, Some(false)).None? ==>
        net.trace == old(net.trace)
      ensures FindPeer(old(View()), publisherId, Some(true)).Some? && FindPeer(old(View()), sub.id, Some(false)).Some? ==>
        net.trace == old(net.trace) +
          SendViewersInfoEffects(RemoveEdges(old(View()), sub, publisherId), publisherId, net.openSockets, net.connectedRtcs)
    {
      UnsubscribeRemovesEdges(View(), sub, publisherId);
      var pub := GetPeer(publisherId, Some(true));
      if pub.Some? {
        var viewer := GetPeer(sub.id, Some(false));
        if viewer.Some? {
          UnlinkEdges(sub, publisherId, pub.value, viewer.value);
          ReportThenSweep(publisherId);
        }
      }
    }

    /** Sends `msg` on every open channel of the list, in order. */
    method SendOnChannels(chs: seq<ChannelId>, msg: Outbound)
      modifies net`trace
      ensures net.trace == old(net.trace) + ChannelSends(chs, net.openChannels, msg)
    {
      var i := 0;
      while i < |chs|
        invariant 0 <= i <= |chs|
        invariant net.trace == old(net.trace) + ChannelSends(chs[..i], net.openChannels, msg)
      {
        if chs[i] in net.openChannels {
          net.Emit(ChannelSend(chs[i], msg));
        }
        assert chs[..i + 1][..i] == chs[..i];
        i := i + 1;
      }
      assert chs[..|chs|] == chs;
    }

    /** Sends `msg` on every open channel of every record, record by record. */
    method SendOnConnections(cs: seq<Connection>, msg: Outbound)
      modifies net`trace
      ensures net.trace == old(net.trace) + ConnectionSends(cs, net.openChannels, msg)
    {
      var i := 0;
      while i < |cs|
        invariant 0 <= i <= |cs|
        invariant net.trace == old(net.trace) + ConnectionSends(cs[..i], net.openChannels, msg)
      {
        SendOnChannels(cs[i].channels, msg);
        assert cs[..i + 1][..i] == cs[..i];
        i := i + 1;
      }
      assert cs[..|cs|] == cs;
    }

    /** One step of `broadCastMessageToReceivers`: the entry is resolved by id (`getPeer`) in
        the registry `ps`, and `msg` goes to the open channels of the peer found. */
    method SendToEntry(ps: seq<PeerState>, r: Receiver, msg: Outbound)
      modifies net`trace
      ensures net.trace == old(net.trace) + EntrySend(ps, r, net.openChannels, msg)
    {
      var k := FindPeer(ps, r.id, None);
      ConnectionsByIdIsFindPeer(ps, r.id);
      if k.Some? {
        SendOnConnections(ps[k.value].connections, msg);
      } else {
        assert ConnectionSends([], net.openChannels, msg) == [];
      }
    }

    /** The loop of `broadCastMessageToReceivers` over the sender's entries. */
    method SendToEntries(ps: seq<PeerState>, rs: seq<Receiver>, msg: Outbound)
      modifies net`trace
      ensures net.trace == old(net.trace) + EntrySends(ps, rs, net.openChannels, msg)
    {
      ghost var open := net.openChannels;
      var i := 0;
      while i < |rs|
        invariant 0 <= i <= |rs|
        invariant net.openChannels == open
        invariant net.trace == old(net.trace) + EntrySends(ps, rs[..i], open, msg)
      {
        SendToEntry(ps, rs[i], msg);
        assert rs[..i + 1][..i] == rs[..i];
        i := i + 1;
      }
      assert rs[..|rs|] == rs;
    }

    /** The body of `broadCastMessageToReceivers` once the sender is found: `msg` goes through
        the sender's entries and then, when `includeSelf` is set, to its own records. */
    method SendData(ps: seq<PeerState>, rs: seq<Receiver>, cs: seq<Connection>, msg: Outbound, includeSelf: bool)
      modifies net`trace
      ensures net.trace == old(net.trace) + EntrySends(ps, rs, net.openChannels, msg) +
        (if includeSelf then ConnectionSends(cs, net.openChannels, msg) else [])
    {
      SendToEntries(ps, rs, msg);
      if includeSelf {
        SendOnConnections(cs, msg);
      }
    }

    /** `broadCastMessageToReceivers(senderId, data, includeSelf)`. */
    method BroadCastMessageToReceivers(senderId: PeerId, data: Option<Payload>, includeSelf: bool)
      modifies net`trace
      ensures net.trace == old(net.trace) + BroadcastEffects(old(View()), senderId, data, includeSelf, net.openChannels)
    {
      if senderId != "" && data.Some? {
        var ps := View();
        var found := GetPeer(senderId, None);
        if found.Some? {
          var p := found.value;
          SendData(ps, p.receivers, p.connections, Data(data.value, senderId), includeSelf);
        }
      }
    }

    /** `createGenericConnection(socket)`: the socket is appended to the generic list. */
    method CreateGenericConnection(socket: SocketId)
      modifies this`genericConnections
      ensures genericConnections == old(genericConnections) + [socket]
    {
      genericConnections := genericConnections + [socket];
    }

    /** `destroyGenericConnection(socket)`: a registered socket is closed and its first entry
        removed; an unknown socket changes nothing. */
    method DestroyGenericConnection(socket: SocketId)
      modifies this`genericConnections, net`trace
      ensures genericConnections == WithoutSocket(old(genericConnections), socket)
      ensures net.trace == old(net.trace) + (if socket in old(genericConnections) then [SocketClose(socket)] else [])
    {
      var k := FirstWhere(genericConnections, (s: SocketId) => s == socket);
      if k.Some? {
        net.Emit(SocketClose(socket));
        genericConnections := RemoveAt(genericConnections, k.value);
      }
    }
  }
}
