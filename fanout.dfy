/** What the broadcast manager sends to the outside world, as lists of calls computed from
    the registry: viewer counts, end-of-broadcast notices, data-channel fan-out and track
    cloning for a new viewer. */
module Fanout {
  import opened Values
  import opened Lists
  import opened PeerModel
  import opened Registry

  // ---------------------------------------------------------------------------------------
  // Viewer count

  /** The number of entries whose socket is open: the count `sendViewersInfo` reports. */
  function CountOpen(rs: seq<Receiver>, open: set<SocketId>): nat
  {
    |Filter(rs, (r: Receiver) => r.socket in open)|
  }

  /** Each entry with an open socket is counted once. */
  lemma {:induction false} CountOpenAppend(a: seq<Receiver>, b: seq<Receiver>, open: set<SocketId>)
    ensures CountOpen(a + b, open) == CountOpen(a, open) + CountOpen(b, open)
  {
    FilterAppend(a, b, (r: Receiver) => r.socket in open);
  }

  /** A successful `subscribe` that found the viewer raises the publisher's viewer count by
      one exactly when the subscriber's socket is open. */
  lemma {:induction false} SubscribeIncrementsViewerCount(ps: seq<PeerState>, sub: Subscriber, publisherId: PeerId, open: set<SocketId>)
    requires FindPeer(ps, publisherId, Some(true)).Some? && FindPeer(ps, sub.id, Some(false)).Some?
    ensures AddEdges(ps, sub, publisherId).Success?
    ensures var pk := FindPeer(ps, publisherId, Some(true)).value;
      CountOpen(AddEdges(ps, sub, publisherId).value[pk].receivers, open) ==
      CountOpen(ps[pk].receivers, open) + (if sub.socket in open then 1 else 0)
  {
    var pk := FindPeer(ps, publisherId, Some(true)).value;
    SubscribeAddsEdges(ps, sub, publisherId);
    var e := Receiver(sub.id, sub.socket, None);
    CountOpenAppend(ps[pk].receivers, [e], open);
    assert [e][..0] == [];
  }

  /** `unSubscribe` lowers the publisher's viewer count by one exactly when it removes an
      entry for the subscriber and that entry's socket is open. */
  lemma {:induction false} UnsubscribeDecrementsViewerCount(ps: seq<PeerState>, sub: Subscriber, publisherId: PeerId, open: set<SocketId>)
    requires FindPeer(ps, publisherId, Some(true)).Some? && FindPeer(ps, sub.id, Some(false)).Some?
    ensures var pk := FindPeer(ps, publisherId, Some(true)).value;
      var removed := EntryIndex(ps[pk].receivers, sub).Some? && sub.socket in open;
      CountOpen(RemoveEdges(ps, sub, publisherId)[pk].receivers, open) ==
      CountOpen(ps[pk].receivers, open) - (if removed then 1 else 0)
  {
    var pk := FindPeer(ps, publisherId, Some(true)).value;
    var rs := ps[pk].receivers;
    UnsubscribeRemovesEdges(ps, sub, publisherId);
    match EntryIndex(rs, sub)
    case None =>
    case Some(i) =>
      assert rs == rs[..i] + [rs[i]] + rs[i + 1..];
      CountOpenAppend(rs[..i] + [rs[i]], rs[i + 1..], open);
      CountOpenAppend(rs[..i], [rs[i]], open);
      CountOpenAppend(rs[..i], rs[i + 1..], open);
      assert [rs[i]][..0] == [];
      assert RemoveAt(rs, i) == rs[..i] + rs[i + 1..];
  }

  /** The records whose RTC session is connected. */
  function ConnectedRecords(cs: seq<Connection>, connected: set<RtcId>): seq<Connection>
  {
    Filter(cs, (c: Connection) => c.rtc in connected)
  }

  /** The sends of `sendViewersInfo` over one publisher's records. */
  function ViewersInfoSends(cs: seq<Connection>, count: nat, connected: set<RtcId>): seq<Effect>
  {
    if |cs| == 0 then []
    else
      var c := cs[|cs| - 1];
      ViewersInfoSends(cs[..|cs| - 1], count, connected) +
        (if c.rtc in connected then [SocketSend(c.socket, ViewersInfo(count))] else [])
  }

  /** One `viewersInfo` message per connected record, on that record's socket, each carrying
      the same count, and nothing else. */
  lemma {:induction false} ViewersInfoReachesConnectedRecords(cs: seq<Connection>, count: nat, connected: set<RtcId>)
    ensures |ViewersInfoSends(cs, count, connected)| == |ConnectedRecords(cs, connected)|
    ensures forall e :: e in ViewersInfoSends(cs, count, connected) ==>
      e.SocketSend? && e.msg == ViewersInfo(count) && exists c :: c in cs && c.rtc in connected && c.socket == e.socket
    ensures forall c :: c in cs && c.rtc in connected ==> SocketSend(c.socket, ViewersInfo(count)) in ViewersInfoSends(cs, count, connected)
  {
    if |cs| > 0 {
      var init := cs[..|cs| - 1];
      ViewersInfoReachesConnectedRecords(init, count, connected);
      assert forall x :: x in cs ==> x in init || x == cs[|cs| - 1];
      assert forall x :: x in init ==> x in cs;
    }
  }

  /** `sendViewersInfo(publisherId)`. */
  function SendViewersInfoEffects(ps: seq<PeerState>, publisherId: PeerId, open: set<SocketId>, connected: set<RtcId>): seq<Effect>
  {
    match FindPeer(ps, publisherId, Some(true))
    case None => []
    case Some(k) => ViewersInfoSends(ps[k].connections, CountOpen(ps[k].receivers, open), connected)
  }

  /** Only a publisher is informed, and only on its connected records, of how many of its
      entries have an open socket; every connected record is informed. */
  lemma SendViewersInfoReportsCount(ps: seq<PeerState>, publisherId: PeerId, open: set<SocketId>, connected: set<RtcId>)
    ensures FindPeer(ps, publisherId, Some(true)).None? ==> SendViewersInfoEffects(ps, publisherId, open, connected) == []
    ensures FindPeer(ps, publisherId, Some(true)).Some? ==>
      var p := ps[FindPeer(ps, publisherId, Some(true)).value];
      var es := SendViewersInfoEffects(ps, publisherId, open, connected);
      (forall e :: e in es ==> e.SocketSend? && e.msg == ViewersInfo(CountOpen(p.receivers, open))) &&
      (forall c :: c in p.connections && c.rtc in connected ==> SocketSend(c.socket, ViewersInfo(CountOpen(p.receivers, open))) in es) &&
      |es| == |ConnectedRecords(p.connections, connected)|
  {
    if FindPeer(ps, publisherId, Some(true)).Some? {
      var p := ps[FindPeer(ps, publisherId, Some(true)).value];
      ViewersInfoReachesConnectedRecords(p.connections, CountOpen(p.receivers, open), connected);
    }
  }

  // ---------------------------------------------------------------------------------------
  // End of a broadcast

  /** The sends of `notifyBroadcastEndedFor` over a publisher's entries. */
  function EndedSends(rs: seq<Receiver>, ownerId: PeerId, open: set<SocketId>): seq<Effect>
  {
    if |rs| == 0 then []
    else
      var r := rs[|rs| - 1];
      EndedSends(rs[..|rs| - 1], ownerId, open) +
        (if r.socket in open then [SocketSend(r.socket, BroadCastEnded(ownerId))] else [])
  }

  /** One notice per entry with an open socket, on that socket, and nothing else. */
  lemma {:induction false} EndedSendsReachOpenEntries(rs: seq<Receiver>, ownerId: PeerId, open: set<SocketId>)
    ensures |EndedSends(rs, ownerId, open)| == CountOpen(rs, open)
    ensures forall e :: e in EndedSends(rs, ownerId, open) ==>
      e.SocketSend? && e.msg == BroadCastEnded(ownerId) && exists r :: r in rs && r.socket in open && r.socket == e.socket
    ensures forall r :: r in rs && r.socket in open ==> SocketSend(r.socket, BroadCastEnded(ownerId)) in EndedSends(rs, ownerId, open)
  {
    if |rs| > 0 {
      var init := rs[..|rs| - 1];
      EndedSendsReachOpenEntries(init, ownerId, open);
      assert forall x :: x in rs ==> x in init || x == rs[|rs| - 1];
      assert forall x :: x in init ==> x in rs;
    }
  }

  /** `notifyBroadcastEndedFor(peerId)`. */
  function NotifyEndedEffects(ps: seq<PeerState>, ownerId: PeerId, open: set<SocketId>): seq<Effect>
  {
    match FindPeer(ps, ownerId, Some(true))
    case None => []
    case Some(k) => EndedSends(ps[k].receivers, ownerId, open)
  }

  /** Nothing is sent for an id that is not a publisher's. For a publisher, exactly as many
      notices go out as the viewer count `sendViewersInfo` reports, one on each open entry
      socket. */
  lemma NotifyEndedMatchesViewerCount(ps: seq<PeerState>, ownerId: PeerId, open: set<SocketId>)
    ensures FindPeer(ps, ownerId, Some(true)).None? ==> NotifyEndedEffects(ps, ownerId, open) == []
    ensures FindPeer(ps, ownerId, Some(true)).Some? ==>
      var p := ps[FindPeer(ps, ownerId, Some(true)).value];
      |NotifyEndedEffects(ps, ownerId, open)| == CountOpen(p.receivers, open) &&
      (forall r :: r in p.receivers && r.socket in open ==> SocketSend(r.socket, BroadCastEnded(ownerId)) in NotifyEndedEffects(ps, ownerId, open)) &&
      (forall e :: e in NotifyEndedEffects(ps, ownerId, open) ==>
        e.SocketSend? && e.msg == BroadCastEnded(ownerId) && exists r :: r in p.receivers && r.socket in open && r.socket == e.socket)
  {
    if FindPeer(ps, ownerId, Some(true)).Some? {
      EndedSendsReachOpenEntries(ps[FindPeer(ps, ownerId, Some(true)).value].receivers, ownerId, open);
    }
  }

  // ---------------------------------------------------------------------------------------
  // Data-channel fan-out

  /** Every channel of the given records. */
  function ChannelsOf(cs: seq<Connection>): set<ChannelId>
  {
    set c, ch | c in cs && ch in c.channels :: ch
  }

  /** The channels of the first peer with that id, whatever its role. */
  function ResolvedChannels(ps: seq<PeerState>, id: PeerId): set<ChannelId>
  {
    match FindPeer(ps, id, None)
    case None => {}
    case Some(k) => ChannelsOf(ps[k].connections)
  }

  /** The channels reached through a list of entries. */
  function EntryChannels(ps: seq<PeerState>, rs: seq<Receiver>): set<ChannelId>
  {
    set r, ch | r in rs && ch in ResolvedChannels(ps, r.id) :: ch
  }

  /** Sends `msg` on every open channel of the list, in order. */
  function ChannelSends(chs: seq<ChannelId>, open: set<ChannelId>, msg: Outbound): seq<Effect>
  {
    if |chs| == 0 then []
    else
      var ch := chs[|chs| - 1];
      ChannelSends(chs[..|chs| - 1], open, msg) + (if ch in open then [ChannelSend(ch, msg)] else [])
  }

  /** Sends `msg` on the open channels of every record, record by record. */
  function ConnectionSends(cs: seq<Connection>, open: set<ChannelId>, msg: Outbound): seq<Effect>
  {
    if |cs| == 0 then []
    else ConnectionSends(cs[..|cs| - 1], open, msg) + ChannelSends(cs[|cs| - 1].channels, open, msg)
  }

  /** Sends `msg` on the open channels of the peer one entry resolves to by id. */
  function EntrySend(ps: seq<PeerState>, r: Receiver, open: set<ChannelId>, msg: Outbound): seq<Effect>
  {
    ConnectionSends(ConnectionsById(ps, r.id), open, msg)
  }

  /** Sends `msg` on the open channels of the peer each entry resolves to by id. */
  function EntrySends(ps: seq<PeerState>, rs: seq<Receiver>, open: set<ChannelId>, msg: Outbound): seq<Effect>
  {
    if |rs| == 0 then []
    else EntrySends(ps, rs[..|rs| - 1], open, msg) + EntrySend(ps, rs[|rs| - 1], open, msg)
  }

  /** A message goes to exactly the open channels of the list. */
  lemma {:induction false} ChannelSendsReachOpen(chs: seq<ChannelId>, open: set<ChannelId>, msg: Outbound)
    ensures forall e :: e in ChannelSends(chs, open, msg) ==> e.ChannelSend? && e.msg == msg
    ensures forall ch :: ChannelSend(ch, msg) in ChannelSends(chs, open, msg) <==> ch in chs && ch in open
  {
    if |chs| > 0 {
      var init := chs[..|chs| - 1];
      ChannelSendsReachOpen(init, open, msg);
      assert forall x :: x in chs ==> x in init || x == chs[|chs| - 1];
      assert forall x :: x in init ==> x in chs;
    }
  }

  /** A message goes to exactly the open channels of the records. */
  lemma {:induction false} ConnectionSendsReachOpen(cs: seq<Connection>, open: set<ChannelId>, msg: Outbound)
    ensures forall e :: e in ConnectionSends(cs, open, msg) ==> e.ChannelSend? && e.msg == msg
    ensures forall ch :: ChannelSend(ch, msg) in ConnectionSends(cs, open, msg) <==> ch in ChannelsOf(cs) && ch in open
  {
    if |cs| > 0 {
      var init := cs[..|cs| - 1];
      var c := cs[|cs| - 1];
      ConnectionSendsReachOpen(init, open, msg);
      ChannelSendsReachOpen(c.channels, open, msg);
      assert forall x :: x in cs ==> x in init || x == c;
      assert forall x :: x in init ==> x in cs;
      assert ChannelsOf(cs) == ChannelsOf(init) + set ch | ch in c.channels;
    }
  }

  /** A message goes to exactly the open channels reached through the entries. */
  lemma {:induction false} EntrySendsReachOpen(ps: seq<PeerState>, rs: seq<Receiver>, open: set<ChannelId>, msg: Outbound)
    ensures forall e :: e in EntrySends(ps, rs, open, msg) ==> e.ChannelSend? && e.msg == msg
    ensures forall ch :: ChannelSend(ch, msg) in EntrySends(ps, rs, open, msg) <==> ch in EntryChannels(ps, rs) && ch in open
  {
    if |rs| > 0 {
      var init := rs[..|rs| - 1];
      var r := rs[|rs| - 1];
      EntrySendsReachOpen(ps, init, open, msg);
      ConnectionsByIdIsFindPeer(ps, r.id);
      ConnectionSendsReachOpen(ConnectionsById(ps, r.id), open, msg);
      assert forall x :: x in rs ==> x in init || x == r;
      assert forall x :: x in init ==> x in rs;
      assert EntryChannels(ps, rs) == EntryChannels(ps, init) + ResolvedChannels(ps, r.id);
    }
  }

  /** `broadCastMessageToReceivers(senderId, data, includeSelf)`. */
  function BroadcastEffects(ps: seq<PeerState>, senderId: PeerId, data: Option<Payload>, includeSelf: bool, open: set<ChannelId>): seq<Effect>
  {
    if senderId == "" || data.None? then []
    else
      match FindPeer(ps, senderId, None)
      case None => []
      case Some(k) =>
        var msg := Data(data.value, senderId);
        EntrySends(ps, ps[k].receivers, open, msg) +
          (if includeSelf then ConnectionSends(ps[k].connections, open, msg) else [])
  }

  /** Nothing is sent for a falsy sender id or payload or an unknown sender. Otherwise only the
      payload stamped with the sender id is sent, and it reaches exactly the open channels of
      the peers the sender's entries name, plus, only when `includeSelf` is set, the open
      channels of the sender's own records. */
  lemma BroadcastReachesReceivers(ps: seq<PeerState>, senderId: PeerId, data: Option<Payload>, includeSelf: bool, open: set<ChannelId>)
    ensures senderId == "" || data.None? || FindPeer(ps, senderId, None).None? ==>
      BroadcastEffects(ps, senderId, data, includeSelf, open) == []
    ensures forall e :: e in BroadcastEffects(ps, senderId, data, includeSelf, open) ==>
      data.Some? && e.ChannelSend? && e.msg == Data(data.value, senderId) && e.channel in open
    ensures senderId != "" && data.Some? && FindPeer(ps, senderId, None).Some? ==>
      var p := ps[FindPeer(ps, senderId, None).value];
      forall ch :: ChannelSend(ch, Data(data.value, senderId)) in BroadcastEffects(ps, senderId, data, includeSelf, open) <==>
        ch in open && (ch in EntryChannels(ps, p.receivers) || (includeSelf && ch in ChannelsOf(p.connections)))
  {
    if senderId != "" && data.Some? && FindPeer(ps, senderId, None).Some? {
      var p := ps[FindPeer(ps, senderId, None).value];
      var msg := Data(data.value, senderId);
      EntrySendsReachOpen(ps, p.receivers, open, msg);
      ConnectionSendsReachOpen(p.connections, open, msg);
    }
  }

  // ---------------------------------------------------------------------------------------
  // Track binding for a newly attached viewer

  /** One clone of every track onto the given RTC session, in track order. */
  function TrackClones(rtc: RtcId, tracks: seq<TrackId>): (es: seq<Effect>)
    ensures |es| == |tracks|
    ensures forall i :: 0 <= i < |tracks| ==> es[i] == TrackCloneAdded(rtc, tracks[i])
  {
    seq(|tracks|, i requires 0 <= i < |tracks| => TrackCloneAdded(rtc, tracks[i]))
  }

  /** One clone of every track onto every record's RTC session, record by record. */
  function CloneSends(cs: seq<Connection>, tracks: seq<TrackId>): seq<Effect>
  {
    if |cs| == 0 then [] else CloneSends(cs[..|cs| - 1], tracks) + TrackClones(cs[|cs| - 1].rtc, tracks)
  }

  /** One clone per (record, track) pair. */
  lemma {:induction false} CloneSendsLength(cs: seq<Connection>, tracks: seq<TrackId>)
    ensures |CloneSends(cs, tracks)| == |cs| * |tracks|
  {
    if |cs| > 0 {
      CloneSendsLength(cs[..|cs| - 1], tracks);
      assert |cs| * |tracks| == (|cs| - 1) * |tracks| + |tracks|;
    }
  }

  /** Only tracks of the list are cloned, and only onto the records' RTC sessions. */
  lemma {:induction false} CloneSendsSound(cs: seq<Connection>, tracks: seq<TrackId>)
    ensures forall e :: e in CloneSends(cs, tracks) ==> e.TrackCloneAdded? && e.track in tracks && exists c :: c in cs && c.rtc == e.target
  {
    if |cs| > 0 {
      var init := cs[..|cs| - 1];
      CloneSendsSound(init, tracks);
      TrackClonesCover(cs[|cs| - 1].rtc, tracks);
      assert forall x :: x in init ==> x in cs;
      assert cs[|cs| - 1] in cs;
    }
  }

  /** Every track is cloned onto every record's RTC session. */
  lemma {:induction false} CloneSendsComplete(cs: seq<Connection>, tracks: seq<TrackId>)
    ensures forall c, t :: c in cs && t in tracks ==> TrackCloneAdded(c.rtc, t) in CloneSends(cs, tracks)
  {
    if |cs| > 0 {
      var init := cs[..|cs| - 1];
      CloneSendsComplete(init, tracks);
      TrackClonesCover(cs[|cs| - 1].rtc, tracks);
      assert forall x :: x in cs ==> x in init || x == cs[|cs| - 1];
    }
  }

  lemma TrackClonesCover(rtc: RtcId, tracks: seq<TrackId>)
    ensures forall e :: e in TrackClones(rtc, tracks) ==> e.TrackCloneAdded? && e.target == rtc && e.track in tracks
    ensures forall t :: t in tracks ==> TrackCloneAdded(rtc, t) in TrackClones(rtc, tracks)
  {
    var es := TrackClones(rtc, tracks);
    forall t | t in tracks ensures TrackCloneAdded(rtc, t) in es {
      var i :| 0 <= i < |tracks| && tracks[i] == t;
      assert es[i] == TrackCloneAdded(rtc, t);
    }
  }

  /** `bindTracksToViewer(ownerId, viewerId)`. */
  function BindTracksEffects(ps: seq<PeerState>, ownerId: PeerId, viewerId: PeerId): seq<Effect>
  {
    match FindPeer(ps, ownerId, Some(true))
    case None => []
    case Some(ok) =>
      match FindPeer(ps, viewerId, Some(false))
      case None => []
      case Some(vk) =>
        if |ps[ok].connections| == 0 then []
        else CloneSends(ps[vk].connections, ps[ok].connections[0].tracks)
  }

  /** Tracks are bound only when the owner exists as a publisher with at least one record and
      the viewer exists as a viewer. Then every RTC session of the viewer gets one clone of
      each track of the owner's FIRST record, and of no other record. */
  lemma BindTracksClonesFirstRecord(ps: seq<PeerState>, ownerId: PeerId, viewerId: PeerId)
    ensures FindPeer(ps, ownerId, Some(true)).None? || FindPeer(ps, viewerId, Some(false)).None? ==>
      BindTracksEffects(ps, ownerId, viewerId) == []
    ensures FindPeer(ps, ownerId, Some(true)).Some? && FindPeer(ps, viewerId, Some(false)).Some? ==>
      var owner := ps[FindPeer(ps, ownerId, Some(true)).value];
      var viewer := ps[FindPeer(ps, viewerId, Some(false)).value];
      var es := BindTracksEffects(ps, ownerId, viewerId);
      (owner.connections == [] ==> es == []) &&
      (owner.connections != [] ==>
        |es| == |viewer.connections| * |owner.connections[0].tracks| &&
        (forall e :: e in es ==> e.TrackCloneAdded? && e.track in owner.connections[0].tracks) &&
        (forall c, t :: c in viewer.connections && t in owner.connections[0].tracks ==> TrackCloneAdded(c.rtc, t) in es))
  {
    if FindPeer(ps, ownerId, Some(true)).Some? && FindPeer(ps, viewerId, Some(false)).Some? {
      var owner := ps[FindPeer(ps, ownerId, Some(true)).value];
      var viewer := ps[FindPeer(ps, viewerId, Some(false)).value];
      if owner.connections != [] {
        CloneSendsLength(viewer.connections, owner.connections[0].tracks);
        CloneSendsSound(viewer.connections, owner.connections[0].tracks);
        CloneSendsComplete(viewer.connections, owner.connections[0].tracks);
      }
    }
  }
}
