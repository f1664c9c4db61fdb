/** The signaling dispatcher: it validates the start parameters, reads the query flags of a new
    socket, routes every inbound message to the RTC path or the generic path, and turns socket
    and RTC events into a fixed sequence of calls on the broker. Each event handler runs as one
    atomic step. */
module Signaling {
  import opened Values
  import opened Network
  import opened PeerModel
  import opened Registry
  import opened Fanout
  import opened PeerFactory
  import opened BroadcastManager

  // ---------------------------------------------------------------------------------------
  // Start validation

  /** The `port` argument as `typeof` and `<` see it: an integer, `NaN` (a number that
      compares false with everything), or a value of another type. */
  datatype PortArg = Num(value: int) | NaN | NotNumber

  /** What `start` does: refuse (for one of three reasons) or start the websocket server. */
  datatype StartOutcome = AlreadyStarted | PortRefused | HostRequired | Listen

  /** `start`'s checks, in their order: the started flag, then the port, then the host (the
      empty string stands for every falsy host). */
  function StartDecision(isStarted: bool, port: PortArg, host: string): (o: StartOutcome)
    ensures o == Listen <==> !isStarted && host != "" && (port.NaN? || (port.Num? && port.value >= 1023))
    ensures o == AlreadyStarted <==> isStarted
    ensures o == PortRefused <==> !isStarted && (port.NotNumber? || (port.Num? && port.value < 1023))
  {
    if isStarted then AlreadyStarted
    else if port.NotNumber? || (port.Num? && port.value < 1023) then PortRefused
    else if host == "" then HostRequired
    else Listen
  }

  /** The port check is `port < 1023`: port 1023, which the code's own comment counts among
      the reserved ports, passes, and so does `NaN`; 1022 and non-numbers do not. */
  lemma {:induction false} StartPortBoundary(host: string)
    requires host != ""
    ensures StartDecision(false, Num(1023), host) == Listen
    ensures StartDecision(false, NaN, host) == Listen
    ensures StartDecision(false, Num(1022), host) == PortRefused
    ensures StartDecision(false, NotNumber, host) == PortRefused
  {
  }

  /** The text of the exception the `listening` handler throws as written. */
  const ListeningError := "ReferenceError: _this is not defined"

  /** The `listening` handler AS WRITTEN, as the outcome of the call: it assigns through
      `_this`, a variable local to `start`, so it throws a `ReferenceError` before the
      assignment. Nothing between the event emitter and the handler catches it, so the
      exception ends the process instead of returning a flag. */
  function ListenedAsWritten(isStarted: bool): (r: Result<bool>)
    ensures r.Failure? && r.error == ListeningError
  {
    Failure(ListeningError)
  }

  /** As written, the handler never completes, so it never sets the started flag: there is no
      run in which it returns with the flag set, while the intended handler always does. */
  lemma {:induction false} ListeningNeverSetsFlagAsWritten(isStarted: bool)
    ensures ListenedAsWritten(isStarted) != Success(true)
    ensures Listened(isStarted)
  {
  }

  /** The started flag after the `listening` handler as intended: it is set. */
  function Listened(isStarted: bool): (r: bool)
    ensures r
  {
    true
  }

  /** With the flag set by the handler, every later `start` is refused, whatever its
      parameters. */
  lemma {:induction false} RestartRefusedAfterListening(isStarted: bool, port: PortArg, host: string)
    ensures StartDecision(Listened(isStarted), port, host) == AlreadyStarted
  {
  }

  // ---------------------------------------------------------------------------------------
  // Query flags

  /** The parsed query string of a request URL. */
  type Query = map<string, string>

  /** The text of the exception `socket.close()` throws on the raw socket of an upgrade. */
  const UpgradeCloseError := "TypeError: socket.close is not a function"

  /** `getValueFromQueryString(url, key)` read as a peer id: the empty string for a missing key
      or an empty value, the two falsy outcomes. */
  function QueryId(q: Query, key: string): (v: PeerId)
    ensures v != "" <==> key in q && q[key] != ""
    ensures v != "" ==> v == q[key]
  {
    if key in q then q[key] else ""
  }

  /** `getValueFromQueryString(url, 'isSender') === "true"`: only the exact string counts. */
  predicate IsSenderFlag(q: Query)
  {
    "isSender" in q && q["isSender"] == "true"
  }

  /** Only the exact value `"true"` makes a publisher; `"True"`, `"1"`, an empty value and a
      missing key all make a viewer. */
  lemma {:induction false} IsSenderOnlyForTrue(q: Query)
    ensures IsSenderFlag(q) <==> QueryId(q, "isSender") == "true"
    ensures !IsSenderFlag(map["isSender" := "True"]) && !IsSenderFlag(map["isSender" := "1"])
    ensures !IsSenderFlag(map["isSender" := ""]) && !IsSenderFlag(map[])
  {
  }

  // ---------------------------------------------------------------------------------------
  // Inbound socket messages

  /** The `view` field of a message: `leave` is the truthiness of `view.leave`, and the owner
      id is `view.broadcastOwnerPeerId` ("" when falsy). */
  datatype ViewRequest = ViewRequest(leave: bool, ownerId: PeerId)

  /** A socket message after `JSON.parse`: text that does not parse, a falsy value (`null`,
      `0`, `false`, `""`), or a value whose truthy `candidate`, `sdp` and `view` fields are
      kept (a falsy field is `None`). */
  datatype Inbound =
    | Malformed
    | Falsy
    | Parsed(candidate: Option<IceCandidate>, sdp: Option<Description>, view: Option<ViewRequest>)

  /** Where `onSocketMessage` sends a message. */
  datatype Route = Dropped | RtcPath | GenericPath

  /** A parsed truthy message goes to the RTC path exactly when its `candidate` or `sdp` is
      truthy, and to the generic path otherwise; parse failures and falsy values go nowhere. */
  function RouteOf(m: Inbound): (r: Route)
    ensures r == RtcPath <==> m.Parsed? && (m.candidate.Some? || m.sdp.Some?)
    ensures r == GenericPath <==> m.Parsed? && m.candidate.None? && m.sdp.None?
    ensures r == Dropped <==> !m.Parsed?
  {
    match m
    case Malformed => Dropped
    case Falsy => Dropped
    case Parsed(c, s, _) => if c.Some? || s.Some? then RtcPath else GenericPath
  }

  /** The engine calls and the reply of `handleRtcMessages`, for the RTC session the lookup
      found (`None` when it found none) and the answer the engine creates. Without a session
      the first engine call throws a `TypeError`, which `onSocketMessage` catches. */
  function RtcEffects(rtc: Option<RtcId>, socket: SocketId, candidate: Option<IceCandidate>,
                      sdp: Option<Description>, answer: Description): seq<Effect>
  {
    if rtc.None? then []
    else if candidate.Some? then [RemoteCandidateAdded(rtc.value, candidate.value)]
    else if sdp.Some? then
      [RemoteDescriptionSet(rtc.value, sdp.value), LocalAnswerSet(rtc.value, answer), SocketSend(socket, SdpMsg(answer))]
    else []
  }

  /** The sends among a list of effects, in order. */
  function Replies(es: seq<Effect>): (rs: seq<Effect>)
    ensures forall e :: e in rs <==> e in es && e.SocketSend?
  {
    if |es| == 0 then []
    else
      assert forall e :: e in es <==> e == es[0] || e in es[1..];
      (if es[0].SocketSend? then [es[0]] else []) + Replies(es[1..])
  }

  /** A candidate takes precedence over an sdp and is only handed to the engine. An sdp sets
      the remote description, then the local answer, and is answered with exactly one `{sdp}`
      message on the requesting socket, whatever the role. Nothing happens without a session. */
  lemma RtcMessageEffects(rtc: Option<RtcId>, socket: SocketId, candidate: Option<IceCandidate>,
                          sdp: Option<Description>, answer: Description)
    ensures rtc.None? ==> RtcEffects(rtc, socket, candidate, sdp, answer) == []
    ensures rtc.Some? && candidate.Some? ==>
      RtcEffects(rtc, socket, candidate, sdp, answer) == [RemoteCandidateAdded(rtc.value, candidate.value)]
    ensures |Replies(RtcEffects(rtc, socket, candidate, sdp, answer))| ==
      (if rtc.Some? && candidate.None? && sdp.Some? then 1 else 0)
    ensures forall e :: e in Replies(RtcEffects(rtc, socket, candidate, sdp, answer)) ==> e == SocketSend(socket, SdpMsg(answer))
    ensures rtc.Some? && candidate.None? && sdp.Some? ==>
      var es := RtcEffects(rtc, socket, candidate, sdp, answer);
      es[0] == RemoteDescriptionSet(rtc.value, sdp.value) && es[1] == LocalAnswerSet(rtc.value, answer)
  {
    var es := RtcEffects(rtc, socket, candidate, sdp, answer);
    if rtc.Some? && candidate.None? && sdp.Some? {
      assert es[1..][1..][1..] == [];
      assert Replies(es[1..][1..]) == [SocketSend(socket, SdpMsg(answer))];
    } else if rtc.Some? && candidate.Some? {
      assert es[1..] == [];
    }
  }

  /** The text of the success reply to a view request. */
  function ReadyMessage(ownerId: PeerId): string
  {
    "ready now to receive broadcast from publisher : " + ownerId
  }

  /** The sends of `unSubscribe`: the new viewer count to the publisher, when both peers exist. */
  function UnsubscribeSends(ps: seq<PeerState>, sub: Subscriber, ownerId: PeerId, open: set<SocketId>, connected: set<RtcId>): seq<Effect>
  {
    if FindPeer(ps, ownerId, Some(true)).Some? && FindPeer(ps, sub.id, Some(false)).Some? then
      SendViewersInfoEffects(RemoveEdges(ps, sub, ownerId), ownerId, open, connected)
    else []
  }

  /** What `subscribe` throws: the not-found text for an unknown publisher, nothing otherwise. */
  function Thrown(ps: seq<PeerState>, sub: Subscriber, ownerId: PeerId): Option<string>
  {
    match AddEdges(ps, sub, ownerId)
    case Failure(e) => Some(e)
    case Success(_) => None
  }

  /** The reply to a view request: ready with the fixed text, or not ready carrying what
      `subscribe` threw. */
  function ReadyReply(thrown: Option<string>, ownerId: PeerId): Outbound
  {
    if thrown.None? then BroadCastReady(true, ReadyMessage(ownerId)) else BroadCastReady(false, thrown.value)
  }

  /** The sends of `subscribe` itself: the new viewer count, when it adds edges. */
  function SubscribeInfo(ps: seq<PeerState>, sub: Subscriber, ownerId: PeerId, open: set<SocketId>, connected: set<RtcId>): seq<Effect>
  {
    match AddEdges(ps, sub, ownerId)
    case Failure(_) => []
    case Success(qs) =>
      if FindPeer(ps, sub.id, Some(false)).Some? then SendViewersInfoEffects(qs, ownerId, open, connected) else []
  }

  /** The registry after `handleGenericMessages`. */
  function GenericRegistry(ps: seq<PeerState>, view: Option<ViewRequest>, sub: Subscriber): seq<PeerState>
  {
    match view
    case None => ps
    case Some(v) =>
      if v.leave then RemoveEdges(ps, sub, v.ownerId)
      else match AddEdges(ps, sub, v.ownerId)
        case Failure(_) => ps
        case Success(qs) => qs
  }

  /** The sends of `handleGenericMessages`. */
  function GenericSends(ps: seq<PeerState>, view: Option<ViewRequest>, sub: Subscriber, open: set<SocketId>, connected: set<RtcId>): seq<Effect>
  {
    match view
    case None => []
    case Some(v) =>
      if v.leave then UnsubscribeSends(ps, sub, v.ownerId, open, connected)
      else SubscribeInfo(ps, sub, v.ownerId, open, connected) + [SocketSend(sub.socket, ReadyReply(Thrown(ps, sub, v.ownerId), v.ownerId))]
  }

  /** `subscribe` sends nothing but viewer counts, and throws exactly for an unknown
      publisher, when it sends nothing and changes nothing. */
  lemma SubscribeSendsOnlyCounts(ps: seq<PeerState>, sub: Subscriber, ownerId: PeerId, open: set<SocketId>, connected: set<RtcId>)
    ensures forall e :: e in SubscribeInfo(ps, sub, ownerId, open, connected) ==> e.SocketSend? && e.msg.ViewersInfo?
    ensures Thrown(ps, sub, ownerId) == if FindPeer(ps, ownerId, Some(true)).Some? then None else Some(NotFoundMessage(ownerId))
    ensures Thrown(ps, sub, ownerId).Some? ==>
      SubscribeInfo(ps, sub, ownerId, open, connected) == [] && GenericRegistry(ps, Some(ViewRequest(false, ownerId)), sub) == ps
  {
    SubscribeAddsEdges(ps, sub, ownerId);
    if AddEdges(ps, sub, ownerId).Success? {
      SendViewersInfoReportsCount(AddEdges(ps, sub, ownerId).value, ownerId, open, connected);
    }
  }

  /** `unSubscribe` sends nothing but viewer counts. */
  lemma UnsubscribeSendsOnlyCounts(ps: seq<PeerState>, sub: Subscriber, ownerId: PeerId, open: set<SocketId>, connected: set<RtcId>)
    ensures forall e :: e in UnsubscribeSends(ps, sub, ownerId, open, connected) ==> e.SocketSend? && e.msg.ViewersInfo?
  {
    if FindPeer(ps, ownerId, Some(true)).Some? && FindPeer(ps, sub.id, Some(false)).Some? {
      SendViewersInfoReportsCount(RemoveEdges(ps, sub, ownerId), ownerId, open, connected);
    }
  }

  /** A message without `view` changes nothing. A leave request is never answered: it only
      sends viewer counts. A view request is answered exactly once, last, on the requesting
      socket: ready with the fixed text when the owner is a known publisher, otherwise not
      ready with the text `subscribe` throws, and the registry is then unchanged. */
  lemma GenericRepliesOnce(ps: seq<PeerState>, view: Option<ViewRequest>, sub: Subscriber, open: set<SocketId>, connected: set<RtcId>)
    ensures view.None? ==> GenericRegistry(ps, view, sub) == ps && GenericSends(ps, view, sub, open, connected) == []
    ensures view.Some? && view.value.leave ==>
      forall e :: e in GenericSends(ps, view, sub, open, connected) ==> e.SocketSend? && e.msg.ViewersInfo?
    ensures view.Some? && !view.value.leave ==>
      var es := GenericSends(ps, view, sub, open, connected);
      var found := FindPeer(ps, view.value.ownerId, Some(true)).Some?;
      |es| > 0 &&
      es[|es| - 1] == SocketSend(sub.socket,
        if found then BroadCastReady(true, ReadyMessage(view.value.ownerId))
        else BroadCastReady(false, NotFoundMessage(view.value.ownerId))) &&
      (forall e :: e in es[..|es| - 1] ==> e.SocketSend? && e.msg.ViewersInfo?) &&
      (!found ==> GenericRegistry(ps, view, sub) == ps && |es| == 1)
  {
    if view.Some? {
      var v := view.value;
      if v.leave {
        UnsubscribeSendsOnlyCounts(ps, sub, v.ownerId, open, connected);
      } else {
        SubscribeSendsOnlyCounts(ps, sub, v.ownerId, open, connected);
        var info := SubscribeInfo(ps, sub, v.ownerId, open, connected);
        var es := GenericSends(ps, view, sub, open, connected);
        assert es == info + [SocketSend(sub.socket, ReadyReply(Thrown(ps, sub, v.ownerId), v.ownerId))];
        assert es[..|es| - 1] == info;
      }
    }
  }

  /** The RTC connection states; `onconnectionstatechange` reads `connectionState`. */
  datatype RtcState = New | Connecting | Connected | Disconnected | Failed | Closed

  /** Only `disconnected`, `failed` and `closed` end a session. */
  predicate EndsSession(s: RtcState)
  {
    s == Disconnected || s == Failed || s == Closed
  }

  /** A publisher's socket close hands `true` over as the RTC selector. No record's session
      is `true`, so no record is closed or removed: the publisher keeps every record, and is
      removed only when it had none. */
  lemma PublisherSocketCloseClosesNothing(ps: seq<PeerState>, id: PeerId, socket: SocketId)
    ensures DestroyPeerConnectionEffects(ps, id, SocketRef(socket), Flag(true)) == []
    ensures FindPeer(ps, id, None).Some? && ps[FindPeer(ps, id, None).value].connections != [] ==>
      DestroyPeerConnection(ps, id, SocketRef(socket), Flag(true)) == ps
  {
    match FindPeer(ps, id, None)
    case None =>
    case Some(k) =>
      var cs := ps[k].connections;
      forall j | 0 <= j < |cs| ensures !Selects(SocketRef(socket), Flag(true), cs[j]) {
        assert !HasRtc(cs[j], Flag(true));
      }
      if cs != [] {
        assert ps[k := ps[k].(connections := cs)] == ps;
      }
  }

  /** A peer appended after a registry without a match for (id, role) is the first match. */
  lemma FindPeerAppended(ps: seq<PeerState>, p: PeerState, id: PeerId, role: Option<bool>)
    requires FindPeer(ps, id, role).None? && IsPeer(p, id, role)
    ensures FindPeer(ps + [p], id, role) == Some(|ps|)
  {
    var qs := ps + [p];
    assert IsPeer(qs[|ps|], id, role);
    forall j | 0 <= j < |ps| ensures !IsPeer(qs[j], id, role) {
      assert qs[j] == ps[j];
    }
  }

  /** A new connection with a truthy peer id gets exactly one record on the (id, role) peer,
      which is created first when absent: the lookup-or-create step of `getOrCreatePeer` adds
      nothing of its own, and the registry grows by at most that one peer. */
  lemma TruthyIdAttachesOnce(ps: seq<PeerState>, id: PeerId, socket: SocketId, rtc: RtcId, isSender: bool, now1: PeerId, now2: PeerId)
    requires id != ""
    ensures AddPeerConnection(CreatePeer(ps, id, isSender, now1).0, id, socket, rtc, isSender, now2) ==
      AddPeerConnection(ps, id, socket, rtc, isSender, now2)
    ensures |AddPeerConnection(ps, id, socket, rtc, isSender, now2)| == |ps| + (if FindPeer(ps, id, Some(isSender)).None? then 1 else 0)
  {
    if FindPeer(ps, id, Some(isSender)).None? {
      var p := PeerState(id, isSender, [], []);
      assert CreatePeer(ps, id, isSender, now1).0 == ps + [p];
      FindPeerAppended(ps, p, id, Some(isSender));
    }
  }

  /** `addPeerConnection` for an absent (id, role) peer appends one new peer holding just the
      new record. */
  lemma AddToAbsentPeer(ps: seq<PeerState>, id: PeerId, socket: SocketId, rtc: RtcId, isSender: bool, now: PeerId)
    requires FindPeer(ps, id, Some(isSender)).None?
    ensures AddPeerConnection(ps, id, socket, rtc, isSender, now) ==
      ps + [PeerState(ResolveId(id, now), isSender, [Connection(socket, rtc, [], [])], [])]
  {
    var ps1 := ps + [PeerState(ResolveId(id, now), isSender, [], [])];
    assert CreatePeer(ps, id, isSender, now) == (ps1, |ps|);
    var r := AddPeerConnection(ps, id, socket, rtc, isSender, now);
    assert ps1[|ps|].connections + [Connection(socket, rtc, [], [])] == [Connection(socket, rtc, [], [])];
    assert r == ps1[|ps| := PeerState(ResolveId(id, now), isSender, [Connection(socket, rtc, [], [])], [])];
  }

  /** A new connection without a peer id leaves an empty peer behind: `getOrCreatePeer`
      creates one named by the first clock reading, and `addPeerConnection`, which looks the
      empty id up again, creates a second one, named by the second reading, for the record. */
  lemma FalsyIdCreatesTwoPeers(ps: seq<PeerState>, socket: SocketId, rtc: RtcId, isSender: bool, now1: PeerId, now2: PeerId)
    requires FindPeer(ps, "", Some(isSender)).None?
    requires now1 != ""
    ensures AddPeerConnection(CreatePeer(ps, "", isSender, now1).0, "", socket, rtc, isSender, now2) ==
      ps + [PeerState(now1, isSender, [], []), PeerState(now2, isSender, [Connection(socket, rtc, [], [])], [])]
  {
    var ps1 := ps + [PeerState(now1, isSender, [], [])];
    assert CreatePeer(ps, "", isSender, now1).0 == ps1;
    forall j | 0 <= j < |ps1| ensures !IsPeer(ps1[j], "", Some(isSender)) {
      if j < |ps| { assert ps1[j] == ps[j]; }
    }
    AddToAbsentPeer(ps1, "", socket, rtc, isSender, now2);
  }

  // ---------------------------------------------------------------------------------------
  // The server

  class SignalingServer {
    /** `isStarted`. */
    var isStarted: bool
    /** How many websocket servers `start` has created on the HTTP server. */
    var wsServers: nat
    const manager: BroadCastManager

    constructor (manager: BroadCastManager)
      ensures this.manager == manager && !isStarted && wsServers == 0
    {
      this.manager := manager;
      isStarted := false;
      wsServers := 0;
    }

    /** `start(httpServer, port, host)`: only a start that passes every check creates a
        websocket server. */
    method Start(port: PortArg, host: string) returns (o: StartOutcome)
      modifies this`wsServers
      ensures o == StartDecision(isStarted, port, host)
      ensures wsServers == old(wsServers) + (if o == Listen then 1 else 0)
    {
      if isStarted {
        return AlreadyStarted;
      }
      if port.NotNumber? || (port.Num? && port.value < 1023) {
        return PortRefused;
      }
      if host == "" {
        return HostRequired;
      }
      wsServers := wsServers + 1;
      o := Listen;
    }

    /** The `listening` handler, with the flag set as intended (see `ListenedAsWritten`):
        every later `start` is refused. */
    method OnListening()
      modifies this`isStarted
      ensures isStarted == Listened(old(isStarted))
      ensures forall port, host :: StartDecision(isStarted, port, host) == AlreadyStarted
    {
      isStarted := true;
    }

    /** The `upgrade` handler: a request without a (truthy) `peerId` makes it call `close()` on
        the raw socket of the upgrade, which has no such method, so the handler throws a
        `TypeError` and closes nothing; the websocket server's own `upgrade` listener, which
        runs first, has already accepted the connection. The handler changes no state. */
    method OnUpgrade(q: Query) returns (thrown: Option<string>)
      ensures thrown.Some? <==> QueryId(q, "peerId") == ""
      ensures thrown.Some? ==> thrown.value == UpgradeCloseError
    {
      var peerId := QueryId(q, "peerId");
      if peerId == "" {
        thrown := Some(UpgradeCloseError);
      } else {
        thrown := None;
      }
    }

    /** The copies of the owner's first-record tracks onto one viewer RTC session. */
    method CloneOnSession(rtc: RtcId, tracks: seq<TrackId>)
      modifies manager.net`trace
      ensures manager.net.trace == old(manager.net.trace) + TrackClones(rtc, tracks)
    {
      var i := 0;
      while i < |tracks|
        invariant 0 <= i <= |tracks|
        invariant manager.net.trace == old(manager.net.trace) + TrackClones(rtc, tracks[..i])
      {
        manager.net.Emit(TrackCloneAdded(rtc, tracks[i]));
        assert TrackClones(rtc, tracks[..i + 1]) == TrackClones(rtc, tracks[..i]) + [TrackCloneAdded(rtc, tracks[i])];
        i := i + 1;
      }
      assert tracks[..|tracks|] == tracks;
    }

    /** The outer loop of `bindTracksToViewer`, over the viewer's records. */
    method CloneOnRecords(cs: seq<Connection>, tracks: seq<TrackId>)
      modifies manager.net`trace
      ensures manager.net.trace == old(manager.net.trace) + CloneSends(cs, tracks)
    {
      var i := 0;
      while i < |cs|
        invariant 0 <= i <= |cs|
        invariant manager.net.trace == old(manager.net.trace) + CloneSends(cs[..i], tracks)
      {
        CloneOnSession(cs[i].rtc, tracks);
        assert cs[..i + 1][..i] == cs[..i];
        i := i + 1;
      }
      assert cs[..|cs|] == cs;
    }

    /** `bindTracksToViewer(ownerId, viewerId)`. */
    method BindTracksToViewer(ownerId: PeerId, viewerId: PeerId)
      modifies manager.net`trace
      ensures manager.View() == old(manager.View())
      ensures manager.net.trace == old(manager.net.trace) + BindTracksEffects(old(manager.View()), ownerId, viewerId)
    {
      var owner := manager.GetPeer(ownerId, Some(true));
      var viewer := manager.GetPeer(viewerId, Some(false));
      if viewer.Some? && owner.Some? {
        if |owner.value.connections| > 0 {
          var first := owner.value.connections[0];
          if |viewer.value.connections| > 0 {
            CloneOnRecords(viewer.value.connections, first.tracks);
          }
        }
      }
    }

    /** `getOrCreatePeer` without the binding step: the (id, role) peer is looked up or
        created (reading the clock `now1` for a falsy id) and then gets the new record
        (`addPeerConnection` reads the clock again, as `now2`). */
    method AttachConnection(peerId: PeerId, socket: SocketId, rtc: RtcId, isSender: bool, now1: PeerId, now2: PeerId)
      requires manager.Valid()
      modifies manager`peers, manager.peers
      ensures manager.Valid()
      ensures manager.View() == Registry.AddPeerConnection(Registry.CreatePeer(old(manager.View()), peerId, isSender, now1).0,
                                                           peerId, socket, rtc, isSender, now2)
    {
      var found := manager.GetPeer(peerId, Some(isSender));
      if found.None? {
        var p := manager.CreatePeer(peerId, isSender, now1);
      }
      manager.AddPeerConnection(peerId, socket, rtc, isSender, now2);
    }

    /** `onWSNewConnection` and `getOrCreatePeer`: the connection is attached to the (id,
        role) peer named by the query and, for a viewer, the tracks of the publisher named by
        `broadCastOwnerId` are bound onto it. */
    method OnNewConnection(q: Query, socket: SocketId, rtc: RtcId, now1: PeerId, now2: PeerId)
      requires manager.Valid()
      modifies manager`peers, manager.peers, manager.net`trace
      ensures manager.Valid()
      ensures manager.View() == Registry.AddPeerConnection(
        Registry.CreatePeer(old(manager.View()), QueryId(q, "peerId"), IsSenderFlag(q), now1).0,
        QueryId(q, "peerId"), socket, rtc, IsSenderFlag(q), now2)
      ensures manager.net.trace == old(manager.net.trace) +
        (if IsSenderFlag(q) then [] else BindTracksEffects(manager.View(), QueryId(q, "broadCastOwnerId"), QueryId(q, "peerId")))
    {
      var peerId := QueryId(q, "peerId");
      var isSender := IsSenderFlag(q);
      var ownerId := QueryId(q, "broadCastOwnerId");
      AttachConnection(peerId, socket, rtc, isSender, now1, now2);
      if !isSender {
        BindTracksToViewer(ownerId, peerId);
      }
    }

    /** `handleRtcMessages(peerId, sdp, candidate, socket, isSender)`, with the answer the
        engine creates given as `answer`. */
    method HandleRtcMessages(peerId: PeerId, socket: SocketId, isSender: bool, candidate: Option<IceCandidate>,
                             sdp: Option<Description>, answer: Description)
      modifies manager.net`trace
      ensures manager.net.trace == old(manager.net.trace) +
        RtcEffects(old(manager.GetPeerRtcConnection(peerId, socket, isSender)), socket, candidate, sdp, answer)
    {
      var rtc := manager.GetPeerRtcConnection(peerId, socket, isSender);
      if rtc.Some? {
        ApplyRtcMessage(rtc.value, socket, candidate, sdp, answer);
      }
    }

    /** The engine calls and the reply of `handleRtcMessages` once the session is found. */
    method ApplyRtcMessage(rtc: RtcId, socket: SocketId, candidate: Option<IceCandidate>,
                           sdp: Option<Description>, answer: Description)
      modifies manager.net`trace
      ensures manager.net.trace == old(manager.net.trace) + RtcEffects(Some(rtc), socket, candidate, sdp, answer)
    {
      if candidate.Some? {
        manager.net.Emit(RemoteCandidateAdded(rtc, candidate.value));
      } else if sdp.Some? {
        manager.net.Emit(RemoteDescriptionSet(rtc, sdp.value));
        manager.net.Emit(LocalAnswerSet(rtc, answer));
        manager.net.Emit(SocketSend(socket, SdpMsg(answer)));
      }
    }

    /** The subscribe branch of `handleGenericMessages`: `subscribe`, then one reply. */
    method ViewRequested(sub: Subscriber, ownerId: PeerId)
      requires manager.Valid()
      modifies manager.peers, manager.net`trace
      ensures manager.Valid()
      ensures AddEdges(old(manager.View()), sub, ownerId).Failure? ==> manager.View() == old(manager.View())
      ensures AddEdges(old(manager.View()), sub, ownerId).Success? ==>
        manager.View() == AddEdges(old(manager.View()), sub, ownerId).value
      ensures manager.net.trace == old(manager.net.trace) +
        SubscribeInfo(old(manager.View()), sub, ownerId, manager.net.openSockets, manager.net.connectedRtcs) +
        [SocketSend(sub.socket, ReadyReply(Thrown(old(manager.View()), sub, ownerId), ownerId))]
    {
      var thrown := manager.Subscribe(sub, ownerId);
      Reply(sub.socket, ownerId, thrown);
    }

    /** The reply to a view request, on the requesting socket. */
    method Reply(socket: SocketId, ownerId: PeerId, thrown: Option<string>)
      modifies manager.net`trace
      requires manager.Valid()
      ensures manager.Valid()
      ensures manager.View() == old(manager.View())
      ensures manager.net.trace == old(manager.net.trace) + [SocketSend(socket, ReadyReply(thrown, ownerId))]
    {
      manager.net.Emit(SocketSend(socket, ReadyReply(thrown, ownerId)));
    }

    /** `handleGenericMessages(dataObj, peerId, socket)`: the subscriber is `{id: peerId,
        socket}`. */
    method HandleGenericMessages(view: Option<ViewRequest>, peerId: PeerId, socket: SocketId)
      requires manager.Valid()
      modifies manager.peers, manager.net`trace
      ensures manager.Valid()
      ensures manager.View() == GenericRegistry(old(manager.View()), view, Subscriber(peerId, socket))
      ensures manager.net.trace == old(manager.net.trace) +
        GenericSends(old(manager.View()), view, Subscriber(peerId, socket), manager.net.openSockets, manager.net.connectedRtcs)
    {
      if view.Some? {
        var sub := Subscriber(peerId, socket);
        var ownerId := view.value.ownerId;
        ghost var before, open, connected := manager.View(), manager.net.openSockets, manager.net.connectedRtcs;
        if view.value.leave {
          assert GenericRegistry(before, view, sub) == RemoveEdges(before, sub, ownerId);
          assert GenericSends(before, view, sub, open, connected) == UnsubscribeSends(before, sub, ownerId, open, connected);
          manager.UnSubscribe(sub, ownerId);
        } else {
          assert GenericSends(before, view, sub, open, connected) ==
            SubscribeInfo(before, sub, ownerId, open, connected) + [SocketSend(socket, ReadyReply(Thrown(before, sub, ownerId), ownerId))];
          ViewRequested(sub, ownerId);
        }
      }
    }

    /** `onSocketMessage(peerId, socket, request, msg, isSender)`: the message is routed by
        `RouteOf`; errors are caught, so nothing escapes. */
    method OnSocketMessage(peerId: PeerId, socket: SocketId, isSender: bool, m: Inbound, answer: Description)
      requires manager.Valid()
      modifies manager.peers, manager.net`trace
      ensures manager.Valid()
      ensures RouteOf(m) != GenericPath ==> manager.View() == old(manager.View())
      ensures RouteOf(m) == Dropped ==> manager.net.trace == old(manager.net.trace)
      ensures RouteOf(m) == RtcPath ==>
        manager.net.trace == old(manager.net.trace) + RtcEffects(old(manager.GetPeerRtcConnection(peerId, socket, isSender)), socket, m.candidate, m.sdp, answer)
      ensures RouteOf(m) == GenericPath ==>
        manager.View() == GenericRegistry(old(manager.View()), m.view, Subscriber(peerId, socket)) &&
        manager.net.trace == old(manager.net.trace) +
          GenericSends(old(manager.View()), m.view, Subscriber(peerId, socket), manager.net.openSockets, manager.net.connectedRtcs)
    {
      if m.Parsed? {
        if m.candidate.Some? || m.sdp.Some? {
          HandleRtcMessages(peerId, socket, isSender, m.candidate, m.sdp, answer);
        } else {
          HandleGenericMessages(m.view, peerId, socket);
        }
      }
    }

    /** A publisher whose session or socket ends announces the end of its broadcast. */
    method AnnounceEnd(peerId: PeerId, isSender: bool)
      modifies manager.net`trace
      requires manager.Valid()
      ensures manager.Valid()
      ensures manager.View() == old(manager.View())
      ensures manager.net.trace == old(manager.net.trace) +
        (if isSender then NotifyEndedEffects(old(manager.View()), peerId, manager.net.openSockets) else [])
    {
      if isSender {
        manager.NotifyBroadcastEndedFor(peerId);
      }
    }

    /** `destroyPeerConnection` as the dispatcher calls it: always with the event's socket,
        and with the session or the role flag as the second selector. */
    method DestroyRecord(peerId: PeerId, socket: SocketId, rtc: Val)
      requires manager.Valid()
      modifies manager`peers, manager.peers, manager.net`trace
      ensures manager.Valid()
      ensures manager.View() == Registry.DestroyPeerConnection(old(manager.View()), peerId, SocketRef(socket), rtc)
      ensures manager.net.trace == old(manager.net.trace) + DestroyPeerConnectionEffects(old(manager.View()), peerId, SocketRef(socket), rtc)
    {
      manager.DestroyPeerConnection(peerId, SocketRef(socket), rtc);
    }

    /** The acting branch of `onRtcConnectionStateChange`: the end of the broadcast is
        announced (for a publisher) and the record of this socket and session is destroyed. */
    method EndSession(peerId: PeerId, socket: SocketId, rtc: RtcId, isSender: bool)
      requires manager.Valid()
      modifies manager`peers, manager.peers, manager.net`trace
      ensures manager.Valid()
      ensures manager.View() == Registry.DestroyPeerConnection(old(manager.View()), peerId, SocketRef(socket), RtcRef(rtc))
      ensures manager.net.trace == old(manager.net.trace) +
        (if isSender then NotifyEndedEffects(old(manager.View()), peerId, manager.net.openSockets) else []) +
        DestroyPeerConnectionEffects(old(manager.View()), peerId, SocketRef(socket), RtcRef(rtc))
    {
      AnnounceEnd(peerId, isSender);
      DestroyRecord(peerId, socket, RtcRef(rtc));
    }

    /** `onRtcConnectionStateChange(peerId, socket, peer_connection, isSender)`: only a
        state that ends the session acts. */
    method OnRtcConnectionStateChange(peerId: PeerId, socket: SocketId, rtc: RtcId, isSender: bool, state: RtcState)
      requires manager.Valid()
      modifies manager`peers, manager.peers, manager.net`trace
      ensures manager.Valid()
      ensures !EndsSession(state) ==> manager.View() == old(manager.View()) && manager.net.trace == old(manager.net.trace)
      ensures EndsSession(state) ==>
        manager.View() == Registry.DestroyPeerConnection(old(manager.View()), peerId, SocketRef(socket), RtcRef(rtc)) &&
        manager.net.trace == old(manager.net.trace) +
          (if isSender then NotifyEndedEffects(old(manager.View()), peerId, manager.net.openSockets) else []) +
          DestroyPeerConnectionEffects(old(manager.View()), peerId, SocketRef(socket), RtcRef(rtc))
    {
      if EndsSession(state) {
        EndSession(peerId, socket, rtc, isSender);
      }
    }

    /** The sweep and the destruction that follow a socket close. */
    method SweepThenDestroy(peerId: PeerId, socket: SocketId, isSender: bool)
      requires manager.Valid()
      modifies manager`peers, manager.peers, manager.net`trace
      ensures manager.Valid()
      ensures manager.View() == Registry.DestroyPeerConnection(old(manager.View()), peerId, SocketRef(socket), Flag(isSender))
      ensures manager.net.trace == old(manager.net.trace) +
        DestroyPeerConnectionEffects(old(manager.View()), peerId, SocketRef(socket), Flag(isSender))
    {
      manager.CleanUpPeersReceivers();
      DestroyRecord(peerId, socket, Flag(isSender));
    }

    /** The acting branch of `onSocketClose`: the end of the broadcast is announced (for a
        publisher), the (no-op) sweep runs, and the record is destroyed with `isSender` as
        the RTC selector. */
    method SocketClosed(peerId: PeerId, socket: SocketId, isSender: bool)
      requires manager.Valid()
      modifies manager`peers, manager.peers, manager.net`trace
      ensures manager.Valid()
      ensures manager.View() == Registry.DestroyPeerConnection(old(manager.View()), peerId, SocketRef(socket), Flag(isSender))
      ensures manager.net.trace == old(manager.net.trace) +
        (if isSender then NotifyEndedEffects(old(manager.View()), peerId, manager.net.openSockets) else []) +
        DestroyPeerConnectionEffects(old(manager.View()), peerId, SocketRef(socket), Flag(isSender))
    {
      AnnounceEnd(peerId, isSender);
      SweepThenDestroy(peerId, socket, isSender);
    }

    /** `onSocketClose(socket, code, reason, peerId, isSender)`: nothing happens unless the
        (id, role) peer exists. */
    method OnSocketClose(peerId: PeerId, socket: SocketId, isSender: bool)
      requires manager.Valid()
      modifies manager`peers, manager.peers, manager.net`trace
      ensures manager.Valid()
      ensures FindPeer(old(manager.View()), peerId, Some(isSender)).None? ==>
        manager.View() == old(manager.View()) && manager.net.trace == old(manager.net.trace)
      ensures FindPeer(old(manager.View()), peerId, Some(isSender)).Some? ==>
        manager.View() == Registry.DestroyPeerConnection(old(manager.View()), peerId, SocketRef(socket), Flag(isSender)) &&
        manager.net.trace == old(manager.net.trace) +
          (if isSender then NotifyEndedEffects(old(manager.View()), peerId, manager.net.openSockets) else []) +
          DestroyPeerConnectionEffects(old(manager.View()), peerId, SocketRef(socket), Flag(isSender))
    {
      var peer := manager.GetPeer(peerId, Some(isSender));
      if peer.Some? {
        SocketClosed(peerId, socket, isSender);
      }
    }

    /** `onIceCandidate(evt, socket)`: a local candidate is relayed to the peer's socket. */
    method OnIceCandidate(socket: SocketId, candidate: Option<IceCandidate>)
      modifies manager.net`trace
      ensures manager.net.trace == old(manager.net.trace) +
        (if candidate.Some? then [SocketSend(socket, CandidateMsg(candidate.value))] else [])
    {
      if candidate.Some? {
        manager.net.Emit(SocketSend(socket, CandidateMsg(candidate.value)));
      }
    }

    /** `onAddTrack(peerId, socket, evt)`. */
    method OnAddTrack(peerId: PeerId, socket: SocketId, track: TrackId)
      requires manager.Valid()
      modifies manager.peers
      ensures manager.Valid()
      ensures manager.View() == Registry.AddPeerTrack(old(manager.View()), peerId, socket, track)
    {
      manager.AddPeerTrack(peerId, socket, track);
    }

    /** `onDataChannel(evt, peerId, socket)`: the channel is recorded before anything else. */
    method OnDataChannel(peerId: PeerId, socket: SocketId, channel: ChannelId)
      requires manager.Valid()
      modifies manager.peers
      ensures manager.Valid()
      ensures manager.View() == Registry.AddPeerDataChannel(old(manager.View()), peerId, socket, channel)
    {
      manager.AddPeerDataChannel(peerId, socket, channel);
    }

    /** The data channel's `onmessage` handler: a truthy parsed payload from a peer with a
        truthy id goes to the peer's entries and back to the peer's own channels. */
    method OnDataChannelMessage(peerId: PeerId, data: Option<Payload>)
      modifies manager.net`trace
      ensures manager.net.trace == old(manager.net.trace) +
        BroadcastEffects(old(manager.View()), peerId, data, true, manager.net.openChannels)
    {
      if data.Some? && peerId != "" {
        manager.BroadCastMessageToReceivers(peerId, data, true);
      }
    }
  }
}
