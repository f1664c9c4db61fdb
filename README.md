# Live-broadcast broker, modelled in Dafny

This project models the server core of a WebRTC live-streaming broker. Publishers ("senders") and
viewers open a websocket to the broker. The broker pairs each websocket with a server-side RTC
session and keeps a registry of peers. A peer is one (id, role) participant. It holds an ordered
list of connection records (socket, RTC session, tracks, data channels) and a `receivers` list.
The `receivers` list is overloaded:

- on a publisher, it holds one entry per subscribed viewer;
- on a viewer, it holds one entry per publisher record it is bound to.

On top of the registry the broker does four things:

- it subscribes and unsubscribes viewers;
- it reports the viewer count to the publisher;
- it announces the end of a broadcast;
- it fans data-channel messages out to the subscribers.

The signaling dispatcher turns websocket and RTC events into calls on the broker. It validates
the start parameters, reads the query flags of a new connection, and routes each inbound message
to the RTC path (`sdp`/`candidate`) or to the generic path (`view` requests).

Files:

- `values.dfy`: handles (`SocketId`, `RtcId`, `ChannelId`, `TrackId`), records, the JavaScript
  values a selector can receive (`Val`, with `Truthy`), outbound messages and outside-world
  effects.
- `network.dfy`: the outside world as one object. It holds the sets of open sockets, connected or
  ready RTC sessions and open channels, plus the `trace` of effects that the code appends to.
- `lists.dfy`: `findIndex`, `splice(k, 1)`, `filter` and one-argument `splice(start)`.
- `peer.dfy`: the `Peer` class. It covers the selector logic of `_buildConnectionFilter` and
  `addConnection`, `destroyConnection`, `getPeerConnection` and `end`.
- `peer_factory.dfy`: `PeerFactory.create`.
- `registry.dfy`: the registry as a value (`seq<PeerState>`). It holds the pure specification of
  every registry operation and the subscription graph, with their lemmas.
- `fanout.dfy`: the pure specification of every send:
  - viewer counts;
  - end-of-broadcast notices;
  - data-channel fan-out;
  - track cloning.
- `broadcast_manager.dfy`: the `BroadCastManager` class. Its methods update the peer objects in
  place and append to the trace. Each one is proved equal to the specification function over
  `View()`, the values of its peer objects.
- `signaling.dfy`: the `SignalingServer` class, plus pure functions for start validation, query
  flags, routing and replies.

Several behaviours of the code are modelled as written, each with a lemma that shows it:

- `unSubscribe` cuts the viewer's list with `splice(indexOf(publisherPeer))`. The search is for a
  peer object among plain entries, so it yields -1, and the LAST entry is removed. See
  `UnsubscribeKeepsBindingsOfLeftPublisher` and `SubscribeUnsubscribeLeavesBindings`.
- `subscribe` does not deduplicate (`SubscribeTwiceDuplicates`).
- Entries never carry an RTC handle, because `subscribe` copies the misspelt `c.rtConnection`. So
  the sweep `cleanUpPeersReceivers` never removes anything (`CleanUpKeepsUnbound`). `Valid()`
  states this as a class invariant.
- `Peer.end()` passes each record as a socket selector and so closes nothing.
- `destroyPeerConnection` looks the peer up by id alone, whatever its role. It removes the peer
  whenever that peer is left with no records.
- `onSocketClose` passes `isSender` where an RTC session is expected. A closing publisher socket
  therefore removes no record (`PublisherSocketCloseClosesNothing`).
- A new connection without a `peerId` creates two peers (`FalsyIdCreatesTwoPeers`). The
  websocket server accepts it and runs the connection handler before the `upgrade` listener of
  the signaling server throws (see below). That exception is uncaught and ends the process, so
  these two peers are the registry at the moment the broker dies. The shipped client opens such
  a connection when its id field is empty (client-side/scripts/main.js:46).

Where the code and the written description of the system disagree, the model follows the code:

- `subscribe` with an unknown viewer does nothing, and the viewer is still told it is ready.
- `subscribe` clones no tracks; cloning happens only when a viewer connects.
- `unsubscribe` does not remove the viewer's bindings to that publisher.
- The sweep removes nothing.
- An ending RTC session triggers no sweep.
- An `sdp` message is always answered, whatever the role.
- A connection without a `peerId` is not rejected. The `upgrade` listener calls `close()` on the
  raw socket of the upgrade, which has no such method, so the listener throws a `TypeError` and
  closes nothing. The websocket server's own listener, registered first, has already accepted the
  connection. The HTTP server emits `upgrade` without catching exceptions, so the `TypeError`
  ends the process.
- A publisher whose only socket closes stays in the registry.
- A subscribe-then-unsubscribe round trip restores the registry only for a publisher with exactly
  one record.

Conventions:

- The empty string stands for every falsy id.
- Clock readings (`Date.now()`) and the answer the RTC engine creates are parameters.
- Each event handler runs as one atomic step.

## Model

| member | source | states |
|---|---|---|
| Lists.JsSplice | server-side/modules/broadcasting/broadcast-manager.js:235 | one-argument `splice(start)`: a negative start counts back from the end, and what is left is the prefix before that point |
| PeerModel.BuildConnectionFilter | server-side/modules/models/peer.js:11-20 | there is no selector exactly when neither handle is truthy; otherwise a record matches iff every truthy handle is identical to the record's |
| PeerModel.SelectedIndex | server-side/modules/models/peer.js:38-41 | the first record the selector matches; none exactly when no record matches or no selector can be built |
| PeerModel.AfterDestroy | server-side/modules/models/peer.js:37-52 | the list is unchanged when nothing is selected; otherwise exactly the first selected record is removed and the others keep their order |
| PeerModel.DestroyEffects | server-side/modules/models/peer.js:42-46 | closes the socket and then the RTC session of the first selected record, the one `AfterDestroy` removes; does nothing iff nothing is selected |
| PeerModel.Peer.constructor | server-side/modules/models/peer.js:2-7 | a new peer is a viewer with no records and no entries |
| PeerModel.Peer.AddConnection | server-side/modules/models/peer.js:27-29 | appends exactly one fresh record, with no tracks and no channels |
| PeerModel.Peer.DestroyConnection | server-side/modules/models/peer.js:37-52 | the records become `AfterDestroy` of the old ones and the trace gains exactly `DestroyEffects` |
| PeerModel.Peer.GetPeerConnection | server-side/modules/models/peer.js:56-58 | the first record the selector matches; none iff no record matches |
| PeerModel.Peer.End | server-side/modules/models/peer.js:63-70 | each record is handed over as a socket selector, so no record is closed or removed |
| PeerFactory.ResolveId | server-side/modules/models/factories/peer_factory.js:12-13 | a truthy id is kept; a falsy id is replaced by the clock reading |
| PeerFactory.Create | server-side/modules/models/factories/peer_factory.js:10-18 | a fresh peer with the resolved id, the given role, and nothing attached |
| Registry.FindPeer | server-side/modules/broadcasting/broadcast-manager.js:58-63 | the first peer with that id (and that role, when one is given); none iff there is no such peer |
| Registry.CreatePeer | server-side/modules/broadcasting/broadcast-manager.js:70-77 | an existing (id, role) peer is returned and nothing changes; otherwise exactly one empty peer with that role is appended |
| Registry.AddPeerConnectionAppendsRecord | server-side/modules/broadcasting/broadcast-manager.js:110-116 | the (id, role) peer, created first when absent, gains exactly one record at the end; no other peer changes |
| Registry.DestroyPeerConnectionTouchesFirstById | server-side/modules/broadcasting/broadcast-manager.js:127-136 | only the first peer with that id (any role) loses its selected record; it is removed when left without records; an unknown id changes nothing |
| Registry.AddThenDestroyConnection | server-side/modules/broadcasting/broadcast-manager.js:127-136 | attaching a connection and then destroying it by its own socket and session restores the registry and closes exactly that socket and session |
| Registry.RecordOfLocatesSocket | server-side/modules/broadcasting/broadcast-manager.js:181-189 | locates the first record on that socket of the first peer with that id; finds nothing iff there is no such peer or no such record |
| Registry.AddPeerTrackAppendsToRecord | server-side/modules/broadcasting/broadcast-manager.js:181-189 | the track is appended to exactly the located record and nothing else changes; nothing changes when no record is located |
| Registry.AddPeerDataChannelAppendsToRecord | server-side/modules/broadcasting/broadcast-manager.js:197-205 | the channel is appended to exactly the located record and nothing else changes; nothing changes when no record is located |
| Registry.SourceBindings | server-side/modules/broadcasting/broadcast-manager.js:265-267 | one entry per publisher record, on that record's socket, naming the publisher, with no RTC handle |
| Registry.SubscribeAddsEdges | server-side/modules/broadcasting/broadcast-manager.js:255-276 | throws iff the publisher is unknown; an unknown viewer changes nothing; otherwise one entry is appended to the publisher and one per publisher record to the viewer |
| Registry.EntryIndex | server-side/modules/broadcasting/broadcast-manager.js:236 | the first publisher entry with the subscriber's socket and id; none iff there is no such entry |
| Registry.UnsubscribeRemovesEdges | server-side/modules/broadcasting/broadcast-manager.js:228-246 | nothing changes unless both peers exist; then the publisher loses its first entry for the subscriber and the viewer loses its last entry |
| Registry.SubscribeUnsubscribeRoundTrip | server-side/modules/broadcasting/broadcast-manager.js:228-276 | for a publisher with exactly one record and no prior entry for the subscriber, subscribing and then unsubscribing restores the registry |
| Registry.SubscribeUnsubscribeLeavesBindings | server-side/modules/broadcasting/broadcast-manager.js:235 | for a publisher with two or more records, the round trip leaves the viewer one stale entry per extra record |
| Registry.UnsubscribeKeepsBindingsOfLeftPublisher | server-side/modules/broadcasting/broadcast-manager.js:235 | leaving one publisher removes the viewer's last entry even when that entry belongs to another publisher |
| Registry.SubscribeTwiceDuplicates | server-side/modules/broadcasting/broadcast-manager.js:262 | subscribing twice leaves two identical entries on the publisher |
| Registry.CleanUp | server-side/modules/broadcasting/broadcast-manager.js:302-318 | the sweep removes no peer: one swept peer per peer, in order |
| Lists.FilterSnoc | server-side/modules/broadcasting/broadcast-manager.js:306-307 | `filter` keeps order: an appended element is appended to the result exactly when it passes |
| Lists.FilterCounts | server-side/modules/broadcasting/broadcast-manager.js:306-307 | `filter` keeps multiplicity: a passing element occurs as often as in the input, any other not at all |
| Registry.CleanUpKeepsLiveEntries | server-side/modules/broadcasting/broadcast-manager.js:304-317 | each peer keeps its records, and its entries become the `filter` of the non-stale ones: in order, and each live entry as often as before |
| Registry.CleanUpIdempotent | server-side/modules/broadcasting/broadcast-manager.js:302-318 | sweeping twice is the same as sweeping once |
| Registry.CleanUpKeepsUnbound | server-side/modules/broadcasting/broadcast-manager.js:306-307 | when no entry carries an RTC handle, the sweep removes nothing |
| Registry.AddEdgesKeepsUnbound | server-side/modules/broadcasting/broadcast-manager.js:262-267 | entries created by `subscribe` carry no RTC handle |
| Registry.RemoveEdgesKeepsUnbound | server-side/modules/broadcasting/broadcast-manager.js:235-239 | `unSubscribe` creates no entry with an RTC handle |
| Fanout.SubscribeIncrementsViewerCount | server-side/modules/broadcasting/broadcast-manager.js:255-276 | a subscribe that finds the viewer raises the count by one iff the subscriber's socket is open |
| Fanout.UnsubscribeDecrementsViewerCount | server-side/modules/broadcasting/broadcast-manager.js:228-246 | unsubscribe lowers the count by one iff it removes an entry whose socket is open |
| Fanout.ViewersInfoReachesConnectedRecords | server-side/modules/broadcasting/broadcast-manager.js:288-293 | one count message per connected record, on its socket, all with the same count, and nothing else |
| Fanout.SendViewersInfoReportsCount | server-side/modules/broadcasting/broadcast-manager.js:283-295 | only a publisher is informed, on every connected record, of the number of its entries whose socket is open |
| Fanout.EndedSendsReachOpenEntries | server-side/modules/broadcasting/broadcast-manager.js:145-149 | one end notice per entry with an open socket, on that socket; every notice goes to the socket of an entry whose socket is open |
| Fanout.NotifyEndedMatchesViewerCount | server-side/modules/broadcasting/broadcast-manager.js:142-151 | nothing is sent for a non-publisher; otherwise exactly as many notices go out as the reported viewer count, each to the open socket of one of its entries, and every such socket gets one |
| Fanout.ChannelSendsReachOpen | server-side/modules/broadcasting/broadcast-manager.js:335-340 | the message goes to exactly the open channels of the list |
| Fanout.ConnectionSendsReachOpen | server-side/modules/broadcasting/broadcast-manager.js:334-341 | the message goes to exactly the open channels of the records |
| Fanout.EntrySendsReachOpen | server-side/modules/broadcasting/broadcast-manager.js:331-344 | the message goes to exactly the open channels of the peers the entries resolve to by id |
| Fanout.BroadcastReachesReceivers | server-side/modules/broadcasting/broadcast-manager.js:327-358 | nothing is sent for a falsy sender, a falsy payload or an unknown sender; otherwise the payload stamped with the sender reaches exactly the open channels of its entries' peers, plus its own channels iff `includeSelf` |
| Fanout.TrackClones | server-side/modules/signaling/signaling_server.js:250-252 | one clone per track, onto the given session, in track order |
| Fanout.CloneSendsLength | server-side/modules/signaling/signaling_server.js:247-254 | exactly one clone per (record, track) pair |
| Fanout.CloneSendsSound | server-side/modules/signaling/signaling_server.js:247-254 | only listed tracks are cloned, and only onto the records' sessions |
| Fanout.CloneSendsComplete | server-side/modules/signaling/signaling_server.js:247-254 | every track is cloned onto every record's session |
| Fanout.TrackClonesCover | server-side/modules/signaling/signaling_server.js:250-252 | every listed track is cloned onto the session |
| Fanout.BindTracksClonesFirstRecord | server-side/modules/signaling/signaling_server.js:237-259 | tracks are bound only for a known publisher with records and a known viewer; then each viewer session gets the tracks of the publisher's first record only |
| BroadcastManager.WithoutSocket | server-side/modules/broadcasting/broadcast-manager.js:93-99 | a known socket loses exactly one occurrence; an unknown socket leaves the list as it is |
| BroadcastManager.GenericRoundTrip | server-side/modules/broadcasting/broadcast-manager.js:83-99 | registering a new socket and then destroying it restores the list |
| BroadcastManager.BroadCastManager.constructor | server-side/modules/broadcasting/broadcast-manager.js:21-22 | the manager starts with no peers and no generic connections |
| BroadcastManager.BroadCastManager.GetPeer | server-side/modules/broadcasting/broadcast-manager.js:58-63 | the peer object at the position `FindPeer` gives, with that id and role |
| BroadcastManager.BroadCastManager.CreatePeer | server-side/modules/broadcasting/broadcast-manager.js:70-77 | the peers become `Registry.CreatePeer` of the old ones, and the returned object is the one at the returned position |
| BroadcastManager.BroadCastManager.AddPeerConnection | server-side/modules/broadcasting/broadcast-manager.js:110-116 | the peers become `Registry.AddPeerConnection` of the old ones |
| BroadcastManager.BroadCastManager.DestroyPeer | server-side/modules/broadcasting/broadcast-manager.js:211-219 | a registered peer is removed from its position and nothing is closed; an unregistered one changes nothing |
| BroadcastManager.BroadCastManager.DestroyPeerConnection | server-side/modules/broadcasting/broadcast-manager.js:127-136 | the peers become `Registry.DestroyPeerConnection` of the old ones and the trace gains exactly its effects |
| BroadcastManager.BroadCastManager.NotifyBroadcastEndedFor | server-side/modules/broadcasting/broadcast-manager.js:142-151 | the trace gains exactly `NotifyEndedEffects` |
| BroadcastManager.BroadCastManager.SendEnded | server-side/modules/broadcasting/broadcast-manager.js:145-149 | the loop sends exactly `EndedSends` |
| BroadcastManager.BroadCastManager.GetPeerRtcConnection | server-side/modules/broadcasting/broadcast-manager.js:163-171 | the session of a record on that socket of the (id, role) peer; none iff there is no such peer or record |
| BroadcastManager.BroadCastManager.AddPeerTrack | server-side/modules/broadcasting/broadcast-manager.js:181-189 | the peers become `Registry.AddPeerTrack` of the old ones |
| BroadcastManager.BroadCastManager.AddPeerDataChannel | server-side/modules/broadcasting/broadcast-manager.js:197-205 | the peers become `Registry.AddPeerDataChannel` of the old ones |
| BroadcastManager.BroadCastManager.CleanUpPeersReceivers | server-side/modules/broadcasting/broadcast-manager.js:302-318 | the peers become `CleanUp` of the old ones, which in a valid registry is no change |
| BroadcastManager.BroadCastManager.SendViewersInfo | server-side/modules/broadcasting/broadcast-manager.js:283-295 | the trace gains exactly `SendViewersInfoEffects` |
| BroadcastManager.BroadCastManager.SendCount | server-side/modules/broadcasting/broadcast-manager.js:288-293 | the loop sends exactly `ViewersInfoSends` |
| BroadcastManager.BroadCastManager.PushBindings | server-side/modules/broadcasting/broadcast-manager.js:265-267 | the viewer gains exactly `SourceBindings`; no other peer changes |
| BroadcastManager.BroadCastManager.LinkEdges | server-side/modules/broadcasting/broadcast-manager.js:262-267 | the peers become `AddEdges` of the old ones |
| BroadcastManager.BroadCastManager.Subscribe | server-side/modules/broadcasting/broadcast-manager.js:255-276 | throws the not-found text, changing nothing, iff the publisher is unknown; otherwise the peers become `AddEdges` and the count is reported when the viewer exists |
| BroadcastManager.BroadCastManager.UnlinkEdges | server-side/modules/broadcasting/broadcast-manager.js:235-239 | the peers become `RemoveEdges` of the old ones |
| BroadcastManager.BroadCastManager.UnSubscribe | server-side/modules/broadcasting/broadcast-manager.js:228-246 | the peers become `RemoveEdges`; the count is reported iff both peers exist |
| BroadcastManager.BroadCastManager.SendOnChannels | server-side/modules/broadcasting/broadcast-manager.js:335-340 | the loop sends exactly `ChannelSends` |
| BroadcastManager.BroadCastManager.SendOnConnections | server-side/modules/broadcasting/broadcast-manager.js:347-354 | the loop sends exactly `ConnectionSends` |
| BroadcastManager.BroadCastManager.SendToEntry | server-side/modules/broadcasting/broadcast-manager.js:332-342 | one entry's peer, resolved by id, gets exactly `EntrySend` |
| BroadcastManager.BroadCastManager.SendData | server-side/modules/broadcasting/broadcast-manager.js:331-354 | the entries' sends, then the sender's own channels when `includeSelf` |
| BroadcastManager.BroadCastManager.SendToEntries | server-side/modules/broadcasting/broadcast-manager.js:331-344 | the loop sends exactly `EntrySends` |
| BroadcastManager.BroadCastManager.BroadCastMessageToReceivers | server-side/modules/broadcasting/broadcast-manager.js:327-358 | the trace gains exactly `BroadcastEffects` |
| BroadcastManager.BroadCastManager.CreateGenericConnection | server-side/modules/broadcasting/broadcast-manager.js:83-87 | the socket is appended to the generic list |
| BroadcastManager.BroadCastManager.DestroyGenericConnection | server-side/modules/broadcasting/broadcast-manager.js:93-99 | a registered socket is closed and its first occurrence removed; an unknown socket changes nothing |
| Signaling.StartDecision | server-side/modules/signaling/signaling_server.js:61-68 | refused iff already started, or the port is not a number or is below 1023, or the host is falsy, checked in that order |
| Signaling.StartPortBoundary | server-side/modules/signaling/signaling_server.js:64-66 | port 1023 and `NaN` are accepted; 1022 and non-numbers are refused |
| Signaling.ListenedAsWritten | server-side/modules/signaling/signaling_server.js:128-131 | as written, the `listening` handler does not return: it throws a `ReferenceError` |
| Signaling.ListeningNeverSetsFlagAsWritten | server-side/modules/signaling/signaling_server.js:128-131 | as written, no call of the handler ends with the flag set, while the intended handler always sets it |
| Signaling.Listened | server-side/modules/signaling/signaling_server.js:128-131 | as intended, the `listening` handler sets the flag |
| Signaling.RestartRefusedAfterListening | server-side/modules/signaling/signaling_server.js:61-62 | once the flag is set, every later `start` is refused |
| Signaling.QueryId | server-side/modules/signaling/signaling_server.js:111 | truthy iff the key is present with a non-empty value, and then it is that value |
| Signaling.IsSenderOnlyForTrue | server-side/modules/signaling/signaling_server.js:112 | only the exact string `"true"` makes a publisher |
| Signaling.RouteOf | server-side/modules/signaling/signaling_server.js:161-179 | the RTC path iff `candidate` or `sdp` is truthy; the generic path iff both are falsy; dropped iff the message does not parse or is falsy |
| Signaling.RtcMessageEffects | server-side/modules/signaling/signaling_server.js:264-282 | no session means no effect; a candidate takes precedence; an sdp sets the remote, then the local description, and gets exactly one answer on the socket |
| Signaling.SubscribeSendsOnlyCounts | server-side/modules/signaling/signaling_server.js:395-412 | `subscribe` sends only viewer counts and throws iff the publisher is unknown, when it sends and changes nothing |
| Signaling.UnsubscribeSendsOnlyCounts | server-side/modules/signaling/signaling_server.js:381-391 | `unSubscribe` sends only viewer counts |
| Signaling.GenericRepliesOnce | server-side/modules/signaling/signaling_server.js:373-418 | no `view` means no change; a leave is never answered; a join is answered exactly once, last, ready iff the publisher exists |
| Signaling.PublisherSocketCloseClosesNothing | server-side/modules/signaling/signaling_server.js:203 | a publisher's socket close removes or closes no record, and leaves a peer with records unchanged |
| Signaling.TruthyIdAttachesOnce | server-side/modules/signaling/signaling_server.js:216-225 | with a truthy id, lookup-or-create followed by `addPeerConnection` is one `addPeerConnection`, adding at most one peer |
| Signaling.AddToAbsentPeer | server-side/modules/broadcasting/broadcast-manager.js:110-116 | for an absent (id, role) peer, `addPeerConnection` appends one peer holding only the new record |
| Signaling.FalsyIdCreatesTwoPeers | server-side/modules/signaling/signaling_server.js:216-225 | without an id, an empty peer is left behind and a second peer gets the record |
| Signaling.SignalingServer.constructor | server-side/modules/signaling/signaling_server.js:42-43 | a new server is not started and has created no websocket server |
| Signaling.SignalingServer.Start | server-side/modules/signaling/signaling_server.js:52-87 | the outcome is `StartDecision`, and a websocket server is created iff the outcome is `Listen` |
| Signaling.SignalingServer.OnListening | server-side/modules/signaling/signaling_server.js:128-131 | as intended (see `ListenedAsWritten`), the flag becomes `Listened`, after which every `start` is refused |
| Signaling.SignalingServer.OnUpgrade | server-side/modules/signaling/signaling_server.js:78-84 | the handler throws a `TypeError` iff the query has no truthy `peerId`; it closes nothing and changes no state |
| Signaling.SignalingServer.CloneOnSession | server-side/modules/signaling/signaling_server.js:250-252 | the loop emits exactly `TrackClones` |
| Signaling.SignalingServer.CloneOnRecords | server-side/modules/signaling/signaling_server.js:247-254 | the loop emits exactly `CloneSends` |
| Signaling.SignalingServer.BindTracksToViewer | server-side/modules/signaling/signaling_server.js:237-259 | the trace gains exactly `BindTracksEffects` and the registry does not change |
| Signaling.SignalingServer.AttachConnection | server-side/modules/signaling/signaling_server.js:216-225 | the peers become lookup-or-create followed by `addPeerConnection` |
| Signaling.SignalingServer.OnNewConnection | server-side/modules/signaling/signaling_server.js:102-125 | the query's peer gets the record, and a viewer then gets the owner's tracks bound |
| Signaling.SignalingServer.HandleRtcMessages | server-side/modules/signaling/signaling_server.js:264-282 | the trace gains exactly `RtcEffects` for the session the lookup finds |
| Signaling.SignalingServer.ApplyRtcMessage | server-side/modules/signaling/signaling_server.js:267-280 | the engine calls and the reply for a found session |
| Signaling.SignalingServer.ViewRequested | server-side/modules/signaling/signaling_server.js:395-412 | the peers become `AddEdges` on success and stay unchanged on failure; the sends of `subscribe` are followed by one reply |
| Signaling.SignalingServer.Reply | server-side/modules/signaling/signaling_server.js:402-411 | exactly one ready or not-ready message on the requesting socket |
| Signaling.SignalingServer.HandleGenericMessages | server-side/modules/signaling/signaling_server.js:373-418 | the peers and the trace follow `GenericRegistry` and `GenericSends` |
| Signaling.SignalingServer.OnSocketMessage | server-side/modules/signaling/signaling_server.js:161-179 | dropped messages change nothing; RTC messages change no peer; each path has exactly its effects |
| Signaling.SignalingServer.AnnounceEnd | server-side/modules/signaling/signaling_server.js:195-198 | a publisher's viewers are told the broadcast ended; a viewer sends nothing |
| Signaling.SignalingServer.DestroyRecord | server-side/modules/signaling/signaling_server.js:297 | `destroyPeerConnection` with the event's socket |
| Signaling.SignalingServer.EndSession | server-side/modules/signaling/signaling_server.js:292-298 | the end notice (for a publisher), then the record of this socket and session is destroyed |
| Signaling.SignalingServer.OnRtcConnectionStateChange | server-side/modules/signaling/signaling_server.js:287-300 | only disconnected, failed and closed act; the others change nothing |
| Signaling.SignalingServer.SweepThenDestroy | server-side/modules/signaling/signaling_server.js:200-203 | the sweep changes nothing, then the record selected by socket and role flag is destroyed |
| Signaling.SignalingServer.SocketClosed | server-side/modules/signaling/signaling_server.js:190-206 | the end notice (for a publisher), the sweep, then destruction with the role flag as the session selector |
| Signaling.SignalingServer.OnSocketClose | server-side/modules/signaling/signaling_server.js:183-207 | nothing happens unless the (id, role) peer exists; then the end notice (for a publisher) and `destroyPeerConnection` with the role flag as the session selector |
| Signaling.SignalingServer.OnIceCandidate | server-side/modules/signaling/signaling_server.js:307-315 | a present candidate is relayed once on the socket; an absent one is not |
| Signaling.SignalingServer.OnAddTrack | server-side/modules/signaling/signaling_server.js:320-322 | the peers become `Registry.AddPeerTrack` of the old ones |
| Signaling.SignalingServer.OnDataChannel | server-side/modules/signaling/signaling_server.js:327-333 | the peers become `Registry.AddPeerDataChannel` of the old ones |
| Signaling.SignalingServer.OnDataChannelMessage | server-side/modules/signaling/signaling_server.js:354-367 | the trace gains exactly `BroadcastEffects` with self-inclusion, which is empty for a falsy payload or id |

## Left out

- Input and output are not modelled: the HTTP and websocket servers, JSON parsing and serialising,
  and logging. Inbound messages arrive already parsed (`Inbound`, with `Malformed` and `Falsy`).
  Outbound messages are the `Outbound` datatype.
- The WebRTC engine is not modelled. `createAnswer` is the `answer` parameter and the
  `connectionState` is the `state` parameter. `setRemoteDescription` and similar calls are
  recorded in the trace; their failures are not modelled.
- Asynchrony and interleaving are not modelled: each event handler runs as one atomic step.
- The sets of open sockets, connected or ready RTC sessions and open channels are inputs. A close
  recorded in the trace does not update them, because the model does not follow the engine's
  state machine.
- `Date.now()` is a parameter (`now`, `now1`, `now2`) and is never the empty string in the lemmas
  that need it.
- `getPeers`, `init`, `start` of the manager, `registerWSServerEvents`, `registerSocketEvents`,
  `onWSError`, `Peer.toString` and the data channel's `onerror`/`onopen`/`onclose` are not
  modelled. They only register handlers, log or expose a list; the handlers themselves are
  modelled as methods.
- `onDataChannel` checks `!data_channel` after recording the channel. In the model the channel
  always exists.
- `bindTracksToViewer` checks `if (receiverRTCConnection)`. In the model every record has a
  session.
- Object identity of entries is not modelled. `subscribe` pushes the subscriber object itself,
  and the sweep removes entries by identity with `findIndex` and `splice`. Entries are values
  here, and the sweep is a filter. Nothing mutates an entry after it is pushed, and every stale
  entry is removed, so the outcome is the same.
- `broadCastMessageToReceivers` stamps `senderId` into whatever the payload parses to. This is
  modelled as the `Data(payload, senderId)` message, which always carries the stamp. For a truthy
  primitive payload (a number, a string, `true`) the code's assignment is silently lost and the
  message goes out unstamped; the model does not capture that.
- Ids are compared with `==` as strings. A missing owner id is the empty string, so the text
  `subscribe` throws shows "" where the code would print `undefined`.
- Exceptions thrown by event listeners are modelled as results (`Signaling.ListenedAsWritten`,
  `Signaling.SignalingServer.OnUpgrade`). What Node does with them afterwards is not modelled.
  Neither exception is caught: the `ReferenceError` of the `listening` listener and the
  `TypeError` of the `upgrade` listener each end the process.
- Signaling.SignalingServer.Start: on an HTTP server that is not yet bound, `start` throws a
  `TypeError` while logging the websocket server's address, since that address is `null`
  (server-side/modules/signaling/signaling_server.js:36-37). The throw comes after the websocket
  server is created and before any handler is registered. The manager's `start` catches it and
  logs it. The model does not capture this: `Start` always registers.
- Signaling.QueryId: a key repeated in the query (`?peerId=a&peerId=b`) parses to an array, which
  is truthy and is not `"true"`. The `map<string, string>` query cannot express it.
- PeerModel.Peer.GetPeerConnection: requires a truthy handle. Without one `find` receives `null`
  and throws, and no caller does that.
- Signaling.SignalingServer.OnNewConnection: `onconnectionstatechange` receives `peer.isSender`
  of the looked-up peer. This always equals the query flag, so the model passes the flag.
- BroadcastManager.BroadCastManager.CreateGenericConnection: the created `{socket}` record is not
  returned, because no caller uses it.

## Findings

| source | as written | input that shows it | evidently intended | confidence | as-written member | corrected member |
|---|---|---|---|---|---|---|
| server-side/modules/signaling/signaling_server.js:128-131 | the `listening` handler assigns `_this.isStarted`. `_this` is declared only inside `start` (line 56), so the handler throws a `ReferenceError` before the assignment. The exception leaves the event emitter uncaught and ends the process, and the flag is never set. The defect is latent in the shipped wiring: server-side/live.js:13-18 calls `start` inside the HTTP server's `listen` callback, when the server is already listening, so the event does not reach the handler | `server.listen(8080)` without a host, then `start(server, 8080, "localhost")` in the same tick. The bind is synchronous, so `start` gets past its address log. `listening` is emitted on the next tick, and the websocket server forwards it to the handler, which throws | the handler sets `isStarted`, so every later `start` is refused with the "already started" warning | not executed; high | Signaling.ListeningNeverSetsFlagAsWritten | Signaling.RestartRefusedAfterListening |
