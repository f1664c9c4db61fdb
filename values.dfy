/** Values shared by the broadcast broker model: identifiers, the JavaScript values that
    reach the connection selectors, connection and receiver records, and the messages and
    side effects the broker produces. */
module Values {

  datatype Option<T> = None | Some(value: T)

  /** An operation that either yields a value or throws a message string. */
  datatype Result<T> = Success(value: T) | Failure(error: string)

  /** Peer identifiers come from the `peerId` query parameter. The empty string stands for
      every falsy identifier (missing or empty). */
  type PeerId = string

  /** Opaque handles of the external objects: signaling sockets, RTC sessions, data channels
      and media tracks. */
  type SocketId = nat
  type RtcId = nat
  type ChannelId = nat
  type TrackId = nat

  /** Opaque engine and wire payloads. */
  type Description = string
  type IceCandidate = string
  type Payload = string

  /** A connection record `{socket, rtcConnection, tracks, channels}` of a peer. */
  datatype Connection = Connection(socket: SocketId, rtc: RtcId, tracks: seq<TrackId>, channels: seq<ChannelId>)

  /** An entry of a peer's `receivers` list. On a publisher it is the subscriber `{id, socket}`;
      on a viewer it is `{id: publisherId, socket}` for one publisher connection. `rtc` is the
      entry's `rtcConnection` field, the only one the cleanup sweep reads; no entry the broker
      builds carries it. */
  datatype Receiver = Receiver(id: PeerId, socket: SocketId, rtc: Option<RtcId>)

  /** The JavaScript values that callers pass as connection selectors: nothing, a boolean,
      a socket, an RTC session, or a whole connection record. */
  datatype Val = Undefined | Flag(b: bool) | SocketRef(socket: SocketId) | RtcRef(rtc: RtcId) | RecordRef(record: Connection)

  /** JavaScript truthiness of a selector value. */
  predicate Truthy(v: Val)
  {
    match v
    case Undefined => false
    case Flag(b) => b
    case _ => true
  }

  /** Messages the broker writes to a socket or a data channel (JSON on the wire). */
  datatype Outbound =
    | SdpMsg(sdp: Description)
    | CandidateMsg(candidate: IceCandidate)
    | BroadCastReady(ready: bool, message: string)
    | BroadCastEnded(ownerId: PeerId)
    | ViewersInfo(count: nat)
    | Data(payload: Payload, senderId: PeerId)

  /** Calls the broker makes on external objects, in the order it makes them. */
  datatype Effect =
    | SocketSend(socket: SocketId, msg: Outbound)
    | ChannelSend(channel: ChannelId, msg: Outbound)
    | SocketClose(closedSocket: SocketId)
    | RtcClose(closedRtc: RtcId)
    | TrackCloneAdded(target: RtcId, track: TrackId)
    | RemoteCandidateAdded(candidateRtc: RtcId, candidate: IceCandidate)
    | RemoteDescriptionSet(remoteRtc: RtcId, description: Description)
    | LocalAnswerSet(answerRtc: RtcId, answer: Description)
}
