/** The world outside the broker: the observed ready-states of sockets, RTC sessions and
    data channels, and the trace of every call the broker makes on them. */
module Network {
  import opened Values

  class Network {
    /** Sockets whose `readyState` equals `OPEN`. */
    var openSockets: set<SocketId>
    /** RTC sessions whose `connectionState` is `'connected'`. */
    var connectedRtcs: set<RtcId>
    /** RTC sessions whose `readyState` equals their `OPEN` constant (read by the cleanup sweep). */
    var readyRtcs: set<RtcId>
    /** Data channels whose `readyState` is `"open"`. */
    var openChannels: set<ChannelId>
    /** Every send, close and engine call, oldest first. */
    var trace: seq<Effect>

    constructor (openSockets: set<SocketId>, connectedRtcs: set<RtcId>, readyRtcs: set<RtcId>, openChannels: set<ChannelId>)
      ensures this.openSockets == openSockets && this.connectedRtcs == connectedRtcs
      ensures this.readyRtcs == readyRtcs && this.openChannels == openChannels
      ensures trace == []
    {
      this.openSockets := openSockets;
      this.connectedRtcs := connectedRtcs;
      this.readyRtcs := readyRtcs;
      this.openChannels := openChannels;
      trace := [];
    }

    /** Records one call on an external object. */
    method Emit(e: Effect)
      modifies this`trace
      ensures trace == old(trace) + [e]
    {
      trace := trace + [e];
    }
  }
}
