/** A peer of the broadcast: one (id, role) participant with its ordered connection records
    and its `receivers` list. The selector logic is pure; the peer itself is updated in place. */
module PeerModel {
  import opened Values
  import opened Lists
  import opened Network

  /** The three selector shapes `_buildConnectionFilter` can build. */
  datatype Selector = Both(socket: Val, rtc: Val) | BySocket(socket: Val) | ByRtc(rtc: Val)

  /** `c.socket === v`: only the very same socket object is identical to a record's socket. */
  predicate HasSocket(c: Connection, v: Val)
  {
    v == SocketRef(c.socket)
  }

  /** `c.rtcConnection === v`. */
  predicate HasRtc(c: Connection, v: Val)
  {
    v == RtcRef(c.rtc)
  }

  predicate Matches(f: Selector, c: Connection)
  {
    match f
    case Both(s, r) => HasSocket(c, s) && HasRtc(c, r)
    case BySocket(s) => HasSocket(c, s)
    case ByRtc(r) => HasRtc(c, r)
  }

  /** `_buildConnectionFilter(socket, rtcConnection)`: a selector that requires every handle
      that was supplied (truthy) to be identical to the record's, or none when neither was. */
  function BuildConnectionFilter(socket: Val, rtc: Val): (f: Option<Selector>)
    ensures f.None? <==> !Truthy(socket) && !Truthy(rtc)
    ensures f.Some? ==> forall c :: Matches(f.value, c) <==>
      (Truthy(socket) ==> HasSocket(c, socket)) && (Truthy(rtc) ==> HasRtc(c, rtc))
  {
    if Truthy(socket) && Truthy(rtc) then Some(Both(socket, rtc))
    else if Truthy(socket) then Some(BySocket(socket))
    else if Truthy(rtc) then Some(ByRtc(rtc))
    else None
  }

  /** A record is selected by `(socket, rtc)` when a filter exists and it matches. */
  predicate Selects(socket: Val, rtc: Val, c: Connection)
  {
    var f := BuildConnectionFilter(socket, rtc);
    f.Some? && Matches(f.value, c)
  }

  /** `findIndex` with a selector: the position of the first record it matches. */
  function FirstMatch(cs: seq<Connection>, f: Selector): (k: Option<nat>)
    ensures k.Some? ==> k.value < |cs| && Matches(f, cs[k.value])
    ensures k.Some? ==> forall j :: 0 <= j < k.value ==> !Matches(f, cs[j])
    ensures k.None? <==> forall j :: 0 <= j < |cs| ==> !Matches(f, cs[j])
  {
    if |cs| == 0 then None
    else if Matches(f, cs[0]) then Some(0)
    else match FirstMatch(cs[1..], f)
      case None => None
      case Some(k) => Some(k + 1)
  }

  /** Position of the record `(socket, rtc)` picks: the first one the selector matches. This is
      the record `getPeerConnection` returns and `destroyConnection` removes; with no selector
      there is none (`destroyConnection` then calls `end()`, which removes nothing). */
  function SelectedIndex(cs: seq<Connection>, socket: Val, rtc: Val): (k: Option<nat>)
    ensures k.Some? ==> k.value < |cs| && Selects(socket, rtc, cs[k.value])
    ensures k.Some? ==> forall j :: 0 <= j < k.value ==> !Selects(socket, rtc, cs[j])
    ensures k.None? <==> forall j :: 0 <= j < |cs| ==> !Selects(socket, rtc, cs[j])
  {
    match BuildConnectionFilter(socket, rtc)
    case None => None
    case Some(f) => FirstMatch(cs, f)
  }

  /** The connection list after `destroyConnection(socket, rtc)`. */
  function AfterDestroy(cs: seq<Connection>, socket: Val, rtc: Val): (r: seq<Connection>)
    ensures SelectedIndex(cs, socket, rtc).None? ==> r == cs
    ensures SelectedIndex(cs, socket, rtc).Some? ==> |r| == |cs| - 1
    ensures SelectedIndex(cs, socket, rtc).Some? ==>
      var k := SelectedIndex(cs, socket, rtc).value;
      r == cs[..k] + cs[k + 1..]
    ensures forall c :: c in r ==> c in cs
  {
    match SelectedIndex(cs, socket, rtc)
    case None => cs
    case Some(k) => RemoveAt(cs, k)
  }

  /** What `destroyConnection(socket, rtc)` does to the outside world: it closes the removed
      record's socket and then its RTC session. */
  function DestroyEffects(cs: seq<Connection>, socket: Val, rtc: Val): (es: seq<Effect>)
    ensures es == [] <==> SelectedIndex(cs, socket, rtc).None?
    ensures SelectedIndex(cs, socket, rtc).Some? ==>
      var k := SelectedIndex(cs, socket, rtc).value;
      es == [SocketClose(cs[k].socket), RtcClose(cs[k].rtc)]
  {
    match SelectedIndex(cs, socket, rtc)
    case None => []
    case Some(k) => [SocketClose(cs[k].socket), RtcClose(cs[k].rtc)]
  }

  /** A peer without its object identity. */
  datatype PeerState = PeerState(id: PeerId, isSender: bool, connections: seq<Connection>, receivers: seq<Receiver>)

  class Peer {
    var id: PeerId
    var isSender: bool
    var connections: seq<Connection>
    var receivers: seq<Receiver>

    /** A new peer is a viewer with no connections and no receivers. */
    constructor (id: PeerId)
      ensures this.id == id && !isSender && connections == [] && receivers == []
    {
      this.id := id;
      isSender := false;
      connections := [];
      receivers := [];
    }

    function State(): PeerState
      reads this
    {
      PeerState(id, isSender, connections, receivers)
    }

    /** `addConnection`: appends one fresh record and keeps the earlier ones. */
    method AddConnection(socket: SocketId, rtc: RtcId)
      modifies this`connections
      ensures connections == old(connections) + [Connection(socket, rtc, [], [])]
    {
      connections := connections + [Connection(socket, rtc, [], [])];
    }

    /** `destroyConnection`: closes and removes the first selected record, or, without any
        selector, calls `end()`. */
    method DestroyConnection(net: Network, socket: Val, rtc: Val)
      modifies this`connections, net`trace
      decreases if Truthy(socket) || Truthy(rtc) then 0 else 2
      ensures connections == AfterDestroy(old(connections), socket, rtc)
      ensures net.trace == old(net.trace) + DestroyEffects(old(connections), socket, rtc)
    {
      var f := BuildConnectionFilter(socket, rtc);
      if f.Some? {
        var k := FirstMatch(connections, f.value);
        if k.Some? {
          var c := connections[k.value];
          net.Emit(SocketClose(c.socket));
          net.Emit(RtcClose(c.rtc));
          connections := RemoveAt(connections, k.value);
        }
      } else {
        End(net);
      }
    }

    /** `getPeerConnection`: the first record the selector matches. `find` throws when no
        selector can be built, so callers always pass a handle. */
    function GetPeerConnection(socket: Val, rtc: Val): (r: Option<Connection>)
      reads this
      requires Truthy(socket) || Truthy(rtc)
      ensures r.None? <==> forall c :: c in connections ==> !Selects(socket, rtc, c)
      ensures r.Some? ==> Selects(socket, rtc, r.value)
      ensures r.Some? ==> exists k :: 0 <= k < |connections| && connections[k] == r.value &&
                                      forall j :: 0 <= j < k ==> !Selects(socket, rtc, connections[j])
    {
      match SelectedIndex(connections, socket, rtc)
      case None => None
      case Some(k) => Some(connections[k])
    }

    /** `end()`: calls `destroyConnection(c)` for every record, handing the record itself over
        as the socket selector. No socket is identical to a record, so nothing is closed or
        removed, although the method is meant to end every connection. */
    method End(net: Network)
      modifies this`connections, net`trace
      decreases 1
      ensures connections == old(connections)
      ensures net.trace == old(net.trace)
    {
      if |connections| > 0 {
        var cs := connections;
        var i := 0;
        while i < |cs|
          invariant 0 <= i <= |cs|
          invariant connections == cs
          invariant net.trace == old(net.trace)
        {
          DestroyConnection(net, RecordRef(cs[i]), Undefined);
          i := i + 1;
        }
      }
    }
  }
}
