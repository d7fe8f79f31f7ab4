/**
 * The BiliBili danmaku client: it connects to the chat WebSocket, answers the
 * `Connected` event with a handshake and a 30-second heartbeat, and turns each
 * binary frame into chat messages with the packet parser.
 *
 * The coroutine flow is modelled as one method call per WebSocket event; the
 * heartbeat coroutine as one method call per elapsed period.
 */
module DanmakuClient {
  import opened Wrappers
  import opened Errors
  import opened Bytes
  import opened LiveMessages
  import opened LiveModel
  import opened DanmakuPacket

  const WsUrl := "wss://broadcastlv.chat.bilibili.com/sub"

  /** The pause between two heartbeats, in milliseconds. */
  const HeartbeatPeriod := 30000

  const SendUnsupported := "BiliBili doesn't support sending danmaku via WebSocket"

  /** The events `WebSocketClient.connect` delivers. */
  datatype WebSocketMessage =
    | Connected
    | TextMessage(text: string)
    | BinaryMessage(bytes: ByteArray)
    | Closing(code: int, reason: string)
    | Closed(code: int, reason: string)
    | Error(cause: Exception)

  /** An open `WebSocketClient`: the URL it connected to and the binary frames sent on it, oldest first. */
  datatype Socket = Socket(url: string, sent: seq<seq<byte>>)

  /** `webSocketClient?.sendBinary(packet)`: a missing client sends nothing. */
  function SendOn(socket: Option<Socket>, packet: seq<byte>): (r: Option<Socket>)
    ensures r.None? <==> socket.None?
    ensures r.Some? ==> r.value.url == socket.value.url && r.value.sent == socket.value.sent + [packet]
  {
    match socket
    case None => None
    case Some(s) => Some(s.(sent := s.sent + [packet]))
  }

  class BiliBiliDanmaku {
    var webSocketClient: Option<Socket>
    /** Whether `heartbeatJob` refers to a running heartbeat coroutine. */
    var heartbeatJob: bool
    /** The room id the running `start` flow captured. */
    var roomId: string

    constructor ()
      ensures webSocketClient == None && !heartbeatJob && roomId == ""
    {
      webSocketClient := None;
      heartbeatJob := false;
      roomId := "";
    }

    /** The handshake for this room fits in one packet (its length field does not wrap). */
    predicate HandshakeFits()
      reads this
    {
      |Utf8(HandshakeBody(roomId))| < 0x8000_0000 - HeaderLength as int
    }

    /** `start(detail)`, up to the first event: remember the room and open a fresh client. */
    method Start(detail: LiveRoomDetail)
      modifies this
      ensures roomId == detail.data.GetOr(detail.roomId)
      ensures webSocketClient == Some(Socket(WsUrl, []))
      ensures heartbeatJob == old(heartbeatJob)
    {
      roomId := detail.data.GetOr(detail.roomId);
      webSocketClient := Some(Socket(WsUrl, []));
    }

    /** The body of the `collect` in `start` for one event; the result is what the flow emits. */
    method OnMessage(message: WebSocketMessage, inflate: Inflate, depth: nat) returns (emitted: Parsed)
      requires message.Connected? ==> HandshakeFits()
      modifies this
      ensures roomId == old(roomId)
      ensures message.Connected? ==>
        webSocketClient == SendOn(old(webSocketClient), HandshakePacket(roomId)) && heartbeatJob
      ensures message.BinaryMessage? ==> emitted == ParseStream(message.bytes, inflate, depth)
      ensures message.Closed? || message.Error? ==> !heartbeatJob
      ensures !message.Connected? ==> webSocketClient == old(webSocketClient)
      ensures !message.BinaryMessage? ==> emitted == Success([])
      ensures !(message.Connected? || message.Closed? || message.Error?) ==> heartbeatJob == old(heartbeatJob)
    {
      emitted := Success([]);
      match message
      case Connected =>
        SendHandshake();
        StartHeartbeat();
      case BinaryMessage(bytes) =>
        emitted := ParseDanmakuPacket(bytes, inflate, depth);
      case Closed(_, _) =>
        StopHeartbeat();
      case Error(_) =>
        StopHeartbeat();
      case _ =>
    }

    /** `stop()`: cancel the heartbeat and drop the client. */
    method Stop()
      modifies this
      ensures webSocketClient == None && !heartbeatJob
      ensures roomId == old(roomId)
    {
      StopHeartbeat();
      webSocketClient := None;
    }

    /** `sendMessage`: this platform cannot send chat over the WebSocket. */
    method SendMessage(message: string) returns (r: Result<(), Exception>)
      ensures r == Failure(Unsupported(SendUnsupported))
      ensures r.error.Message() == Some(SendUnsupported)
    {
      r := Failure(Unsupported(SendUnsupported));
    }

    method SendHandshake()
      requires HandshakeFits()
      modifies this
      ensures webSocketClient == SendOn(old(webSocketClient), HandshakePacket(roomId))
      ensures heartbeatJob == old(heartbeatJob) && roomId == old(roomId)
    {
      var packet := CreatePacket(OpHandshake, Utf8(HandshakeBody(roomId)));
      webSocketClient := SendOn(webSocketClient, packet[..]);
    }

    method StartHeartbeat()
      modifies this
      ensures heartbeatJob
      ensures webSocketClient == old(webSocketClient) && roomId == old(roomId)
    {
      heartbeatJob := true;
    }

    method StopHeartbeat()
      modifies this
      ensures !heartbeatJob
      ensures webSocketClient == old(webSocketClient) && roomId == old(roomId)
    {
      heartbeatJob := false;
    }

    /** One turn of the heartbeat coroutine, after its 30-second delay: send a heartbeat if it still runs. */
    method HeartbeatTick()
      modifies this
      ensures heartbeatJob ==> webSocketClient == SendOn(old(webSocketClient), HeartbeatPacket())
      ensures !heartbeatJob ==> webSocketClient == old(webSocketClient)
      ensures heartbeatJob == old(heartbeatJob) && roomId == old(roomId)
    {
      if heartbeatJob {
        SendHeartbeat();
      }
    }

    method SendHeartbeat()
      modifies this
      ensures webSocketClient == SendOn(old(webSocketClient), HeartbeatPacket())
      ensures heartbeatJob == old(heartbeatJob) && roomId == old(roomId)
    {
      var packet := CreatePacket(OpHeartbeat, HeartbeatBody);
      webSocketClient := SendOn(webSocketClient, packet[..]);
    }
  }

  /**
   * Everything the client sends on a connection (the handshake, then
   * heartbeats) parses back to no messages: its own traffic never shows up as chat.
   */
  lemma SentTrafficIsSilent(roomId: string, sent: seq<seq<byte>>, inflate: Inflate, depth: nat)
    requires |Utf8(HandshakeBody(roomId))| < 0x8000_0000 - HeaderLength as int
    requires forall i :: 0 <= i < |sent| ==> sent[i] == HandshakePacket(roomId) || sent[i] == HeartbeatPacket()
    ensures forall i :: 0 <= i < |sent| ==> |sent[i]| < 0x8000_0000 && ParseStream(sent[i], inflate, depth) == Success([])
  {
    CreatedPacketCarriesNothing(OpHandshake, Utf8(HandshakeBody(roomId)), inflate, depth);
    CreatedPacketCarriesNothing(OpHeartbeat, HeartbeatBody, inflate, depth);
  }
}
