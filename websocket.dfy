/**
 * The WebSocket side: the handshake admits a connection only with a valid
 * `token` query parameter and records its user id in the session
 * attributes; `TelechatWebSocketHandler` keeps one session per online
 * user, relays "typing" signals, answers malformed frames with an error
 * envelope, and drops a user whose session fails a write; `MessageService`
 * pushes contact-apply notifications through it.
 *
 * Every envelope id comes from the Snowflake generator; the handlers take
 * the id as a parameter.
 */
module WebSocket {
  import opened Wrappers
  import opened Text
  import opened Enums
  import opened Entities
  import opened Security
  import Snowflake

  // ---------------------------------------------------------------- envelopes

  /** The `data` an envelope carries. */
  datatype Payload =
    | NoData
    | Text(text: string)
    | ApplyNotification(notification: ContactApplyNotification)

  /**
   * `WsMessage`: `msgType` is the `type` field. `messageId` may be null for
   * transient signals.
   */
  datatype WsMessage = WsMessage(
    msgType: string,
    messageId: Option<int>,
    senderId: Option<int>,
    timestamp: int,
    data: Payload)

  /**
   * `WsMessage.of`: the type's wire value and the given fields; the
   * timestamp is the build time `now`.
   */
  function Of(t: WsMessageType, messageId: Option<int>, senderId: Option<int>, data: Payload, now: int): (r: WsMessage)
    ensures WsMessageTypeOf(r.msgType) == Some(t) && LowerSnakeCase(r.msgType)
    ensures r.messageId == messageId && r.senderId == senderId && r.data == data
    ensures r.timestamp == now
  {
    WsMessageTypeValueRoundTrip(t);
    WsMessage(t.Value(), messageId, senderId, now, data)
  }

  const CONNECTED_MSG: string := "连接成功"
  const MALFORMED_MSG: string := "消息格式错误"

  /** Envelopes of different types are different envelopes. */
  lemma EnvelopeTypeIdentifies(t: WsMessageType, u: WsMessageType, mt: Option<int>, mu: Option<int>,
                               st: Option<int>, su: Option<int>, dt: Payload, du: Payload, now: int)
    requires Of(t, mt, st, dt, now) == Of(u, mu, su, du, now)
    ensures t == u && mt == mu && st == su && dt == du
  {
    assert WsMessageTypeOf(Of(t, mt, st, dt, now).msgType) == Some(t);
    assert WsMessageTypeOf(Of(u, mu, su, du, now).msgType) == Some(u);
  }

  // ---------------------------------------------------------------- parsed frames

  /** The tree `objectMapper.readTree` produces. */
  datatype JsonNode =
    | MissingNode
    | NullNode
    | TextNode(text: string)
    | NumberNode(n: int)
    | BooleanNode(b: bool)
    | ObjectNode(fields: map<string, JsonNode>)
    | ArrayNode(items: seq<JsonNode>)

  /** `node.path(field)`: the field of an object, otherwise the missing node. */
  function Path(node: JsonNode, field: string): (r: JsonNode)
    ensures r != MissingNode ==> node.ObjectNode? && field in node.fields && r == node.fields[field]
    ensures node.ObjectNode? && field in node.fields ==> r == node.fields[field]
  {
    if node.ObjectNode? && field in node.fields then node.fields[field] else MissingNode
  }

  /** `node.asText()`: "" for missing nodes and containers. */
  function AsText(node: JsonNode): (r: string)
    ensures node.TextNode? ==> r == node.text
    ensures node.NumberNode? ==> r == IntText(node.n)
    ensures node.MissingNode? || node.ObjectNode? || node.ArrayNode? ==> r == ""
  {
    match node
    case TextNode(s) => s
    case NumberNode(n) => IntText(n)
    case BooleanNode(b) => if b then "true" else "false"
    case NullNode => "null"
    case _ => ""
  }

  const LONG_MIN: int := -Snowflake.TWO_63
  const LONG_MAX: int := Snowflake.TWO_63 - 1

  /**
   * `Long.parseLong` on an optional sign and decimal digits, the path
   * Jackson's text-to-long conversion takes for such text: `None` where it
   * throws, that is for no digits and for a value outside the long range.
   */
  function ParseLong(s: string): (r: Option<int>)
    ensures r.Some? ==> LONG_MIN <= r.value <= LONG_MAX
    ensures |s| > 0 && AllDigits(s) ==> (r.Some? <==> DigitsValue(s) <= LONG_MAX)
    ensures |s| > 0 && AllDigits(s) && r.Some? ==> r.value == DigitsValue(s)
  {
    var signed := |s| > 0 && (s[0] == '-' || s[0] == '+');
    var digits := if signed then s[1..] else s;
    if |digits| == 0 || !AllDigits(digits) then None
    else
      var magnitude: int := DigitsValue(digits);
      var v := if signed && s[0] == '-' then -magnitude else magnitude;
      if LONG_MIN <= v <= LONG_MAX then Some(v) else None
  }

  /**
   * `node.asLong()`: a number wraps to 64 bits (`BigInteger.longValue` for
   * one beyond the long range), text is parsed with 0 as the default, and a
   * node with no numeric reading is 0.
   */
  function AsLong(node: JsonNode): (r: int)
    ensures LONG_MIN <= r <= LONG_MAX
    ensures node.NumberNode? ==> r == Snowflake.Wrap64(node.n)
    ensures node.TextNode? && ParseLong(node.text).Some? ==> r == ParseLong(node.text).value
    ensures node.TextNode? && ParseLong(node.text).None? ==> r == 0
    ensures node.MissingNode? || node.NullNode? || node.ObjectNode? || node.ArrayNode? ==> r == 0
  {
    match node
    case NumberNode(n) => Snowflake.Wrap64(n)
    case BooleanNode(b) => if b then 1 else 0
    case TextNode(s) => if ParseLong(s).Some? then ParseLong(s).value else 0
    case _ => 0
  }

  /** A receiver id in the long range, sent as a number or as its decimal text, reads as that id. */
  lemma ReceiverIdReadsBack(id: nat)
    requires id <= LONG_MAX
    ensures AsLong(NumberNode(id)) == id
    ensures AsLong(TextNode(NatText(id))) == id
  {
    DigitsValueOfNatText(id);
  }

  /**
   * Beyond the long range the two encodings part: decimal text makes
   * `Long.parseLong` throw and reads as 0, while a number wraps.
   */
  lemma OutOfRangeReceiverIds(id: nat)
    requires id > LONG_MAX
    ensures AsLong(TextNode(NatText(id))) == 0
    ensures AsLong(NumberNode(2 * Snowflake.TWO_63 + 1)) == 1
  {
    DigitsValueOfNatText(id);
  }

  /** The frames a session can receive. */
  datatype WebSocketMessage =
    | TextMessage(payload: string)
    | BinaryMessage
    | PingMessage
    | PongMessage

  // ---------------------------------------------------------------- sessions

  /** A session attribute value; only a `Long` counts as a user id. */
  datatype Attribute = LongValue(value: int) | OtherValue(text: string)

  /** `getUserId`: the "userId" attribute when it is a `Long`, otherwise null. */
  function UserIdOf(attributes: map<string, Attribute>): (r: Option<int>)
    ensures r.Some? <==> "userId" in attributes && attributes["userId"].LongValue?
    ensures r.Some? ==> attributes["userId"] == LongValue(r.value)
  {
    if "userId" in attributes && attributes["userId"].LongValue? then Some(attributes["userId"].value) else None
  }

  /**
   * A `WebSocketSession`: its attributes are fixed at the handshake; `open`
   * is decided by the peer; `outbox` is what has been written to it.
   */
  class WebSocketSession {
    const attributes: map<string, Attribute>
    var open: bool
    var outbox: seq<WsMessage>

    constructor (attributes: map<string, Attribute>)
      ensures this.attributes == attributes && open && outbox == []
    {
      this.attributes := attributes;
      open := true;
      outbox := [];
    }

    /** The peer goes away. */
    method Close()
      modifies this`open
      ensures !open
    {
      open := false;
    }
  }

  // ---------------------------------------------------------------- the handler

  class TelechatWebSocketHandler {
    /** Online users and their sessions. */
    var userSessions: map<int, WebSocketSession>

    /** Each user's entry is a session whose own "userId" attribute names that user. */
    ghost predicate Valid()
      reads this
    {
      forall userId :: userId in userSessions ==> UserIdOf(userSessions[userId].attributes) == Some(userId)
    }

    constructor ()
      ensures Valid() && userSessions == map[]
    {
      userSessions := map[];
    }

    /** The one session a send to `receiverId` may write to. */
    function Target(receiverId: int): set<WebSocketSession>
      reads this
    {
      if receiverId in userSessions then {userSessions[receiverId]} else {}
    }

    /**
     * The effect of `sendMsg(receiverId, message)` on a registry that was
     * `before`: nothing for an absent or closed session; otherwise the
     * message is written to it, or, when the write fails, the user is
     * dropped from the registry and nothing is written.
     */
    twostate predicate Delivered(before: map<int, WebSocketSession>, receiverId: int, message: WsMessage, writeFails: bool)
      reads this, before.Values
    {
      if receiverId !in before || !before[receiverId].open then
        userSessions == before && (receiverId in before ==> before[receiverId].outbox == old(before[receiverId].outbox))
      else if writeFails then
        userSessions == before - {receiverId} && before[receiverId].outbox == old(before[receiverId].outbox)
      else
        userSessions == before && before[receiverId].outbox == old(before[receiverId].outbox) + [message]
    }

    /**
     * `sendMsg`: writes to the receiver's open session only; a failing
     * write (`IOException`, serialisation included) evicts the receiver.
     */
    method SendMsg(receiverId: int, message: WsMessage, writeFails: bool)
      requires Valid()
      modifies this`userSessions, Target(receiverId)`outbox
      ensures Valid()
      ensures Delivered(old(userSessions), receiverId, message, writeFails)
    {
      if receiverId !in userSessions || !userSessions[receiverId].open {
        return;
      }
      var session := userSessions[receiverId];
      if writeFails {
        userSessions := userSessions - {receiverId};
      } else {
        session.outbox := session.outbox + [message];
      }
    }

    /**
     * `afterConnectionEstablished`: a session with a user id becomes that
     * user's session, replacing any earlier one, and is sent the SYSTEM
     * greeting from sender 0; a session without one is ignored.
     */
    method AfterConnectionEstablished(session: WebSocketSession, messageId: int, now: int, writeFails: bool)
      requires Valid()
      modifies this`userSessions, session`outbox
      ensures Valid()
      ensures UserIdOf(session.attributes).None? ==>
        userSessions == old(userSessions) && session.outbox == old(session.outbox)
      ensures UserIdOf(session.attributes).Some? ==>
        var userId := UserIdOf(session.attributes).value;
        var greeting := Of(SYSTEM, Some(messageId), Some(0), Text(CONNECTED_MSG), now);
        && userSessions == (if session.open && writeFails then old(userSessions) - {userId} else old(userSessions)[userId := session])
        && session.outbox == (if session.open && !writeFails then old(session.outbox) + [greeting] else old(session.outbox))
    {
      var userId := UserIdOf(session.attributes);
      if userId.Some? {
        userSessions := userSessions[userId.value := session];
        SendMsg(userId.value, Of(SYSTEM, Some(messageId), Some(0), Text(CONNECTED_MSG), now), writeFails);
      }
    }

    /**
     * `removeSession`: drops the entry of the session's user id, whatever
     * session that entry holds now.
     */
    method RemoveSession(session: WebSocketSession)
      requires Valid()
      modifies this`userSessions
      ensures Valid()
      ensures UserIdOf(session.attributes).None? ==> userSessions == old(userSessions)
      ensures UserIdOf(session.attributes).Some? ==> userSessions == old(userSessions) - {UserIdOf(session.attributes).value}
    {
      var userId := UserIdOf(session.attributes);
      if userId.Some? {
        userSessions := userSessions - {userId.value};
      }
    }

    /** `afterConnectionClosed`. */
    method AfterConnectionClosed(session: WebSocketSession)
      requires Valid()
      modifies this`userSessions
      ensures Valid()
      ensures UserIdOf(session.attributes).None? ==> userSessions == old(userSessions)
      ensures UserIdOf(session.attributes).Some? ==> userSessions == old(userSessions) - {UserIdOf(session.attributes).value}
    {
      RemoveSession(session);
    }

    /** `handleTransportError`. */
    method HandleTransportError(session: WebSocketSession)
      requires Valid()
      modifies this`userSessions
      ensures Valid()
      ensures UserIdOf(session.attributes).None? ==> userSessions == old(userSessions)
      ensures UserIdOf(session.attributes).Some? ==> userSessions == old(userSessions) - {UserIdOf(session.attributes).value}
    {
      RemoveSession(session);
    }

    /**
     * `handleTypingMessage`: with a `data` node, relays a TYPING envelope
     * from the sender (no data) to `data.receiverId`, read as 0 when
     * absent; without one, does nothing.
     */
    method HandleTypingMessage(senderId: int, root: JsonNode, messageId: int, now: int, writeFails: bool)
      requires Valid()
      modifies this`userSessions, Target(AsLong(Path(Path(root, "data"), "receiverId")))`outbox
      ensures Valid()
      ensures Path(root, "data") == MissingNode ==>
        userSessions == old(userSessions) && unchanged(Target(AsLong(Path(Path(root, "data"), "receiverId"))))
      ensures Path(root, "data") != MissingNode ==>
        Delivered(old(userSessions), AsLong(Path(Path(root, "data"), "receiverId")),
                  Of(TYPING, Some(messageId), Some(senderId), NoData, now), writeFails)
    {
      var dataNode := Path(root, "data");
      if dataNode == MissingNode {
        return;
      }
      var receiverId := AsLong(Path(dataNode, "receiverId"));
      SendMsg(receiverId, Of(TYPING, Some(messageId), Some(senderId), NoData, now), writeFails);
    }

    /**
     * `handleMessage`: frames from a session without a user id, pongs and
     * non-text frames are ignored; a typing frame is relayed; a payload that
     * does not parse is answered with an ERROR envelope to the sender; any
     * other type is ignored.
     */
    method HandleMessage(session: WebSocketSession, message: WebSocketMessage, readTree: string -> Option<JsonNode>,
                         messageId: int, now: int, writeFails: bool)
      requires Valid()
      modifies this`userSessions, Target(Response(UserIdOf(session.attributes), message, readTree).0)`outbox
      ensures Valid()
      ensures var (receiverId, reply) := Response(UserIdOf(session.attributes), message, readTree);
        reply.None? ==> userSessions == old(userSessions) && unchanged(Target(receiverId))
      ensures var (receiverId, reply) := Response(UserIdOf(session.attributes), message, readTree);
        reply.Some? ==> Delivered(old(userSessions), receiverId, Envelope(reply.value, messageId, now), writeFails)
    {
      var userId := UserIdOf(session.attributes);
      if userId.None? {
        return;
      }
      if message.PongMessage? {
        return;
      }
      if !message.TextMessage? {
        return;
      }
      var root := readTree(message.payload);
      if root.None? {
        SendMsg(userId.value, Of(ERROR, Some(messageId), Some(0), Text(MALFORMED_MSG), now), writeFails);
        return;
      }
      var typeStr := AsText(Path(root.value, "type"));
      if TYPING.Value() == typeStr {
        HandleTypingMessage(userId.value, root.value, messageId, now, writeFails);
      }
    }
  }

  /** What the handler sends in answer to a frame, before the id and time are filled in. */
  datatype Reply = TypingFrom(senderId: int) | FormatError

  /** The envelope a reply becomes. */
  function Envelope(reply: Reply, messageId: int, now: int): WsMessage {
    match reply
    case TypingFrom(senderId) => Of(TYPING, Some(messageId), Some(senderId), NoData, now)
    case FormatError => Of(ERROR, Some(messageId), Some(0), Text(MALFORMED_MSG), now)
  }

  /**
   * The receiver and reply `handleMessage` produces for a frame from a
   * session whose user id is `userId`.
   */
  function Response(userId: Option<int>, message: WebSocketMessage, readTree: string -> Option<JsonNode>): (r: (int, Option<Reply>))
    ensures r.1.Some? ==> userId.Some? && message.TextMessage?
    ensures userId.Some? && message.TextMessage? && readTree(message.payload).None? ==>
      r == (userId.value, Some(FormatError))
    ensures r.1 == Some(FormatError) ==> r.0 == userId.value && readTree(message.payload).None?
    ensures r.1.Some? && r.1.value.TypingFrom? ==>
      var root := readTree(message.payload).value;
      && r.1.value.senderId == userId.value
      && AsText(Path(root, "type")) == "typing"
      && Path(root, "data") != MissingNode
      && r.0 == AsLong(Path(Path(root, "data"), "receiverId"))
  {
    if userId.None? || !message.TextMessage? then (0, None)
    else
      var root := readTree(message.payload);
      if root.None? then (userId.value, Some(FormatError))
      else if AsText(Path(root.value, "type")) != TYPING.Value() then (0, None)
      else
        var dataNode := Path(root.value, "data");
        if dataNode == MissingNode then (0, None)
        else (AsLong(Path(dataNode, "receiverId")), Some(TypingFrom(userId.value)))
  }

  // ---------------------------------------------------------------- handshake

  /** `params.getFirst(name)`: the first value given for the parameter, or null. */
  function FirstParam(query: map<string, seq<Option<string>>>, name: string): (r: Option<string>)
    ensures r.Some? ==> name in query && |query[name]| > 0 && query[name][0] == r
    ensures name in query && |query[name]| > 0 ==> r == query[name][0]
  {
    if name in query && |query[name]| > 0 then query[name][0] else None
  }

  /**
   * The user a handshake admits: the first `token` parameter, when present
   * and valid, names the user; otherwise no one is admitted.
   */
  function AdmittedUser(query: map<string, seq<Option<string>>>, tokens: TokenProvider): (r: Option<int>)
    ensures r.Some? <==> FirstParam(query, "token").Some? && tokens.validateToken(FirstParam(query, "token").value)
    ensures r.Some? ==> r.value == tokens.userIdFromToken(FirstParam(query, "token").value)
  {
    var token := FirstParam(query, "token");
    if token.Some? && tokens.validateToken(token.value) then Some(tokens.userIdFromToken(token.value)) else None
  }

  /** Further `token` values after the first never change who is admitted. */
  lemma OnlyFirstTokenCounts(query: map<string, seq<Option<string>>>, tokens: TokenProvider, later: seq<Option<string>>)
    requires "token" in query && |query["token"]| > 0
    ensures AdmittedUser(query["token" := query["token"][..1] + later], tokens) == AdmittedUser(query, tokens)
  {
    var changed := query["token" := query["token"][..1] + later];
    assert changed["token"][0] == query["token"][0];
  }

  /** The attributes map the handshake fills in and the session is created with. */
  class HandshakeAttributes {
    var entries: map<string, Attribute>

    constructor (entries: map<string, Attribute>)
      ensures this.entries == entries
    {
      this.entries := entries;
    }
  }

  /**
   * `TelechatHandshakeInterceptor.beforeHandshake`: a valid first `token`
   * parameter records its user id under "userId" (and nothing else) and
   * lets the handshake proceed; otherwise the handshake is refused and the
   * attributes are left alone.
   */
  method BeforeHandshake(query: map<string, seq<Option<string>>>, tokens: TokenProvider, attributes: HandshakeAttributes)
    returns (ok: bool)
    modifies attributes
    ensures ok <==> AdmittedUser(query, tokens).Some?
    ensures ok ==> attributes.entries == old(attributes.entries)["userId" := LongValue(AdmittedUser(query, tokens).value)]
    ensures ok ==> UserIdOf(attributes.entries) == AdmittedUser(query, tokens)
    ensures !ok ==> attributes.entries == old(attributes.entries)
  {
    var token := FirstParam(query, "token");
    if token.Some? && tokens.validateToken(token.value) {
      var userId := tokens.userIdFromToken(token.value);
      attributes.entries := attributes.entries["userId" := LongValue(userId)];
      return true;
    }
    return false;
  }

  // ---------------------------------------------------------------- MessageService

  class MessageService {
    const webSocketHandler: TelechatWebSocketHandler

    constructor (webSocketHandler: TelechatWebSocketHandler)
      ensures this.webSocketHandler == webSocketHandler
    {
      this.webSocketHandler := webSocketHandler;
    }

    /**
     * `sendContactApplyNotification`: a CONTACT_APPLY envelope whose id is
     * the apply's id, whose sender is the applicant and whose data is the
     * notification, sent to `receiverId` alone. Failures never reach the
     * caller: a null notification sends nothing.
     */
    method SendContactApplyNotification(receiverId: int, notification: Option<ContactApplyNotification>, now: int, writeFails: bool)
      requires webSocketHandler.Valid()
      modifies webSocketHandler`userSessions, webSocketHandler.Target(receiverId)`outbox
      ensures webSocketHandler.Valid()
      ensures notification.None? ==>
        webSocketHandler.userSessions == old(webSocketHandler.userSessions) && unchanged(webSocketHandler.Target(receiverId))
      ensures notification.Some? ==>
        var n := notification.value;
        webSocketHandler.Delivered(old(webSocketHandler.userSessions), receiverId,
          Of(CONTACT_APPLY, n.applyId, n.senderId, ApplyNotification(n), now), writeFails)
    {
      if notification.None? {
        return;
      }
      var n := notification.value;
      var message := Of(CONTACT_APPLY, n.applyId, n.senderId, ApplyNotification(n), now);
      webSocketHandler.SendMsg(receiverId, message, writeFails);
    }
  }

  // ---------------------------------------------------------------- scenarios

  /**
   * A user reconnects and the old connection's close arrives afterwards:
   * the close evicts the user although the new session is still open, so
   * later messages to the user are dropped.
   */
  method StaleCloseEvictsReconnectedSession(userId: int, now: int)
    returns (online: bool, newSessionOpen: bool, newSessionReceived: nat)
    ensures !online && newSessionOpen && newSessionReceived == 1
  {
    var handler := new TelechatWebSocketHandler();
    var attributes := map["userId" := LongValue(userId)];
    var first := new WebSocketSession(attributes);
    handler.AfterConnectionEstablished(first, 1, now, false);
    var second := new WebSocketSession(attributes);
    handler.AfterConnectionEstablished(second, 2, now, false);
    first.Close();
    handler.AfterConnectionClosed(first);
    handler.SendMsg(userId, Of(CHAT, Some(3), Some(0), Text("hello"), now), false);
    online := userId in handler.userSessions;
    newSessionOpen := second.open;
    newSessionReceived := |second.outbox|;
  }

  /** A handshake followed by the connection registers the session under exactly the admitted user. */
  method HandshakeThenConnect(query: map<string, seq<Option<string>>>, tokens: TokenProvider, messageId: int, now: int)
    returns (registered: set<int>)
    ensures registered == if AdmittedUser(query, tokens).Some? then {AdmittedUser(query, tokens).value} else {}
  {
    var handler := new TelechatWebSocketHandler();
    var attributes := new HandshakeAttributes(map[]);
    var ok := BeforeHandshake(query, tokens, attributes);
    if ok {
      var session := new WebSocketSession(attributes.entries);
      handler.AfterConnectionEstablished(session, messageId, now, false);
    }
    registered := handler.userSessions.Keys;
  }

  /**
   * Two users online; the first sends a typing frame naming the second and
   * claiming to be someone else: the second receives one TYPING envelope
   * whose sender is the first user, and the first receives nothing more.
   */
  method TypingRelayedWithSessionSender(sender: int, receiver: int, claimed: int, now: int)
    returns (relayed: seq<WsMessage>, echoed: nat)
    requires 0 <= receiver <= LONG_MAX && sender != receiver
    ensures relayed == [Of(TYPING, Some(3), Some(sender), NoData, now)]
    ensures echoed == 1
  {
    var handler := new TelechatWebSocketHandler();
    var from := new WebSocketSession(map["userId" := LongValue(sender)]);
    var to := new WebSocketSession(map["userId" := LongValue(receiver)]);
    handler.AfterConnectionEstablished(from, 1, now, false);
    handler.AfterConnectionEstablished(to, 2, now, false);
    var frame := ObjectNode(map[
      "type" := TextNode("typing"),
      "senderId" := NumberNode(claimed),
      "data" := ObjectNode(map["receiverId" := TextNode(NatText(receiver))])]);
    ReceiverIdReadsBack(receiver);
    assert AsText(Path(frame, "type")) == TYPING.Value();
    handler.HandleMessage(from, TextMessage("{...}"), _ => Some(frame), 3, now, false);
    relayed := to.outbox[1..];
    echoed := |from.outbox|;
  }
}
