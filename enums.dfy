/**
 * The code-carrying enums of the relationship core: ContactApplyStatus,
 * ConversationStatus, ConversationType and WsMessageType, with the static
 * lookups that search `values()` in declaration order.
 */
module Enums {
  import opened Wrappers

  /**
   * The linear search shared by every `of(code)` lookup: the first value in
   * `values` whose code is `c`, or null when none has it.
   */
  function FindByCode<T>(values: seq<T>, code: T -> int, c: int): (r: Option<T>)
    ensures r.Some? ==> r.value in values && code(r.value) == c
    ensures r.None? <==> forall v :: v in values ==> code(v) != c
  {
    if |values| == 0 then None
    else if code(values[0]) == c then Some(values[0])
    else FindByCode(values[1..], code, c)
  }

  // ---------------------------------------------------------------- ContactApplyStatus

  datatype ContactApplyStatus = PENDING | ACCEPTED | REJECTED {
    /** The stored code (`@EnumValue`). */
    function Code(): int {
      match this
      case PENDING => 0
      case ACCEPTED => 1
      case REJECTED => 2
    }
    /** The description, which for this enum is the constant's own name. */
    function Desc(): string {
      match this
      case PENDING => "PENDING"
      case ACCEPTED => "ACCEPTED"
      case REJECTED => "REJECTED"
    }
  }

  const ApplyStatusValues: seq<ContactApplyStatus> := [PENDING, ACCEPTED, REJECTED]

  /** `ContactApplyStatus.of(Integer code)`. */
  function ApplyStatusOf(code: Option<int>): (r: Option<ContactApplyStatus>)
    ensures r.Some? ==> code == Some(r.value.Code())
  {
    match code
    case None => None
    case Some(c) => FindByCode(ApplyStatusValues, (s: ContactApplyStatus) => s.Code(), c)
  }

  lemma ApplyStatusCodesDistinct(s: ContactApplyStatus, t: ContactApplyStatus)
    ensures s.Code() == t.Code() <==> s == t
    ensures s.Desc() == t.Desc() <==> s == t
  {
  }

  lemma ApplyStatusOfRoundTrip(s: ContactApplyStatus)
    ensures ApplyStatusOf(Some(s.Code())) == Some(s)
  {
    assert s in ApplyStatusValues;
    var r := ApplyStatusOf(Some(s.Code()));
    ApplyStatusCodesDistinct(r.value, s);
  }

  lemma ApplyStatusOfUnknown(c: Option<int>)
    ensures ApplyStatusOf(c) == None <==> (c.None? || c.value !in {0, 1, 2})
  {
    if c.Some? {
      var r := ApplyStatusOf(c);
      assert r.None? <==> forall v :: v in ApplyStatusValues ==> v.Code() != c.value;
      if c.value in {0, 1, 2} {
        assert (if c.value == 0 then PENDING else if c.value == 1 then ACCEPTED else REJECTED) in ApplyStatusValues;
      }
    }
  }

  // ---------------------------------------------------------------- ConversationStatus

  datatype ConversationStatus = DISBANDED | NORMAL | BANNED {
    function Code(): int {
      match this
      case DISBANDED => 0
      case NORMAL => 1
      case BANNED => 2
    }
    function Desc(): string {
      match this
      case DISBANDED => "已解散"
      case NORMAL => "正常"
      case BANNED => "系统封禁"
    }
  }

  const ConversationStatusValues: seq<ConversationStatus> := [DISBANDED, NORMAL, BANNED]

  /** `ConversationStatus.of(Integer code)`. */
  function ConversationStatusOf(code: Option<int>): (r: Option<ConversationStatus>)
    ensures r.Some? ==> code == Some(r.value.Code())
  {
    match code
    case None => None
    case Some(c) => FindByCode(ConversationStatusValues, (s: ConversationStatus) => s.Code(), c)
  }

  lemma ConversationStatusCodesDistinct(s: ConversationStatus, t: ConversationStatus)
    ensures s.Code() == t.Code() <==> s == t
  {
  }

  lemma ConversationStatusOfRoundTrip(s: ConversationStatus)
    ensures ConversationStatusOf(Some(s.Code())) == Some(s)
  {
    assert s in ConversationStatusValues;
    var r := ConversationStatusOf(Some(s.Code()));
    ConversationStatusCodesDistinct(r.value, s);
  }

  lemma ConversationStatusOfUnknown(c: Option<int>)
    ensures ConversationStatusOf(c) == None <==> (c.None? || c.value !in {0, 1, 2})
  {
    if c.Some? && c.value in {0, 1, 2} {
      assert (if c.value == 0 then DISBANDED else if c.value == 1 then NORMAL else BANNED) in ConversationStatusValues;
    }
  }

  // ---------------------------------------------------------------- ConversationType

  datatype ConversationType = PRIVATE | GROUP | CHANNEL {
    function Code(): int {
      match this
      case PRIVATE => 0
      case GROUP => 1
      case CHANNEL => 2
    }
    function Desc(): string {
      match this
      case PRIVATE => "PRIVATE"
      case GROUP => "GROUP"
      case CHANNEL => "CHANNEL"
    }
  }

  const ConversationTypeValues: seq<ConversationType> := [PRIVATE, GROUP, CHANNEL]

  /** `ConversationType.getDesc(int code)`: the description of the constant with that code, or null. */
  function ConversationTypeDesc(code: int): (r: Option<string>)
    ensures r.Some? ==> exists t: ConversationType :: t.Code() == code && r.value == t.Desc()
  {
    match FindByCode(ConversationTypeValues, (t: ConversationType) => t.Code(), code)
    case Some(t) => Some(t.Desc())
    case None => None
  }

  lemma ConversationTypeCodesDistinct(s: ConversationType, t: ConversationType)
    ensures s.Code() == t.Code() <==> s == t
    ensures s.Desc() == t.Desc() <==> s == t
  {
  }

  lemma ConversationTypeDescOfCode(t: ConversationType)
    ensures ConversationTypeDesc(t.Code()) == Some(t.Desc())
  {
    assert t in ConversationTypeValues;
    var r := FindByCode(ConversationTypeValues, (u: ConversationType) => u.Code(), t.Code());
    ConversationTypeCodesDistinct(r.value, t);
  }

  lemma ConversationTypeDescUnknown(c: int)
    ensures ConversationTypeDesc(c) == None <==> c !in {0, 1, 2}
  {
    if c in {0, 1, 2} {
      assert (if c == 0 then PRIVATE else if c == 1 then GROUP else CHANNEL) in ConversationTypeValues;
    }
  }

  // ---------------------------------------------------------------- WsMessageType

  datatype WsMessageType = SYSTEM | ERROR | HEARTBEAT | CHAT | TYPING | CONTACT_APPLY | CONTACT_REPLY {
    /** The string written into an envelope's `type` field. */
    function Value(): string {
      match this
      case SYSTEM => "system"
      case ERROR => "error"
      case HEARTBEAT => "heartbeat"
      case CHAT => "chat"
      case TYPING => "typing"
      case CONTACT_APPLY => "contact_apply"
      case CONTACT_REPLY => "contact_reply"
    }
  }

  const WsMessageTypeValues: seq<WsMessageType> :=
    [SYSTEM, ERROR, HEARTBEAT, CHAT, TYPING, CONTACT_APPLY, CONTACT_REPLY]

  /** Reads an envelope's `type` string back as the constant whose value it is. */
  function WsMessageTypeOf(s: string): (r: Option<WsMessageType>)
    ensures r.Some? ==> r.value.Value() == s
  {
    if s == "system" then Some(SYSTEM)
    else if s == "error" then Some(ERROR)
    else if s == "heartbeat" then Some(HEARTBEAT)
    else if s == "chat" then Some(CHAT)
    else if s == "typing" then Some(TYPING)
    else if s == "contact_apply" then Some(CONTACT_APPLY)
    else if s == "contact_reply" then Some(CONTACT_REPLY)
    else None
  }

  ghost predicate LowerSnakeCase(s: string) {
    |s| > 0 && forall i :: 0 <= i < |s| ==> ('a' <= s[i] <= 'z') || s[i] == '_'
  }

  /** The wire values are distinct lower-case names, so a `type` field identifies its constant. */
  lemma WsMessageTypeValueRoundTrip(t: WsMessageType)
    ensures WsMessageTypeOf(t.Value()) == Some(t)
    ensures LowerSnakeCase(t.Value())
  {
  }
}
