/** The voice-agent hook (client/src/hooks/useVoiceAgent.ts): how an inbound
    data-channel message becomes an agent action, the envelope of outbound actions,
    and the connection flags the hook keeps. The LiveKit room itself is abstracted
    into the outcome of each asynchronous step. */
module VoiceAgent {
  import opened Wrappers
  import opened JsValue

  /** An agent action after normalisation: a plain JavaScript object. */
  type Action = map<string, Value>

  const ClientActionType: string := "client_action"
  const ClientActionsTopic: string := "client_actions"
  const UserProfileAction: string := "user_profile"

  /** `parsed.type === 'client_action'`: the vendor's wrapped form. */
  predicate IsWrapped(v: Value) {
    Get(v, "type") == Str(ClientActionType)
  }

  /** `parsed.action` is truthy: the direct form, when not wrapped. */
  predicate HasTruthyAction(v: Value) {
    Truthy(Get(v, "action"))
  }

  /** `{action: parsed.action, ...parsed.payload}`: the top-level `action` (kept
      as a key even when undefined) with every member of the payload spread over it. */
  function Flatten(v: Value): (r: Action)
    ensures r.Keys == {"action"} + Spread(Get(v, "payload")).Keys
    ensures forall k :: k in Spread(Get(v, "payload")) ==> r[k] == Spread(Get(v, "payload"))[k]
    ensures "action" !in Spread(Get(v, "payload")) ==> r["action"] == Get(v, "action")
  {
    map["action" := Get(v, "action")] + Spread(Get(v, "payload"))
  }

  /** handleDataReceived (lines 63-101) on the result of `JSON.parse`: `None` is a
      parse failure. Reading `.type` of `null` throws; like a parse failure the
      exception is caught and nothing is dispatched. */
  function Normalize(parsed: Option<Value>): (r: Option<Action>)
    ensures r.Some? <==> parsed.Some? && (IsWrapped(parsed.value) || HasTruthyAction(parsed.value))
    ensures r.Some? ==> "action" in r.value
    ensures r.Some? && IsWrapped(parsed.value) ==> r.value == Flatten(parsed.value)
    ensures r.Some? && !IsWrapped(parsed.value) ==> Obj(r.value) == parsed.value
  {
    match parsed
    case None => None
    case Some(v) =>
      if v == Null || v == Undefined then None
      else if IsWrapped(v) then Some(Flatten(v))
      else if v.Obj? && HasTruthyAction(v) then Some(v.fields)
      else None
  }

  /** The object `sendActionToAgent` serialises (lines 128-132). */
  function Envelope(action: string, payload: map<string, Value>): Value {
    Obj(map["type" := Str(ClientActionType), "action" := Str(action), "payload" := Obj(payload)])
  }

  /** A message published on the data channel. */
  datatype Packet = Packet(message: Value, reliable: bool, topic: string)

  /** Feeding an outbound envelope back through the normaliser yields
      `{action} ⊕ payload`; when the payload has no `action` member, the tag is the one sent. */
  lemma EnvelopeRoundTrip(action: string, payload: map<string, Value>)
    ensures Normalize(Some(Envelope(action, payload))) == Some(map["action" := Str(action)] + payload)
    ensures "action" !in payload ==>
      var a := Normalize(Some(Envelope(action, payload))).value;
      a.Keys == payload.Keys + {"action"} && a["action"] == Str(action) &&
      forall k :: k in payload ==> a[k] == payload[k]
  {
    var e := Envelope(action, payload);
    assert IsWrapped(e);
    assert Get(e, "payload") == Obj(payload);
  }

  /** The same round trip through `JSON.stringify` and `JSON.parse`, for a payload
      free of `undefined`. */
  lemma EnvelopeRoundTripOverWire(action: string, payload: map<string, Value>)
    requires IsJson(Obj(payload))
    ensures Normalize(Some(Wire(Envelope(action, payload)))) == Some(map["action" := Str(action)] + payload)
  {
    var e := Envelope(action, payload);
    assert IsJson(e) by {
      assert forall k :: k in e.fields ==> IsJson(e.fields[k]);
    }
    WireKeepsJson(e);
    EnvelopeRoundTrip(action, payload);
  }

  /** A wrapped message without a payload normalises to exactly `{action}`, even
      when `action` itself is missing. */
  lemma WrappedWithoutPayload(v: Value)
    requires IsWrapped(v) && Get(v, "payload") == Undefined
    ensures Normalize(Some(v)) == Some(map["action" := Get(v, "action")])
  {
    assert Spread(Get(v, "payload")) == map[];
    assert Flatten(v) == map["action" := Get(v, "action")];
  }

  /** How `connect` (lines 145-194) ends, abstracting the token request, the room
      and the microphone. */
  datatype Thrown = ErrorThrown(message: string) | OtherThrown

  datatype ConnectOutcome =
    | Joined                                  // token fetched, room joined, microphone enabled
    | TokenRejected(errorField: Option<string>) // non-OK token response, with its `error` member
    | Threw(thrown: Thrown)                   // a step threw before the microphone was on

  /** The `error` state `connect` leaves (lines 153-156, 185-187). */
  function ConnectError(outcome: ConnectOutcome): (r: Option<string>)
    ensures r.None? <==> outcome.Joined?
    ensures outcome.TokenRejected? && (outcome.errorField == None || outcome.errorField == Some("")) ==>
      r == Some("Failed to get voice token")
    ensures outcome.TokenRejected? && outcome.errorField.Some? && outcome.errorField.value != "" ==>
      r == outcome.errorField
    ensures outcome.Threw? && outcome.thrown.ErrorThrown? ==> r == Some(outcome.thrown.message)
    ensures outcome == Threw(OtherThrown) ==> r == Some("Connection failed")
  {
    match outcome
    case Joined => None
    case TokenRejected(field) =>
      Some(if field.Some? && field.value != "" then field.value else "Failed to get voice token")
    case Threw(ErrorThrown(m)) => Some(m)
    case Threw(OtherThrown) => Some("Connection failed")
  }

  /** The connection flags of the hook. */
  class VoiceSession {
    var isConnected: bool
    var isConnecting: bool
    var isMicEnabled: bool
    var error: Option<string>

    constructor ()
      ensures !isConnected && !isConnecting && !isMicEnabled && error == None
    {
      isConnected, isConnecting, isMicEnabled, error := false, false, false, None;
    }

    /** The room's Connected event (lines 46-49). */
    method OnConnected()
      modifies this
      ensures isConnected && error == None
      ensures isConnecting == old(isConnecting) && isMicEnabled == old(isMicEnabled)
    {
      isConnected := true;
      error := None;
    }

    /** The room's Disconnected event (lines 51-54). */
    method OnDisconnected()
      modifies this
      ensures !isConnected && !isMicEnabled
      ensures isConnecting == old(isConnecting) && error == old(error)
    {
      isConnected := false;
      isMicEnabled := false;
    }

    /** What `sendActionToAgent` (lines 120-141) publishes: nothing while not
        connected, otherwise the envelope, reliably, on the client-actions topic. */
    function Outbound(action: string, payload: map<string, Value>): (r: Option<Packet>)
      reads this
      ensures r.Some? <==> isConnected
      ensures r.Some? ==> r.value.reliable && r.value.topic == ClientActionsTopic
      ensures r.Some? ==> r.value.message == Envelope(action, payload)
      ensures r.Some? ==> Normalize(Some(r.value.message)) == Some(map["action" := Str(action)] + payload)
    {
      EnvelopeRoundTrip(action, payload);
      if isConnected then Some(Packet(Envelope(action, payload), true, ClientActionsTopic)) else None
    }

    /** `connect(userProfile)`. Whatever the outcome, `isConnecting` ends false;
        `error` is cleared and then set only on failure; the microphone flag is set
        only once the microphone is on. `profileMessage` is the `user_profile`
        envelope the delayed send publishes, present only for a non-empty profile
        after a successful join. `isConnected` is left to the room's events. */
    method Connect(userProfile: Option<Action>, outcome: ConnectOutcome) returns (profileMessage: Option<Value>)
      modifies this
      ensures !isConnecting
      ensures error == ConnectError(outcome)
      ensures isConnected == old(isConnected)
      ensures isMicEnabled == (outcome.Joined? || old(isMicEnabled))
      ensures profileMessage.Some? <==> outcome.Joined? && userProfile.Some? && |userProfile.value| > 0
      ensures profileMessage.Some? ==> profileMessage == Some(Envelope(UserProfileAction, userProfile.value))
    {
      isConnecting := true;
      error := None;
      profileMessage := None;
      match outcome {
        case Joined =>
          isMicEnabled := true;
          if userProfile.Some? && |userProfile.value| > 0 {
            profileMessage := Some(Envelope(UserProfileAction, userProfile.value));
          }
        case TokenRejected(_) =>
          error := ConnectError(outcome);
        case Threw(_) =>
          error := ConnectError(outcome);
      }
      isConnecting := false;
    }

    /** `toggleMic` (lines 200-204): the flag flips once the room accepts the
        change; when the room call fails the flag stays as it was. */
    method ToggleMic(accepted: bool)
      modifies this
      ensures isMicEnabled == (if accepted then !old(isMicEnabled) else old(isMicEnabled))
      ensures isConnected == old(isConnected) && isConnecting == old(isConnecting) && error == old(error)
    {
      var enabled := !isMicEnabled;
      if accepted {
        isMicEnabled := enabled;
      }
    }
  }
}
