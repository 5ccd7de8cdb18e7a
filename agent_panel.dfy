/** The agent-action reducer of the voice-agent panel
    (client/src/components/VoiceAgentPanel.tsx) and the panel's own transitions:
    starting the chat, selecting a trial and dismissing the two modals. */
module AgentPanel {
  import opened Wrappers
  import opened JsValue
  import opened VoiceAgent

  /** One additional fact about the patient, as the agent sent it. */
  datatype Criterion = Criterion(key: Value, value: Value)

  /** The six state cells of the panel. `trials` is whatever value the agent sent
      (normally an array); `matchCount` is `Undefined` until set; `detail` and
      `letter` are `None` while their modal is closed (`null` in the source). */
  datatype PanelState = PanelState(
    profile: Action,
    criteria: seq<Criterion>,
    trials: Value,
    matchCount: Value,
    detail: Option<Action>,
    letter: Option<Value>)

  const Initial: PanelState := PanelState(map[], [], Arr([]), Undefined, None, None)

  /** A member of the action, `action.<k>`. */
  function Field(a: Action, k: string): Value {
    Get(Obj(a), k)
  }

  /** The switch discriminant `action.action`; the cases compare it with `===`. */
  function Tag(a: Action): Value {
    Field(a, "action")
  }

  const KnownTags: set<Value> := {
    Str("add_criteria"), Str("show_trials"), Str("update_match_count"),
    Str("clear_trials"), Str("show_trial_details"), Str("show_referral_letter")
  }

  /** `prev.findIndex((c) => c.key === action.key)`. */
  function FirstKeyIndex(cs: seq<Criterion>, k: Value): (i: int)
    ensures -1 <= i < |cs|
    ensures i >= 0 ==> StrictEquals(cs[i].key, k)
    ensures forall j :: 0 <= j < |cs| && (i < 0 || j < i) ==> !StrictEquals(cs[j].key, k)
  {
    if cs == [] then -1
    else if StrictEquals(cs[0].key, k) then 0
    else
      var j := FirstKeyIndex(cs[1..], k);
      if j < 0 then -1 else j + 1
  }

  /** The `findIndex` loop. */
  method FindIndex(cs: seq<Criterion>, k: Value) returns (i: int)
    ensures i == FirstKeyIndex(cs, k)
  {
    i := 0;
    while i < |cs|
      invariant 0 <= i <= |cs|
      invariant forall j :: 0 <= j < i ==> !StrictEquals(cs[j].key, k)
    {
      if StrictEquals(cs[i].key, k) {
        return;
      }
      i := i + 1;
    }
    i := -1;
  }

  /** At most one criterion per key. */
  predicate KeysUnique(cs: seq<Criterion>) {
    forall i, j :: 0 <= i < j < |cs| ==> !StrictEquals(cs[i].key, cs[j].key)
  }

  /** The `add_criteria` update (lines 27-36): overwrite the first entry with the
      key, at its index, or append a new entry. */
  function Upsert(cs: seq<Criterion>, k: Value, v: Value): (r: seq<Criterion>)
    ensures |r| == |cs| || |r| == |cs| + 1
    ensures Criterion(k, v) in r
  {
    var i := FirstKeyIndex(cs, k);
    if i >= 0 then
      assert cs[i := Criterion(k, v)][i] == Criterion(k, v);
      cs[i := Criterion(k, v)]
    else
      assert (cs + [Criterion(k, v)])[|cs|] == Criterion(k, v);
      cs + [Criterion(k, v)]
  }

  /** A key already present is overwritten in place: same length, same position,
      every other entry unchanged. */
  lemma UpsertExistingKey(cs: seq<Criterion>, k: Value, v: Value, i: nat)
    requires KeysUnique(cs)
    requires i < |cs| && StrictEquals(cs[i].key, k)
    ensures |Upsert(cs, k, v)| == |cs|
    ensures Upsert(cs, k, v)[i] == Criterion(k, v)
    ensures forall j :: 0 <= j < |cs| && j != i ==> Upsert(cs, k, v)[j] == cs[j]
  {
  }

  /** A new key is appended at the end. */
  lemma UpsertNewKey(cs: seq<Criterion>, k: Value, v: Value)
    requires forall j :: 0 <= j < |cs| ==> !StrictEquals(cs[j].key, k)
    ensures Upsert(cs, k, v) == cs + [Criterion(k, v)]
  {
    assert FirstKeyIndex(cs, k) == -1;
  }

  /** Upserting keeps keys unique. */
  lemma UpsertKeepsKeysUnique(cs: seq<Criterion>, k: Value, v: Value)
    requires KeysUnique(cs)
    ensures KeysUnique(Upsert(cs, k, v))
  {
    var r := Upsert(cs, k, v);
    var m := FirstKeyIndex(cs, k);
    forall i, j | 0 <= i < j < |r| ensures !StrictEquals(r[i].key, r[j].key) {
      if m < 0 && j == |cs| {
        assert r[j].key == k && r[i] == cs[i];
      } else if i == m {
        assert r[i].key == k && r[j] == cs[j];
        assert !StrictEquals(cs[m].key, cs[j].key);
      } else if j == m {
        assert r[j].key == k && r[i] == cs[i];
        assert !StrictEquals(cs[i].key, cs[m].key);
      }
    }
  }

  /** Two upserts of the same (primitive) key leave exactly one entry, at the
      first one's position, holding the second value. */
  lemma UpsertTwice(cs: seq<Criterion>, k: Value, v1: Value, v2: Value)
    requires StrictEquals(k, k)
    ensures Upsert(Upsert(cs, k, v1), k, v2) == Upsert(cs, k, v2)
  {
    var once := Upsert(cs, k, v1);
    var m := FirstKeyIndex(cs, k);
    if m >= 0 {
      assert FirstKeyIndex(once, k) == m by {
        assert StrictEquals(once[m].key, k);
        assert forall j :: 0 <= j < m ==> once[j] == cs[j];
      }
    } else {
      assert FirstKeyIndex(once, k) == |cs| by {
        assert StrictEquals(once[|cs|].key, k);
        assert forall j :: 0 <= j < |cs| ==> once[j] == cs[j];
      }
      assert once[|cs| := Criterion(k, v2)] == cs + [Criterion(k, v2)];
    }
  }

  /** `action.payload?.count`. */
  function PayloadCount(a: Action): Value {
    Get(Field(a, "payload"), "count")
  }

  /** How many of the five agent-driven cells differ between two states. */
  function CellsChanged(s: PanelState, t: PanelState): nat {
    (if s.criteria != t.criteria then 1 else 0) +
    (if s.trials != t.trials then 1 else 0) +
    (if s.matchCount != t.matchCount then 1 else 0) +
    (if s.detail != t.detail then 1 else 0) +
    (if s.letter != t.letter then 1 else 0)
  }

  /** handleAgentAction (lines 20-77) as a function of the state. No action touches
      the profile, each changes at most one cell, and an unknown tag changes nothing. */
  function Reduce(s: PanelState, a: Action): (r: PanelState)
    ensures r.profile == s.profile
    ensures CellsChanged(s, r) <= 1
    ensures Tag(a) !in KnownTags ==> r == s
  {
    if Tag(a) == Str("add_criteria") then
      if Truthy(Field(a, "key")) && Truthy(Field(a, "value"))
      then s.(criteria := Upsert(s.criteria, Field(a, "key"), Field(a, "value")))
      else s
    else if Tag(a) == Str("show_trials") then
      if Truthy(Field(a, "trials")) then s.(trials := Field(a, "trials")) else s
    else if Tag(a) == Str("update_match_count") then
      if PayloadCount(a) != Undefined then s.(matchCount := PayloadCount(a)) else s
    else if Tag(a) == Str("clear_trials") then
      s.(trials := Arr([]))
    else if Tag(a) == Str("show_trial_details") then
      if Truthy(Field(a, "nct_id")) then s.(detail := Some(a)) else s
    else if Tag(a) == Str("show_referral_letter") then
      var p := Field(a, "payload");
      if Truthy(p) || Truthy(Field(a, "letter_html"))
      then s.(letter := Some(if Truthy(p) then p else Obj(a)))
      else s
    else
      s
  }

  /** Keys stay unique under every action. */
  lemma ReduceKeepsKeysUnique(s: PanelState, a: Action)
    requires KeysUnique(s.criteria)
    ensures KeysUnique(Reduce(s, a).criteria)
  {
    if Tag(a) == Str("add_criteria") && Truthy(Field(a, "key")) && Truthy(Field(a, "value")) {
      UpsertKeepsKeysUnique(s.criteria, Field(a, "key"), Field(a, "value"));
    }
  }

  /** `add_criteria` without a truthy `key` and `value` leaves the criteria alone. */
  lemma AddCriteriaNeedsKeyAndValue(s: PanelState, a: Action)
    requires Tag(a) == Str("add_criteria")
    requires !Truthy(Field(a, "key")) || !Truthy(Field(a, "value"))
    ensures Reduce(s, a) == s
  {
  }

  /** `show_trials` replaces the list whenever `trials` is truthy, so an empty
      array clears it; an absent `trials` changes nothing. */
  lemma ShowTrialsReplaces(s: PanelState, a: Action)
    requires Tag(a) == Str("show_trials")
    ensures Field(a, "trials").Arr? ==> Reduce(s, a) == s.(trials := Field(a, "trials"))
    ensures Field(a, "trials") == Undefined ==> Reduce(s, a) == s
  {
  }

  /** `clear_trials` empties the list whatever it held, and changes nothing else. */
  lemma ClearTrials(s: PanelState, a: Action)
    requires Tag(a) == Str("clear_trials")
    ensures Reduce(s, a) == s.(trials := Arr([]))
  {
  }

  /** `clear_trials` followed by `show_trials([t])` shows `[t]`, whatever came before. */
  lemma ClearThenShow(s: PanelState, clear: Action, show: Action, t: Value)
    requires Tag(clear) == Str("clear_trials")
    requires Tag(show) == Str("show_trials") && Field(show, "trials") == Arr([t])
    ensures Reduce(Reduce(s, clear), show).trials == Arr([t])
    ensures Reduce(Reduce(s, clear), show) == s.(trials := Arr([t]))
  {
  }

  /** Applying the same action twice is applying it once, except for an
      `add_criteria` whose key is an array or object (never `===` to itself once
      reparsed, so it is appended again). */
  lemma ReduceIdempotent(s: PanelState, a: Action)
    requires Tag(a) == Str("add_criteria") ==> StrictEquals(Field(a, "key"), Field(a, "key"))
    ensures Reduce(Reduce(s, a), a) == Reduce(s, a)
  {
    if Tag(a) == Str("add_criteria") && Truthy(Field(a, "key")) && Truthy(Field(a, "value")) {
      UpsertTwice(s.criteria, Field(a, "key"), Field(a, "value"), Field(a, "value"));
    }
  }

  /** `update_match_count` sets the count to any defined `payload.count`, `null`
      and non-numbers included, and otherwise leaves it. */
  lemma UpdateMatchCount(s: PanelState, a: Action)
    requires Tag(a) == Str("update_match_count")
    ensures PayloadCount(a) != Undefined ==> Reduce(s, a).matchCount == PayloadCount(a)
    ensures PayloadCount(a) == Undefined ==> Reduce(s, a) == s
  {
  }

  /** For a wrapped message the payload has already been spread away, so
      `update_match_count` only fires when the payload itself carries a `payload`. */
  lemma WrappedMatchCountNeedsNestedPayload(s: PanelState, v: Value)
    requires IsWrapped(v)
    requires "payload" !in Spread(Get(v, "payload"))
    ensures Reduce(s, Flatten(v)).matchCount == s.matchCount
  {
    assert "payload" !in Flatten(v);
  }

  /** `show_trial_details` opens the detail with the whole action exactly when
      `nct_id` is truthy, and never touches the trial list. */
  lemma ShowTrialDetails(s: PanelState, a: Action)
    requires Tag(a) == Str("show_trial_details")
    ensures Reduce(s, a).trials == s.trials
    ensures Reduce(s, a).detail == (if Truthy(Field(a, "nct_id")) then Some(a) else s.detail)
  {
  }

  /** `show_referral_letter`: a truthy payload becomes the letter; otherwise a
      truthy `letter_html` makes the action itself the letter; otherwise nothing changes. */
  lemma ShowReferralLetter(s: PanelState, a: Action)
    requires Tag(a) == Str("show_referral_letter")
    ensures Truthy(Field(a, "payload")) ==> Reduce(s, a).letter == Some(Field(a, "payload"))
    ensures !Truthy(Field(a, "payload")) && Truthy(Field(a, "letter_html")) ==> Reduce(s, a).letter == Some(Obj(a))
    ensures !Truthy(Field(a, "payload")) && !Truthy(Field(a, "letter_html")) ==> Reduce(s, a) == s
  {
  }

  /** The panel's state cells. */
  class Panel {
    var userProfile: Action
    var additionalCriteria: seq<Criterion>
    var trials: Value
    var matchingTrialsCount: Value
    var selectedTrialDetail: Option<Action>
    var referralLetter: Option<Value>

    function State(): PanelState
      reads this
    {
      PanelState(userProfile, additionalCriteria, trials, matchingTrialsCount,
                 selectedTrialDetail, referralLetter)
    }

    /** Criteria keys are unique. */
    ghost predicate Valid()
      reads this
    {
      KeysUnique(additionalCriteria)
    }

    constructor ()
      ensures State() == Initial && Valid()
    {
      userProfile := map[];
      additionalCriteria := [];
      trials := Arr([]);
      matchingTrialsCount := Undefined;
      selectedTrialDetail := None;
      referralLetter := None;
    }

    /** handleAgentAction (lines 20-77). */
    method HandleAgentAction(action: Action)
      requires Valid()
      modifies this
      ensures Valid()
      ensures State() == Reduce(old(State()), action)
    {
      ReduceKeepsKeysUnique(State(), action);
      var tag := Field(action, "action");
      if tag == Str("add_criteria") {
        var key, value := Field(action, "key"), Field(action, "value");
        if Truthy(key) && Truthy(value) {
          var existing := FindIndex(additionalCriteria, key);
          if existing >= 0 {
            var updated := additionalCriteria;
            updated := updated[existing := Criterion(key, value)];
            additionalCriteria := updated;
          } else {
            additionalCriteria := additionalCriteria + [Criterion(key, value)];
          }
        }
      } else if tag == Str("show_trials") {
        if Truthy(Field(action, "trials")) {
          trials := Field(action, "trials");
        }
      } else if tag == Str("update_match_count") {
        var count := Get(Field(action, "payload"), "count");
        if count != Undefined {
          matchingTrialsCount := count;
        }
      } else if tag == Str("clear_trials") {
        trials := Arr([]);
      } else if tag == Str("show_trial_details") {
        if Truthy(Field(action, "nct_id")) {
          selectedTrialDetail := Some(action);
        }
      } else if tag == Str("show_referral_letter") {
        var payload := Field(action, "payload");
        if Truthy(payload) || Truthy(Field(action, "letter_html")) {
          referralLetter := Some(if Truthy(payload) then payload else Obj(action));
        }
      }
    }

    /** The hook's data handler feeding the panel's action handler: a message
        that does not normalise to an action leaves every cell as it was. */
    method HandleDataReceived(parsed: Option<Value>)
      requires Valid()
      modifies this
      ensures Valid()
      ensures Normalize(parsed).None? ==> State() == old(State())
      ensures Normalize(parsed).Some? ==> State() == Reduce(old(State()), Normalize(parsed).value)
    {
      var action := Normalize(parsed);
      if action.Some? {
        HandleAgentAction(action.value);
      }
    }

    /** handleStartChat (lines 97-103): store the profile, then connect with it. */
    method HandleStartChat(profile: Action, session: VoiceSession, outcome: ConnectOutcome)
      returns (profileMessage: Option<Value>)
      modifies this, session
      ensures State() == old(State()).(profile := profile)
      ensures !session.isConnecting && session.error == ConnectError(outcome)
      ensures session.isConnected == old(session.isConnected)
      ensures session.isMicEnabled == (outcome.Joined? || old(session.isMicEnabled))
      ensures profileMessage.Some? <==> outcome.Joined? && |profile| > 0
      ensures profileMessage.Some? ==> profileMessage == Some(Envelope(UserProfileAction, profile))
    {
      userProfile := profile;
      profileMessage := session.Connect(Some(profile), outcome);
    }

    /** handleSelectTrial (lines 105-110): a clicked card's `nct_id` goes to the
        agent as `trial_selected`. */
    method HandleSelectTrial(nctId: string, session: VoiceSession) returns (packet: Option<Packet>)
      ensures packet.Some? <==> session.isConnected
      ensures packet.Some? ==> packet.value.reliable && packet.value.topic == ClientActionsTopic
      ensures packet.Some? ==>
        Normalize(Some(packet.value.message)) == Some(map["action" := Str("trial_selected"), "nct_id" := Str(nctId)])
    {
      packet := session.Outbound("trial_selected", map["nct_id" := Str(nctId)]);
      assert map["action" := Str("trial_selected")] + map["nct_id" := Str(nctId)]
          == map["action" := Str("trial_selected"), "nct_id" := Str(nctId)];
    }

    /** The trial-detail modal's onClose (line 234). */
    method CloseTrialDetail()
      modifies this
      ensures State() == old(State()).(detail := None)
    {
      selectedTrialDetail := None;
    }

    /** The referral-letter modal's onClose (line 242). */
    method CloseReferralLetter()
      modifies this
      ensures State() == old(State()).(letter := None)
    {
      referralLetter := None;
    }
  }
}
