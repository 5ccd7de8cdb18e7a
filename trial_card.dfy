/** The trial card (client/src/components/TrialCard.tsx): the CSS modifier made from
    a trial's status, the location summary line, and what a click selects. */
module TrialCard {
  import opened Wrappers
  import opened Ascii
  import opened JsValue
  import opened VoiceAgent

  /** The members of a `Trial` the card reads (client/src/types.ts). */
  datatype Trial = Trial(nct_id: string, title: string, phase: string, status: string, locations: seq<string>)

  predicate NoWhitespace(s: string) {
    forall i :: 0 <= i < |s| ==> !IsWhitespace(s[i])
  }

  /** `.replace(/\s+/g, '-')`: every maximal run of whitespace becomes one `-`. */
  function CollapseWhitespace(s: string): (r: string)
    ensures NoWhitespace(r)
    ensures |r| <= |s|
    ensures s != [] ==> r != []
    ensures forall i :: 0 <= i < |r| ==> r[i] == '-' || r[i] in s
    decreases |s|
  {
    if s == [] then []
    else if IsWhitespace(s[0]) then
      var rest := CollapseWhitespace(s[ContentStart(s)..]);
      assert forall i :: 0 <= i < |rest| ==> rest[i] == '-' || rest[i] in s by {
        forall c | c in s[ContentStart(s)..] ensures c in s { }
      }
      "-" + rest
    else
      var rest := CollapseWhitespace(s[1..]);
      assert forall i :: 0 <= i < |rest| ==> rest[i] == '-' || rest[i] in s by {
        forall c | c in s[1..] ensures c in s { }
      }
      [s[0]] + rest
  }

  /** A string without whitespace is left as it is. */
  lemma {:induction false} CollapseNoWhitespace(s: string)
    requires NoWhitespace(s)
    ensures CollapseWhitespace(s) == s
    decreases |s|
  {
    if s != [] {
      assert NoWhitespace(s[1..]) by {
        forall i | 0 <= i < |s[1..]| ensures !IsWhitespace(s[1..][i]) {
          assert s[1..][i] == s[i + 1];
        }
      }
      CollapseNoWhitespace(s[1..]);
    }
  }

  /** Where the leading whitespace of a concatenation ends. */
  lemma {:induction false} ContentStartAppend(a: string, b: string)
    ensures ContentStart(a) < |a| ==> ContentStart(a + b) == ContentStart(a)
    ensures ContentStart(a) == |a| ==> ContentStart(a + b) == |a| + ContentStart(b)
    decreases |a|
  {
    if a != [] && IsWhitespace(a[0]) {
      assert (a + b)[1..] == a[1..] + b;
      ContentStartAppend(a[1..], b);
    } else if a == [] {
      assert a + b == b;
    }
  }

  /** A whitespace-free word in front of a string is kept as it is in front of
      the collapsed string. */
  lemma {:induction false} CollapseAfterWord(a: string, rest: string)
    requires NoWhitespace(a)
    ensures CollapseWhitespace(a + rest) == a + CollapseWhitespace(rest)
    decreases |a|
  {
    if a == [] {
      assert a + rest == rest;
    } else {
      assert NoWhitespace(a[1..]) by {
        forall i | 0 <= i < |a[1..]| ensures !IsWhitespace(a[1..][i]) {
          assert a[1..][i] == a[i + 1];
        }
      }
      CollapseAfterWord(a[1..], rest);
      assert (a + rest)[0] == a[0] && (a + rest)[1..] == a[1..] + rest;
      assert [a[0]] + (a[1..] + CollapseWhitespace(rest)) == a + CollapseWhitespace(rest);
    }
  }

  /** A run of whitespace before a non-whitespace character is one `-`. */
  lemma {:induction false} CollapseRun(w: string, b: string)
    requires w != [] && forall i :: 0 <= i < |w| ==> IsWhitespace(w[i])
    requires b == [] || !IsWhitespace(b[0])
    ensures CollapseWhitespace(w + b) == "-" + CollapseWhitespace(b)
  {
    ContentStartAppend(w, b);
    assert (w + b)[|w|..] == b;
  }

  /** The status modifier (line 13): ASCII lower case, whitespace runs collapsed. */
  function StatusSlug(status: string): (r: string)
    ensures NoWhitespace(r)
    ensures forall i :: 0 <= i < |r| ==> !IsUpper(r[i])
    ensures |r| <= |status|
  {
    var lower := LowerCase(status);
    var r := CollapseWhitespace(lower);
    assert forall i :: 0 <= i < |r| ==> !IsUpper(r[i]) by {
      forall i | 0 <= i < |r| ensures !IsUpper(r[i]) {
        if r[i] != '-' {
          var j :| 0 <= j < |lower| && lower[j] == r[i];
        }
      }
    }
    r
  }

  /** A slug is its own slug, so the modifier names one class per status. */
  lemma {:induction false} SlugIdempotent(status: string)
    ensures StatusSlug(StatusSlug(status)) == StatusSlug(status)
  {
    var r := StatusSlug(status);
    assert LowerCase(r) == r;
    CollapseNoWhitespace(r);
  }

  /** Lower-casing works character by character, so it splits at any point. */
  lemma {:induction false} LowerCaseAppend(a: string, b: string)
    ensures LowerCase(a + b) == LowerCase(a) + LowerCase(b)
  {
    var l, r := LowerCase(a + b), LowerCase(a) + LowerCase(b);
    assert |l| == |r|;
    forall i | 0 <= i < |l| ensures l[i] == r[i] {
      if i < |a| { assert (a + b)[i] == a[i]; } else { assert (a + b)[i] == b[i - |a|]; }
    }
  }

  /** A run of whitespace before a whitespace-free word is one `-` before it. */
  lemma {:induction false} CollapseRunBeforeWord(w: string, b: string)
    requires NoWhitespace(b)
    requires w != [] && forall i :: 0 <= i < |w| ==> IsWhitespace(w[i])
    ensures CollapseWhitespace(w + b) == "-" + b
  {
    assert b == [] || !IsWhitespace(b[0]);
    CollapseRun(w, b);
    CollapseNoWhitespace(b);
  }

  /** Collapsing two whitespace-free words around a run of whitespace. */
  lemma {:induction false} CollapseTwoWords(a: string, w: string, b: string)
    requires a != [] && NoWhitespace(a) && NoWhitespace(b)
    requires w != [] && forall i :: 0 <= i < |w| ==> IsWhitespace(w[i])
    ensures CollapseWhitespace(a + (w + b)) == a + "-" + b
  {
    CollapseAfterWord(a, w + b);
    CollapseRunBeforeWord(w, b);
    assert a + ("-" + b) == a + "-" + b;
  }

  /** Two words separated by whitespace become two words joined by `-`. */
  lemma {:induction false} SlugOfTwoWords(a: string, w: string, b: string)
    requires a != [] && NoWhitespace(a) && NoWhitespace(b)
    requires w != [] && forall i :: 0 <= i < |w| ==> IsWhitespace(w[i])
    ensures StatusSlug(a + w + b) == LowerCase(a) + "-" + LowerCase(b)
  {
    var la, lw, lb := LowerCase(a), LowerCase(w), LowerCase(b);
    assert LowerCase(a + w + b) == la + (lw + lb) by {
      LowerCaseAppend(a + w, b);
      LowerCaseAppend(a, w);
    }
    assert NoWhitespace(la) && NoWhitespace(lb) by {
      forall i | 0 <= i < |la| ensures !IsWhitespace(la[i]) { }
      forall i | 0 <= i < |lb| ensures !IsWhitespace(lb[i]) { }
    }
    assert forall i :: 0 <= i < |lw| ==> IsWhitespace(lw[i]);
    CollapseTwoWords(la, lw, lb);
  }

  const Pin: string := "\U{1F4CD} "

  /** The location line (lines 22-26): absent without locations, otherwise the
      first location followed, when there are more, by how many. */
  function LocationSummary(locations: seq<string>): (r: Option<string>)
    ensures r.Some? <==> |locations| > 0
    ensures r.Some? ==> |r.value| >= |Pin + locations[0]| && r.value[..|Pin + locations[0]|] == Pin + locations[0]
    ensures |locations| == 1 ==> r == Some(Pin + locations[0])
  {
    if |locations| == 0 then None
    else
      var more := if |locations| > 1 then " +" + NatToString(|locations| - 1) + " more" else "";
      assert (Pin + locations[0] + more)[..|Pin + locations[0]|] == Pin + locations[0];
      assert |locations| == 1 ==> Pin + locations[0] + more == Pin + locations[0];
      Some(Pin + locations[0] + more)
  }

  /** With several locations, the number shown is how many locations follow the first. */
  lemma SummaryCountsTheRest(locations: seq<string>)
    requires |locations| > 1
    ensures var t := LocationSummary(locations).value;
      var start := |Pin + locations[0]| + 2;
      start <= |t| - 5 && t[start - 2..start] == " +" && t[|t| - 5..] == " more" &&
      IsDigits(t[start..|t| - 5]) && DigitsValue(t[start..|t| - 5]) + 1 == |locations|
  {
    var head, digits := Pin + locations[0], NatToString(|locations| - 1);
    var t := head + " +" + digits + " more";
    assert LocationSummary(locations).value == t;
    assert t[|head| + 2..|t| - 5] == digits;
    assert t[|head|..|head| + 2] == " +";
    assert t[|t| - 5..] == " more";
    NatToStringRoundTrip(|locations| - 1);
  }

  /** The card's onClick (line 10) hands its own `nct_id` to the panel's
      selection handler (client/src/components/VoiceAgentPanel.tsx:105-110), which
      reaches the agent as `trial_selected` with that `nct_id`. */
  lemma ClickReachesAgent(t: Trial)
    ensures Normalize(Some(Envelope("trial_selected", map["nct_id" := Str(t.nct_id)])))
      == Some(map["action" := Str("trial_selected"), "nct_id" := Str(t.nct_id)])
  {
    EnvelopeRoundTrip("trial_selected", map["nct_id" := Str(t.nct_id)]);
    assert map["action" := Str("trial_selected")] + map["nct_id" := Str(t.nct_id)]
        == map["action" := Str("trial_selected"), "nct_id" := Str(t.nct_id)];
  }
}
