/** The profile sidebar (client/src/components/ProfileSidebar.tsx): the labels of
    additional criteria, when the empty state shows and when the match count shows. */
module ProfileSidebar {
  import opened JsValue
  import opened Ascii
  import opened AgentPanel
  import opened IntakeForm
  import opened VoiceAgent

  /** The fixed labels of `formatLabel` (lines 5-21). */
  const LabelMap: map<string, string> := map[
    "cancerType" := "Cancer Type",
    "cancer_type" := "Cancer Type",
    "stage" := "Stage",
    "priorTreatments" := "Prior Treatments",
    "prior_treatments" := "Prior Treatments",
    "biomarkers" := "Biomarkers",
    "location" := "Location",
    "age" := "Age",
    "gender" := "Gender",
    "diagnosis" := "Diagnosis",
    "treatment_history" := "Treatment History",
    "current_medications" := "Current Medications",
    "allergies" := "Allergies",
    "ecog_status" := "ECOG Status",
    "genetic_markers" := "Genetic Markers"
  ]

  /** `.replace(/_/g, ' ')`. */
  function UnderscoresToSpaces(s: string): (r: string)
    ensures |r| == |s|
    ensures forall i :: 0 <= i < |s| ==> r[i] == (if s[i] == '_' then ' ' else s[i])
    ensures '_' !in r
  {
    if s == [] then [] else [if s[0] == '_' then ' ' else s[0]] + UnderscoresToSpaces(s[1..])
  }

  /** Every uppercase letter after the first character follows a space. */
  predicate UpperAfterSpace(s: string) {
    forall i :: 0 < i < |s| && IsUpper(s[i]) ==> s[i - 1] == ' '
  }

  /** `.replace(/([A-Z])/g, ' $1')`: a space before every uppercase letter. */
  function SpaceBeforeUpper(s: string): (r: string)
    ensures UpperAfterSpace(r) && (r != [] ==> !IsUpper(r[0]))
    ensures '_' !in s ==> '_' !in r
    ensures s != [] && !IsUpper(s[0]) ==> r != [] && r[0] == s[0]
    ensures s != [] && IsUpper(s[0]) ==> r != [] && r[0] == ' '
  {
    if s == [] then []
    else
      var rest := SpaceBeforeUpper(s[1..]);
      var head := if IsUpper(s[0]) then [' ', s[0]] else [s[0]];
      assert forall i :: |head| <= i < |head + rest| ==> (head + rest)[i] == rest[i - |head|];
      head + rest
  }

  /** The replacement works character by character: a lone character is kept,
      with a space put before it when it is an uppercase letter ... */
  lemma {:induction false} SpaceBeforeUpperChar(c: char)
    ensures SpaceBeforeUpper([c]) == if IsUpper(c) then [' ', c] else [c]
  {
    assert [c][1..] == [];
  }

  /** ... and a string is the concatenation of its characters' replacements. */
  lemma {:induction false} SpaceBeforeUpperAppend(a: string, b: string)
    ensures SpaceBeforeUpper(a + b) == SpaceBeforeUpper(a) + SpaceBeforeUpper(b)
  {
    if a == [] {
      assert a + b == b;
    } else {
      assert (a + b)[0] == a[0] && (a + b)[1..] == a[1..] + b;
      SpaceBeforeUpperAppend(a[1..], b);
    }
  }

  /** The characters of `s` other than whitespace and underscores: the words a
      key and its label have in common. */
  function Visible(s: string): (r: string)
    ensures |r| <= |s|
    ensures forall i :: 0 <= i < |r| ==> !IsWhitespace(r[i]) && r[i] != '_'
  {
    if s == [] then []
    else (if IsWhitespace(s[0]) || s[0] == '_' then [] else [s[0]]) + Visible(s[1..])
  }

  /** The visible characters of a concatenation are those of its parts. */
  lemma {:induction false} VisibleAppend(a: string, b: string)
    ensures Visible(a + b) == Visible(a) + Visible(b)
  {
    if a == [] {
      assert a + b == b;
    } else {
      assert (a + b)[0] == a[0] && (a + b)[1..] == a[1..] + b;
      VisibleAppend(a[1..], b);
    }
  }

  /** Whitespace has no visible characters. */
  lemma {:induction false} VisibleOfWhitespace(s: string)
    requires forall i :: 0 <= i < |s| ==> IsWhitespace(s[i])
    ensures Visible(s) == []
  {
    if s != [] {
      VisibleOfWhitespace(s[1..]);
    }
  }

  /** Turning underscores into spaces keeps the visible characters. */
  lemma {:induction false} VisibleUnderscores(s: string)
    ensures Visible(UnderscoresToSpaces(s)) == Visible(s)
  {
    if s != [] {
      var u := UnderscoresToSpaces(s);
      assert u == [u[0]] + UnderscoresToSpaces(s[1..]);
      VisibleAppend([u[0]], UnderscoresToSpaces(s[1..]));
      VisibleUnderscores(s[1..]);
      VisibleAppend([s[0]], s[1..]);
      assert s == [s[0]] + s[1..];
    }
  }

  /** Putting spaces before capitals keeps the visible characters, capitals included. */
  lemma {:induction false} VisibleSpaceBeforeUpper(s: string)
    ensures Visible(SpaceBeforeUpper(s)) == Visible(s)
  {
    if s != [] {
      assert s == [s[0]] + s[1..];
      SpaceBeforeUpperAppend([s[0]], s[1..]);
      SpaceBeforeUpperChar(s[0]);
      VisibleAppend(SpaceBeforeUpper([s[0]]), SpaceBeforeUpper(s[1..]));
      VisibleAppend([s[0]], s[1..]);
      VisibleSpaceBeforeUpper(s[1..]);
    }
  }

  /** Trimming keeps the visible characters. */
  lemma {:induction false} VisibleTrim(s: string)
    ensures Visible(Trim(s)) == Visible(s)
  {
    var lo, hi := ContentStart(s), ContentEnd(s);
    assert s == s[..lo] + s[lo..hi] + s[hi..];
    VisibleAppend(s[..lo] + s[lo..hi], s[hi..]);
    VisibleAppend(s[..lo], s[lo..hi]);
    VisibleOfWhitespace(s[..lo]);
    VisibleOfWhitespace(s[hi..]);
  }

  /** `.replace(/^./, (str) => str.toUpperCase())`: `.` matches any character but a
      line terminator. */
  function UpperFirst(s: string): (r: string)
    ensures |r| == |s|
    ensures forall i :: 0 < i < |s| ==> r[i] == s[i]
    ensures s != [] ==> r[0] == (if s[0] == '\n' || s[0] == '\r' then s[0] else ToUpper(s[0]))
    ensures UpperAfterSpace(s) ==> UpperAfterSpace(r)
    ensures '_' !in s ==> '_' !in r
  {
    if s != [] && s[0] != '\n' && s[0] != '\r' then [ToUpper(s[0])] + s[1..] else s
  }

  /** Trimming keeps every uppercase letter that is not first after its space. */
  lemma {:induction false} TrimKeepsUpperAfterSpace(s: string)
    requires UpperAfterSpace(s)
    ensures UpperAfterSpace(Trim(s))
  {
    var r, lo := Trim(s), ContentStart(s);
    forall i | 0 < i < |r| && IsUpper(r[i]) ensures r[i - 1] == ' ' {
      assert r[i] == s[lo + i] && r[i - 1] == s[lo + i - 1];
    }
  }

  /** The fallback of `formatLabel` (lines 28-32). It has no underscore, no
      surrounding whitespace, a space before every uppercase letter that is not
      first, and an uppercase first letter when the key starts with a lowercase one. */
  function FallbackLabel(key: string): (r: string)
    ensures '_' !in r
    ensures Trimmed(r)
    ensures UpperAfterSpace(r)
    ensures key != "" && IsLower(key[0]) ==> r != "" && r[0] == ToUpper(key[0])
  {
    var a := UnderscoresToSpaces(key);
    var b := SpaceBeforeUpper(a);
    var c := UpperFirst(b);
    var r := Trim(c);
    TrimKeepsUpperAfterSpace(c);
    TrimAddsNothing(c, '_');
    if key != "" && IsLower(key[0]) then
      FirstLetterUpperCased(key);
      TrimKeepsVisibleStart(c);
      r
    else
      r
  }

  /** A lower-case first letter of the key is the upper-cased first letter
      before the trim. */
  lemma {:induction false} FirstLetterUpperCased(key: string)
    requires key != "" && IsLower(key[0])
    ensures var b := SpaceBeforeUpper(UnderscoresToSpaces(key));
      b != [] && b[0] == key[0] && UpperFirst(b) == [ToUpper(key[0])] + b[1..]
    ensures var c := UpperFirst(SpaceBeforeUpper(UnderscoresToSpaces(key)));
      c != [] && c[0] == ToUpper(key[0]) && !IsWhitespace(c[0])
  {
    var a := UnderscoresToSpaces(key);
    assert a[0] == key[0];
    var b := SpaceBeforeUpper(a);
    assert b[0] == key[0];
  }

  /** Trimming brings in no character that was not there. */
  lemma {:induction false} TrimAddsNothing(s: string, ch: char)
    requires ch !in s
    ensures ch !in Trim(s)
  {
    var t := Trim(s);
    forall i | 0 <= i < |t| ensures t[i] != ch {
      assert t[i] == s[ContentStart(s) + i];
    }
  }

  /** A string that starts with a visible character keeps it when trimmed. */
  lemma {:induction false} TrimKeepsVisibleStart(s: string)
    requires s != [] && !IsWhitespace(s[0])
    ensures Trim(s) != [] && Trim(s)[0] == s[0]
  {
    assert ContentStart(s) == 0;
  }

  /** The fallback label keeps the key's words: its characters other than
      whitespace and underscores are the key's, with a lowercase first letter
      upper-cased. */
  lemma {:induction false} FallbackLabelWords(key: string)
    ensures Visible(FallbackLabel(key)) == Visible(Capitalized(key))
  {
    assert FallbackLabel(key) == Trim(UpperFirst(SpaceBeforeUpper(UnderscoresToSpaces(key))));
    LabelWords(key);
  }

  /** The key with a lowercase first letter made uppercase. */
  function Capitalized(key: string): (r: string)
    ensures |r| == |key|
  {
    if key != [] && IsLower(key[0]) then [ToUpper(key[0])] + key[1..] else key
  }

  /** The fallback's three replacements and the trim keep the key's visible
      characters, with only the first one upper-cased. */
  lemma {:induction false} LabelWords(key: string)
    ensures Visible(Trim(UpperFirst(SpaceBeforeUpper(UnderscoresToSpaces(key))))) == Visible(Capitalized(key))
  {
    var a := UnderscoresToSpaces(key);
    var b := SpaceBeforeUpper(a);
    var c := UpperFirst(b);
    VisibleTrim(c);
    VisibleUnderscores(key);
    VisibleSpaceBeforeUpper(a);
    if key != [] && IsLower(key[0]) {
      FirstLetterUpperCased(key);
      FirstUpperCased(key, b, c);
    } else {
      UpperFirstKeeps(key, b);
    }
  }

  /** When the key does not start with a lower-case letter, neither does the
      spaced key, and the upper-casing step changes nothing. */
  lemma {:induction false} UpperFirstKeeps(key: string, b: string)
    requires !(key != [] && IsLower(key[0])) && b == SpaceBeforeUpper(UnderscoresToSpaces(key))
    ensures UpperFirst(b) == b && Capitalized(key) == key
  {
    if b != [] {
      var a := UnderscoresToSpaces(key);
      assert a != [] && a[0] == (if key[0] == '_' then ' ' else key[0]);
      assert !IsLower(b[0]);
      assert ToUpper(b[0]) == b[0];
      assert [b[0]] + b[1..] == b;
    }
  }

  /** Upper-casing a lowercase first character upper-cases the first visible one. */
  lemma {:induction false} FirstUpperCased(key: string, b: string, c: string)
    requires key != [] && IsLower(key[0]) && b != [] && b[0] == key[0]
    requires Visible(b) == Visible(key) && c == [ToUpper(key[0])] + b[1..]
    ensures Visible(c) == Visible(Capitalized(key))
  {
    var u := ToUpper(key[0]);
    assert Visible(b[1..]) == Visible(key[1..]) by {
      assert b == [b[0]] + b[1..];
      assert key == [key[0]] + key[1..];
      VisibleAppend([b[0]], b[1..]);
      VisibleAppend([key[0]], key[1..]);
      assert [key[0]][1..] == [];
      assert Visible([key[0]]) == [key[0]];
      var x, y := Visible(b[1..]), Visible(key[1..]);
      assert ([key[0]] + x)[1..] == x && ([key[0]] + y)[1..] == y;
    }
    assert [u][1..] == [];
    assert Visible([u]) == [u];
    VisibleAppend([u], b[1..]);
    VisibleAppend([u], key[1..]);
  }

  /** A label as `formatLabel` as written produces it: `labelMap[key]` reads
      inherited members too, so for the names on `Object.prototype` the truthy
      result is a function or object, not text. */
  datatype Label = Text(text: string) | InheritedMember(name: string)

  /** The members every plain object inherits from `Object.prototype`. */
  const ObjectPrototypeMembers: set<string> := {
    "constructor", "hasOwnProperty", "isPrototypeOf", "propertyIsEnumerable",
    "toLocaleString", "toString", "valueOf", "__proto__",
    "__defineGetter__", "__defineSetter__", "__lookupGetter__", "__lookupSetter__"
  }

  /** `formatLabel` (lines 4-33) as written. */
  function FormatLabelAsWritten(key: string): (r: Label)
    ensures key in LabelMap ==> r == Text(LabelMap[key])
    ensures key !in LabelMap && key !in ObjectPrototypeMembers ==> r == Text(FallbackLabel(key))
  {
    if key in LabelMap then Text(LabelMap[key])
    else if key in ObjectPrototypeMembers then InheritedMember(key)
    else Text(FallbackLabel(key))
  }

  /** A criterion keyed `toString` or `__proto__` gets no textual label. */
  lemma AsWrittenInheritedKeys()
    ensures !FormatLabelAsWritten("toString").Text?
    ensures !FormatLabelAsWritten("__proto__").Text?
  {
  }

  /** `formatLabel` with an own-key lookup: a mapped key gets its label, every
      other key its fallback; the two spellings of cancer type and of prior
      treatments share a label. */
  function FormatLabel(key: string): (r: string)
    ensures key in LabelMap ==> r == LabelMap[key]
    ensures key !in LabelMap ==> r == FallbackLabel(key)
  {
    if key in LabelMap then LabelMap[key] else FallbackLabel(key)
  }

  /** The corrected label agrees with the source everywhere the source yields text. */
  lemma {:induction false} FormatLabelAgrees(key: string)
    ensures FormatLabelAsWritten(key).Text? ==> FormatLabelAsWritten(key).text == FormatLabel(key)
    ensures key !in ObjectPrototypeMembers ==> FormatLabelAsWritten(key) == Text(FormatLabel(key))
  {
  }

  /** A string without capitals gets no spaces. */
  lemma {:induction false} SpaceBeforeUpperNoUpper(s: string)
    requires forall i :: 0 <= i < |s| ==> !IsUpper(s[i])
    ensures SpaceBeforeUpper(s) == s
  {
    if s != [] {
      SpaceBeforeUpperNoUpper(s[1..]);
      assert s == [s[0]] + s[1..];
    }
  }

  /** Replacing underscores works character by character. */
  lemma {:induction false} UnderscoresToSpacesAppend(a: string, b: string)
    ensures UnderscoresToSpaces(a + b) == UnderscoresToSpaces(a) + UnderscoresToSpaces(b)
  {
    if a == [] {
      assert a + b == b;
    } else {
      assert (a + b)[0] == a[0] && (a + b)[1..] == a[1..] + b;
      UnderscoresToSpacesAppend(a[1..], b);
    }
  }

  /** Lower-case letters are left alone by every step but the capitalisation. */
  predicate LowerWord(s: string) {
    s != [] && forall i :: 0 <= i < |s| ==> IsLower(s[i])
  }

  /** Capitalising and trimming a string that starts with a lower-case letter
      and ends in a visible character only upper-cases that letter. */
  lemma {:induction false} CapitalizedTrimmed(s: string)
    requires s != [] && IsLower(s[0]) && !IsWhitespace(s[|s| - 1])
    ensures Trim(UpperFirst(s)) == [ToUpper(s[0])] + s[1..]
  {
    var u := UpperFirst(s);
    assert u == [ToUpper(s[0])] + s[1..];
    assert !IsWhitespace(u[0]) && !IsWhitespace(u[|u| - 1]);
    assert ContentStart(u) == 0 && ContentEnd(u) == |u|;
    assert u[0..|u|] == u;
  }

  /** A lower-case word followed by a space and more words is only capitalised. */
  lemma {:induction false} CapitalizedPhrase(a: string, b: string)
    requires LowerWord(a) && b != [] && !IsWhitespace(b[|b| - 1])
    ensures Trim(UpperFirst(a + " " + b)) == [ToUpper(a[0])] + a[1..] + " " + b
  {
    var tail := a[1..] + " " + b;
    assert tail[|tail| - 1] == b[|b| - 1];
    CapitalizedWord(a[0], tail);
    HeadTail(a);
    SpacedRegroup(a[0], a[1..], b);
    SpacedRegroup(ToUpper(a[0]), a[1..], b);
  }

  /** A non-empty string is its head before its tail. */
  lemma HeadTail(x: string)
    requires x != []
    ensures x == [x[0]] + x[1..]
  {
  }

  /** The words after a leading character, regrouped. */
  lemma SpacedRegroup(x: char, y: string, z: string)
    ensures [x] + (y + " " + z) == [x] + y + " " + z
  {
  }

  /** A lower-case letter before a string that ends in a visible character. */
  lemma {:induction false} CapitalizedWord(x: char, tail: string)
    requires IsLower(x) && tail != [] && !IsWhitespace(tail[|tail| - 1])
    ensures Trim(UpperFirst([x] + tail)) == [ToUpper(x)] + tail
  {
    var s := [x] + tail;
    assert s[0] == x && s[1..] == tail && s[|s| - 1] == tail[|tail| - 1];
    CapitalizedTrimmed(s);
  }

  /** A lower-case word has neither underscores nor capitals. */
  lemma {:induction false} LowerWordKept(s: string)
    requires LowerWord(s)
    ensures UnderscoresToSpaces(s) == s && SpaceBeforeUpper(s) == s
  {
    SpaceBeforeUpperNoUpper(s);
  }

  /** The fallback of a key the map does not know, its first two steps done. */
  lemma {:induction false} FallbackOf(key: string, b: string)
    requires key !in LabelMap && SpaceBeforeUpper(UnderscoresToSpaces(key)) == b
    ensures FormatLabel(key) == Trim(UpperFirst(b))
  {
  }

  /** The underscore between two lower-case words becomes a space. */
  lemma {:induction false} SnakeCaseSpaced(a: string, b: string)
    requires LowerWord(a) && LowerWord(b)
    ensures UnderscoresToSpaces(a + "_" + b) == a + " " + b
  {
    UnderscoresToSpacesAppend(a + "_", b);
    UnderscoresToSpacesAppend(a, "_");
    LowerWordKept(a);
    LowerWordKept(b);
    assert UnderscoresToSpaces("_") == " ";
  }

  /** Two lower-case words and a space have no capital for a space to go before. */
  lemma {:induction false} SpacedWordsKept(a: string, b: string)
    requires LowerWord(a) && LowerWord(b)
    ensures SpaceBeforeUpper(a + " " + b) == a + " " + b
  {
    SpaceBeforeUpperAppend(a + " ", b);
    SpaceBeforeUpperAppend(a, " ");
    LowerWordKept(a);
    LowerWordKept(b);
    SpaceBeforeUpperChar(' ');
  }

  /** A lower-case word and a capitalised one have no underscore. */
  lemma {:induction false} CamelCaseKept(a: string, u: char, b: string)
    requires LowerWord(a) && IsUpper(u) && LowerWord(b)
    ensures UnderscoresToSpaces(a + [u] + b) == a + [u] + b
  {
    UnderscoresToSpacesAppend(a + [u], b);
    UnderscoresToSpacesAppend(a, [u]);
    LowerWordKept(a);
    LowerWordKept(b);
    assert UnderscoresToSpaces([u]) == [u];
  }

  /** A space goes before the capital between a lower-case word and the rest. */
  lemma {:induction false} CamelCaseSpaced(a: string, u: char, b: string)
    requires LowerWord(a) && IsUpper(u) && LowerWord(b)
    ensures SpaceBeforeUpper(a + [u] + b) == a + " " + ([u] + b)
  {
    SpaceBeforeUpperAppend(a + [u], b);
    SpaceBeforeUpperAppend(a, [u]);
    LowerWordKept(a);
    LowerWordKept(b);
    SpaceBeforeUpperChar(u);
  }

  /** A snake_case key of two lower-case words the map does not know: the
      underscore becomes a space and the first letter is upper-cased. */
  lemma {:induction false} SnakeCaseLabel(key: string, a: string, b: string)
    requires key !in LabelMap && key == a + "_" + b && LowerWord(a) && LowerWord(b)
    ensures FormatLabel(key) == [ToUpper(a[0])] + a[1..] + " " + b
  {
    SnakeCaseSpaced(a, b);
    SpacedWordsKept(a, b);
    FallbackOf(key, a + " " + b);
    CapitalizedPhrase(a, b);
  }

  /** A camelCase key of a lower-case word and a capitalised one the map does
      not know: a space goes before the capital and the first letter is upper-cased. */
  lemma {:induction false} CamelCaseLabel(key: string, a: string, u: char, b: string)
    requires key !in LabelMap && key == a + [u] + b && LowerWord(a) && IsUpper(u) && LowerWord(b)
    ensures FormatLabel(key) == [ToUpper(a[0])] + a[1..] + " " + ([u] + b)
  {
    var ub := [u] + b;
    CamelCaseKept(a, u, b);
    CamelCaseSpaced(a, u, b);
    FallbackOf(key, a + " " + ub);
    assert ub[|ub| - 1] == b[|b| - 1];
    CapitalizedPhrase(a, ub);
  }

  /** The words of the key "tumor_size". */
  lemma TumorSizeWords()
    ensures "tumor_size" !in LabelMap && "tumor_size" == "tumor" + "_" + "size"
    ensures LowerWord("tumor") && LowerWord("size")
    ensures [ToUpper("tumor"[0])] + "tumor"[1..] + " " + "size" == "Tumor size"
  {
  }

  /** A snake_case key the map does not know. */
  lemma TumorSizeLabel()
    ensures FormatLabel("tumor_size") == "Tumor size"
  {
    TumorSizeWords();
    SnakeCaseLabel("tumor_size", "tumor", "size");
  }

  /** The words of the key "toString". */
  lemma ToStringWords()
    ensures "toString" !in LabelMap && "toString" == "to" + ['S'] + "tring"
    ensures LowerWord("to") && IsUpper('S') && LowerWord("tring")
    ensures [ToUpper("to"[0])] + "to"[1..] + " " + (['S'] + "tring") == "To String"
  {
  }

  /** A camelCase key the map does not know, one the source mislabels. */
  lemma ToStringLabel()
    ensures FormatLabel("toString") == "To String"
  {
    ToStringWords();
    CamelCaseLabel("toString", "to", 'S', "tring");
  }

  /** The two spellings the agent and the form use share a label. */
  lemma SynonymLabels()
    ensures FormatLabel("cancerType") == FormatLabel("cancer_type") == "Cancer Type"
    ensures FormatLabel("priorTreatments") == FormatLabel("prior_treatments") == "Prior Treatments"
  {
    assert LabelMap["cancerType"] == "Cancer Type" && LabelMap["cancer_type"] == "Cancer Type";
    assert LabelMap["priorTreatments"] == "Prior Treatments" && LabelMap["prior_treatments"] == "Prior Treatments";
  }

  /** `v && v.length > 0` for the list members of a profile. Only arrays and
      strings count as non-empty: an object whose own `length` member is a
      positive number would pass in JavaScript but is treated as empty here.
      A form-built profile holds arrays there (`StrList`), so this does not arise. */
  predicate NonEmptyList(v: Value) {
    match v
    case Arr(xs) => |xs| > 0
    case Str(s) => |s| > 0
    case _ => false
  }

  /** `hasProfile` (lines 46-51). `name` plays no part. */
  predicate HasProfile(profile: map<string, Value>) {
    var p := Obj(profile);
    Truthy(Get(p, "location")) || Truthy(Get(p, "cancerType")) || Truthy(Get(p, "stage"))
    || NonEmptyList(Get(p, "priorTreatments")) || NonEmptyList(Get(p, "biomarkers"))
  }

  /** The empty state (lines 53-55). */
  predicate ShowsEmptyState(profile: map<string, Value>, criteria: seq<Criterion>) {
    !HasProfile(profile) && |criteria| == 0
  }

  /** The match count line (line 119): shown whenever the count is defined. */
  predicate ShowsMatchCount(count: Value) {
    count != Undefined
  }

  /** For a form-built profile the empty state shows exactly when location,
      cancer type and stage are empty, no treatment or biomarker is chosen and no
      criterion has arrived; a name alone does not count. */
  lemma EmptyStateOfBuiltProfile(name: string, cancerType: string, stage: string,
                                 priorTreatments: seq<string>, biomarkers: seq<string>,
                                 location: string, criteria: seq<Criterion>)
    ensures ShowsEmptyState(BuildProfile(name, cancerType, stage, priorTreatments, biomarkers, location), criteria)
        <==> location == "" && cancerType == "" && stage == "" &&
             priorTreatments == [] && biomarkers == [] && criteria == []
  {
    var p := BuildProfile(name, cancerType, stage, priorTreatments, biomarkers, location);
    if |priorTreatments| > 0 { assert NonEmptyList(Get(Obj(p), "priorTreatments")); }
    if |biomarkers| > 0 { assert NonEmptyList(Get(Obj(p), "biomarkers")); }
  }

  /** An `update_match_count` to 0 shows the count, though 0 is falsy. */
  lemma ZeroMatchCountShown(s: PanelState, a: Action)
    requires Tag(a) == Str("update_match_count") && PayloadCount(a) == Num(0.0)
    ensures ShowsMatchCount(Reduce(s, a).matchCount) && !Truthy(Reduce(s, a).matchCount)
  {
  }
}
