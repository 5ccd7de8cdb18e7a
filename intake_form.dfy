/** The intake form (client/src/components/IntakeForm.tsx): the profile it builds
    when the chat starts, the location lookup it runs on mount, and the chip
    selections it keeps. */
module IntakeForm {
  import opened Wrappers
  import opened JsValue
  import opened ChipSelector
  import opened Location

  /** The option lists of client/src/types.ts. */
  const CancerTypes: seq<string> := ["Lung", "Breast", "Colon", "Prostate", "Pancreatic", "Melanoma", "Other"]
  const Stages: seq<string> := ["1", "2", "3", "4", "Unknown"]
  const PriorTreatments: seq<string> := ["Chemotherapy", "Radiation", "Surgery", "Immunotherapy", "None"]
  const Biomarkers: seq<string> := ["EGFR+", "BRCA", "ALK", "PD-L1", "Unknown"]

  /** The keys a `UserProfile` may have. */
  const ProfileKeys: set<string> := {"name", "cancerType", "stage", "priorTreatments", "biomarkers", "location"}

  /** A string array as a JavaScript value. */
  function StrList(xs: seq<string>): (r: Value)
    ensures r.Arr? && |r.items| == |xs|
    ensures forall i :: 0 <= i < |xs| ==> r.items[i] == Str(xs[i])
  {
    Arr(seq(|xs|, i requires 0 <= i < |xs| => Str(xs[i])))
  }

  /** handleStartChat (lines 42-54): `location` is always a key (undefined for an
      empty location); the other five keys are set exactly when the form value is
      non-empty, and then hold it. */
  function BuildProfile(name: string, cancerType: string, stage: string,
                        priorTreatments: seq<string>, biomarkers: seq<string>,
                        location: string): (p: map<string, Value>)
    ensures "location" in p && p["location"] == (if location == "" then Undefined else Str(location))
    ensures ("name" in p <==> name != "") && ("name" in p ==> p["name"] == Str(name))
    ensures ("cancerType" in p <==> cancerType != "") && ("cancerType" in p ==> p["cancerType"] == Str(cancerType))
    ensures ("stage" in p <==> stage != "") && ("stage" in p ==> p["stage"] == Str(stage))
    ensures ("priorTreatments" in p <==> |priorTreatments| > 0) &&
            ("priorTreatments" in p ==> p["priorTreatments"] == StrList(priorTreatments))
    ensures ("biomarkers" in p <==> |biomarkers| > 0) &&
            ("biomarkers" in p ==> p["biomarkers"] == StrList(biomarkers))
    ensures p.Keys <= ProfileKeys
  {
    var p0 := map["location" := if location != "" then Str(location) else Undefined];
    var p1 := if name != "" then p0["name" := Str(name)] else p0;
    var p2 := if cancerType != "" then p1["cancerType" := Str(cancerType)] else p1;
    var p3 := if stage != "" then p2["stage" := Str(stage)] else p2;
    var p4 := if |priorTreatments| > 0 then p3["priorTreatments" := StrList(priorTreatments)] else p3;
    if |biomarkers| > 0 then p4["biomarkers" := StrList(biomarkers)] else p4
  }

  /** Because `location` is always a key, a form-built profile is never empty, so
      `connect` always schedules the `user_profile` send for it
      (client/src/hooks/useVoiceAgent.ts:168). */
  lemma BuiltProfileNeverEmpty(name: string, cancerType: string, stage: string,
                               priorTreatments: seq<string>, biomarkers: seq<string>, location: string)
    ensures |BuildProfile(name, cancerType, stage, priorTreatments, biomarkers, location)| > 0
  {
    var p := BuildProfile(name, cancerType, stage, priorTreatments, biomarkers, location);
    assert "location" in p.Keys;
    assert p.Keys != {};
  }

  /** What JSON.stringify sends of a form-built profile: everything but a
      `location` left undefined. */
  lemma BuiltProfileOverWire(name: string, cancerType: string, stage: string,
                             priorTreatments: seq<string>, biomarkers: seq<string>, location: string)
    ensures var p := BuildProfile(name, cancerType, stage, priorTreatments, biomarkers, location);
      Wire(Obj(p)) == Obj(if location == "" then p - {"location"} else p)
  {
    var p := BuildProfile(name, cancerType, stage, priorTreatments, biomarkers, location);
    var q := if location == "" then p - {"location"} else p;
    StrListIsJson(priorTreatments);
    StrListIsJson(biomarkers);
    assert IsJson(Obj(q));
    WireKeepsJson(Obj(q));
    assert Wire(Obj(p)).fields == Wire(Obj(q)).fields;
  }

  /** A string array is valid JSON. */
  lemma StrListIsJson(xs: seq<string>)
    ensures IsJson(StrList(xs))
  {
    var v := StrList(xs);
    assert forall i :: 0 <= i < |v.items| ==> IsJson(v.items[i]);
  }

  /** A location found on mount is never empty, so the profile then carries it
      as a string rather than leaving it undefined. */
  lemma FoundLocationIsSent(supported: bool, position: PositionOutcome, name: string, cancerType: string,
                            stage: string, priorTreatments: seq<string>, biomarkers: seq<string>)
    requires GetCurrentLocation(supported, position).Success?
    ensures var loc := GetCurrentLocation(supported, position).value;
      BuildProfile(name, cancerType, stage, priorTreatments, biomarkers, loc)["location"] == Str(loc)
  {
  }

  /** The form's state cells. */
  class IntakeForm {
    var name: string
    var cancerType: string
    var stage: string
    var priorTreatments: seq<string>
    var biomarkers: seq<string>
    var location: string
    var locationLoading: bool
    var locationError: Option<string>

    /** The chip selections stay within their option lists, without duplicates. */
    ghost predicate Valid()
      reads this
    {
      && WithinOptions(Single(cancerType), CancerTypes)
      && WithinOptions(Single(stage), Stages)
      && WithinOptions(Multi(priorTreatments), PriorTreatments) && NoDuplicates(priorTreatments)
      && WithinOptions(Multi(biomarkers), Biomarkers) && NoDuplicates(biomarkers)
    }

    constructor ()
      ensures Valid()
      ensures name == "" && cancerType == "" && stage == "" && priorTreatments == [] && biomarkers == []
      ensures location == "" && locationLoading && locationError == None
    {
      name, cancerType, stage := "", "", "";
      priorTreatments, biomarkers := [], [];
      location, locationLoading, locationError := "", true, None;
    }

    /** The mount effect's promise settling (lines 28-40): success stores the
        location and clears the error, failure stores the message and leaves the
        location as it was; either way loading ends. */
    method LocationSettled(result: Result<string, string>)
      modifies this
      ensures !locationLoading
      ensures result.Success? ==> location == result.value && locationError == None
      ensures result.Failure? ==> location == old(location) && locationError == Some(result.error)
      ensures name == old(name) && cancerType == old(cancerType) && stage == old(stage)
      ensures priorTreatments == old(priorTreatments) && biomarkers == old(biomarkers)
    {
      match result {
        case Success(loc) =>
          location := loc;
          locationError := None;
        case Failure(message) =>
          locationError := Some(message);
      }
      locationLoading := false;
    }

    /** The mount effect (lines 28-40) with the lookup's outcome given. */
    method LookUpLocation(supported: bool, position: PositionOutcome)
      modifies this
      ensures !locationLoading
      ensures var result := GetCurrentLocation(supported, position);
        && (result.Success? ==> location == result.value && location != "" && locationError == None)
        && (result.Failure? ==> location == old(location) && locationError == Some(result.error))
      ensures name == old(name) && cancerType == old(cancerType) && stage == old(stage)
      ensures priorTreatments == old(priorTreatments) && biomarkers == old(biomarkers)
    {
      LocationSettled(GetCurrentLocation(supported, position));
    }

    /** The name input's onChange. */
    method SetName(value: string)
      modifies this`name
      ensures name == value
    {
      name := value;
    }

    /** A click on a cancer-type chip. */
    method ClickCancerType(option: string)
      requires Valid() && option in CancerTypes
      modifies this`cancerType
      ensures Valid()
      ensures cancerType == HandleClick(Single(old(cancerType)), option).value
    {
      ClickStaysWithinOptions(Single(cancerType), CancerTypes, option);
      cancerType := HandleClick(Single(cancerType), option).value;
    }

    /** A click on a stage chip. */
    method ClickStage(option: string)
      requires Valid() && option in Stages
      modifies this`stage
      ensures Valid()
      ensures stage == HandleClick(Single(old(stage)), option).value
    {
      ClickStaysWithinOptions(Single(stage), Stages, option);
      stage := HandleClick(Single(stage), option).value;
    }

    /** A click on a prior-treatment chip. */
    method ClickPriorTreatment(option: string)
      requires Valid() && option in PriorTreatments
      modifies this`priorTreatments
      ensures Valid()
      ensures priorTreatments == HandleClick(Multi(old(priorTreatments)), option).values
    {
      ClickStaysWithinOptions(Multi(priorTreatments), PriorTreatments, option);
      ClickKeepsNoDuplicates(priorTreatments, option);
      priorTreatments := HandleClick(Multi(priorTreatments), option).values;
    }

    /** A click on a biomarker chip. */
    method ClickBiomarker(option: string)
      requires Valid() && option in Biomarkers
      modifies this`biomarkers
      ensures Valid()
      ensures biomarkers == HandleClick(Multi(old(biomarkers)), option).values
    {
      ClickStaysWithinOptions(Multi(biomarkers), Biomarkers, option);
      ClickKeepsNoDuplicates(biomarkers, option);
      biomarkers := HandleClick(Multi(biomarkers), option).values;
    }

    /** The start button: the profile handed to `onStartChat`. */
    method StartChat() returns (profile: map<string, Value>)
      ensures profile == BuildProfile(name, cancerType, stage, priorTreatments, biomarkers, location)
      ensures "location" in profile && profile.Keys <= ProfileKeys
    {
      profile := BuildProfile(name, cancerType, stage, priorTreatments, biomarkers, location);
    }
  }
}
