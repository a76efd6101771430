/**
 * The response body of the classification endpoint: a five-field bean filled
 * through its setters, and the JSON object it is exchanged as.
 */
module Response {
  import opened JavaLang

  // The risk categories the response documents as allowable.
  const HighRisk: string := "High-Risk"
  const LimitedRisk: string := "Limited Risk"
  const MinimalRisk: string := "Minimal Risk"
  const Prohibited: string := "PROHIBITED"

  const AllowableRiskCategories: seq<string> := [HighRisk, LimitedRisk, MinimalRisk, Prohibited]

  /** The value of every field of a response at one moment. */
  datatype ResponseValue = ResponseValue(
    systemName: Nullable<string>,
    systemPurpose: Nullable<string>,
    riskCategory: Nullable<string>,
    recommendations: Nullable<seq<string>>,
    isProhibited: bool)

  /** The four category strings are pairwise distinct. */
  lemma AllowableRiskCategoriesDistinct()
    ensures forall i, j :: 0 <= i < j < |AllowableRiskCategories| ==>
      AllowableRiskCategories[i] != AllowableRiskCategories[j]
  {
    assert HighRisk[0] == 'H' && LimitedRisk[0] == 'L' && MinimalRisk[0] == 'M' && Prohibited[0] == 'P';
  }

  class ClassificationResponse {
    var systemName: Nullable<string>
    var systemPurpose: Nullable<string>
    var riskCategory: Nullable<string>
    var recommendations: Nullable<seq<string>>
    var isProhibited: bool

    /** The fields, read together. */
    function Snapshot(): ResponseValue
      reads this
    {
      ResponseValue(systemName, systemPurpose, riskCategory, recommendations, isProhibited)
    }

    /** A fresh response: reference fields null, the primitive flag false. */
    constructor ()
      ensures Snapshot() == ResponseValue(Null, Null, Null, Null, false)
    {
      systemName := Null;
      systemPurpose := Null;
      riskCategory := Null;
      recommendations := Null;
      isProhibited := false;
    }

    function GetSystemName(): Nullable<string> reads this { systemName }
    function GetSystemPurpose(): Nullable<string> reads this { systemPurpose }
    function GetRiskCategory(): Nullable<string> reads this { riskCategory }
    function GetRecommendations(): Nullable<seq<string>> reads this { recommendations }
    function IsProhibited(): bool reads this { isProhibited }

    method SetSystemName(name: Nullable<string>)
      modifies this`systemName
      ensures GetSystemName() == name
      ensures Snapshot() == old(Snapshot()).(systemName := name)
    {
      systemName := name;
    }

    method SetSystemPurpose(purpose: Nullable<string>)
      modifies this`systemPurpose
      ensures GetSystemPurpose() == purpose
      ensures Snapshot() == old(Snapshot()).(systemPurpose := purpose)
    {
      systemPurpose := purpose;
    }

    method SetRiskCategory(category: Nullable<string>)
      modifies this`riskCategory
      ensures GetRiskCategory() == category
      ensures Snapshot() == old(Snapshot()).(riskCategory := category)
    {
      riskCategory := category;
    }

    method SetRecommendations(recs: Nullable<seq<string>>)
      modifies this`recommendations
      ensures GetRecommendations() == recs
      ensures Snapshot() == old(Snapshot()).(recommendations := recs)
    {
      recommendations := recs;
    }

    method SetProhibited(prohibited: bool)
      modifies this`isProhibited
      ensures IsProhibited() == prohibited
      ensures Snapshot() == old(Snapshot()).(isProhibited := prohibited)
    {
      isProhibited := prohibited;
    }
  }

  // ---------------------------------------------------------------------
  // JSON form

  datatype Json = JNull | JBool(b: bool) | JString(s: string) | JArray(items: seq<Json>)

  const ProhibitedJsonKey: string := "isProhibited"

  function StringJson(s: Nullable<string>): Json {
    match s
    case Null => JNull
    case NonNull(v) => JString(v)
  }

  function ListJson(l: Nullable<seq<string>>): Json {
    match l
    case Null => JNull
    case NonNull(items) => JArray(seq(|items|, i requires 0 <= i < |items| => JString(items[i])))
  }

  /**
   * The JSON object a response is written as: one key per field, the flag
   * under the key "isProhibited".
   */
  function ToJson(v: ResponseValue): (j: map<string, Json>)
    ensures j.Keys == {"systemName", "systemPurpose", "riskCategory", "recommendations", ProhibitedJsonKey}
    ensures j[ProhibitedJsonKey] == JBool(v.isProhibited)
  {
    map["systemName" := StringJson(v.systemName),
        "systemPurpose" := StringJson(v.systemPurpose),
        "riskCategory" := StringJson(v.riskCategory),
        "recommendations" := ListJson(v.recommendations),
        ProhibitedJsonKey := JBool(v.isProhibited)]
  }

  function StringOf(j: Json): Nullable<string> {
    if j.JString? then NonNull(j.s) else Null
  }

  function ListOf(j: Json): Nullable<seq<string>> {
    if j.JArray? && forall i :: 0 <= i < |j.items| ==> j.items[i].JString? then
      NonNull(seq(|j.items|, i requires 0 <= i < |j.items| && j.items[i].JString? => j.items[i].s))
    else Null
  }

  /**
   * Reading a JSON object back into a response, as the download endpoint
   * does with its request body: a missing key leaves the field at its
   * default (null, or false for the flag).
   */
  function FromJson(j: map<string, Json>): (v: ResponseValue)
    ensures v.systemName.NonNull? <==> "systemName" in j && j["systemName"].JString?
    ensures v.systemName.NonNull? ==> j["systemName"] == JString(v.systemName.value)
    ensures v.systemPurpose.NonNull? <==> "systemPurpose" in j && j["systemPurpose"].JString?
    ensures v.systemPurpose.NonNull? ==> j["systemPurpose"] == JString(v.systemPurpose.value)
    ensures v.riskCategory.NonNull? <==> "riskCategory" in j && j["riskCategory"].JString?
    ensures v.riskCategory.NonNull? ==> j["riskCategory"] == JString(v.riskCategory.value)
    ensures v.recommendations.NonNull? ==>
      "recommendations" in j && j["recommendations"].JArray?
      && |j["recommendations"].items| == |v.recommendations.value|
      && forall i :: 0 <= i < |v.recommendations.value| ==>
           j["recommendations"].items[i] == JString(v.recommendations.value[i])
    ensures "recommendations" in j && j["recommendations"].JArray?
      && (forall i :: 0 <= i < |j["recommendations"].items| ==> j["recommendations"].items[i].JString?)
      ==> v.recommendations.NonNull?
    ensures v.isProhibited <==> ProhibitedJsonKey in j && j[ProhibitedJsonKey] == JBool(true)
  {
    ResponseValue(
      if "systemName" in j then StringOf(j["systemName"]) else Null,
      if "systemPurpose" in j then StringOf(j["systemPurpose"]) else Null,
      if "riskCategory" in j then StringOf(j["riskCategory"]) else Null,
      if "recommendations" in j then ListOf(j["recommendations"]) else Null,
      ProhibitedJsonKey in j && j[ProhibitedJsonKey].JBool? && j[ProhibitedJsonKey].b)
  }

  /** A response survives the trip through its JSON form unchanged. */
  lemma JsonRoundTrip(v: ResponseValue)
    ensures FromJson(ToJson(v)) == v
  {
    var j := ToJson(v);
    match v.recommendations
    case Null =>
    case NonNull(items) =>
      var back := ListOf(j["recommendations"]);
      assert back.NonNull? && back.value == items;
  }
}
