/**
 * The pure parts of the AWS Security Hub adapter: the finding filter and
 * the request dictionary it becomes, and the conversion of one finding in
 * the AWS Security Finding Format into a normalised finding.
 */
module SecurityHub {
  import opened Wrappers
  import opened Text
  import opened Json
  import opened DateTime
  import opened Models
  import opened Payload

  // ---------------------------------------------------------------------
  // SecurityHubFindingFilter
  // ---------------------------------------------------------------------

  /** The simplified filter: severity labels and a product name, each
      optional. */
  datatype FindingFilter = FindingFilter(severityLabels: Option<seq<string>>, productName: Option<string>)

  /** The severity labels are truthy: present and non-empty. */
  predicate HasLabels(f: FindingFilter) {
    f.severityLabels.Some? && f.severityLabels.value != []
  }

  /** The product name is truthy: present and non-empty. */
  predicate HasProduct(f: FindingFilter) {
    f.productName.Some? && f.productName.value != ""
  }

  /** `{"Value": value, "Comparison": "EQUALS"}`. */
  function Condition(value: string): Json {
    Obj(map["Value" := Str(value), "Comparison" := Str("EQUALS")])
  }

  /** One EQUALS condition per value, in order. */
  function Conditions(values: seq<string>): (r: seq<Json>)
    ensures |r| == |values|
    ensures forall i | 0 <= i < |values| :: r[i] == Condition(values[i])
  {
    seq(|values|, i requires 0 <= i < |values| => Condition(values[i]))
  }

  /**
   * `to_boto`: `SeverityLabel` exactly when there are labels, holding one
   * EQUALS condition per label in the given order; `ProductName` exactly
   * when there is a product name, holding a single EQUALS condition; no
   * other key, so an empty filter gives an empty dictionary.
   */
  function ToBoto(f: FindingFilter): (r: Object)
    ensures r.Keys <= {"SeverityLabel", "ProductName"}
    ensures "SeverityLabel" in r <==> HasLabels(f)
    ensures HasLabels(f) ==>
      && r["SeverityLabel"].Arr?
      && |r["SeverityLabel"].items| == |f.severityLabels.value|
      && forall i | 0 <= i < |f.severityLabels.value| :: r["SeverityLabel"].items[i] == Condition(f.severityLabels.value[i])
    ensures "ProductName" in r <==> HasProduct(f)
    ensures HasProduct(f) ==> r["ProductName"] == Arr([Condition(f.productName.value)])
    ensures r == map[] <==> !HasLabels(f) && !HasProduct(f)
  {
    var empty: Object := map[];
    var filters := if HasLabels(f) then empty["SeverityLabel" := Arr(Conditions(f.severityLabels.value))] else empty;
    var r := if HasProduct(f) then filters["ProductName" := Arr([Condition(f.productName.value)])] else filters;
    assert HasLabels(f) ==> "SeverityLabel" in r;
    r
  }

  /** The filter with falsy fields written as absent: what `to_boto`
      can tell apart. */
  function Canonical(f: FindingFilter): FindingFilter {
    FindingFilter(
      if HasLabels(f) then f.severityLabels else None,
      if HasProduct(f) then f.productName else None)
  }

  /** The value a condition compares against; "" when it has none. */
  function ConditionValue(c: Json): string {
    if c.Obj? && "Value" in c.fields && c.fields["Value"].Str? then c.fields["Value"].s else ""
  }

  /** Reading a request dictionary back into a filter. */
  function ReadFilter(r: Object): FindingFilter {
    var labels :=
      if "SeverityLabel" in r && r["SeverityLabel"].Arr? then
        var items := r["SeverityLabel"].items;
        Some(seq(|items|, i requires 0 <= i < |items| => ConditionValue(items[i])))
      else None;
    var product :=
      if "ProductName" in r && r["ProductName"].Arr? && r["ProductName"].items != [] then
        Some(ConditionValue(r["ProductName"].items[0]))
      else None;
    FindingFilter(labels, product)
  }

  /** The request dictionary determines the filter up to falsy fields:
      reading it back gives the canonical filter. */
  lemma {:induction false} ToBotoReadBack(f: FindingFilter)
    ensures ReadFilter(ToBoto(f)) == Canonical(f)
  {
    var r := ToBoto(f);
    if HasLabels(f) {
      var labels := f.severityLabels.value;
      var items := r["SeverityLabel"].items;
      var read := seq(|items|, i requires 0 <= i < |items| => ConditionValue(items[i]));
      assert forall i | 0 <= i < |labels| :: read[i] == labels[i];
      assert read == labels;
    }
  }

  /** Two filters give the same request exactly when they agree once falsy
      fields are taken as absent. */
  lemma {:induction false} ToBotoInjective(f: FindingFilter, g: FindingFilter)
    ensures ToBoto(f) == ToBoto(g) <==> Canonical(f) == Canonical(g)
  {
    if ToBoto(f) == ToBoto(g) {
      ToBotoReadBack(f);
      ToBotoReadBack(g);
    }
    if Canonical(f) == Canonical(g) {
      CanonicalToBoto(f);
      CanonicalToBoto(g);
    }
  }

  /** Falsy fields contribute nothing to the request. */
  lemma {:induction false} CanonicalToBoto(f: FindingFilter)
    ensures ToBoto(Canonical(f)) == ToBoto(f)
  {
    var c := Canonical(f);
    assert HasLabels(c) == HasLabels(f) && HasProduct(c) == HasProduct(f);
  }

  // ---------------------------------------------------------------------
  // _convert_finding
  // ---------------------------------------------------------------------

  const ProviderName := "AWS Security Hub"

  /** The severity label a finding offers, "INFORMATIONAL" when it has
      none. */
  function LabelValue(payload: Object): Json {
    AtOr(payload, ["Severity", "Label"], Str("INFORMATIONAL"))
  }

  /** The `Id` of the first resource, `Null` when there is none. */
  function ResourceValue(payload: Object): Json {
    var resources := Get(payload, "Resources", Arr([]));
    if resources.Arr? && resources.items != [] && resources.items[0].Obj? then
      Get(resources.items[0].fields, "Id", Null)
    else Null
  }

  /** `payload.get("Severity", {}).get("Label", "INFORMATIONAL")`. */
  function SeverityLabelOf(payload: Object): (r: Result<Json, Error>)
    ensures r.Ok? <==> "Severity" !in payload || payload["Severity"].Obj?
    ensures r.Ok? ==> r.value == LabelValue(payload)
  {
    var severity :- GetObj(payload, "Severity");
    Ok(Get(severity, "Label", Str("INFORMATIONAL")))
  }

  /** `Resources` as the conversion reads it: falsy or absent, or a list
      whose first entry is a dictionary. */
  predicate ResourcesReadable(payload: Object) {
    var resources := Get(payload, "Resources", Arr([]));
    !Truthy(resources) || (resources.Arr? && resources.items[0].Obj?)
  }

  /** `resources[0].get("Id") if resources else None`: no resources give
      nothing, a list starting with a dictionary gives that dictionary's
      `Id`, and any other truthy value is rejected. */
  function ResourceIdOf(payload: Object): (r: Result<Json, Error>)
    ensures "Resources" !in payload || !Truthy(payload["Resources"]) ==> r == Ok(Null)
    ensures ("Resources" in payload && payload["Resources"].Arr? && payload["Resources"].items != [] &&
             payload["Resources"].items[0].Obj?) ==>
      r == Ok(Get(payload["Resources"].items[0].fields, "Id", Null))
    ensures "Resources" in payload && Truthy(payload["Resources"]) && !payload["Resources"].Arr? ==>
      r == Err(WrongType("Resources"))
    ensures ("Resources" in payload && payload["Resources"].Arr? && payload["Resources"].items != [] &&
             !payload["Resources"].items[0].Obj?) ==>
      r == Err(WrongType("Resources"))
    ensures r.Ok? <==> ResourcesReadable(payload)
    ensures r.Ok? ==> r.value == ResourceValue(payload)
  {
    var resources := Get(payload, "Resources", Arr([]));
    if !Truthy(resources) then Ok(Null)
    else if resources.Arr? && resources.items[0].Obj? then Ok(Get(resources.items[0].fields, "Id", Null))
    else Err(WrongType("Resources"))
  }

  /** `payload.get("Remediation", {}).get("Recommendation", {}).get("Url")`. */
  function RecommendationUrl(payload: Object): (r: Result<Option<string>, Error>)
    ensures r.Ok? <==>
      && GetObj(payload, "Remediation").Ok?
      && GetObj(GetObj(payload, "Remediation").value, "Recommendation").Ok?
      && OptionalText(At(payload, ["Remediation", "Recommendation", "Url"]))
    ensures r.Ok? ==> Holds(At(payload, ["Remediation", "Recommendation", "Url"]), r.value)
  {
    var remediation :- GetObj(payload, "Remediation");
    var recommendation :- GetObj(remediation, "Recommendation");
    AsOptionalString(Get(recommendation, "Url", Null), "Url")
  }

  /** A finding whose head converts: the severity label names a severity,
      the resources are readable, `Id` is a string and the title a string
      or absent. */
  predicate FindingHeadReadable(payload: Object) {
    && LabelValue(payload).Str? && FromString(LabelValue(payload).s).Ok?
    && ResourcesReadable(payload)
    && Required(payload, "Id").Ok?
    && Get(payload, "Title", Str("(no title)")).Str?
  }

  /** A finding whose optional fields convert: the description and the
      recommendation URL are strings or null along dictionaries, the first
      resource's `Id` is a string or null, and `FirstObservedAt` is
      readable. */
  predicate FindingDetailsReadable(payload: Object) {
    && OptionalText(Get(payload, "Description", Null))
    && GetObj(payload, "Remediation").Ok?
    && GetObj(GetObj(payload, "Remediation").value, "Recommendation").Ok?
    && OptionalText(At(payload, ["Remediation", "Recommendation", "Url"]))
    && OptionalText(ResourceValue(payload))
    && TimestampText(Get(payload, "FirstObservedAt", Null))
  }

  /** The resource, identifier, title and severity, in the order the
      Python code evaluates them. */
  function FindingHead(payload: Object): (r: Result<(Json, string, string, Severity), Error>)
    ensures r.Ok? ==>
      && r.value.0 == ResourceValue(payload)
      && "Id" in payload && payload["Id"] == Str(r.value.1)
      && Get(payload, "Title", Str("(no title)")) == Str(r.value.2)
      && LabelValue(payload).Str? && FromString(LabelValue(payload).s) == Ok(r.value.3)
    ensures "Id" !in payload ==> r.Err?
    ensures LabelValue(payload).Str? && FromString(LabelValue(payload).s).Err? ==> r.Err?
  {
    var severityLabel :- SeverityLabelOf(payload);
    var resourceId :- ResourceIdOf(payload);
    var id :- Required(payload, "Id");
    var title :- AsString(Get(payload, "Title", Str("(no title)")), "Title");
    var labelText :- AsString(severityLabel, "Label");
    var severity :- FromString(labelText);
    Ok((resourceId, id, title, severity))
  }

  /** The head converts exactly when it is readable. */
  lemma {:induction false} FindingHeadSpec(payload: Object)
    ensures FindingHead(payload).Ok? <==> FindingHeadReadable(payload)
  {
  }

  /** The optional fields: description, recommendation URL, resource and
      first-observed time. */
  function FindingDetails(payload: Object, resourceId: Json): (r: Result<(Option<string>, Option<string>, Option<string>, Option<Timestamp>), Error>)
    ensures r.Ok? ==>
      && Holds(Get(payload, "Description", Null), r.value.0)
      && Holds(At(payload, ["Remediation", "Recommendation", "Url"]), r.value.1)
      && Holds(resourceId, r.value.2)
      && OptionalTimestamp(Get(payload, "FirstObservedAt", Null), "FirstObservedAt") == Ok(r.value.3)
    ensures r.Ok? <==>
      && OptionalText(Get(payload, "Description", Null))
      && RecommendationUrl(payload).Ok?
      && OptionalText(resourceId)
      && TimestampText(Get(payload, "FirstObservedAt", Null))
  {
    var description :- AsOptionalString(Get(payload, "Description", Null), "Description");
    var url :- RecommendationUrl(payload);
    var resource :- AsOptionalString(resourceId, "resource");
    var createdAt :- OptionalTimestamp(Get(payload, "FirstObservedAt", Null), "FirstObservedAt");
    Ok((description, url, resource, createdAt))
  }

  /**
   * `_convert_finding`: the provider is always "AWS Security Hub"; the id
   * is the mandatory `Id`; the title defaults to "(no title)"; the
   * severity label defaults to "INFORMATIONAL" and is normalised, an
   * unknown label failing; the resource is the first resource's `Id`; the
   * creation time is `FirstObservedAt` parsed when truthy.
   */
  function ConvertFinding(payload: Object): (r: Result<Finding, Error>)
    ensures r.Ok? ==>
      && r.value.provider == ProviderName
      && "Id" in payload && payload["Id"] == Str(r.value.id)
      && Get(payload, "Title", Str("(no title)")) == Str(r.value.title)
      && LabelValue(payload).Str? && FromString(LabelValue(payload).s) == Ok(r.value.severity)
    ensures r.Ok? ==>
      && Holds(Get(payload, "Description", Null), r.value.description)
      && Holds(At(payload, ["Remediation", "Recommendation", "Url"]), r.value.url)
      && Holds(ResourceValue(payload), r.value.resource)
      && OptionalTimestamp(Get(payload, "FirstObservedAt", Null), "FirstObservedAt") == Ok(r.value.createdAt)
    ensures "Id" !in payload ==> r.Err?
    ensures LabelValue(payload).Str? && FromString(LabelValue(payload).s).Err? ==> r.Err?
  {
    var head :- FindingHead(payload);
    var details :- FindingDetails(payload, head.0);
    Ok(Finding(ProviderName, head.1, head.2, head.3, details.0, details.1, details.2, details.3))
  }

  /** A finding converts exactly when its head and its optional fields
      are readable. */
  lemma {:induction false} ConvertFindingReadable(payload: Object)
    ensures ConvertFinding(payload).Ok? <==> FindingHeadReadable(payload) && FindingDetailsReadable(payload)
  {
    FindingHeadSpec(payload);
  }

  /** A finding without an `Id` is rejected, and when nothing before it
      fails, the failure names the missing key. */
  lemma {:induction false} ConvertFindingMissingId(payload: Object)
    requires "Id" !in payload
    requires "Severity" !in payload && "Resources" !in payload
    ensures ConvertFinding(payload) == Err(MissingField("Id"))
  {
  }

  /** A finding with only an `Id` becomes an INFORMATIONAL finding titled
      "(no title)" with no optional field. */
  lemma {:induction false} ConvertFindingDefaults(id: string)
    ensures ConvertFinding(map["Id" := Str(id)]) ==
      Ok(Finding(ProviderName, id, "(no title)", Informational, None, None, None, None))
  {
    IdOnlyHead(id);
    IdOnlyDetails(id);
  }

  lemma {:induction false} IdOnlyHead(id: string)
    ensures FindingHead(map["Id" := Str(id)]) == Ok((Null, id, "(no title)", Informational))
  {
    var p: Object := map["Id" := Str(id)];
    assert SeverityLabelOf(p) == Ok(Str(Label(Informational)));
    assert ResourceIdOf(p) == Ok(Null);
    assert Required(p, "Id") == Ok(id);
    assert Get(p, "Title", Str("(no title)")) == Str("(no title)");
    HeadOf(p, Null, id, "(no title)", Informational);
  }

  lemma {:induction false} IdOnlyDetails(id: string)
    ensures FindingDetails(map["Id" := Str(id)], Null) == Ok((None, None, None, None))
  {
    var p: Object := map["Id" := Str(id)];
    assert Get(p, "Description", Null) == Null;
    assert RecommendationUrl(p) == Ok(None);
    assert Get(p, "FirstObservedAt", Null) == Null;
  }

  /** `d` with `key` set to `v` when there is one. */
  function Put(d: Object, key: string, v: Option<Json>): (r: Object)
    ensures r.Keys == d.Keys + (if v.Some? then {key} else {})
    ensures forall k | k in d && k != key :: r[k] == d[k]
    ensures v.Some? ==> r[key] == v.value
  {
    if v.Some? then d[key := v.value] else d
  }

  /** The `Remediation` object carrying a recommendation URL. */
  function Remediation(url: string): Json {
    Obj(map["Recommendation" := Obj(map["Url" := Str(url)])])
  }

  /** The `Resources` list holding one resource with the given `Id`. */
  function Resources(id: string): Json {
    Arr([Obj(map["Id" := Str(id)])])
  }

  function MapOpt<T>(o: Option<T>, f: T -> Json): Option<Json> {
    if o.Some? then Some(f(o.value)) else None
  }

  /** A finding as Security Hub serves it, carrying the fields of `f`. */
  function AsffPayload(f: Finding): Object {
    var base := map[
      "Id" := Str(f.id),
      "Title" := Str(f.title),
      "Severity" := Obj(map["Label" := Str(Label(f.severity))])
    ];
    var d1 := Put(base, "Description", MapOpt(f.description, s => Str(s)));
    var d2 := Put(d1, "Remediation", MapOpt(f.url, Remediation));
    var d3 := Put(d2, "Resources", MapOpt(f.resource, Resources));
    Put(d3, "FirstObservedAt", MapOpt(f.createdAt, (t: Timestamp) => Str(Format(t))))
  }

  /** What each lookup of the conversion finds in a generated finding. */
  lemma {:induction false} AsffPayloadKeys(f: Finding)
    ensures Required(AsffPayload(f), "Id") == Ok(f.id)
    ensures Get(AsffPayload(f), "Title", Str("(no title)")) == Str(f.title)
    ensures GetObj(AsffPayload(f), "Severity") == Ok(map["Label" := Str(Label(f.severity))])
    ensures Get(AsffPayload(f), "Description", Null) == OptStr(f.description)
    ensures Get(AsffPayload(f), "Resources", Arr([])) == if f.resource.Some? then Resources(f.resource.value) else Arr([])
    ensures GetObj(AsffPayload(f), "Remediation") ==
      Ok(if f.url.Some? then map["Recommendation" := Obj(map["Url" := Str(f.url.value)])] else map[])
    ensures Get(AsffPayload(f), "FirstObservedAt", Null) == if f.createdAt.Some? then Str(Format(f.createdAt.value)) else Null
  {
    AsffPayloadBase(f);
    AsffPayloadOptional(f);
  }

  lemma {:induction false} AsffPayloadBase(f: Finding)
    ensures Required(AsffPayload(f), "Id") == Ok(f.id)
    ensures Get(AsffPayload(f), "Title", Str("(no title)")) == Str(f.title)
    ensures GetObj(AsffPayload(f), "Severity") == Ok(map["Label" := Str(Label(f.severity))])
  {
    var p := AsffPayload(f);
    assert "Id" in p && p["Id"] == Str(f.id);
    assert "Title" in p && p["Title"] == Str(f.title);
    assert "Severity" in p && p["Severity"] == Obj(map["Label" := Str(Label(f.severity))]);
  }

  lemma {:induction false} AsffPayloadOptional(f: Finding)
    ensures Get(AsffPayload(f), "Description", Null) == OptStr(f.description)
    ensures Get(AsffPayload(f), "Resources", Arr([])) == if f.resource.Some? then Resources(f.resource.value) else Arr([])
    ensures GetObj(AsffPayload(f), "Remediation") ==
      Ok(if f.url.Some? then map["Recommendation" := Obj(map["Url" := Str(f.url.value)])] else map[])
    ensures Get(AsffPayload(f), "FirstObservedAt", Null) == if f.createdAt.Some? then Str(Format(f.createdAt.value)) else Null
  {
  }

  /** The head of any finding whose lookups give these values. */
  lemma {:induction false} HeadOf(p: Object, resource: Json, id: string, title: string, level: Severity)
    requires SeverityLabelOf(p) == Ok(Str(Label(level)))
    requires ResourceIdOf(p) == Ok(resource)
    requires Required(p, "Id") == Ok(id)
    requires Get(p, "Title", Str("(no title)")) == Str(title)
    ensures FindingHead(p) == Ok((resource, id, title, level))
  {
    FromStringLabel(level);
  }

  lemma {:induction false} AsffHead(f: Finding)
    ensures FindingHead(AsffPayload(f)) == Ok((OptStr(f.resource), f.id, f.title, f.severity))
  {
    var p := AsffPayload(f);
    AsffPayloadKeys(f);
    assert SeverityLabelOf(p) == Ok(Str(Label(f.severity)));
    assert ResourceIdOf(p) == Ok(OptStr(f.resource));
    HeadOf(p, OptStr(f.resource), f.id, f.title, f.severity);
  }

  lemma {:induction false} AsffDetails(f: Finding)
    ensures FindingDetails(AsffPayload(f), OptStr(f.resource)) == Ok((f.description, f.url, f.resource, f.createdAt))
  {
    var p := AsffPayload(f);
    AsffPayloadOptional(f);
    AsffRecommendation(f);
    assert AsOptionalString(OptStr(f.description), "Description") == Ok(f.description);
    assert AsOptionalString(OptStr(f.resource), "resource") == Ok(f.resource);
    AsffCreated(f);
    DetailsFrom(p, OptStr(f.resource), f.description, f.url, f.resource, f.createdAt);
  }

  /** The details are assembled from their four readings. */
  lemma {:induction false} DetailsFrom(p: Object, resourceId: Json, description: Option<string>, url: Option<string>,
                                       resource: Option<string>, createdAt: Option<Timestamp>)
    requires AsOptionalString(Get(p, "Description", Null), "Description") == Ok(description)
    requires RecommendationUrl(p) == Ok(url)
    requires AsOptionalString(resourceId, "resource") == Ok(resource)
    requires OptionalTimestamp(Get(p, "FirstObservedAt", Null), "FirstObservedAt") == Ok(createdAt)
    ensures FindingDetails(p, resourceId) == Ok((description, url, resource, createdAt))
  {
  }

  lemma {:induction false} AsffRecommendation(f: Finding)
    ensures RecommendationUrl(AsffPayload(f)) == Ok(f.url)
  {
    AsffPayloadOptional(f);
  }

  lemma {:induction false} AsffCreated(f: Finding)
    ensures OptionalTimestamp(Get(AsffPayload(f), "FirstObservedAt", Null), "FirstObservedAt") == Ok(f.createdAt)
  {
    AsffPayloadOptional(f);
    if f.createdAt.Some? {
      ReadFormatted(f.createdAt.value, "FirstObservedAt");
    }
  }

  /**
   * Converting a Security Hub finding that carries a normalised finding's
   * fields gives that finding back: the label reads as its level, the
   * first resource's `Id` as the resource, the recommendation URL as the
   * URL and the first-observed time survives its text form.
   */
  lemma {:induction false} ConvertFindingRoundTrip(f: Finding)
    requires f.provider == ProviderName
    ensures ConvertFinding(AsffPayload(f)) == Ok(f)
  {
    AsffHead(f);
    AsffDetails(f);
  }
}
