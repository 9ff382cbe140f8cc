/**
 * The domain model: the closed severity taxonomy, the normalised finding
 * record with its compact dictionary form, and `merge_findings`.
 */
module Models {
  import opened Wrappers
  import opened Text
  import opened Json
  import opened DateTime
  import opened Payload

  // ---------------------------------------------------------------------
  // Severity
  // ---------------------------------------------------------------------

  /** The five severity levels, in declaration order. */
  datatype Severity = Critical | High | Medium | Low | Informational

  /** Iteration order of the enum (`for severity in Severity`). */
  const AllSeverities: seq<Severity> := [Critical, High, Medium, Low, Informational]

  /** The member's value, which is also its name. */
  function Label(s: Severity): string {
    match s
    case Critical => "CRITICAL"
    case High => "HIGH"
    case Medium => "MEDIUM"
    case Low => "LOW"
    case Informational => "INFORMATIONAL"
  }

  /** `Severity[name]`: look a member up by its name. */
  function MemberNamed(name: string): (r: Option<Severity>)
    ensures r.Some? ==> Label(r.value) == name
    ensures r.None? ==> forall s :: Label(s) != name
  {
    if name == "CRITICAL" then Some(Critical)
    else if name == "HIGH" then Some(High)
    else if name == "MEDIUM" then Some(Medium)
    else if name == "LOW" then Some(Low)
    else if name == "INFORMATIONAL" then Some(Informational)
    else None
  }

  /** The fallback table of provider spellings. */
  const Aliases: map<string, Severity> := map[
    "CRITICAL" := Critical,
    "HIGH" := High,
    "MEDIUM" := Medium,
    "LOW" := Low,
    "INFORMATIONAL" := Informational,
    "INFO" := Informational
  ]

  /** `value.strip().upper()`. */
  function Normalise(value: string): string {
    Upper(Strip(value))
  }

  /** The member a normalised spelling denotes: a member's own name, or
      the alias `INFO`; `None` for any other spelling. */
  function LookupName(normalised: string): (r: Option<Severity>)
    ensures r.Some? <==> (exists s :: Label(s) == normalised) || normalised == "INFO"
    ensures r.Some? ==> Label(r.value) == normalised || (r.value == Informational && normalised == "INFO")
  {
    match MemberNamed(normalised)
    case Some(s) => Some(s)
    case None =>
      if normalised in Aliases then
        assert normalised == "INFO";
        Some(Aliases[normalised])
      else
        None
  }

  /**
   * `Severity.from_string`: succeeds exactly when the trimmed, upper-cased
   * input is a member's name or the alias `INFO`, yields that member (or
   * INFORMATIONAL for `INFO`), and otherwise fails with the raw input —
   * it never falls back to a default level.
   */
  function FromString(value: string): (r: Result<Severity, Error>)
    ensures r.Ok? <==> (exists s :: Label(s) == Normalise(value)) || Normalise(value) == "INFO"
    ensures r.Ok? ==> Label(r.value) == Normalise(value) || (r.value == Informational && Normalise(value) == "INFO")
    ensures r.Err? ==> r.error == UnknownSeverity(value)
  {
    var found := LookupName(Normalise(value));
    if found.Some? then Ok(found.value) else Err(UnknownSeverity(value))
  }

  lemma {:induction false} LabelTrimmed(s: Severity)
    ensures Trimmed(Label(s)) && |Label(s)| > 0
    ensures forall i :: 0 <= i < |Label(s)| ==> 'A' <= Label(s)[i] <= 'Z'
  {
  }

  /** A string whose upper-case is a capitalised name has no whitespace at
      either end. */
  lemma {:induction false} UpperOfNameIsTrimmed(v: string, name: string)
    requires Upper(v) == name && |name| > 0
    requires forall i :: 0 <= i < |name| ==> 'A' <= name[i] <= 'Z'
    ensures Trimmed(v)
  {
    assert UpperChar(v[0]) == name[0];
    assert UpperChar(v[|v| - 1]) == name[|name| - 1];
  }

  /** Each canonical name, in any letter case and with any surrounding
      whitespace, reads as its own member. */
  lemma {:induction false} FromStringCanonical(s: Severity, pre: string, v: string, post: string)
    requires AllSpace(pre) && AllSpace(post)
    requires Upper(v) == Label(s)
    ensures FromString(pre + v + post) == Ok(s)
  {
    LabelTrimmed(s);
    UpperOfNameIsTrimmed(v, Label(s));
    StripPadded(pre, v, post);
    var x := pre + v + post;
    assert Normalise(x) == Label(s);
    LookupLabel(s);
    assert LookupName(Normalise(x)) == Some(s);
  }

  /** A member's own name looks up that member. */
  lemma {:induction false} LookupLabel(s: Severity)
    ensures LookupName(Label(s)) == Some(s)
  {
    match s
    case Critical => assert MemberNamed("CRITICAL") == Some(Critical);
    case High => assert MemberNamed("HIGH") == Some(High);
    case Medium => assert MemberNamed("MEDIUM") == Some(Medium);
    case Low => assert MemberNamed("LOW") == Some(Low);
    case Informational => assert MemberNamed("INFORMATIONAL") == Some(Informational);
  }

  /** `INFO`, in any letter case and with any surrounding whitespace, reads
      as INFORMATIONAL. */
  lemma {:induction false} FromStringInfoAlias(pre: string, v: string, post: string)
    requires AllSpace(pre) && AllSpace(post)
    requires Upper(v) == "INFO"
    ensures FromString(pre + v + post) == Ok(Informational)
  {
    UpperOfNameIsTrimmed(v, "INFO");
    StripPadded(pre, v, post);
    var x := pre + v + post;
    assert Normalise(x) == "INFO";
    LookupInfo();
  }

  lemma {:induction false} LookupInfo()
    ensures LookupName("INFO") == Some(Informational)
  {
    assert MemberNamed("INFO") == None;
  }

  /** Every name and alias has 3, 4, 6, 8 or 13 letters: a normalised
      spelling of any other length is unknown. */
  lemma {:induction false} FromStringOtherLength(value: string)
    requires |Normalise(value)| !in {3, 4, 6, 8, 13}
    ensures FromString(value) == Err(UnknownSeverity(value))
  {
    LookupOtherLength(Normalise(value));
  }

  lemma {:induction false} LookupOtherLength(n: string)
    requires |n| !in {3, 4, 6, 8, 13}
    ensures LookupName(n) == None
  {
    assert MemberNamed(n) == None;
    assert n !in Aliases;
  }

  /** A four-letter text that normalises to neither "HIGH" nor "INFO"
      (its first letter is neither `H` nor `I`) is rejected. */
  lemma {:induction false} FromStringFourLetters(value: string)
    requires |Normalise(value)| == 4 && Normalise(value)[0] != 'H' && Normalise(value)[0] != 'I'
    ensures FromString(value) == Err(UnknownSeverity(value))
  {
    LookupFourLetters(Normalise(value));
  }

  /** The four-letter spellings that read as a member are "HIGH" and
      "INFO"; no other initial letter looks one up. */
  lemma {:induction false} LookupFourLetters(n: string)
    requires |n| == 4 && n[0] != 'H' && n[0] != 'I'
    ensures LookupName(n) == None
  {
    assert n != "HIGH" && n != "INFO";
    assert MemberNamed(n) == None;
    assert n !in Aliases;
  }

  /** Only the normalised spelling matters: two inputs that trim and
      upper-case alike read as the same member, or both fail. */
  lemma {:induction false} FromStringDependsOnNormalised(a: string, b: string)
    requires Normalise(a) == Normalise(b)
    ensures FromString(a).Ok? == FromString(b).Ok?
    ensures FromString(a).Ok? ==> FromString(a).value == FromString(b).value
  {
    var n := Normalise(a);
    assert LookupName(Normalise(b)) == LookupName(n);
  }

  // ---------------------------------------------------------------------
  // SecurityFinding
  // ---------------------------------------------------------------------

  /** A normalised finding: four mandatory fields and four optional ones. */
  datatype Finding = Finding(
    provider: string,
    id: string,
    title: string,
    severity: Severity,
    description: Option<string>,
    url: Option<string>,
    resource: Option<string>,
    createdAt: Option<Timestamp>)

  /** An optional string is written out only when it is truthy: present and
      non-empty. */
  predicate Written(o: Option<string>) {
    o.Some? && o.value != ""
  }

  /** `d` with `key` set to the field when it is written, `d` otherwise. */
  function WithOptional(d: Object, key: string, o: Option<string>): (r: Object)
    ensures r.Keys == d.Keys + (if Written(o) then {key} else {})
    ensures forall k | k in d && k != key :: r[k] == d[k]
    ensures Written(o) ==> r[key] == Str(o.value)
  {
    if Written(o) then d[key := Str(o.value)] else d
  }

  /** The text `short_dict` writes for an optional creation time. */
  function CreatedText(t: Option<Timestamp>): (r: Option<string>)
    ensures Written(r) <==> t.Some?
    ensures t.Some? ==> r == Some(Format(t.value))
  {
    if t.Some? then Some(Format(t.value)) else None
  }

  /**
   * `short_dict`: always the four mandatory keys (the severity as its
   * label, the title even when empty); each optional key exactly when its
   * field is truthy; nothing else.
   */
  function ShortDict(f: Finding): (d: Object)
    ensures d.Keys ==
      {"provider", "id", "title", "severity"}
      + (if Written(f.description) then {"description"} else {})
      + (if Written(f.url) then {"url"} else {})
      + (if Written(f.resource) then {"resource"} else {})
      + (if f.createdAt.Some? then {"created_at"} else {})
    ensures "provider" in d && d["provider"] == Str(f.provider)
    ensures "id" in d && d["id"] == Str(f.id)
    ensures "title" in d && d["title"] == Str(f.title)
    ensures "severity" in d && d["severity"] == Str(Label(f.severity))
    ensures Written(f.description) ==> "description" in d && d["description"] == Str(f.description.value)
    ensures Written(f.url) ==> "url" in d && d["url"] == Str(f.url.value)
    ensures Written(f.resource) ==> "resource" in d && d["resource"] == Str(f.resource.value)
    ensures f.createdAt.Some? ==> "created_at" in d && d["created_at"] == Str(Format(f.createdAt.value))
  {
    var d0 := map[
      "provider" := Str(f.provider),
      "id" := Str(f.id),
      "title" := Str(f.title),
      "severity" := Str(Label(f.severity))
    ];
    assert d0.Keys == {"provider", "id", "title", "severity"};
    var d1 := WithOptional(d0, "description", f.description);
    var d2 := WithOptional(d1, "url", f.url);
    var d3 := WithOptional(d2, "resource", f.resource);
    WithOptional(d3, "created_at", CreatedText(f.createdAt))
  }

  /**
   * The mandatory half of `from_dict`: fails on the first of `provider`,
   * `id`, `title`, `severity` that is missing, then with the severity
   * error when the severity does not normalise; on success each field is
   * the string under its key and the severity is its normalised reading.
   */
  function ReadMandatory(payload: Object): (r: Result<(string, string, string, Severity), Error>)
    ensures "provider" !in payload ==> r == Err(MissingField("provider"))
    ensures (Required(payload, "provider").Ok? && "id" !in payload) ==> r == Err(MissingField("id"))
    ensures (Required(payload, "provider").Ok? && Required(payload, "id").Ok? && "title" !in payload) ==>
      r == Err(MissingField("title"))
    ensures (Required(payload, "provider").Ok? && Required(payload, "id").Ok? && Required(payload, "title").Ok? &&
      "severity" !in payload) ==> r == Err(MissingField("severity"))
    ensures (Required(payload, "provider").Ok? && Required(payload, "id").Ok? && Required(payload, "title").Ok? &&
      Required(payload, "severity").Ok? && FromString(payload["severity"].s).Err?) ==>
      r == Err(FromString(payload["severity"].s).error)
    ensures r.Ok? <==>
      && Required(payload, "provider").Ok? && Required(payload, "id").Ok? && Required(payload, "title").Ok?
      && Required(payload, "severity").Ok? && FromString(payload["severity"].s).Ok?
    ensures r.Ok? ==>
      && payload["provider"] == Str(r.value.0)
      && payload["id"] == Str(r.value.1)
      && payload["title"] == Str(r.value.2)
      && payload["severity"].Str? && FromString(payload["severity"].s) == Ok(r.value.3)
  {
    var provider :- Required(payload, "provider");
    var id :- Required(payload, "id");
    var title :- Required(payload, "title");
    var severityText :- Required(payload, "severity");
    var severity :- FromString(severityText);
    Ok((provider, id, title, severity))
  }

  /**
   * The optional half of `from_dict`: absent or null keys become `None`,
   * strings are kept as they are (even when empty), and `created_at` is
   * parsed exactly when it is truthy, failing when it does not parse.
   */
  function ReadOptional(payload: Object): (r: Result<(Option<string>, Option<string>, Option<string>, Option<Timestamp>), Error>)
    ensures r.Ok? <==>
      && OptionalText(Get(payload, "description", Null))
      && OptionalText(Get(payload, "url", Null))
      && OptionalText(Get(payload, "resource", Null))
      && TimestampText(Get(payload, "created_at", Null))
    ensures r.Ok? ==>
      && Holds(Get(payload, "description", Null), r.value.0)
      && Holds(Get(payload, "url", Null), r.value.1)
      && Holds(Get(payload, "resource", Null), r.value.2)
      && (r.value.3.Some? <==> "created_at" in payload && Truthy(payload["created_at"]))
      && (r.value.3.Some? ==> payload["created_at"].Str? && Parse(payload["created_at"].s) == r.value.3)
    ensures (&& "created_at" in payload && payload["created_at"].Str? && Truthy(payload["created_at"])
             && Parse(payload["created_at"].s).None?) ==>
      r.Err? && (r.error.WrongType? || r.error == MalformedTimestamp(payload["created_at"].s))
  {
    var created := Get(payload, "created_at", Null);
    var description :- AsOptionalString(Get(payload, "description", Null), "description");
    var url :- AsOptionalString(Get(payload, "url", Null), "url");
    var resource :- AsOptionalString(Get(payload, "resource", Null), "resource");
    var createdAt :- OptionalTimestamp(created, "created_at");
    Ok((description, url, resource, createdAt))
  }

  /** `SecurityFinding.from_dict`: the mandatory fields first, then the
      optional ones. */
  function FromDict(payload: Object): (r: Result<Finding, Error>)
    ensures r.Ok? <==> ReadMandatory(payload).Ok? && ReadOptional(payload).Ok?
    ensures ReadMandatory(payload).Err? ==> r == Err(ReadMandatory(payload).error)
    ensures ReadMandatory(payload).Ok? && ReadOptional(payload).Err? ==> r == Err(ReadOptional(payload).error)
    ensures r.Ok? ==>
      && ReadMandatory(payload) == Ok((r.value.provider, r.value.id, r.value.title, r.value.severity))
      && ReadOptional(payload) == Ok((r.value.description, r.value.url, r.value.resource, r.value.createdAt))
  {
    var m :- ReadMandatory(payload);
    var o :- ReadOptional(payload);
    Ok(Finding(m.0, m.1, m.2, m.3, o.0, o.1, o.2, o.3))
  }

  /** What survives the compact form: an empty optional string is not
      written, so it comes back as `None`. */
  function DropEmpty(o: Option<string>): Option<string> {
    if Written(o) then o else None
  }

  function Compacted(f: Finding): Finding {
    f.(description := DropEmpty(f.description), url := DropEmpty(f.url), resource := DropEmpty(f.resource))
  }

  lemma {:induction false} FromStringLabel(s: Severity)
    ensures FromString(Label(s)) == Ok(s)
  {
    LabelTrimmed(s);
    var l := Label(s);
    assert Upper(l) == l;
    FromStringCanonical(s, [], l, []);
    assert [] + l + [] == l;
  }

  /**
   * The round trip through the compact form: reading back what
   * `short_dict` wrote gives the finding again, except that empty optional
   * strings come back as `None`; a finding without empty optional strings
   * comes back unchanged.
   */
  lemma {:induction false} ShortDictMandatory(f: Finding)
    ensures ReadMandatory(ShortDict(f)) == Ok((f.provider, f.id, f.title, f.severity))
  {
    var d := ShortDict(f);
    assert Required(d, "provider") == Ok(f.provider);
    assert Required(d, "id") == Ok(f.id);
    assert Required(d, "title") == Ok(f.title);
    assert Required(d, "severity") == Ok(Label(f.severity));
    FromStringLabel(f.severity);
  }

  lemma {:induction false} ShortDictOptional(f: Finding)
    ensures ReadOptional(ShortDict(f)) == Ok((DropEmpty(f.description), DropEmpty(f.url), DropEmpty(f.resource), f.createdAt))
  {
    var d := ShortDict(f);
    ShortDictDescription(f);
    ShortDictUrl(f);
    ShortDictResource(f);
    assert AsOptionalString(OptStr(DropEmpty(f.description)), "description") == Ok(DropEmpty(f.description));
    assert AsOptionalString(OptStr(DropEmpty(f.url)), "url") == Ok(DropEmpty(f.url));
    assert AsOptionalString(OptStr(DropEmpty(f.resource)), "resource") == Ok(DropEmpty(f.resource));
    ShortDictCreated(f);
  }

  /** The optional strings as the compact form holds them: written when
      truthy, absent otherwise. */
  lemma {:induction false} ShortDictDescription(f: Finding)
    ensures Get(ShortDict(f), "description", Null) == OptStr(DropEmpty(f.description))
  {
    var d := ShortDict(f);
    if !Written(f.description) {
      assert "description" !in d;
    }
    GetWritten(d, "description", f.description);
  }

  lemma {:induction false} ShortDictUrl(f: Finding)
    ensures Get(ShortDict(f), "url", Null) == OptStr(DropEmpty(f.url))
  {
    var d := ShortDict(f);
    if !Written(f.url) {
      assert "url" !in d;
    }
    GetWritten(d, "url", f.url);
  }

  lemma {:induction false} ShortDictResource(f: Finding)
    ensures Get(ShortDict(f), "resource", Null) == OptStr(DropEmpty(f.resource))
  {
    var d := ShortDict(f);
    if !Written(f.resource) {
      assert "resource" !in d;
    }
    GetWritten(d, "resource", f.resource);
  }

  /** A key written exactly when the optional string is truthy reads back
      as that string, or as null. */
  lemma {:induction false} GetWritten(d: Object, key: string, o: Option<string>)
    requires Written(o) ==> key in d && d[key] == Str(o.value)
    requires !Written(o) ==> key !in d
    ensures Get(d, key, Null) == OptStr(DropEmpty(o))
  {
  }

  /** A time in its ISO form reads back as that time. */
  lemma {:induction false} ReadFormatted(t: Timestamp, key: string)
    ensures OptionalTimestamp(Str(Format(t)), key) == Ok(Some(t))
  {
    ParseFormat(t);
  }

  /** The written creation time reads back as the same time. */
  lemma {:induction false} ShortDictCreated(f: Finding)
    ensures OptionalTimestamp(Get(ShortDict(f), "created_at", Null), "created_at") == Ok(f.createdAt)
  {
    if f.createdAt.Some? {
      assert Get(ShortDict(f), "created_at", Null) == Str(Format(f.createdAt.value));
      ReadFormatted(f.createdAt.value, "created_at");
    } else {
      assert Get(ShortDict(f), "created_at", Null) == Null;
    }
  }

  /**
   * The round trip through the compact form: reading back what
   * `short_dict` wrote gives the finding again, except that empty optional
   * strings come back as `None`; a finding without empty optional strings
   * comes back unchanged.
   */
  lemma {:induction false} ShortDictRoundTrip(f: Finding)
    ensures FromDict(ShortDict(f)) == Ok(Compacted(f))
    ensures !(f.description == Some("") || f.url == Some("") || f.resource == Some("")) ==>
      FromDict(ShortDict(f)) == Ok(f)
  {
    ShortDictMandatory(f);
    ShortDictOptional(f);
  }

  // ---------------------------------------------------------------------
  // merge_findings
  // ---------------------------------------------------------------------

  /** Total number of findings across the lists. */
  function SumLengths(sets: seq<seq<Finding>>): nat {
    if sets == [] then 0 else SumLengths(sets[..|sets| - 1]) + |sets[|sets| - 1]|
  }

  /** Where the `i`-th list starts in the merged list. */
  function Offset(sets: seq<seq<Finding>>, i: nat): nat
    requires i <= |sets|
  {
    SumLengths(sets[..i])
  }

  /** The lists laid end to end. */
  function Concat(sets: seq<seq<Finding>>): seq<Finding> {
    if sets == [] then [] else Concat(sets[..|sets| - 1]) + sets[|sets| - 1]
  }

  /** Each list appears in the concatenation as one contiguous block at its
      offset, and the length is the sum of the lengths. */
  lemma {:induction false} ConcatBlocks(sets: seq<seq<Finding>>)
    ensures |Concat(sets)| == SumLengths(sets)
    ensures forall i :: 0 <= i < |sets| ==>
      Offset(sets, i) + |sets[i]| <= |Concat(sets)| &&
      Concat(sets)[Offset(sets, i)..Offset(sets, i) + |sets[i]|] == sets[i]
  {
    if sets != [] {
      var n := |sets| - 1;
      var init := sets[..n];
      ConcatBlocks(init);
      var c := Concat(init);
      assert Concat(sets) == c + sets[n];
      forall i | 0 <= i < |sets|
        ensures Offset(sets, i) + |sets[i]| <= |Concat(sets)|
        ensures Concat(sets)[Offset(sets, i)..Offset(sets, i) + |sets[i]|] == sets[i]
      {
        if i < n {
          assert sets[..i] == init[..i];
          assert Offset(sets, i) == Offset(init, i);
          assert init[i] == sets[i];
        } else {
          assert sets[..i] == init;
        }
      }
    }
  }

  /**
   * `merge_findings`: the lists laid end to end in argument order — each
   * input appears as one contiguous block at its offset, and the length is
   * the sum of the input lengths.
   */
  method MergeFindings(findingSets: seq<seq<Finding>>) returns (merged: seq<Finding>)
    ensures |merged| == SumLengths(findingSets)
    ensures forall i :: 0 <= i < |findingSets| ==>
      Offset(findingSets, i) + |findingSets[i]| <= |merged| &&
      merged[Offset(findingSets, i)..Offset(findingSets, i) + |findingSets[i]|] == findingSets[i]
  {
    merged := [];
    var i := 0;
    while i < |findingSets|
      invariant 0 <= i <= |findingSets|
      invariant merged == Concat(findingSets[..i])
    {
      assert findingSets[..i + 1][..i] == findingSets[..i];
      merged := merged + findingSets[i];
      i := i + 1;
    }
    assert findingSets[..|findingSets|] == findingSets;
    ConcatBlocks(findingSets);
  }
}
