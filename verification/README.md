# Security dashboard: normalisation and aggregation, in Dafny

This project models the pure core of a small security dashboard. The dashboard
pulls findings from GitHub Advanced Security (code scanning, secret scanning,
Dependabot) and from AWS Security Hub. It normalises them into one finding
record and aggregates them into per-provider and per-severity counts and a
sorted table.

The modules follow the program's structure:

- `Models` (models.dfy) holds the five-level `Severity` taxonomy and
  `from_string` with its `INFO` alias. It also holds the `Finding` record
  with `short_dict` and `from_dict`, and `merge_findings`.
- `Tally` (tally.dfy) models `collections.Counter` and `defaultdict(Counter)`.
  Each is an insertion-ordered sequence of (key, count) pairs, so that
  first-seen order, and with it the sort's tie-break, can be stated.
- `Dashboard` (dashboard.dfy) models `DashboardReport`: the total, the three
  groupings, the rows with their five title-cased severity columns, and the
  stable sort by `Total` descending. The sort is an insertion sort, which
  produces the unique stable order.
- `GitHub` (github.dfy) models endpoint construction, the `Link`-header
  "next" extraction and alert conversion with its `or` fallback chains.
- `SecurityHub` (aws_security_hub.dfy) models the filter to request-dict
  construction and the finding conversion with its defaults.
- Supporting modules:
  - `Json` (json.dfy) is the payload value, with Python truthiness, `dict.get`
    and `or`.
  - `Payload` (payload.dfy) reads payload values the way the Python code
    does. Where Python would raise, it returns an `Error` instead.
  - `Text` (text.dfy) models `str.strip` over the `str.isspace` set,
    `upper`/`lower`, `split`/`join`, `in` on strings and `replace`.
  - `DateTime` (datetime.dfy) is a concrete `isoformat`/`fromisoformat` pair
    with the round trip proved.
  - `Wrappers` (wrappers.dfy) holds `Option` and `Result`.

Python exceptions become `Err` values of `Payload.Error`:

- `UnknownSeverity` for the `ValueError` of `from_string`.
- `MissingField` for a `KeyError` on a mandatory key.
- `MalformedTimestamp` for text that `fromisoformat` rejects.
- `WrongType` for the `AttributeError`/`TypeError` of a value of the wrong
  shape.

One consequence is worth knowing. GitHub code-scanning rules report their
level as `none`, `note`, `warning` or `error`, and none of these is a severity
name. So a code-scanning alert whose rule carries such a level is rejected, not
defaulted (`GitHub.ConvertAlertRuleLevelRejected`). The model keeps this
behaviour of the code as written.

## Model

| member | source | states |
|---|---|---|
| Models.FromString | security_dashboard/models.py:20-36 | succeeds exactly when the stripped, upper-cased text is a member name or `INFO`; the result is the member of that name (`INFO` gives Informational); otherwise the error carries the original text |
| Models.FromStringCanonical | security_dashboard/models.py:20-23 | any member name, in any letter case and with any surrounding whitespace, reads as that member |
| Models.FromStringInfoAlias | security_dashboard/models.py:26-35 | `info` in any letter case, with surrounding whitespace, reads as Informational |
| Models.FromStringOtherLength | security_dashboard/models.py:34-36 | a text whose normalised form has a length no name or alias has is rejected with "unknown severity" and the original text, never defaulted |
| Models.FromStringDependsOnNormalised | security_dashboard/models.py:21 | two texts with the same stripped, upper-cased form give the same member or both fail |
| Models.ShortDict | security_dashboard/models.py:52-68 | the dictionary always has provider, id, title (even when empty) and severity as its label; it has description, url, resource or created_at exactly when that field is truthy, holding its value (created_at in isoformat); it has no other key |
| Models.ReadMandatory | security_dashboard/models.py:73-77 | succeeds exactly when provider, id, title and severity are present as strings and the severity text names a severity; otherwise fails with a missing-key error on the first of them that is absent, then with the severity error; on success each field is the string under its key |
| Models.ReadOptional | security_dashboard/models.py:72-81 | succeeds exactly when description, url and resource are absent, null or strings and created_at is falsy or a text the parser accepts; each optional field is the value under its key or none when absent; created_at is parsed exactly when its value is truthy, and a text the parser rejects is an error |
| Models.FromDict | security_dashboard/models.py:70-82 | succeeds exactly when both the mandatory and the optional reading succeed; mandatory-key and severity errors come first, then errors in the optional fields; a success is built from exactly what both readers found |
| Models.ShortDictRoundTrip | security_dashboard/models.py:52-82 | reading back the dictionary of any finding gives the finding with empty optional strings dropped, and exactly the finding when no optional string is empty |
| Models.MergeFindings | security_dashboard/models.py:85-91 | the merged list's length is the sum of the input lengths, and each input appears whole, in order, as the block starting where the earlier inputs end |
| Models.ConcatBlocks | security_dashboard/models.py:85-91 | the recursive concatenation, the reference the loop is held to, has the same block structure |
| DateTime.ParseFormat | security_dashboard/models.py:66-81 | parsing the isoformat text of any valid date-time gives that date-time back |
| DateTime.Format | security_dashboard/models.py:67 | the isoformat text is at least 19 characters long and contains no `Z`, so the GitHub `Z` replacement leaves it alone |
| Text.StripSurrounds | security_dashboard/models.py:21 | the stripped text is the input with whitespace-only padding removed at both ends |
| Text.StripPadded | security_dashboard/models.py:21 | stripping a text with no whitespace at either end, padded with whitespace, gives the text back |
| Text.SplitJoin | security_dashboard/github.py:99-100 | splitting on a separator undoes joining pieces that do not contain it |
| Tally.CountAllSpec | security_dashboard/dashboard.py:22-27 | the counter has one entry per distinct element, exactly the elements seen, in first-seen order; each count is that element's number of occurrences and at least 1; the counts sum to the input length |
| Tally.IncrementLookup | security_dashboard/dashboard.py:26 | `counts[k] += 1` raises the count of k by one and leaves every other count alone |
| Tally.GroupAllSpec | security_dashboard/dashboard.py:36-40 | the nested grouping has the providers in first-seen order, and the inner counter of provider p counts the severities of p's findings only |
| Tally.AsMapOfCountAll | security_dashboard/dashboard.py:27 | the counter as a dictionary has exactly the elements seen as keys, each mapped to its positive count |
| Dashboard.ByProviderSpec | security_dashboard/dashboard.py:22-27 | per-provider counts: exactly the observed providers, no zero entries, each its number of findings, summing to the total |
| Dashboard.BySeveritySpec | security_dashboard/dashboard.py:29-34 | per-severity counts: exactly the observed severities, each its number of findings, summing to the total; the five column counts also sum to the total |
| Dashboard.NestedSpec | security_dashboard/dashboard.py:36-40 | the nested grouping has the same providers in the same order as the per-provider counts; inner counts are the (provider, severity) occurrences; each inner map sums to the provider's count |
| Dashboard.ColumnTitles | security_dashboard/dashboard.py:48-49 | the title-cased severity columns are Critical, High, Medium, Low and Informational |
| Dashboard.MakeRowColumn | security_dashboard/dashboard.py:47-49 | every row carries all five severity columns, with 0 for a severity the provider does not have |
| Dashboard.InsertNonIncreasing | security_dashboard/dashboard.py:51 | inserting a row into rows sorted by non-increasing Total keeps them sorted |
| Dashboard.SortByTotalSpec | security_dashboard/dashboard.py:51 | the sort returns a permutation of its input with non-increasing Totals and the same Total sum |
| Dashboard.SortRanked | security_dashboard/dashboard.py:51 | for any ranking that increases strictly along the input, the sorted rows are ordered by Total descending and then by that ranking, so rows with equal Totals keep their input order |
| Dashboard.UnsortedRows | security_dashboard/dashboard.py:45-50 | before sorting there is one row per provider, in first-seen order, with Total equal to the provider's count and each column equal to the provider's count of that severity |
| Dashboard.ToRowsContents | security_dashboard/dashboard.py:42-52 | one row per distinct provider, each counting that provider's findings by severity; the Totals sum to the number of findings; no findings gives no rows |
| Dashboard.ToRowsOrder | security_dashboard/dashboard.py:51 | rows are ordered by Total descending, and rows with equal Totals keep first-seen provider order |
| Dashboard.ToRowsDistinct | security_dashboard/dashboard.py:45-50 | no provider has two rows |
| GitHub.NormaliseApiUrl | security_dashboard/github.py:36 | the base URL loses all its trailing slashes and nothing else |
| GitHub.NormaliseApiUrlSlash | security_dashboard/github.py:29-36 | a trailing slash on the configured URL makes no difference; normalising twice is normalising once; the default URL is kept as given |
| GitHub.BuildEndpoint | security_dashboard/github.py:58-61 | the endpoint is the API root, then `repos/<owner>/<repo>` when a non-empty repository is named and `orgs/<owner>` otherwise, then the resource, joined by `/` |
| GitHub.BuildEndpointInjective | security_dashboard/github.py:58-61 | for owners without `/`, the endpoint tells apart organisation and repository scope, the owner and the repository |
| GitHub.AlertKindsDistinct | security_dashboard/github.py:46-56 | the three fetchers use different endpoints and different provider names |
| GitHub.NextOfTwoSegments | security_dashboard/github.py:100-105 | a part with two `;`-segments yields the stripped, unwrapped URL segment exactly when its second segment contains `rel="next"` |
| GitHub.NextOfOneSegment | security_dashboard/github.py:100-102 | a part without `;` is skipped |
| GitHub.NextOfManySegments | security_dashboard/github.py:100-102 | a part with three or more `;`-segments is skipped |
| GitHub.FirstNextSpec | security_dashboard/github.py:99-106 | a URL is found exactly when some comma-separated part is a "next" link, and it is that of the first such part |
| GitHub.ExtractNextLink | security_dashboard/github.py:96-98 | a missing or empty header gives no link; any other header is read part by part as `GitHub.FirstNextSpec` states |
| GitHub.ExtractNextLinkOfHeader | security_dashboard/github.py:95-106 | on a header written from links with plain URLs, the result is the URL of the first link with relation "next", or nothing when there is none |
| GitHub.NextOfLinkText | security_dashboard/github.py:100-105 | one written link, after any whitespace, yields its URL exactly when its relation is "next" |
| GitHub.AlertTimestamp | security_dashboard/github.py:92 | succeeds exactly when the creation time is falsy or a text that parses once `Z` is read as `+00:00`; a falsy one gives none, a truthy one gives the parsed time; a text the parser rejects is a malformed-timestamp error and a truthy non-string a type error |
| GitHub.AlertHeadSpec | security_dashboard/github.py:77-84 | the id, title and severity convert exactly when the rule is a dictionary or absent, the severity fallback chain gives a text naming a severity, the id chain gives a scalar and the title chain a string; the values are those of the chains |
| GitHub.AlertDetails | security_dashboard/github.py:85-92 | succeeds exactly when the latest instance, its message and its location are dictionaries or absent, the message text, URL and path are strings or null and the creation time is readable; description and resource come from the message text and location path, the URL is `html_url` else `url`, the time is `created_at` else `created` |
| GitHub.ConvertAlert | security_dashboard/github.py:75-93 | provider as given; id is `str` of the number else the id; title is the rule description else the summary else "(no title)"; severity is the rule's else the advisory's else "low", normalised; an unknown severity rejects the alert |
| GitHub.ConvertAlertReadable | security_dashboard/github.py:75-93 | an alert converts exactly when its head is readable (rule a dictionary or absent, severity text naming a severity, a scalar id, a string title) and its optional fields are readable (instance, message and location dictionaries or absent, text, URL and path strings or null, creation time readable) |
| GitHub.ConvertAlertDefaults | security_dashboard/github.py:77-92 | an empty alert becomes a Low finding with id "None", title "(no title)" and no optional fields |
| GitHub.ConvertAlertRuleSeverityFirst | security_dashboard/github.py:77 | when the rule's severity is truthy, the advisory does not affect the result, whatever it holds |
| GitHub.ConvertAlertAdvisorySeverity | security_dashboard/github.py:77-84 | without a rule, the advisory's severity decides: a known level gives that level, an unknown one rejects the alert |
| GitHub.ConvertAlertRuleLevelRejected | security_dashboard/github.py:77-84 | an alert whose rule severity is any of the code-scanning levels "none", "note", "warning" or "error" is rejected |
| GitHub.ConvertAlertRoundTrip | security_dashboard/github.py:75-93 | an alert payload written from a finding (positive number, non-empty title, non-empty URL) converts back to that finding, with the id as the number in decimal |
| SecurityHub.ToBoto | security_dashboard/aws_security_hub.py:36-47 | SeverityLabel is present exactly when there are labels, with one EQUALS condition per label in order; ProductName is present exactly when there is a product name, with one EQUALS condition; no other key; empty exactly when both are falsy |
| SecurityHub.ToBotoReadBack | security_dashboard/aws_security_hub.py:36-47 | the labels and product name can be read back from the request dictionary, with falsy fields read as absent |
| SecurityHub.ToBotoInjective | security_dashboard/aws_security_hub.py:36-47 | two filters give the same request dictionary exactly when they agree once falsy fields are read as absent |
| SecurityHub.SeverityLabelOf | security_dashboard/aws_security_hub.py:96 | the severity label is read from the Severity object, with "INFORMATIONAL" as the default |
| SecurityHub.ResourceIdOf | security_dashboard/aws_security_hub.py:97-98 | absent or falsy Resources give none; a list whose first entry is a dictionary gives that entry's Id, none when it has no Id; any other truthy Resources value is a type error |
| SecurityHub.ConvertFinding | security_dashboard/aws_security_hub.py:94-110 | provider "AWS Security Hub"; id from Id, and a missing Id is a failure; title defaults to "(no title)"; severity defaults to INFORMATIONAL and is normalised; the other fields come from their keys |
| SecurityHub.RecommendationUrl | security_dashboard/aws_security_hub.py:105-107 | succeeds exactly when Remediation and Recommendation are dictionaries or absent and the Url under them is a string or null; the URL is that value |
| SecurityHub.ConvertFindingReadable | security_dashboard/aws_security_hub.py:94-110 | a finding converts exactly when the label names a severity, Resources is readable, Id is a string, the title a string or absent, the description, recommendation URL and resource Id strings or null, and FirstObservedAt readable |
| SecurityHub.ConvertFindingMissingId | security_dashboard/aws_security_hub.py:101 | when Severity and Resources, which are read first, are absent, a finding without Id fails with a missing-key error on Id |
| SecurityHub.ConvertFindingDefaults | security_dashboard/aws_security_hub.py:96-109 | a finding with only an Id becomes an Informational finding titled "(no title)" with no optional fields |
| SecurityHub.ConvertFindingRoundTrip | security_dashboard/aws_security_hub.py:94-110 | a Security Hub payload written from any finding of this provider converts back to that finding |

## Left out

- The command line, the table renderer, configuration from the environment and the re-exports of `__init__.py`. They are presentation and plumbing around the modelled core.
- The `requests` session, the `_paginate_alerts` HTTP loop and the boto3 session, paginator and error wrapping in `fetch_findings`. They are network and SDK calls. The pure steps they drive (endpoint, next link, conversion, filter) are modelled.
- `fetch_findings`' `max_results` cut-off is not modelled. It sits inside the paginator loop, and the count is checked only after a finding has been yielded.
- `DashboardReport.generated_at` is not modelled, because it reads the wall clock.
- `total_findings` of a snapshot: the report holds an immutable sequence, so later changes to the caller's collection cannot reach it, and nothing needs proving.
- `GitHubQuery.state` and `GitHubQuery.severity` are carried but not used, because the source never sends them.
- Models.ShortDict: a dictionary is a map, so the key order of the Python dictionary is not modelled.
- Models.ReadMandatory: a non-string value under provider, id or title is rejected with `WrongType`, where Python would store it unchanged in the `str` field.
- Models.ReadOptional: a non-string value under description, url or resource is rejected with `WrongType`, where Python would store it unchanged.
- GitHub.ConvertAlert: a non-string title, description, URL or path is rejected with `WrongType`, where Python would store it unchanged. The id is `str()` of a scalar only; an array or object id is rejected instead of being written as its `repr`.
- SecurityHub.ConvertFinding: a non-string Id, title, description, URL or resource Id is rejected with `WrongType`, where Python would store it unchanged.
- Json: numbers are integers. JSON floats, and `str()` of them, are not modelled.
- DateTime.Parse: it accepts what `isoformat` writes (`YYYY-MM-DD`, any separator, `HH:MM:SS` with no fraction or a 3- or 6-digit fraction, then no zone, `Z` or `±HH:MM`) and rejects all other text. Python's `fromisoformat` accepts more. From Python 3.7 it also takes a date alone, an `HH` or `HH:MM` time, and offsets with seconds. From Python 3.11 it also takes 1- to 6-digit fractions, `±HHMM` offsets, week dates and the basic format. Such text is a `MalformedTimestamp` in the model, where Python would read it. The model follows no single Python version: it reads `Z` as 3.11 does, and fraction widths as 3.7 to 3.10 do.
- Text.UpperChar: exact for the characters whose upper case is an ASCII letter, which are the only ones a severity name can be made from. It does not model the full Unicode case table.
- GitHub.Unwrap: `s[1:-1]` of a one-character string is modelled as empty, which is what Python gives too.
