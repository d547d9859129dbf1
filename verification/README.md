# HAPI FHIR: four small cores, modelled in Dafny

This project models four self-contained pieces of HAPI FHIR and proves properties of them.

- **`IntegerDt`** is the FHIR `integer` primitive. It holds one nullable 32-bit `int`, with a decimal string form built on `Integer.parseInt` and `Integer.toString`.
  - Modules: `JavaInteger` (the Java codec) and `IntegerDatatype` (the primitive).
- **`FulltextSearchSvcImpl`** builds the query for full-text search, with memoised disabled detection.
  - It turns the OR-lists of `_content`, `_text` and `code:text` parameters into de-duplicated term sets.
  - Each AND-group becomes at most one clause: a lower-cased phrase or a space-joined match.
  - A resource-link clause is added when a referencing pid is given. A resource-type clause is added when the resource name is not blank.
  - `isDisabled` caches the result of a probe search.
  - Modules: `FulltextSearch`, plus `JavaText` for `String.trim`, `Character.isWhitespace`, and `StringUtils.defaultString`/`isBlank`/`join`.
- **`PhoneticEncoderMatcher`** says two strings match when a phonetic encoder gives them equal codes. Module: `PhoneticMatcher`. It proves that matching is an equivalence relation, whatever the encoder.
- **`FhirContextR4Config`** sets the "don't strip versions from references at paths" option. It picks one of three paths by FHIR version. Module: `FhirContextConfig`.

The style is functional. Java objects with mutable fields (`IntegerDt.myValue`, the `ourDisabled` cache, a `FhirContext`'s parser options) are immutable datatypes here. Each operation returns the state after the call. A thrown exception is a `Failure` value, or an `Outcome` that also carries the unchanged state.

## Model

| member | source | states |
|---|---|---|
| `IntegerDatatype.GetValue` | hapi-fhir-base/src/main/java/ca/uhn/fhir/model/datatype/IntegerDt.java:12-14 | `getValue()` is null exactly when `getValueAsString()` is, and otherwise the number that string denotes |
| `IntegerDatatype.SetValue` | hapi-fhir-base/src/main/java/ca/uhn/fhir/model/datatype/IntegerDt.java:16-18 | after `setValue(v)`, `getValue()` is `v` |
| `IntegerDatatype.SetThenGet` | hapi-fhir-base/src/main/java/ca/uhn/fhir/model/datatype/IntegerDt.java:12-18 | `setValue(v)` then `getValue()` returns `v` for every `v`, null included, whatever was stored before; setting the same value twice is setting it once |
| `IntegerDatatype.SetValueAsString` | hapi-fhir-base/src/main/java/ca/uhn/fhir/model/datatype/IntegerDt.java:21-27 | null clears the value; it throws exactly when `parseInt` rejects the string, and then the stored value is the old one; otherwise it stores the parsed value |
| `IntegerDatatype.GetValueAsString` | hapi-fhir-base/src/main/java/ca/uhn/fhir/model/datatype/IntegerDt.java:30-35 | null exactly when the value is null; otherwise a canonical decimal string that parses back to the stored value |
| `IntegerDatatype.StringRoundTrip` | hapi-fhir-base/src/main/java/ca/uhn/fhir/model/datatype/IntegerDt.java:21-35 | feeding `getValueAsString()` into `setValueAsString` on any instance restores the value, for every `int` (the range ends included) and for null, without throwing |
| `IntegerDatatype.MalformedKeepsValue` | hapi-fhir-base/src/main/java/ca/uhn/fhir/model/datatype/IntegerDt.java:25 | a string `parseInt` rejects throws `NumberFormatException` and leaves the stored value unchanged |
| `IntegerDatatype.PrintAfterParseFixed` | hapi-fhir-base/src/main/java/ca/uhn/fhir/model/datatype/IntegerDt.java:25-34 | after a successful parse, the printed form is canonical; setting it and printing again gives the same string |
| `IntegerDatatype.NormalisationExamples` | hapi-fhir-base/src/main/java/ca/uhn/fhir/model/datatype/IntegerDt.java:25-34 | `"+5"` prints back as `"5"` and `"007"` as `"7"`; `"2147483648"` leaves the value unchanged |
| `JavaInteger.ParseInt` | hapi-fhir-base/src/main/java/ca/uhn/fhir/model/datatype/IntegerDt.java:25 | a rejected string raises `NumberFormatException` carrying that string; an accepted one is non-empty, an optional `+` or `-` followed by digits only, and its value is those digits' value, negated after `-`; conversely every such string whose value fits in an `int` is accepted |
| `JavaInteger.ToString` | hapi-fhir-base/src/main/java/ca/uhn/fhir/model/datatype/IntegerDt.java:34 | `Integer.toString` starts with `-` exactly for negatives, and everything else is at least one digit |
| `JavaInteger.ToStringCanonical` | hapi-fhir-base/src/main/java/ca/uhn/fhir/model/datatype/IntegerDt.java:34 | `Integer.toString` prints the canonical form: `-` only for negatives, no leading zero, `"0"` for zero |
| `JavaInteger.ParseToString` | hapi-fhir-base/src/main/java/ca/uhn/fhir/model/datatype/IntegerDt.java:25-34 | `parseInt(toString(n)) == n` for every 32-bit `n`, `MIN_VALUE` and `MAX_VALUE` included |
| `JavaInteger.ToStringParse` | hapi-fhir-base/src/main/java/ca/uhn/fhir/model/datatype/IntegerDt.java:25-34 | a canonical string that parses is exactly what `toString` prints for its value, so canonical strings are the fixed points |
| `JavaInteger.PrintAfterParseIdempotent` | hapi-fhir-base/src/main/java/ca/uhn/fhir/model/datatype/IntegerDt.java:25-34 | print after parse yields a canonical string; parsing and printing it again changes nothing |
| `JavaInteger.ParseNormalisesExamples` | hapi-fhir-base/src/main/java/ca/uhn/fhir/model/datatype/IntegerDt.java:25 | `parseInt` accepts `"+5"`, `"007"` and `"-0"` and yields 5, 7 and 0 |
| `JavaInteger.ParseMinValueExample` | hapi-fhir-base/src/main/java/ca/uhn/fhir/model/datatype/IntegerDt.java:25 | `"-2147483648"` parses to `MIN_VALUE` |
| `JavaInteger.ParseOverflowExample` | hapi-fhir-base/src/main/java/ca/uhn/fhir/model/datatype/IntegerDt.java:25 | `"2147483648"`, one past `MAX_VALUE`, is rejected |
| `JavaInteger.ParseRejectsExamples` | hapi-fhir-base/src/main/java/ca/uhn/fhir/model/datatype/IntegerDt.java:25 | the empty string, a bare sign, and surrounding spaces or stray characters are rejected |
| `JavaText.Trim` | hapi-fhir-jpaserver-base/src/main/java/ca/uhn/fhir/jpa/dao/FulltextSearchSvcImpl.java:129 | `trim()` returns the one slice of the input with only characters up to U+0020 around it, and none at its own ends |
| `JavaText.TrimIdempotent` | hapi-fhir-jpaserver-base/src/main/java/ca/uhn/fhir/jpa/dao/FulltextSearchSvcImpl.java:129 | trimming a trimmed value changes nothing |
| `JavaText.TrimExamples` | hapi-fhir-jpaserver-base/src/main/java/ca/uhn/fhir/jpa/dao/FulltextSearchSvcImpl.java:129 | `" Glucose "` trims to `"Glucose"`; a lone tab trims to the empty string |
| `JavaText.DefaultString` | hapi-fhir-jpaserver-base/src/main/java/ca/uhn/fhir/jpa/dao/FulltextSearchSvcImpl.java:129 | `defaultString` turns null into the empty string and keeps any other string |
| `JavaText.IsBlank` | hapi-fhir-jpaserver-base/src/main/java/ca/uhn/fhir/jpa/dao/FulltextSearchSvcImpl.java:136 | null and the empty string are blank |
| `JavaText.IsNotBlank` | hapi-fhir-jpaserver-base/src/main/java/ca/uhn/fhir/jpa/dao/FulltextSearchSvcImpl.java:136 | `isNotBlank` holds exactly for a non-null string with a character `Character.isWhitespace` rejects, so never for the empty string |
| `JavaText.TrimAndBlank` | hapi-fhir-jpaserver-base/src/main/java/ca/uhn/fhir/jpa/dao/FulltextSearchSvcImpl.java:129-136 | trimming never makes a blank string non-blank, but the converse fails both ways: U+0001 is not blank yet trims to nothing, the em space U+2003 is blank yet survives `trim` |
| `JavaText.Join` | hapi-fhir-jpaserver-base/src/main/java/ca/uhn/fhir/jpa/dao/FulltextSearchSvcImpl.java:114 | `join` is as long as the elements together plus one separator between each neighbouring pair, and starts with the first element |
| `JavaText.SplitJoin` | hapi-fhir-jpaserver-base/src/main/java/ca/uhn/fhir/jpa/dao/FulltextSearchSvcImpl.java:114 | `join` with a separator no element contains loses nothing: splitting at the separator gives the elements back |
| `FulltextSearch.ExtractOrStringParams` | hapi-fhir-jpaserver-base/src/main/java/ca/uhn/fhir/jpa/dao/FulltextSearchSvcImpl.java:122-141 | fails exactly when some parameter is neither a string nor a token, naming the first such class; otherwise lists each term of the term set exactly once |
| `FulltextSearch.TermSetMembership` | hapi-fhir-jpaserver-base/src/main/java/ca/uhn/fhir/jpa/dao/FulltextSearchSvcImpl.java:124-140 | a string is a term exactly when some parameter offers it (trimmed string or verbatim token) and it is not blank |
| `FulltextSearch.TermSetBounds` | hapi-fhir-jpaserver-base/src/main/java/ca/uhn/fhir/jpa/dao/FulltextSearchSvcImpl.java:124-140 | the term set has at most as many elements as the OR-list and no null or blank entry |
| `FulltextSearch.ListingBounds` | hapi-fhir-jpaserver-base/src/main/java/ca/uhn/fhir/jpa/dao/FulltextSearchSvcImpl.java:124-140 | any listing of the term set, so what extraction returns, has no blank entry and no more entries than the OR-list has parameters |
| `FulltextSearch.StringValueTrimmed` | hapi-fhir-jpaserver-base/src/main/java/ca/uhn/fhir/jpa/dao/FulltextSearchSvcImpl.java:127-129 | a string parameter contributes its trimmed value |
| `FulltextSearch.NullStringContributesNothing` | hapi-fhir-jpaserver-base/src/main/java/ca/uhn/fhir/jpa/dao/FulltextSearchSvcImpl.java:129 | a null string value is read as empty and contributes no term |
| `FulltextSearch.TokenValueVerbatim` | hapi-fhir-jpaserver-base/src/main/java/ca/uhn/fhir/jpa/dao/FulltextSearchSvcImpl.java:130-132 | a token parameter contributes its value untrimmed |
| `FulltextSearch.StringTermExample` | hapi-fhir-jpaserver-base/src/main/java/ca/uhn/fhir/jpa/dao/FulltextSearchSvcImpl.java:127-129 | the string value `" Glucose "` gives the term `"Glucose"` |
| `FulltextSearch.OtherTermExamples` | hapi-fhir-jpaserver-base/src/main/java/ca/uhn/fhir/jpa/dao/FulltextSearchSvcImpl.java:126-138 | the token value `" Glucose "` stays `" Glucose "`; null values and a blank string give nothing |
| `FulltextSearch.ControlCharacterTerms` | hapi-fhir-jpaserver-base/src/main/java/ca/uhn/fhir/jpa/dao/FulltextSearchSvcImpl.java:127-138 | a string value U+0001 is trimmed away and contributes nothing, while the same token value becomes a term |
| `FulltextSearch.TermSetExample` | hapi-fhir-jpaserver-base/src/main/java/ca/uhn/fhir/jpa/dao/FulltextSearchSvcImpl.java:124-140 | a mixed OR-list of trimmed, untrimmed, null and blank values yields exactly two terms |
| `FulltextSearch.AddTextSearch` | hapi-fhir-jpaserver-base/src/main/java/ca/uhn/fhir/jpa/dao/FulltextSearchSvcImpl.java:101-120 | an absent AND-list adds nothing; otherwise each group with terms adds exactly one clause on the field and an empty group adds none; one term gives a lower-cased phrase with boost `4.0f` and slop 2; several give a match on all terms joined by single spaces, each once, not lower-cased; any unsupported parameter fails the call with the first group's error |
| `FulltextSearch.GroupClauses` | hapi-fhir-jpaserver-base/src/main/java/ca/uhn/fhir/jpa/dao/FulltextSearchSvcImpl.java:107-118 | one AND-group with terms adds exactly one clause and an empty one adds none, always on the group's field |
| `FulltextSearch.GroupClauseShape` | hapi-fhir-jpaserver-base/src/main/java/ca/uhn/fhir/jpa/dao/FulltextSearchSvcImpl.java:107-118 | for any duplicate-free listing of the terms, that clause is the lower-cased phrase of the single term, or the match on all terms joined by spaces |
| `FulltextSearch.GroupStep` | hapi-fhir-jpaserver-base/src/main/java/ca/uhn/fhir/jpa/dao/FulltextSearchSvcImpl.java:106-118 | handling one AND-group appends the clause for its term set when that set is non-empty and nothing when it is empty, whatever order the terms are listed in |
| `FulltextSearch.MatchTextRecoversTerms` | hapi-fhir-jpaserver-base/src/main/java/ca/uhn/fhir/jpa/dao/FulltextSearchSvcImpl.java:113-115 | when no term contains a space, the text of a multi-term match splits back into exactly the term set |
| `FulltextSearch.ClauseCountBound` | hapi-fhir-jpaserver-base/src/main/java/ca/uhn/fhir/jpa/dao/FulltextSearchSvcImpl.java:105-119 | the number of clauses is at most the number of groups, and equals it when every group has a term; no clause stands for an empty term set |
| `FulltextSearch.LinkClauses` | hapi-fhir-jpaserver-base/src/main/java/ca/uhn/fhir/jpa/dao/FulltextSearchSvcImpl.java:211-213 | a clause on the resource-link field is present exactly when a pid is given, and never on the type or text fields |
| `FulltextSearch.TypeClauses` | hapi-fhir-jpaserver-base/src/main/java/ca/uhn/fhir/jpa/dao/FulltextSearchSvcImpl.java:217-219 | a clause on the resource-type field is present exactly when the name is not blank, and never on the link or text fields |
| `FulltextSearch.QueryTail` | hapi-fhir-jpaserver-base/src/main/java/ca/uhn/fhir/jpa/dao/FulltextSearchSvcImpl.java:211-219 | after text clauses, which never use these fields, a resource-link clause is present exactly when a pid is given and a resource-type clause exactly when the name is not blank |
| `FulltextSearch.DoSearch` | hapi-fhir-jpaserver-base/src/main/java/ca/uhn/fhir/jpa/dao/FulltextSearchSvcImpl.java:143-224 | the query is the `_content`, `_text` and `code:text` clauses on their own fields, in that order; then the link clause exactly when a pid is given; then, last, the type clause exactly when the name is not blank; it fails exactly when one text parameter has an unsupported value, with the first such error |
| `FulltextSearch.Search` | hapi-fhir-jpaserver-base/src/main/java/ca/uhn/fhir/jpa/dao/FulltextSearchSvcImpl.java:280-284 | a type search never carries a resource-link clause, and carries a type clause exactly when the name is not blank; when the name is not blank the last clause matches exactly that name; it fails exactly when a text parameter is rejected, with `doSearch`'s error |
| `FulltextSearch.ReadIdParam` | hapi-fhir-jpaserver-base/src/main/java/ca/uhn/fhir/jpa/dao/FulltextSearchSvcImpl.java:235-247 | an absent `_id` is fine; an empty `_id` list throws `IndexOutOfBounds`; otherwise the read succeeds exactly when the first alternative is a token or a string, and any other class throws `ClassCast` naming it; a successful read always leaves the referencing pid null |
| `FulltextSearch.Everything` | hapi-fhir-jpaserver-base/src/main/java/ca/uhn/fhir/jpa/dao/FulltextSearchSvcImpl.java:232-255 | `everything` never adds a resource-type or resource-link clause; its query is exactly the text clauses; it fails with the `_id` error on a malformed `_id`, and otherwise exactly when a text parameter is rejected, with `doSearch`'s error |
| `FulltextSearch.IsDisabled` | hapi-fhir-jpaserver-base/src/main/java/ca/uhn/fhir/jpa/dao/FulltextSearchSvcImpl.java:257-278 | the probe runs exactly when nothing is cached; a cached answer is returned as is; the answer is cached; disabled means the probe search failed |
| `FulltextSearch.ProbesAtMostOnce` | hapi-fhir-jpaserver-base/src/main/java/ca/uhn/fhir/jpa/dao/FulltextSearchSvcImpl.java:258-277 | over any run of calls only the first can probe, every call returns the first answer whatever later probes would find, and a service that has cached an answer never probes |
| `PhoneticMatcher.NewMatcher` | hapi-fhir-server-mdm/src/main/java/ca/uhn/fhir/mdm/rules/matcher/PhoneticEncoderMatcher.java:34-36 | the matcher's encoder is the one looked up by the algorithm's name at construction |
| `PhoneticMatcher.Matches` | hapi-fhir-server-mdm/src/main/java/ca/uhn/fhir/mdm/rules/matcher/PhoneticEncoderMatcher.java:39-41 | a string matches itself whatever the encoder |
| `PhoneticMatcher.MatchesDependsOnlyOnCodes` | hapi-fhir-server-mdm/src/main/java/ca/uhn/fhir/mdm/rules/matcher/PhoneticEncoderMatcher.java:39-41 | the verdict depends only on the two encodings |
| `PhoneticMatcher.MatchesReflexive` | hapi-fhir-server-mdm/src/main/java/ca/uhn/fhir/mdm/rules/matcher/PhoneticEncoderMatcher.java:40 | every string matches itself |
| `PhoneticMatcher.MatchesSymmetric` | hapi-fhir-server-mdm/src/main/java/ca/uhn/fhir/mdm/rules/matcher/PhoneticEncoderMatcher.java:40 | `matches(a, b)` equals `matches(b, a)` |
| `PhoneticMatcher.MatchesTransitive` | hapi-fhir-server-mdm/src/main/java/ca/uhn/fhir/mdm/rules/matcher/PhoneticEncoderMatcher.java:40 | `matches(a, b)` and `matches(b, c)` give `matches(a, c)` |
| `PhoneticMatcher.MatchesIsEquivalence` | hapi-fhir-server-mdm/src/main/java/ca/uhn/fhir/mdm/rules/matcher/PhoneticEncoderMatcher.java:39-41 | for any encoder, matching is an equivalence relation on strings |
| `PhoneticMatcher.SameAlgorithmSameVerdicts` | hapi-fhir-server-mdm/src/main/java/ca/uhn/fhir/mdm/rules/matcher/PhoneticEncoderMatcher.java:32-41 | matchers built for the same algorithm agree on every pair, because the encoder is fixed at construction |
| `PhoneticMatcher.MatchClassesDisjoint` | hapi-fhir-server-mdm/src/main/java/ca/uhn/fhir/mdm/rules/matcher/PhoneticEncoderMatcher.java:40 | strings that all match one pivot all match each other |
| `FhirContextConfig.SetDontStripVersionsFromReferencesAtPaths` | hapi-fhir-jpaserver-base/src/main/java/ca/uhn/fhir/jpa/config/r4/FhirContextR4Config.java:49-53 | the path set becomes exactly the one given path; other settings are kept |
| `FhirContextConfig.ConfigureFhirContext` | hapi-fhir-jpaserver-base/src/main/java/ca/uhn/fhir/jpa/config/r4/FhirContextR4Config.java:45-57 | versions older than DSTU3 get `AuditEvent.object.reference`, DSTU3 gets `AuditEvent.entity.reference`, R4 and later get `AuditEvent.entity.what`; version and all other settings are unchanged |
| `FhirContextConfig.VersionCasesPartition` | hapi-fhir-jpaserver-base/src/main/java/ca/uhn/fhir/jpa/config/r4/FhirContextR4Config.java:48-54 | the three version cases are exhaustive and pairwise exclusive; exactly one path is configured |
| `FhirContextConfig.ConfigureIdempotent` | hapi-fhir-jpaserver-base/src/main/java/ca/uhn/fhir/jpa/config/r4/FhirContextR4Config.java:45-57 | configuring an already configured context changes nothing |
| `FhirContextConfig.FhirContextR4` | hapi-fhir-jpaserver-base/src/main/java/ca/uhn/fhir/jpa/config/r4/FhirContextR4Config.java:37-42 | the primary context is R4, configured with the R4-and-later path, other defaults kept |

## Left out

- Hibernate Search sessions, the `EntityManager`, the transaction template, `fetchAllHits` and the conversion of hit ids to pids are left out.
  - `Search`, `Everything` and `DoSearch` return the query they build, not the matching pids.
- `SearchParameterMap.remove` and `removeByNameAndQualifier` are left out. `SearchParams` holds the lists they would return, null when absent.
- `parseSearchParamTextStuff` is left out. It is FhirPath evaluation.
- The phrase boost `4.0f` is an opaque literal; floating point is not modelled.
- `String.toLowerCase` is a parameter (`lower`), since locale-dependent Unicode case mapping is not modelled.
- `ResourcePersistentId.toString` is not part of this model. A `Pid` carries the text it would give.
- `ExtractOrStringParams`: the term set is a `HashSet` whose iteration order Java does not fix. The model lists terms in first-seen order.
  - The contracts of `AddTextSearch` and `DoSearch` admit any listing of the term set (`Enumerates`), so they do not depend on this choice.
- `Everything` keeps the source's behaviour: the pid lookup is commented out, so the referencing pid is always null and nothing is appended to the result.
  - Reading `_id` can still throw (`IndexOutOfBounds`, or `ClassCast` for a value that is neither token nor string).
- `ExtractOrStringParams`: a null OR-alternative, or a null OR-list, throws `NullPointerException` in Java (`nextOr.getClass()`, the `for` over the list). `QueryParam` has no null, so the model does not raise it.
- `Everything`: a null first `_id` alternative passes the cast and throws `NullPointerException` on `getValue()`. `QueryParam` has no null, so the model does not raise it.
- `IsDisabled`: the transaction template itself can throw outside the caught probe. Then no answer is cached, and the next call probes again. The model has every call return.
- `ProbesAtMostOnce`: holds only for runs in which every call returns; a call aborted by the transaction template leaves the cache empty.
- `IsDisabled`: the probe search is a boolean input (`searchWorks`). Logging and the unsynchronised sharing of the cache field between threads are not modelled.
- `JavaInteger.ParseInt`: only ASCII digits count as digits. `Character.digit` also accepts other Unicode decimal digits (Arabic-Indic, full-width, ...). The model rejects strings made of them, where Java would accept them.
- `IntegerDatatype.SetValueAsString`: `setValueAsString` declares `DataFormatException`, but the exception actually thrown is `parseInt`'s `NumberFormatException`. The model raises the latter.
  - `BasePrimitiveDatatype` is not part of this model.
- Java `char` is a UTF-16 code unit; Dafny `char` is a Unicode scalar value. Unpaired surrogates cannot be written here.
- `IsJavaWhitespace` follows the current Unicode table of space, line and paragraph separators.
- `PhoneticMatcher`: `PhoneticEncoderUtil.getEncoder` and the phonetic algorithms are total function parameters. A null encoder or a null code (which would throw in `matches`) is not modelled.
- `FhirVersionEnum` is not part of this model. The versions are listed in their declaration order, and `isOlderThan` compares positions in it.
  - Only the positions of DSTU3 and R4 matter to the proofs.
- `ParserOptions` is not part of this model.
  - `SetDontStripVersionsFromReferencesAtPaths` assumes that setting the paths replaces the set.
  - The other options are an opaque map.
- `ConfigureFhirContext` returns the updated value. Java returns the same mutated object; object identity is not expressible for an immutable value.
