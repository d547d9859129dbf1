/** The query-building rules of `FulltextSearchSvcImpl`: how the OR-lists
    of `_content`, `_text` and `code:text` parameters become search terms,
    how each AND-group becomes at most one clause of the boolean query, when
    the resource-link and resource-type clauses are added, and the memoised
    "is full-text search disabled" flag.

    The Hibernate Search predicate builder is modelled by the list of
    clauses it is given (`b.must(...)` appends one); running the query is
    not modelled, so `Search` and `Everything` return the query. */
module FulltextSearch {
  import opened Wrappers
  import opened JavaText

  /** One OR-alternative of a search parameter. Only `StringParam` and
      `TokenParam` are understood; any other `IQueryParameterType` is named
      by its class. */
  datatype QueryParam =
    | StringParam(value: Option<string>)
    | TokenParam(value: Option<string>)
    | OtherParam(className: string)

  /** The alternatives of one AND-group (`List<IQueryParameterType>`). */
  type OrList = seq<QueryParam>

  /** The AND-groups of one parameter (`List<List<IQueryParameterType>>`). */
  type AndList = seq<OrList>

  /** The exceptions the query building can raise. */
  datatype SearchError =
    | UnsupportedParamType(className: string)  // IllegalArgumentException from term extraction
    | IndexOutOfBounds                         // `get(0).get(0)` on an empty `_id` list
    | ClassCast(className: string)             // an `_id` value that is neither token nor string

  /** The phrase boost `4.0f`, kept as an opaque literal. */
  datatype Boost = Boost(literal: string)

  const PHRASE_BOOST: Boost := Boost("4.0f")
  const PHRASE_SLOP: nat := 2

  const CONTENT_FIELD: string := "myContentText"
  const NARRATIVE_FIELD: string := "myNarrativeText"
  const CODE_TEXT_FIELD: string := "text-code"
  const LINKS_FIELD: string := "myResourceLinksField"
  const TYPE_FIELD: string := "myResourceType"

  /** A clause of the boolean query. */
  datatype Clause =
    | Phrase(field: string, boost: Boost, text: string, slop: nat)
    | Match(field: string, text: string)

  /** A `ResourcePersistentId`, by the text its `toString` gives. */
  datatype Pid = Pid(asString: string)

  /** The parameters the full-text search consumes: `_content`, `_text`,
      `code` with the `:text` modifier, and `_id`; each is null when absent. */
  datatype SearchParams = SearchParams(
    content: Option<AndList>,
    text: Option<AndList>,
    codeText: Option<AndList>,
    resId: Option<AndList>)

  // ---------------------------------------------------------------------
  // Term extraction (extractOrStringParams)

  predicate Supported(p: QueryParam) {
    p.StringParam? || p.TokenParam?
  }

  /** The value a parameter offers as a term, before the blank check: a
      string value with null read as empty and then trimmed, a token value
      as it stands. */
  function CandidateTerm(p: QueryParam): Option<string> {
    match p
    case StringParam(v) => Some(Trim(DefaultString(v)))
    case TokenParam(v) => v
    case OtherParam(_) => None
  }

  /** The term one parameter contributes: its candidate, if not blank. */
  function TermOf(p: QueryParam): set<string> {
    var c := CandidateTerm(p);
    if IsNotBlank(c) then {c.value} else {}
  }

  /** The term set of an OR-list: what every parameter contributes. */
  function TermSet(l: OrList): set<string>
    decreases |l|
  {
    if |l| == 0 then {} else TermSet(l[..|l| - 1]) + TermOf(l[|l| - 1])
  }

  /** Position of the first element failing `ok`, if any. */
  function FirstFailing<T>(s: seq<T>, ok: T -> bool): (r: Option<nat>)
    ensures r.Some? ==> r.value < |s| && !ok(s[r.value])
    ensures r.Some? ==> forall j :: 0 <= j < r.value ==> ok(s[j])
    ensures r.None? ==> forall j :: 0 <= j < |s| ==> ok(s[j])
    decreases |s|
  {
    if |s| == 0 then None
    else if !ok(s[0]) then Some(0)
    else match FirstFailing(s[1..], ok)
      case None => None
      case Some(k) => Some(k + 1)
  }

  function FirstUnsupported(l: OrList): Option<nat> {
    FirstFailing(l, Supported)
  }

  predicate AllSupported(g: OrList) {
    FirstUnsupported(g).None?
  }

  /** The exception extraction of `l` throws: the first unsupported one. */
  function ExtractError(l: OrList): SearchError
    requires FirstUnsupported(l).Some?
  {
    UnsupportedParamType(l[FirstUnsupported(l).value].className)
  }

  predicate Distinct(ts: seq<string>) {
    forall i, j :: 0 <= i < j < |ts| ==> ts[i] != ts[j]
  }

  /** `ts` lists the elements of `terms`, each once (a `HashSet`'s
      iteration order is unspecified; any such listing is allowed). */
  predicate Enumerates(ts: seq<string>, terms: set<string>) {
    Distinct(ts) && (set t | t in ts) == terms
  }

  /** `extractOrStringParams`: the set of non-blank terms of an OR-list, as
      a duplicate-free listing in first-seen order, or the exception for the
      first parameter that is neither a string nor a token. */
  method ExtractOrStringParams(orList: OrList) returns (r: Result<seq<string>, SearchError>)
    ensures r.Failure? <==> FirstUnsupported(orList).Some?
    ensures r.Failure? ==> r.error == ExtractError(orList)
    ensures r.Success? ==> Enumerates(r.value, TermSet(orList))
  {
    var terms: seq<string> := [];
    var i := 0;
    while i < |orList|
      invariant 0 <= i <= |orList|
      invariant forall j :: 0 <= j < i ==> Supported(orList[j])
      invariant Enumerates(terms, TermSet(orList[..i]))
    {
      var next := orList[i];
      if next.OtherParam? {
        return Failure(UnsupportedParamType(next.className));
      }
      var nextValueTrimmed := CandidateTerm(next);
      if IsNotBlank(nextValueTrimmed) && nextValueTrimmed.value !in terms {
        terms := terms + [nextValueTrimmed.value];
      }
      assert orList[..i + 1][..i] == orList[..i];
      i := i + 1;
    }
    assert orList[..i] == orList;
    return Success(terms);
  }

  /** Membership in the term set, stated without the recursion: a string
      is a term exactly when some parameter's candidate is that non-blank
      string. */
  lemma {:induction false} TermSetMembership(l: OrList, t: string)
    ensures t in TermSet(l) <==> exists k :: 0 <= k < |l| && CandidateTerm(l[k]) == Some(t) && IsNotBlank(Some(t))
    decreases |l|
  {
    if |l| > 0 {
      var p := l[..|l| - 1];
      TermSetMembership(p, t);
      if t in TermSet(l) && t !in TermSet(p) {
        assert CandidateTerm(l[|l| - 1]) == Some(t);
      }
      if exists k :: 0 <= k < |l| && CandidateTerm(l[k]) == Some(t) && IsNotBlank(Some(t)) {
        var k :| 0 <= k < |l| && CandidateTerm(l[k]) == Some(t) && IsNotBlank(Some(t));
        if k < |l| - 1 {
          assert p[k] == l[k];
        }
      }
    }
  }

  /** No term set is larger than its OR-list, and none contains a blank. */
  lemma {:induction false} TermSetBounds(l: OrList)
    ensures |TermSet(l)| <= |l|
    ensures forall t :: t in TermSet(l) ==> IsNotBlank(Some(t))
    decreases |l|
  {
    if |l| > 0 {
      TermSetBounds(l[..|l| - 1]);
    }
  }

  /** A string parameter contributes its value trimmed (null read as
      empty), so surrounding spaces never reach the query. */
  lemma StringValueTrimmed(l: OrList, k: nat, v: Option<string>)
    requires k < |l| && l[k] == StringParam(v)
    requires IsNotBlank(Some(Trim(DefaultString(v))))
    ensures Trim(DefaultString(v)) in TermSet(l)
  {
    TermSetMembership(l, Trim(DefaultString(v)));
  }

  /** A null string value is read as empty and contributes nothing. */
  lemma NullStringContributesNothing(l: OrList, k: nat)
    requires k < |l| && l[k] == StringParam(None)
    ensures TermOf(l[k]) == {}
  {
    assert Trim("") == "";
  }

  /** A token parameter contributes its value verbatim, untrimmed. */
  lemma TokenValueVerbatim(l: OrList, k: nat, v: string)
    requires k < |l| && l[k] == TokenParam(Some(v))
    requires IsNotBlank(Some(v))
    ensures v in TermSet(l)
  {
    TermSetMembership(l, v);
  }

  /** A string value loses its surrounding spaces. */
  lemma StringTermExample()
    ensures TermOf(StringParam(Some(" Glucose "))) == {"Glucose"}
  {
    TrimExamples();
    assert "Glucose"[0] == 'G' && !IsJavaWhitespace('G');
  }

  /** A token value keeps them; null values and blank strings drop out. */
  lemma OtherTermExamples()
    ensures TermOf(TokenParam(Some(" Glucose "))) == {" Glucose "}
    ensures TermOf(StringParam(None)) == {} && TermOf(TokenParam(None)) == {}
    ensures TermOf(StringParam(Some("\t"))) == {}
  {
    TrimExamples();
    assert " Glucose "[1] == 'G' && !IsJavaWhitespace('G');
  }

  /** `trim` and `isNotBlank` disagree on control characters: a string
      value U+0001 is trimmed away and contributes nothing, while the same
      token value is not blank and becomes a term. */
  lemma ControlCharacterTerms()
    ensures TermOf(StringParam(Some("\U{1}"))) == {}
    ensures TermOf(TokenParam(Some("\U{1}"))) == {"\U{1}"}
  {
    TrimAndBlank("\U{1}");
  }

  /** Strings are trimmed, tokens are not, and null or blank values drop
      out: `" Glucose "` as a string and as a token are two terms. */
  /** Appending a parameter adds exactly its term. */
  lemma TermSetSnoc(l: OrList, p: QueryParam)
    ensures TermSet(l + [p]) == TermSet(l) + TermOf(p)
  {
    assert (l + [p])[..|l|] == l;
  }

  lemma TermSetOfPair(a: QueryParam, b: QueryParam)
    ensures TermSet([a, b]) == TermOf(a) + TermOf(b)
  {
    assert [a, b] == [a] + [b];
    TermSetSnoc([a], b);
    assert [a] == [] + [a];
    TermSetSnoc([], a);
  }

  /** The term set of a five-element list, element by element. */
  lemma TermSetOfFive(l: OrList)
    requires |l| == 5
    ensures TermSet(l) == TermOf(l[0]) + TermOf(l[1]) + TermOf(l[2]) + TermOf(l[3]) + TermOf(l[4])
  {
    assert l == l[..4] + [l[4]];
    TermSetSnoc(l[..4], l[4]);
    assert l[..4] == l[..3] + [l[3]];
    TermSetSnoc(l[..3], l[3]);
    assert l[..3] == l[..2] + [l[2]];
    TermSetSnoc(l[..2], l[2]);
    assert l[..2] == [l[0], l[1]];
    TermSetOfPair(l[0], l[1]);
  }

  lemma TermSetExample()
    ensures TermSet([StringParam(Some(" Glucose ")), TokenParam(Some(" Glucose ")),
                     StringParam(None), TokenParam(None), StringParam(Some("\t"))])
            == {"Glucose", " Glucose "}
  {
    StringTermExample();
    OtherTermExamples();
    TermSetOfFive([StringParam(Some(" Glucose ")), TokenParam(Some(" Glucose ")),
                   StringParam(None), TokenParam(None), StringParam(Some("\t"))]);
  }


  lemma {:induction false} DistinctCard(ts: seq<string>)
    requires Distinct(ts)
    ensures |set t | t in ts| == |ts|
    decreases |ts|
  {
    if |ts| > 0 {
      var p := ts[..|ts| - 1];
      DistinctCard(p);
      assert (set t | t in ts) == (set t | t in p) + {ts[|ts| - 1]};
    }
  }

  /** Any listing of a term set, in particular what extraction returns,
      holds no blank entry and no more entries than the OR-list has
      parameters. */
  lemma {:induction false} ListingBounds(l: OrList, ts: seq<string>)
    requires Enumerates(ts, TermSet(l))
    ensures forall k :: 0 <= k < |ts| ==> IsNotBlank(Some(ts[k]))
    ensures |ts| <= |l|
  {
    DistinctCard(ts);
    TermSetBounds(l);
  }

  // ---------------------------------------------------------------------
  // Clauses for one parameter (addTextSearch)

  /** The clause one non-empty term set yields on `field`: a single term
      becomes a lower-cased phrase with the fixed boost and slop 2; several
      terms become one match on all of them joined by single spaces, not
      lower-cased. `lower` is `String.toLowerCase`. */
  ghost predicate IsClauseFor(c: Clause, field: string, terms: set<string>, lower: string -> string) {
    if |terms| == 1 then
      exists t :: t in terms && c == Phrase(field, PHRASE_BOOST, lower(t), PHRASE_SLOP)
    else
      c.Match? && c.field == field && exists ts :: Enumerates(ts, terms) && c.text == Join(ts, ' ')
  }

  /** The non-empty term sets of the AND-groups, in order. */
  function NonEmptyTermSets(groups: AndList): seq<set<string>>
    decreases |groups|
  {
    if |groups| == 0 then []
    else
      var last := TermSet(groups[|groups| - 1]);
      NonEmptyTermSets(groups[..|groups| - 1]) + (if last == {} then [] else [last])
  }

  /** The term sets of an optional parameter; none when it is absent. */
  function TextGroups(terms: Option<AndList>): seq<set<string>> {
    if terms.None? then [] else NonEmptyTermSets(terms.value)
  }

  /** `out` is `before` followed by one clause on `field` per term set. */
  ghost predicate AddsClausesFor(before: seq<Clause>, out: seq<Clause>, field: string,
                           sets: seq<set<string>>, lower: string -> string) {
    && |out| == |before| + |sets|
    && out[..|before|] == before
    && forall k :: 0 <= k < |sets| ==> IsClauseFor(out[|before| + k], field, sets[k], lower)
  }

  function FirstRejectedGroup(groups: AndList): Option<nat> {
    FirstFailing(groups, AllSupported)
  }

  /** The parameter is present and one of its groups has an unsupported
      alternative. */
  predicate Rejects(terms: Option<AndList>) {
    terms.Some? && FirstRejectedGroup(terms.value).Some?
  }

  /** The exception a rejected parameter raises: that of its first
      rejected group. */
  function RejectError(terms: Option<AndList>): SearchError
    requires Rejects(terms)
  {
    var g := FirstRejectedGroup(terms.value).value;
    ExtractError(terms.value[g])
  }

  lemma AddsClausesForExtend(before: seq<Clause>, out: seq<Clause>, field: string,
                             sets: seq<set<string>>, lower: string -> string,
                             c: Clause, terms: set<string>)
    requires AddsClausesFor(before, out, field, sets, lower)
    requires IsClauseFor(c, field, terms, lower)
    ensures AddsClausesFor(before, out + [c], field, sets + [terms], lower)
  {
    var out' := out + [c];
    var sets' := sets + [terms];
    assert out'[..|before|] == out[..|before|];
    forall k | 0 <= k < |sets'|
      ensures IsClauseFor(out'[|before| + k], field, sets'[k], lower)
    {
      if k < |sets| {
        assert out'[|before| + k] == out[|before| + k];
      }
    }
  }

  /** The clauses one AND-group adds, given its listed terms: a phrase for
      one term, a match for several, nothing for none. */
  function GroupClauses(field: string, terms: seq<string>, lower: string -> string): (r: seq<Clause>)
    ensures |r| == (if |terms| == 0 then 0 else 1)
    ensures forall k :: 0 <= k < |r| ==> r[k].field == field
  {
    if |terms| == 1 then [Phrase(field, PHRASE_BOOST, lower(terms[0]), PHRASE_SLOP)]
    else if |terms| > 1 then [Match(field, Join(terms, ' '))]
    else []
  }

  /** Whatever order a duplicate-free listing puts the terms in, its clause
      is the clause for their set. */
  lemma GroupClauseShape(field: string, terms: seq<string>, lower: string -> string)
    requires |terms| > 0 && Distinct(terms)
    ensures IsClauseFor(GroupClauses(field, terms, lower)[0], field, (set t | t in terms), lower)
  {
    DistinctCard(terms);
    if |terms| == 1 {
      assert terms[0] in (set t | t in terms);
    }
  }

  /** Handling group `i` extends the clauses by the clause for its term
      set, or by nothing when that set is empty. */
  lemma GroupStep(before: seq<Clause>, out: seq<Clause>, groups: AndList, i: nat,
                  terms: seq<string>, field: string, lower: string -> string)
    requires i < |groups|
    requires AddsClausesFor(before, out, field, NonEmptyTermSets(groups[..i]), lower)
    requires Enumerates(terms, TermSet(groups[i]))
    ensures AddsClausesFor(before, out + GroupClauses(field, terms, lower), field,
                           NonEmptyTermSets(groups[..i + 1]), lower)
  {
    assert groups[..i + 1][..i] == groups[..i];
    var termSet := TermSet(groups[i]);
    DistinctCard(terms);
    if |terms| == 1 {
      assert terms[0] in termSet;
      AddsClausesForExtend(before, out, field, NonEmptyTermSets(groups[..i]), lower,
                           GroupClauses(field, terms, lower)[0], termSet);
    } else if |terms| > 1 {
      AddsClausesForExtend(before, out, field, NonEmptyTermSets(groups[..i]), lower,
                           GroupClauses(field, terms, lower)[0], termSet);
    } else {
      assert out + [] == out;
    }
  }

  /** `addTextSearch`: nothing for an absent parameter; otherwise, group by
      group, one clause per group whose term set is non-empty and none for
      an empty one. Any unsupported alternative aborts the whole query. */
  method AddTextSearch(before: seq<Clause>, andTerms: Option<AndList>, field: string,
                       lower: string -> string)
    returns (r: Result<seq<Clause>, SearchError>)
    ensures andTerms.None? ==> r == Success(before)
    ensures r.Failure? <==> Rejects(andTerms)
    ensures r.Failure? ==> r.error == RejectError(andTerms)
    ensures r.Success? ==> AddsClausesFor(before, r.value, field, TextGroups(andTerms), lower)
  {
    if andTerms.None? {
      return Success(before);
    }
    var groups := andTerms.value;
    var out := before;
    var i := 0;
    while i < |groups|
      invariant 0 <= i <= |groups|
      invariant forall j :: 0 <= j < i ==> AllSupported(groups[j])
      invariant AddsClausesFor(before, out, field, NonEmptyTermSets(groups[..i]), lower)
    {
      var extracted := ExtractOrStringParams(groups[i]);
      if extracted.Failure? {
        assert FirstRejectedGroup(groups) == Some(i);
        return Failure(extracted.error);
      }
      GroupStep(before, out, groups, i, extracted.value, field, lower);
      out := out + GroupClauses(field, extracted.value, lower);
      i := i + 1;
    }
    assert groups[..i] == groups;
    return Success(out);
  }

  /** A multi-term match clause gives its terms back when none contains a
      space: each term appears in it once, separated by single spaces. */
  lemma MatchTextRecoversTerms(c: Clause, field: string, terms: set<string>, lower: string -> string)
    requires |terms| > 1 && IsClauseFor(c, field, terms, lower)
    requires forall t :: t in terms ==> Free(t, ' ')
    ensures exists ts :: Enumerates(ts, terms) && Split(c.text, ' ') == ts
  {
    var ts :| Enumerates(ts, terms) && c.text == Join(ts, ' ');
    assert forall i :: 0 <= i < |ts| ==> ts[i] in terms;
    assert |ts| > 0;
    SplitJoin(ts, ' ');
  }

  /** Per AND-group: exactly one clause when the group has a term, none
      when it has none, so the clause count is the number of groups with
      terms, never more than the number of groups. */
  lemma {:induction false} ClauseCountBound(groups: AndList)
    ensures |NonEmptyTermSets(groups)| <= |groups|
    ensures forall k :: 0 <= k < |NonEmptyTermSets(groups)| ==> NonEmptyTermSets(groups)[k] != {}
    ensures (forall j :: 0 <= j < |groups| ==> TermSet(groups[j]) != {}) ==> |NonEmptyTermSets(groups)| == |groups|
    decreases |groups|
  {
    if |groups| > 0 {
      var p := groups[..|groups| - 1];
      ClauseCountBound(p);
      if forall j :: 0 <= j < |groups| ==> TermSet(groups[j]) != {} {
        assert forall j :: 0 <= j < |p| ==> p[j] == groups[j];
      }
    }
  }

  // ---------------------------------------------------------------------
  // The whole query (doSearch, search, everything)

  predicate RejectsAny(params: SearchParams) {
    Rejects(params.content) || Rejects(params.text) || Rejects(params.codeText)
  }

  /** The exception of the first rejected parameter, in the order the
      query builder visits them. */
  function QueryError(params: SearchParams): SearchError
    requires RejectsAny(params)
  {
    if Rejects(params.content) then RejectError(params.content)
    else if Rejects(params.text) then RejectError(params.text)
    else RejectError(params.codeText)
  }

  /** The number of clauses the three text parameters contribute. */
  function TextClauseCount(params: SearchParams): nat {
    |TextGroups(params.content)| + |TextGroups(params.text)| + |TextGroups(params.codeText)|
  }

  /** `query` opens with the clauses of `_content`, then `_text`, then
      `code:text`, each on its own field. */
  ghost predicate TextClausesOf(query: seq<Clause>, params: SearchParams, lower: string -> string) {
    var n1 := |TextGroups(params.content)|;
    var n2 := n1 + |TextGroups(params.text)|;
    var n3 := n2 + |TextGroups(params.codeText)|;
    && n3 <= |query|
    && AddsClausesFor([], query[..n1], CONTENT_FIELD, TextGroups(params.content), lower)
    && AddsClausesFor(query[..n1], query[..n2], NARRATIVE_FIELD, TextGroups(params.text), lower)
    && AddsClausesFor(query[..n2], query[..n3], CODE_TEXT_FIELD, TextGroups(params.codeText), lower)
  }

  predicate OnField(query: seq<Clause>, field: string) {
    exists k :: 0 <= k < |query| && query[k].field == field
  }

  /** The fields the text parameters search. */
  const TEXT_FIELDS: set<string> := {CONTENT_FIELD, NARRATIVE_FIELD, CODE_TEXT_FIELD}

  /** Clauses added for a parameter are all on that parameter's field. */
  lemma AddedFieldsWithin(before: seq<Clause>, out: seq<Clause>, field: string,
                          sets: seq<set<string>>, lower: string -> string, fields: set<string>)
    requires AddsClausesFor(before, out, field, sets, lower)
    requires field in fields
    requires forall k :: 0 <= k < |before| ==> before[k].field in fields
    ensures forall k :: 0 <= k < |out| ==> out[k].field in fields
  {
    forall k | 0 <= k < |out|
      ensures out[k].field in fields
    {
      if k < |before| {
        assert out[k] == out[..|before|][k];
      } else {
        assert IsClauseFor(out[|before| + (k - |before|)], field, sets[k - |before|], lower);
      }
    }
  }

  /** The resource-link clause, present exactly when a pid is given. */
  function LinkClauses(pid: Option<Pid>): (r: seq<Clause>)
    ensures OnField(r, LINKS_FIELD) <==> pid.Some?
    ensures !OnField(r, TYPE_FIELD) && forall k :: 0 <= k < |r| ==> r[k].field !in TEXT_FIELDS
  {
    if pid.Some? then
      var c := Match(LINKS_FIELD, pid.value.asString);
      assert [c][0] == c;
      [c]
    else []
  }

  /** The resource-type clause, present exactly when the name is not blank. */
  function TypeClauses(name: Option<string>): (r: seq<Clause>)
    ensures OnField(r, TYPE_FIELD) <==> IsNotBlank(name)
    ensures !OnField(r, LINKS_FIELD) && forall k :: 0 <= k < |r| ==> r[k].field !in TEXT_FIELDS
  {
    if IsNotBlank(name) then
      var c := Match(TYPE_FIELD, name.value);
      assert [c][0] == c;
      [c]
    else []
  }

  lemma QueryTail(textClauses: seq<Clause>, pid: Option<Pid>, name: Option<string>)
    requires forall k :: 0 <= k < |textClauses| ==> textClauses[k].field in TEXT_FIELDS
    ensures var q := textClauses + LinkClauses(pid) + TypeClauses(name);
            && (OnField(q, LINKS_FIELD) <==> pid.Some?)
            && (OnField(q, TYPE_FIELD) <==> IsNotBlank(name))
  {
    var q := textClauses + LinkClauses(pid) + TypeClauses(name);
    if pid.Some? {
      assert q[|textClauses|].field == LINKS_FIELD;
    }
    if IsNotBlank(name) {
      assert q[|q| - 1].field == TYPE_FIELD;
    }
  }

  lemma TextClausesChain(content: seq<Clause>, text: seq<Clause>, codeText: seq<Clause>,
                         query: seq<Clause>, params: SearchParams, lower: string -> string)
    requires AddsClausesFor([], content, CONTENT_FIELD, TextGroups(params.content), lower)
    requires AddsClausesFor(content, text, NARRATIVE_FIELD, TextGroups(params.text), lower)
    requires AddsClausesFor(text, codeText, CODE_TEXT_FIELD, TextGroups(params.codeText), lower)
    requires |codeText| <= |query| && query[..|codeText|] == codeText
    ensures TextClausesOf(query, params, lower)
    ensures |codeText| == TextClauseCount(params)
  {
    assert query[..|content|] == codeText[..|content|] == text[..|content|] == content;
    assert query[..|text|] == codeText[..|text|] == text;
  }

  /** The text clauses, then the link and type clauses, form a query of
      the shape `DoSearch` promises. */
  lemma AssembledQuery(content: seq<Clause>, text: seq<Clause>, codeText: seq<Clause>,
                       params: SearchParams, pid: Option<Pid>, name: Option<string>,
                       lower: string -> string)
    requires AddsClausesFor([], content, CONTENT_FIELD, TextGroups(params.content), lower)
    requires AddsClausesFor(content, text, NARRATIVE_FIELD, TextGroups(params.text), lower)
    requires AddsClausesFor(text, codeText, CODE_TEXT_FIELD, TextGroups(params.codeText), lower)
    ensures var query := codeText + LinkClauses(pid) + TypeClauses(name);
            && TextClausesOf(query, params, lower)
            && |query| == TextClauseCount(params) + (if pid.Some? then 1 else 0)
                                                  + (if IsNotBlank(name) then 1 else 0)
            && (OnField(query, LINKS_FIELD) <==> pid.Some?)
            && (pid.Some? ==> query[TextClauseCount(params)] == Match(LINKS_FIELD, pid.value.asString))
            && (OnField(query, TYPE_FIELD) <==> IsNotBlank(name))
            && (IsNotBlank(name) ==> query[|query| - 1] == Match(TYPE_FIELD, name.value))
  {
    var query := codeText + LinkClauses(pid) + TypeClauses(name);
    AddedFieldsWithin([], content, CONTENT_FIELD, TextGroups(params.content), lower, TEXT_FIELDS);
    AddedFieldsWithin(content, text, NARRATIVE_FIELD, TextGroups(params.text), lower, TEXT_FIELDS);
    AddedFieldsWithin(text, codeText, CODE_TEXT_FIELD, TextGroups(params.codeText), lower, TEXT_FIELDS);
    assert query[..|codeText|] == codeText;
    TextClausesChain(content, text, codeText, query, params, lower);
    QueryTail(codeText, pid, name);
  }

  /** `doSearch`'s query: the text clauses, then a resource-link clause
      exactly when a referencing pid is given, then a resource-type clause
      exactly when the resource name is not blank. */
  method DoSearch(resourceName: Option<string>, params: SearchParams, referencingPid: Option<Pid>,
                  lower: string -> string)
    returns (r: Result<seq<Clause>, SearchError>)
    ensures r.Failure? <==> RejectsAny(params)
    ensures r.Failure? ==> r.error == QueryError(params)
    ensures r.Success? ==> TextClausesOf(r.value, params, lower)
    ensures r.Success? ==>
              |r.value| == TextClauseCount(params)
                           + (if referencingPid.Some? then 1 else 0)
                           + (if IsNotBlank(resourceName) then 1 else 0)
    ensures r.Success? ==> (OnField(r.value, LINKS_FIELD) <==> referencingPid.Some?)
    ensures r.Success? && referencingPid.Some? ==>
              r.value[TextClauseCount(params)] == Match(LINKS_FIELD, referencingPid.value.asString)
    ensures r.Success? ==> (OnField(r.value, TYPE_FIELD) <==> IsNotBlank(resourceName))
    ensures r.Success? && IsNotBlank(resourceName) ==>
              r.value[|r.value| - 1] == Match(TYPE_FIELD, resourceName.value)
  {
    var content := AddTextSearch([], params.content, CONTENT_FIELD, lower);
    if content.Failure? {
      assert RejectsAny(params) && QueryError(params) == content.error;
      return Failure(content.error);
    }
    var text := AddTextSearch(content.value, params.text, NARRATIVE_FIELD, lower);
    if text.Failure? {
      assert !Rejects(params.content) && Rejects(params.text);
      return Failure(text.error);
    }
    var codeText := AddTextSearch(text.value, params.codeText, CODE_TEXT_FIELD, lower);
    if codeText.Failure? {
      assert !Rejects(params.content) && !Rejects(params.text) && Rejects(params.codeText);
      return Failure(codeText.error);
    }
    assert !RejectsAny(params);
    var query := codeText.value + LinkClauses(referencingPid) + TypeClauses(resourceName);
    AssembledQuery(content.value, text.value, codeText.value, params, referencingPid, resourceName, lower);
    return Success(query);
  }

  /** `search`: a resource-type search, which never restricts by a
      referencing pid. */
  method Search(resourceName: Option<string>, params: SearchParams, lower: string -> string)
    returns (r: Result<seq<Clause>, SearchError>)
    ensures r.Failure? <==> RejectsAny(params)
    ensures r.Failure? ==> r.error == QueryError(params)
    ensures r.Success? ==> TextClausesOf(r.value, params, lower)
    ensures r.Success? ==> !OnField(r.value, LINKS_FIELD)
    ensures r.Success? ==> (OnField(r.value, TYPE_FIELD) <==> IsNotBlank(resourceName))
    ensures r.Success? && IsNotBlank(resourceName) ==>
              r.value[|r.value| - 1] == Match(TYPE_FIELD, resourceName.value)
    ensures r.Success? ==> |r.value| == TextClauseCount(params) + (if IsNotBlank(resourceName) then 1 else 0)
  {
    r := DoSearch(resourceName, params, None, lower);
  }

  /** Reading the `_id` parameter in `everything`: the first alternative of
      the first group must exist and be a token or a string. Its value is
      not used further (the translation to a pid is disabled), so the
      referencing pid stays null. */
  function ReadIdParam(resId: Option<AndList>): (r: Result<Option<Pid>, SearchError>)
    ensures r.Success? ==> r.value.None?
    ensures resId.None? ==> r.Success?
    ensures resId.Some? && (|resId.value| == 0 || |resId.value[0]| == 0) ==> r == Failure(IndexOutOfBounds)
    ensures resId.Some? && |resId.value| > 0 && |resId.value[0]| > 0 ==>
              (r.Success? <==> Supported(resId.value[0][0]))
    ensures resId.Some? && |resId.value| > 0 && |resId.value[0]| > 0 && resId.value[0][0].OtherParam? ==>
              r == Failure(ClassCast(resId.value[0][0].className))
  {
    match resId
    case None => Success(None)
    case Some(groups) =>
      if |groups| == 0 || |groups[0]| == 0 then Failure(IndexOutOfBounds)
      else match groups[0][0]
        case TokenParam(_) => Success(None)
        case StringParam(_) => Success(None)
        case OtherParam(c) => Failure(ClassCast(c))
  }

  /** `everything`: a search across all resource types, so no resource-type
      clause, and, since the referencing pid is always null, no
      resource-link clause and nothing appended to the result. */
  method Everything(params: SearchParams, lower: string -> string)
    returns (r: Result<seq<Clause>, SearchError>)
    ensures ReadIdParam(params.resId).Failure? ==> r == Failure(ReadIdParam(params.resId).error)
    ensures ReadIdParam(params.resId).Success? ==> (r.Failure? <==> RejectsAny(params))
    ensures ReadIdParam(params.resId).Success? && r.Failure? ==> r.error == QueryError(params)
    ensures r.Success? ==> TextClausesOf(r.value, params, lower)
    ensures r.Success? ==> !OnField(r.value, LINKS_FIELD) && !OnField(r.value, TYPE_FIELD)
    ensures r.Success? ==> |r.value| == TextClauseCount(params)
  {
    var pid := ReadIdParam(params.resId);
    if pid.Failure? {
      return Failure(pid.error);
    }
    var referencingPid := pid.value;
    r := DoSearch(None, params, referencingPid, lower);
  }

  // ---------------------------------------------------------------------
  // isDisabled

  /** The `ourDisabled` field: unknown until the first call. */
  datatype DisabledCache = Unknown | Cached(disabled: bool)

  /** What one call of `isDisabled` returns, the cache it leaves, and
      whether it ran the probe search. */
  datatype DisabledCall = DisabledCall(result: bool, cache: DisabledCache, probed: bool)

  /** `isDisabled`: with nothing cached, probe (run a trivial search; the
      service is disabled exactly when that throws) and cache the answer;
      otherwise return the cached answer. `searchWorks` is what the probe
      would find. */
  function IsDisabled(cache: DisabledCache, searchWorks: bool): (r: DisabledCall)
    ensures r.cache == Cached(r.result)
    ensures r.probed <==> cache.Unknown?
    ensures cache.Cached? ==> r.result == cache.disabled
    ensures cache.Unknown? ==> r.result == !searchWorks
  {
    match cache
    case Cached(d) => DisabledCall(d, cache, false)
    case Unknown => DisabledCall(!searchWorks, Cached(!searchWorks), true)
  }

  /** Successive calls on one service; call `k` would see the probe answer
      `searchWorks[k]` if it probed. */
  function CallSequence(cache: DisabledCache, searchWorks: seq<bool>): seq<DisabledCall>
    decreases |searchWorks|
  {
    if |searchWorks| == 0 then []
    else
      var first := IsDisabled(cache, searchWorks[0]);
      [first] + CallSequence(first.cache, searchWorks[1..])
  }

  /** Only the first call can probe; every call returns what the first
      returned, whatever a later probe would have found; a service that has
      cached an answer never probes again. */
  lemma {:induction false} ProbesAtMostOnce(cache: DisabledCache, searchWorks: seq<bool>)
    requires |searchWorks| > 0
    ensures var calls := CallSequence(cache, searchWorks);
            && |calls| == |searchWorks|
            && (forall k :: 0 < k < |calls| ==> !calls[k].probed)
            && (forall k :: 0 <= k < |calls| ==> calls[k].result == calls[0].result)
            && (cache.Cached? ==> forall k :: 0 <= k < |calls| ==> !calls[k].probed && calls[k].result == cache.disabled)
    decreases |searchWorks|
  {
    var first := IsDisabled(cache, searchWorks[0]);
    if |searchWorks| > 1 {
      ProbesAtMostOnce(first.cache, searchWorks[1..]);
    }
  }
}
