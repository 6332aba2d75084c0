/** The request validation, defaults, field selection, acceptance rule and query shaping of the
    Solution handlers. The handlers themselves, which read and write the store, are in `Backend`. */
module SolutionRoutes {
  import opened Outcomes
  import opened Text
  import opened Votes
  import opened SolutionModel
  import opened Listing

  /** A numeric body field: absent, a value `isNumeric` accepts, or present but not numeric. */
  datatype NumberInput = Absent | Numeric(value: real) | NotNumeric

  /** A resource as sent: its type is a free string, checked only by the schema on save. */
  datatype ResourceInput = ResourceInput(name: string, url: string, kind: Option<string>)

  /** A resource whose type the schema's enum refuses when the document is saved. */
  predicate ResourceRefused(r: ResourceInput) {
    r.kind.Some? && ParseResourceType(r.kind.value).None?
  }

  predicate AnyResourceRefused(rs: seq<ResourceInput>) {
    exists i :: 0 <= i < |rs| && ResourceRefused(rs[i])
  }

  /** The resources as stored once the schema accepts every type: names, URLs and types kept. */
  function StoredResources(rs: seq<ResourceInput>): (r: seq<Resource>)
    requires !AnyResourceRefused(rs)
    ensures |r| == |rs|
    ensures forall i :: 0 <= i < |rs| ==>
      && r[i].name == rs[i].name && r[i].url == rs[i].url
      && (r[i].kind.Some? <==> rs[i].kind.Some?)
      && (r[i].kind.Some? ==> ResourceTypeName(r[i].kind.value) == rs[i].kind.value)
  {
    seq(|rs|, i requires 0 <= i < |rs| =>
      var kind := if rs[i].kind.Some? then ParseResourceType(rs[i].kind.value) else None;
      assert rs[i].kind.Some? ==> !ResourceRefused(rs[i]);
      if rs[i].kind.Some? then ResourceTypeParseName(rs[i].kind.value); Resource(rs[i].name, rs[i].url, kind)
      else Resource(rs[i].name, rs[i].url, kind))
  }

  /** The body of a create request. `problem` is None when it is missing or not a well-formed
      document id; `images` and `resources` are None when missing. */
  datatype SolutionRequest = SolutionRequest(
    description: string,
    problem: Option<ProblemId>,
    images: Option<seq<string>>,
    resources: Option<seq<ResourceInput>>,
    estimatedCost: NumberInput,
    estimatedTime: Option<string>,
    difficulty: Option<string>)

  /** The body as the validators and the handler see it: the description's `trim` sanitizer
      rewrites it in place. */
  function SanitizeSolution(q: SolutionRequest): SolutionRequest {
    q.(description := Trim(q.description))
  }

  /** The create validators, in the order they are declared. */
  const SolutionCreateFields: seq<Field> :=
    [DescriptionField, ProblemField, DifficultyField, CostField, TimeField]

  /** Whether the create validator of field `f` rejects the (sanitized) request; the optional
      fields pass when absent. */
  predicate SolutionCreateFieldFails(q: SolutionRequest, f: Field) {
    match f
    case DescriptionField => ValidatorLength(q.description) < 20
    case ProblemField => q.problem.None?
    case DifficultyField => q.difficulty.Some? && ParseDifficulty(q.difficulty.value).None?
    case CostField => q.estimatedCost.NotNumeric?
    case TimeField => q.estimatedTime.Some? && ParseEstimatedTime(q.estimatedTime.value).None?
    case _ => false
  }

  /** Every create validator passes. */
  predicate SolutionCreateValid(q: SolutionRequest) {
    && ValidatorLength(q.description) >= 20
    && q.problem.Some?
    && (q.difficulty.Some? ==> ParseDifficulty(q.difficulty.value).Some?)
    && !q.estimatedCost.NotNumeric?
    && (q.estimatedTime.Some? ==> ParseEstimatedTime(q.estimatedTime.value).Some?)
  }

  /** The fields among `fields` whose create validator fails, in order. */
  function SolutionCreateFailures(q: SolutionRequest, fields: seq<Field>): (errs: seq<Field>)
    ensures forall f :: f in errs <==> f in fields && SolutionCreateFieldFails(q, f)
  {
    if fields == [] then []
    else
      (if SolutionCreateFieldFails(q, fields[0]) then [fields[0]] else [])
        + SolutionCreateFailures(q, fields[1..])
  }

  /** The fields the create validators reject, in the order they are declared; none exactly
      when the request is valid. */
  function SolutionCreateErrors(q: SolutionRequest): (errs: seq<Field>)
    ensures forall f :: f in errs <==> f in SolutionCreateFields && SolutionCreateFieldFails(q, f)
    ensures errs == [] <==> SolutionCreateValid(q)
  {
    var errs := SolutionCreateFailures(q, SolutionCreateFields);
    assert errs == [] ==>
      && !SolutionCreateFieldFails(q, DescriptionField) && !SolutionCreateFieldFails(q, ProblemField)
      && !SolutionCreateFieldFails(q, DifficultyField) && !SolutionCreateFieldFails(q, CostField)
      && !SolutionCreateFieldFails(q, TimeField);
    assert errs != [] ==> errs[0] in errs;
    errs
  }

  /** The cost a request asks for; `estimatedCost || 0` makes an absent cost zero. */
  function CostOf(c: NumberInput): real {
    if c.Numeric? then c.value else 0.0
  }

  /** The document the create handler saves once the request is valid and its problem exists:
      the schema's `min: 0` on the cost and its resource-type enum refuse on save, otherwise the
      trimmed description with images and resources defaulting to none, cost to 0, time to
      Days, difficulty to Medium, no votes, no comments and not accepted. */
  function NewSolution(q: SolutionRequest, user: UserId): (r: Response<Solution>)
    requires SolutionCreateErrors(SanitizeSolution(q)) == []
    ensures r.Err? <==>
      CostOf(q.estimatedCost) < 0.0 || (q.resources.Some? && AnyResourceRefused(q.resources.value))
    ensures r.Err? ==> r.failure == ServerError
    ensures r.Ok? ==>
      && r.value.description == Trim(q.description)
      && r.value.problem == q.problem.value
      && r.value.images == (if q.images.Some? then q.images.value else [])
      && r.value.resources == (if q.resources.Some? then StoredResources(q.resources.value) else [])
      && r.value.estimatedCost == CostOf(q.estimatedCost)
      && r.value.estimatedTime ==
           (if q.estimatedTime.Some? then ParseEstimatedTime(q.estimatedTime.value).value
            else DefaultEstimatedTime)
      && r.value.difficulty ==
           (if q.difficulty.Some? then ParseDifficulty(q.difficulty.value).value else DefaultDifficulty)
      && r.value.author == user
      && r.value.votes == EmptyLedger
      && r.value.comments == []
      && !r.value.isAccepted
  {
    var s := SanitizeSolution(q);
    assert !SolutionCreateFieldFails(s, ProblemField) && !SolutionCreateFieldFails(s, DifficultyField)
      && !SolutionCreateFieldFails(s, TimeField);
    if CostOf(q.estimatedCost) < 0.0 || (q.resources.Some? && AnyResourceRefused(q.resources.value)) then
      Err(ServerError)
    else
      Ok(Solution(
        s.description,
        if q.images.Some? then q.images.value else [],
        if q.resources.Some? then StoredResources(q.resources.value) else [],
        CostOf(q.estimatedCost),
        if q.estimatedTime.Some? then ParseEstimatedTime(q.estimatedTime.value).value else DefaultEstimatedTime,
        if q.difficulty.Some? then ParseDifficulty(q.difficulty.value).value else DefaultDifficulty,
        user, q.problem.value, EmptyLedger, [], false))
  }

  /** Every solution the create handler saves satisfies the store's invariant. */
  lemma NewSolutionOk(q: SolutionRequest, user: UserId)
    requires SolutionCreateErrors(SanitizeSolution(q)) == []
    requires NewSolution(q, user).Ok?
    ensures SolutionOk(NewSolution(q, user).value)
  {
    assert !SolutionCreateFieldFails(SanitizeSolution(q), DescriptionField);
  }

  /** The body of an update request: None (or `Absent`) for a field that is absent. */
  datatype SolutionUpdateRequest = SolutionUpdateRequest(
    description: Option<string>,
    images: Option<seq<string>>,
    resources: Option<seq<ResourceInput>>,
    estimatedCost: NumberInput,
    estimatedTime: Option<string>,
    difficulty: Option<string>)

  /** The body as the update validators see it: a present description is trimmed in place. */
  function SanitizeSolutionUpdate(q: SolutionUpdateRequest): SolutionUpdateRequest {
    q.(description := if q.description.Some? then Some(Trim(q.description.value)) else None)
  }

  /** The update validators, in the order they are declared. */
  const SolutionUpdateFields: seq<Field> := [DescriptionField, DifficultyField, CostField, TimeField]

  /** Whether the update validator of field `f` rejects the (sanitized) request; every field
      passes when absent. */
  predicate SolutionUpdateFieldFails(q: SolutionUpdateRequest, f: Field) {
    match f
    case DescriptionField => q.description.Some? && ValidatorLength(q.description.value) < 20
    case DifficultyField => q.difficulty.Some? && ParseDifficulty(q.difficulty.value).None?
    case CostField => q.estimatedCost.NotNumeric?
    case TimeField => q.estimatedTime.Some? && ParseEstimatedTime(q.estimatedTime.value).None?
    case _ => false
  }

  /** Every update validator passes. */
  predicate SolutionUpdateValid(q: SolutionUpdateRequest) {
    && (q.description.Some? ==> ValidatorLength(q.description.value) >= 20)
    && (q.difficulty.Some? ==> ParseDifficulty(q.difficulty.value).Some?)
    && !q.estimatedCost.NotNumeric?
    && (q.estimatedTime.Some? ==> ParseEstimatedTime(q.estimatedTime.value).Some?)
  }

  /** The fields among `fields` whose update validator fails, in order. */
  function SolutionUpdateFailures(q: SolutionUpdateRequest, fields: seq<Field>): (errs: seq<Field>)
    ensures forall f :: f in errs <==> f in fields && SolutionUpdateFieldFails(q, f)
  {
    if fields == [] then []
    else
      (if SolutionUpdateFieldFails(q, fields[0]) then [fields[0]] else [])
        + SolutionUpdateFailures(q, fields[1..])
  }

  /** The fields the update validators reject, in the order they are declared; none exactly
      when the request is valid. */
  function SolutionUpdateErrors(q: SolutionUpdateRequest): (errs: seq<Field>)
    ensures forall f :: f in errs <==> f in SolutionUpdateFields && SolutionUpdateFieldFails(q, f)
    ensures errs == [] <==> SolutionUpdateValid(q)
  {
    var errs := SolutionUpdateFailures(q, SolutionUpdateFields);
    assert errs == [] ==>
      && !SolutionUpdateFieldFails(q, DescriptionField) && !SolutionUpdateFieldFails(q, DifficultyField)
      && !SolutionUpdateFieldFails(q, CostField) && !SolutionUpdateFieldFails(q, TimeField);
    assert errs != [] ==> errs[0] in errs;
    errs
  }

  /** The author's update once the request is valid: only the supplied description, images,
      resources, cost, time and difficulty change (a cost is written whenever it is present,
      zero included), and the update validators refuse a negative cost or an unknown resource
      type. */
  function UpdatedSolution(s: Solution, q: SolutionUpdateRequest): (r: Response<Solution>)
    requires SolutionUpdateErrors(SanitizeSolutionUpdate(q)) == []
    ensures r.Err? <==>
      (q.estimatedCost.Numeric? && q.estimatedCost.value < 0.0)
      || (q.resources.Some? && AnyResourceRefused(q.resources.value))
    ensures r.Err? ==> r.failure == ServerError
    ensures r.Ok? ==>
      && r.value.author == s.author && r.value.problem == s.problem && r.value.votes == s.votes
      && r.value.comments == s.comments && r.value.isAccepted == s.isAccepted
    ensures r.Ok? ==>
      && r.value.description == (if q.description.Some? then Trim(q.description.value) else s.description)
      && r.value.images == (if q.images.Some? then q.images.value else s.images)
      && (q.resources.None? ==> r.value.resources == s.resources)
      && (q.resources.Some? ==> r.value.resources == StoredResources(q.resources.value))
      && r.value.estimatedCost == (if q.estimatedCost.Numeric? then q.estimatedCost.value else s.estimatedCost)
      && r.value.estimatedTime ==
           (if q.estimatedTime.Some? then ParseEstimatedTime(q.estimatedTime.value).value else s.estimatedTime)
      && r.value.difficulty ==
           (if q.difficulty.Some? then ParseDifficulty(q.difficulty.value).value else s.difficulty)
  {
    var u := SanitizeSolutionUpdate(q);
    assert !SolutionUpdateFieldFails(u, DifficultyField) && !SolutionUpdateFieldFails(u, TimeField);
    if (q.estimatedCost.Numeric? && q.estimatedCost.value < 0.0)
       || (q.resources.Some? && AnyResourceRefused(q.resources.value)) then
      Err(ServerError)
    else
      Ok(s.(
        description := if q.description.Some? then u.description.value else s.description,
        images := if q.images.Some? then q.images.value else s.images,
        resources := if q.resources.Some? then StoredResources(q.resources.value) else s.resources,
        estimatedCost := if q.estimatedCost.Numeric? then q.estimatedCost.value else s.estimatedCost,
        estimatedTime :=
          if q.estimatedTime.Some? then ParseEstimatedTime(q.estimatedTime.value).value else s.estimatedTime,
        difficulty := if q.difficulty.Some? then ParseDifficulty(q.difficulty.value).value else s.difficulty))
  }

  /** A valid update keeps the stored solution within the store's invariant. */
  lemma UpdatedSolutionOk(s: Solution, q: SolutionUpdateRequest)
    requires SolutionUpdateErrors(SanitizeSolutionUpdate(q)) == []
    requires SolutionOk(s) && UpdatedSolution(s, q).Ok?
    ensures SolutionOk(UpdatedSolution(s, q).value)
  {
    assert !SolutionUpdateFieldFails(SanitizeSolutionUpdate(q), DescriptionField);
  }

  /** The comment validator: the trimmed text must hold at least one character that
      `isLength` counts, so a blank text, or one of variation selectors only, is refused. */
  function CommentErrors(text: string): (errs: seq<Field>)
    ensures errs == [] <==> ValidatorLength(Trim(text)) >= 1
    ensures errs == [] ==> Trim(text) != []
    ensures AllSpace(text) ==> errs != []
    ensures errs != [] ==> errs == [TextField]
  {
    if ValidatorLength(Trim(text)) < 1 then [TextField] else []
  }

  /** The comment handler's change once the text is valid: the trimmed text by the acting user
      is appended, and nothing else changes. */
  function WithComment(s: Solution, text: string, user: UserId): (r: Solution)
    requires CommentErrors(text) == []
    ensures r.comments == s.comments + [Comment(Trim(text), user)]
    ensures r.(comments := s.comments) == s
    ensures r.CommentCount() == s.CommentCount() + 1
    ensures r.comments[|r.comments| - 1].text != []
  {
    s.(comments := s.comments + [Comment(Trim(text), user)])
  }

  /** Commenting keeps the stored solution within the store's invariant. */
  lemma WithCommentOk(s: Solution, text: string, user: UserId)
    requires CommentErrors(text) == [] && SolutionOk(s)
    ensures SolutionOk(WithComment(s, text, user))
  {
    var r := WithComment(s, text, user);
    forall i | 0 <= i < |r.comments|
      ensures r.comments[i].text != [] && IsTrimmed(r.comments[i].text)
    {
      if i < |s.comments| {
        assert r.comments[i] == s.comments[i];
      }
    }
  }

  /** At most one accepted solution per problem. */
  ghost predicate AtMostOneAccepted(sols: map<nat, Solution>) {
    forall a, b ::
      (a in sols && b in sols && sols[a].isAccepted && sols[b].isAccepted
       && sols[a].problem == sols[b].problem) ==> a == b
  }

  /** The effect of the accept handler's two writes on the solutions collection: every other
      solution of the same problem is marked not accepted, then `sid` is marked accepted;
      solutions of other problems are untouched. */
  function Accept(sols: map<nat, Solution>, sid: nat): (r: map<nat, Solution>)
    requires sid in sols
    ensures r.Keys == sols.Keys
    ensures r[sid].isAccepted
    ensures forall k :: k in sols ==>
      r[k].(isAccepted := sols[k].isAccepted) == sols[k]
    ensures forall k :: k in sols && k != sid && sols[k].problem == sols[sid].problem ==> !r[k].isAccepted
    ensures forall k :: k in sols && sols[k].problem != sols[sid].problem ==> r[k] == sols[k]
  {
    var pid := sols[sid].problem;
    map k | k in sols :: if sols[k].problem == pid then sols[k].(isAccepted := k == sid) else sols[k]
  }

  /** After an accept, the problem has exactly the accepted solution and every other problem
      keeps its at-most-one. */
  lemma AcceptKeepsAtMostOne(sols: map<nat, Solution>, sid: nat)
    requires sid in sols && AtMostOneAccepted(sols)
    ensures AtMostOneAccepted(Accept(sols, sid))
  {
    var r := Accept(sols, sid);
    forall a, b | a in r && b in r && r[a].isAccepted && r[b].isAccepted && r[a].problem == r[b].problem
      ensures a == b
    {
      if r[a].problem == sols[sid].problem {
        assert a == sid && b == sid;
      } else {
        assert r[a] == sols[a] && r[b] == sols[b];
      }
    }
  }

  /** Accepting twice is accepting once. */
  lemma AcceptIdempotent(sols: map<nat, Solution>, sid: nat)
    requires sid in sols
    ensures Accept(Accept(sols, sid), sid) == Accept(sols, sid)
  {
    var r := Accept(sols, sid);
    var rr := Accept(r, sid);
    assert r[sid].problem == sols[sid].problem;
    forall k | k in rr ensures rr[k] == r[k] {
      assert r[k].problem == sols[k].problem;
    }
  }

  /** Accepting one solution and then another of the same problem is accepting the second:
      the last accept wins. */
  lemma AcceptLastWins(sols: map<nat, Solution>, a: nat, b: nat)
    requires a in sols && b in sols && sols[a].problem == sols[b].problem
    ensures Accept(Accept(sols, a), b) == Accept(sols, b)
  {
    var r := Accept(sols, a);
    var rr := Accept(r, b);
    var direct := Accept(sols, b);
    assert r[b].problem == sols[b].problem;
    forall k | k in rr ensures rr[k] == direct[k] {
      assert r[k].problem == sols[k].problem;
    }
  }

  /** The solution list filter: by problem only when `problemId` is given. */
  predicate MatchesSolution(problemId: Option<ProblemId>, s: Solution) {
    problemId.None? || s.problem == problemId.value
  }

  /** The solutions `Solution.find(query)` and `countDocuments(query)` select, in the
      collection's order: all of them, or those of the given problem. */
  function MatchingSolutions(docs: seq<Solution>, problemId: Option<ProblemId>): (r: seq<Solution>)
    ensures forall s :: s in r <==> s in docs && MatchesSolution(problemId, s)
    ensures forall s :: multiset(r)[s] == if MatchesSolution(problemId, s) then multiset(docs)[s] else 0
    ensures IsSubsequence(r, docs)
    ensures problemId.None? ==> r == docs
    ensures (forall s :: s in docs ==> !MatchesSolution(problemId, s)) ==> r == []
  {
    var keep := s => MatchesSolution(problemId, s);
    FilterCounts(docs, keep);
    FilterSubsequence(docs, keep);
    if problemId.None? then FilterAll(docs, keep); Filter(docs, keep)
    else if forall s :: s in docs ==> !keep(s) then FilterNone(docs, keep); Filter(docs, keep)
    else Filter(docs, keep)
  }

  /** `GET /api/solutions`: `docs` is the collection in the order the opaque `sortBy` key gives.
      The answer is page `page` of the matching solutions, with their count. */
  function ListSolutions(docs: seq<Solution>, problemId: Option<ProblemId>, page: int, limit: int)
    : (r: Listing<Solution>)
    requires page >= 1 && limit >= 1
    ensures r.items == PageOf(MatchingSolutions(docs, problemId), page, limit)
    ensures r.total == |MatchingSolutions(docs, problemId)|
    ensures r.currentPage == page
    ensures |r.items| <= limit
    ensures forall s :: s in r.items ==> s in docs && (problemId.None? || s.problem == problemId.value)
    ensures problemId.None? ==> r.total == |docs|
    ensures r.totalPages == CeilDiv(r.total, limit)
    ensures r.items != [] <==> page <= r.totalPages
  {
    var matching := MatchingSolutions(docs, problemId);
    assert forall s :: s in PageOf(matching, page, limit) ==> s in matching;
    List(matching, page, limit)
  }

  /** `GET /api/problems/:id/solutions`: the same listing filtered by the problem in the path;
      the problem itself is not looked up, so a missing problem lists nothing. */
  function ProblemSolutions(docs: seq<Solution>, pid: ProblemId, page: int, limit: int)
    : (r: Listing<Solution>)
    requires page >= 1 && limit >= 1
    ensures r == ListSolutions(docs, Some(pid), page, limit)
    ensures (forall s :: s in docs ==> s.problem != pid) ==> r.items == [] && r.total == 0
  {
    ListSolutions(docs, Some(pid), page, limit)
  }
}
