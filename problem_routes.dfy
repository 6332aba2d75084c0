/** The request validation, defaults, field selection and query shaping of the Problem
    handlers. The handlers themselves, which read and write the store, are in `Backend`. */
module ProblemRoutes {
  import opened Outcomes
  import opened Text
  import opened Votes
  import opened ProblemModel
  import opened Listing

  /** Each element trimmed, as the schema's `trim` option does to every tag it stores. */
  function TrimEach(ss: seq<string>): (r: seq<string>)
    ensures |r| == |ss| && AllTrimmed(r)
    ensures forall i :: 0 <= i < |ss| ==> r[i] == Trim(ss[i])
  {
    seq(|ss|, i requires 0 <= i < |ss| => Trim(ss[i]))
  }

  /** The body of a create request. A missing string field reads as "" (the validator's trim
      turns `undefined` into the empty string); `lat`/`lng` are None when missing or not
      numeric; `images` and `tags` are None when missing or not arrays. */
  datatype CreateRequest = CreateRequest(
    title: string,
    description: string,
    location: string,
    lat: Option<real>,
    lng: Option<real>,
    category: string,
    images: Option<seq<string>>,
    priority: string,
    tags: Option<seq<string>>)

  /** The body as the validators and the handler see it: the `trim` sanitizers of the
      title, description and location validators rewrite those fields in place. */
  function SanitizeCreate(q: CreateRequest): CreateRequest {
    q.(title := Trim(q.title), description := Trim(q.description), location := Trim(q.location))
  }

  /** The create validators, in the order they are declared. */
  const CreateFields: seq<Field> :=
    [TitleField, DescriptionField, LocationField, LatField, LngField, CategoryField, ImagesField]

  /** Whether the create validator of field `f` rejects the (sanitized) request. */
  predicate CreateFieldFails(q: CreateRequest, f: Field) {
    match f
    case TitleField => ValidatorLength(q.title) < 5
    case DescriptionField => ValidatorLength(q.description) < 20
    case LocationField => q.location == []
    case LatField => q.lat.None?
    case LngField => q.lng.None?
    case CategoryField => ParseCategory(q.category).None?
    case ImagesField => q.images.None? || q.images.value == []
    case _ => false
  }

  /** Every create validator passes. */
  predicate CreateValid(q: CreateRequest) {
    && ValidatorLength(q.title) >= 5
    && ValidatorLength(q.description) >= 20
    && q.location != []
    && q.lat.Some? && q.lng.Some?
    && ParseCategory(q.category).Some?
    && q.images.Some? && q.images.value != []
  }

  /** The fields among `fields` whose create validator fails, in order. */
  function CreateFailures(q: CreateRequest, fields: seq<Field>): (errs: seq<Field>)
    ensures forall f :: f in errs <==> f in fields && CreateFieldFails(q, f)
  {
    if fields == [] then []
    else (if CreateFieldFails(q, fields[0]) then [fields[0]] else []) + CreateFailures(q, fields[1..])
  }

  /** The fields the create validators reject, in the order they are declared; none exactly
      when the request is valid. */
  function CreateErrors(q: CreateRequest): (errs: seq<Field>)
    ensures forall f :: f in errs <==> f in CreateFields && CreateFieldFails(q, f)
    ensures errs == [] <==> CreateValid(q)
  {
    var errs := CreateFailures(q, CreateFields);
    assert errs == [] ==>
      && !CreateFieldFails(q, TitleField) && !CreateFieldFails(q, DescriptionField)
      && !CreateFieldFails(q, LocationField) && !CreateFieldFails(q, LatField)
      && !CreateFieldFails(q, LngField) && !CreateFieldFails(q, CategoryField)
      && !CreateFieldFails(q, ImagesField);
    assert errs != [] ==> errs[0] in errs;
    errs
  }

  /** A priority the route passes on but the schema's enum refuses when the document is saved. */
  predicate PriorityRefused(priority: string) {
    priority != "" && ParsePriority(priority).None?
  }

  /** An image URL the schema's `required` refuses when the document is saved. */
  predicate HasEmptyImage(images: seq<string>) {
    exists i :: 0 <= i < |images| && images[i] == []
  }

  /** The create handler's decision and the document it saves: validation errors first, then
      the schema's checks on save, otherwise the trimmed fields with priority defaulting to
      Medium, status to Open, tags to none, no votes and the acting user as author. */
  function NewProblem(q: CreateRequest, user: UserId): (r: Response<Problem>)
    ensures CreateErrors(SanitizeCreate(q)) != [] ==> r == Err(BadRequest(CreateErrors(SanitizeCreate(q))))
    ensures CreateErrors(SanitizeCreate(q)) == [] ==>
      (r == Err(ServerError) <==> PriorityRefused(q.priority) || HasEmptyImage(q.images.value))
    ensures r.Ok? <==>
      CreateErrors(SanitizeCreate(q)) == [] && !PriorityRefused(q.priority) && !HasEmptyImage(q.images.value)
    ensures r.Ok? ==>
      && r.value.title == Trim(q.title)
      && r.value.description == Trim(q.description)
      && r.value.location == Trim(q.location)
      && q.lat.Some? && q.lng.Some? && r.value.coordinates == Coordinates(q.lat.value, q.lng.value)
      && Some(r.value.images) == q.images
      && CategoryName(r.value.category) == q.category
      && r.value.priority == (if q.priority == "" then DefaultPriority else ParsePriority(q.priority).value)
      && r.value.status == DefaultStatus
      && r.value.author == user
      && r.value.votes == EmptyLedger
      && r.value.tags == (if q.tags.Some? then TrimEach(q.tags.value) else [])
  {
    var s := SanitizeCreate(q);
    if CreateErrors(s) != [] then Err(BadRequest(CreateErrors(s)))
    else if PriorityRefused(q.priority) || HasEmptyImage(q.images.value) then Err(ServerError)
    else
      assert !CreateFieldFails(s, CategoryField) && !CreateFieldFails(s, ImagesField);
      CategoryParseName(q.category);
      var category := ParseCategory(q.category).value;
      Ok(Problem(
        s.title, s.description, s.location,
        Coordinates(q.lat.value, q.lng.value), q.images.value, category,
        if q.priority == "" then DefaultPriority else ParsePriority(q.priority).value,
        DefaultStatus, user, EmptyLedger,
        if q.tags.Some? then TrimEach(q.tags.value) else []))
  }

  /** Every problem the create handler accepts satisfies the store's invariant. */
  lemma NewProblemOk(q: CreateRequest, user: UserId)
    requires NewProblem(q, user).Ok?
    ensures ProblemOk(NewProblem(q, user).value)
  {
    var p := NewProblem(q, user).value;
    assert forall i :: 0 <= i < |p.images| ==> p.images[i] != [] by {
      if exists i :: 0 <= i < |p.images| && p.images[i] == [] {
        assert HasEmptyImage(q.images.value);
      }
    }
  }

  /** The body of an update request: None for a field that is absent. */
  datatype UpdateRequest = UpdateRequest(
    title: Option<string>,
    description: Option<string>,
    status: Option<string>,
    priority: string,
    tags: Option<seq<string>>)

  /** The body as the update validators see it: a present title or description is trimmed
      in place. */
  function SanitizeUpdate(q: UpdateRequest): UpdateRequest {
    q.(title := if q.title.Some? then Some(Trim(q.title.value)) else None,
       description := if q.description.Some? then Some(Trim(q.description.value)) else None)
  }

  /** The update validators, in the order they are declared. */
  const UpdateFields: seq<Field> := [TitleField, DescriptionField, StatusField]

  /** Whether the update validator of field `f` rejects the (sanitized) request; an absent
      field passes. */
  predicate UpdateFieldFails(q: UpdateRequest, f: Field) {
    match f
    case TitleField => q.title.Some? && ValidatorLength(q.title.value) < 5
    case DescriptionField => q.description.Some? && ValidatorLength(q.description.value) < 20
    case StatusField => q.status.Some? && ParseStatus(q.status.value).None?
    case _ => false
  }

  /** Every update validator passes; absent fields are never checked. */
  predicate UpdateValid(q: UpdateRequest) {
    && (q.title.Some? ==> ValidatorLength(q.title.value) >= 5)
    && (q.description.Some? ==> ValidatorLength(q.description.value) >= 20)
    && (q.status.Some? ==> ParseStatus(q.status.value).Some?)
  }

  /** The fields among `fields` whose update validator fails, in order. */
  function UpdateFailures(q: UpdateRequest, fields: seq<Field>): (errs: seq<Field>)
    ensures forall f :: f in errs <==> f in fields && UpdateFieldFails(q, f)
  {
    if fields == [] then []
    else (if UpdateFieldFails(q, fields[0]) then [fields[0]] else []) + UpdateFailures(q, fields[1..])
  }

  /** The fields the update validators reject, in the order they are declared; none exactly
      when the request is valid. */
  function UpdateErrors(q: UpdateRequest): (errs: seq<Field>)
    ensures forall f :: f in errs <==> f in UpdateFields && UpdateFieldFails(q, f)
    ensures errs == [] <==> UpdateValid(q)
  {
    var errs := UpdateFailures(q, UpdateFields);
    assert errs == [] ==>
      !UpdateFieldFails(q, TitleField) && !UpdateFieldFails(q, DescriptionField) && !UpdateFieldFails(q, StatusField);
    assert errs != [] ==> errs[0] in errs;
    errs
  }

  /** The author's update once the request is valid: only the supplied title, description,
      status, priority and tags change, and the schema's enum refuses an unknown priority. */
  function UpdatedProblem(p: Problem, q: UpdateRequest): (r: Response<Problem>)
    requires UpdateErrors(SanitizeUpdate(q)) == []
    ensures r.Err? <==> PriorityRefused(q.priority)
    ensures r.Err? ==> r.failure == ServerError
    ensures r.Ok? ==>
      r.value.(title := p.title, description := p.description, status := p.status,
               priority := p.priority, tags := p.tags) == p
    ensures r.Ok? ==>
      && r.value.title == (if q.title.Some? then Trim(q.title.value) else p.title)
      && r.value.description == (if q.description.Some? then Trim(q.description.value) else p.description)
      && r.value.status == (if q.status.Some? then ParseStatus(q.status.value).value else p.status)
      && r.value.priority == (if q.priority != "" then ParsePriority(q.priority).value else p.priority)
      && r.value.tags == (if q.tags.Some? then TrimEach(q.tags.value) else p.tags)
  {
    if PriorityRefused(q.priority) then Err(ServerError)
    else
      var p1 := if q.title.Some? then p.(title := Trim(q.title.value)) else p;
      var p2 := if q.description.Some? then p1.(description := Trim(q.description.value)) else p1;
      var p3 := if q.status.Some? then p2.(status := ParseStatus(q.status.value).value) else p2;
      var p4 := if q.priority != "" then p3.(priority := ParsePriority(q.priority).value) else p3;
      var p5 := if q.tags.Some? then p4.(tags := TrimEach(q.tags.value)) else p4;
      Ok(p5)
  }

  /** A valid update keeps the stored problem within the store's invariant. */
  lemma UpdatedProblemOk(p: Problem, q: UpdateRequest)
    requires UpdateErrors(SanitizeUpdate(q)) == []
    requires ProblemOk(p) && UpdatedProblem(p, q).Ok?
    ensures ProblemOk(UpdatedProblem(p, q).value)
  {
    var s := SanitizeUpdate(q);
    assert !UpdateFieldFails(s, TitleField) && !UpdateFieldFails(s, DescriptionField);
  }

  /** The list filter: a field is filtered on only when its query parameter is non-empty. */
  datatype ProblemQuery = ProblemQuery(category: Option<string>, status: Option<string>)

  function BuildProblemQuery(category: string, status: string): (q: ProblemQuery)
    ensures q.category.Some? <==> category != []
    ensures q.status.Some? <==> status != []
    ensures q.category.Some? ==> q.category.value == category
    ensures q.status.Some? ==> q.status.value == status
  {
    ProblemQuery(if category != [] then Some(category) else None,
                 if status != [] then Some(status) else None)
  }

  predicate MatchesProblem(q: ProblemQuery, p: Problem) {
    && (q.category.None? || CategoryName(p.category) == q.category.value)
    && (q.status.None? || StatusName(p.status) == q.status.value)
  }

  /** The documents `Problem.find(query)` and `countDocuments(query)` select: those the query
      accepts, in the collection's order. */
  function MatchingProblems(docs: seq<Problem>, q: ProblemQuery): (r: seq<Problem>)
    ensures forall p :: p in r <==> p in docs && MatchesProblem(q, p)
    ensures forall p :: multiset(r)[p] == if MatchesProblem(q, p) then multiset(docs)[p] else 0
    ensures IsSubsequence(r, docs)
    ensures q.category.None? && q.status.None? ==> r == docs
  {
    var keep := p => MatchesProblem(q, p);
    FilterCounts(docs, keep);
    FilterSubsequence(docs, keep);
    if q.category.None? && q.status.None? then FilterAll(docs, keep); Filter(docs, keep)
    else Filter(docs, keep)
  }

  /** `GET /api/problems`: `docs` is the collection in the order the opaque `sortBy` key gives.
      The answer is page `page` of the matching problems, with their count. */
  function ListProblems(docs: seq<Problem>, category: string, status: string, page: int, limit: int)
    : (r: Listing<Problem>)
    requires page >= 1 && limit >= 1
    ensures r.items == PageOf(MatchingProblems(docs, BuildProblemQuery(category, status)), page, limit)
    ensures r.total == |MatchingProblems(docs, BuildProblemQuery(category, status))|
    ensures r.currentPage == page
    ensures |r.items| <= limit
    ensures forall p :: p in r.items ==>
      p in docs && (category == [] || CategoryName(p.category) == category)
                && (status == [] || StatusName(p.status) == status)
    ensures category == [] && status == [] ==> r.total == |docs|
    ensures r.totalPages == CeilDiv(r.total, limit)
    ensures r.items != [] <==> page <= r.totalPages
  {
    var matching := MatchingProblems(docs, BuildProblemQuery(category, status));
    assert forall p :: p in PageOf(matching, page, limit) ==> p in matching;
    List(matching, page, limit)
  }
}
