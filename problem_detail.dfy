/** The problem page's pure steps: merging vote responses into the problem and its solutions,
    the solution form's submit guard and reset, the image strip, solution points and the badge
    colour maps. */
module ProblemDetailPage {
  import opened Outcomes
  import opened Text
  import opened Votes
  import ProblemModel
  import SolutionModel
  import opened SolutionRoutes
  import opened ClientViews

  /** `handleProblemVote`: nothing happens while the problem has not loaded; otherwise it
      takes the four vote fields of the response and keeps every other field. */
  function MergeProblemVote(problem: Option<ProblemView>, t: Tally): (r: Option<ProblemView>)
    ensures problem.None? <==> r.None?
    ensures r.Some? ==> r.value.votes == t && r.value.(votes := problem.value.votes) == problem.value
  {
    if problem.None? then None else Some(problem.value.(votes := t))
  }

  /** `handleSolutionVote`'s merge: the solution with id `id` takes the four vote fields of the
      response; every other solution, and every other field, is kept. */
  function MergeSolutionVote(solutions: seq<SolutionView>, id: nat, t: Tally): (merged: seq<SolutionView>)
    ensures |merged| == |solutions|
    ensures forall i :: 0 <= i < |solutions| ==> merged[i].(votes := solutions[i].votes) == solutions[i]
    ensures forall i :: 0 <= i < |solutions| && solutions[i].id == id ==> merged[i].votes == t
    ensures forall i :: 0 <= i < |solutions| && solutions[i].id != id ==> merged[i] == solutions[i]
  {
    seq(|solutions|, i requires 0 <= i < |solutions| =>
      if solutions[i].id == id then solutions[i].(votes := t) else solutions[i])
  }

  /** Merging the same response twice is merging it once, for the problem and the solutions. */
  lemma MergeIdempotent(problem: Option<ProblemView>, solutions: seq<SolutionView>, id: nat, t: Tally)
    ensures MergeProblemVote(MergeProblemVote(problem, t), t) == MergeProblemVote(problem, t)
    ensures MergeSolutionVote(MergeSolutionVote(solutions, id, t), id, t) == MergeSolutionVote(solutions, id, t)
  {
  }

  /** The solution form's fields. */
  datatype SolutionForm = SolutionForm(description: string, estimatedCost: real, estimatedTime: string, difficulty: string)

  /** The form as it starts, and as a successful submit leaves it. */
  const InitialForm: SolutionForm := SolutionForm("", 0.0, "Days", "Medium")

  /** What a submit does: nothing for a blank description, otherwise a create request. */
  datatype SolutionSubmit = Blank | Post(body: SolutionRequest)

  /** `handleSubmitSolution`'s guard and the body it posts: the form's fields and the page's
      problem id. */
  function SubmitSolution(form: SolutionForm, problemId: SolutionModel.ProblemId): (r: SolutionSubmit)
    ensures r.Blank? <==> Trim(form.description) == []
    ensures r.Post? ==>
      && r.body.description == form.description
      && r.body.problem == Some(problemId)
      && r.body.estimatedCost == Numeric(form.estimatedCost)
      && r.body.estimatedTime == Some(form.estimatedTime)
      && r.body.difficulty == Some(form.difficulty)
      && r.body.images.None? && r.body.resources.None?
  {
    if Trim(form.description) == [] then Blank
    else
      Post(SolutionRequest(form.description, Some(problemId), None, None,
        Numeric(form.estimatedCost), Some(form.estimatedTime), Some(form.difficulty)))
  }

  /** The form after a submit: reset when the request was sent and the server saved the
      solution (`saved`), unchanged otherwise. */
  function FormAfterSubmit(form: SolutionForm, problemId: SolutionModel.ProblemId, saved: bool): (next: SolutionForm)
    ensures SubmitSolution(form, problemId).Post? && saved ==> next == InitialForm
    ensures SubmitSolution(form, problemId).Blank? || !saved ==> next == form
  {
    if SubmitSolution(form, problemId).Post? && saved then InitialForm else form
  }

  /** The form's starting time and difficulty are the server's defaults. */
  lemma InitialFormIsDefault()
    ensures SolutionModel.ParseEstimatedTime(InitialForm.estimatedTime) == Some(SolutionModel.DefaultEstimatedTime)
    ensures SolutionModel.ParseDifficulty(InitialForm.difficulty) == Some(SolutionModel.DefaultDifficulty)
  {
  }

  /** A posted form whose trimmed description is long enough, and whose time and difficulty
      are among the schema's values, passes every create validator of the server. */
  lemma PostedPassesValidators(form: SolutionForm, problemId: SolutionModel.ProblemId)
    requires ValidatorLength(Trim(form.description)) >= 20
    requires SolutionModel.ParseEstimatedTime(form.estimatedTime).Some?
    requires SolutionModel.ParseDifficulty(form.difficulty).Some?
    ensures SubmitSolution(form, problemId).Post?
    ensures SolutionCreateValid(SanitizeSolution(SubmitSolution(form, problemId).body))
  {
    var body := SubmitSolution(form, problemId).body;
    CreateValidFromFields(SanitizeSolution(body), Trim(form.description));
  }

  /** The create validators on a body whose sanitized description is `description`. */
  lemma CreateValidFromFields(q: SolutionRequest, description: string)
    requires q.description == description && ValidatorLength(description) >= 20
    requires q.problem.Some? && q.estimatedCost.Numeric?
    requires q.estimatedTime.Some? && SolutionModel.ParseEstimatedTime(q.estimatedTime.value).Some?
    requires q.difficulty.Some? && SolutionModel.ParseDifficulty(q.difficulty.value).Some?
    ensures SolutionCreateValid(q)
  {
  }

  /** `problem.images.slice(0, 4)`: the first four images, or all of them when there are
      fewer. */
  function ShownImages(images: seq<string>): (shown: seq<string>)
    ensures |shown| <= 4 && |shown| <= |images| && shown == images[..|shown|]
    ensures |images| <= 4 ==> shown == images
    ensures |images| >= 4 ==> |shown| == 4
  {
    if |images| <= 4 then images else images[..4]
  }

  /** A solution's points: upvotes less downvotes, as counted on the server. */
  function Points(s: SolutionView): (points: int)
    ensures CountsMatch(s.votes) ==> points == |s.votes.upvotes| - |s.votes.downvotes|
  {
    s.votes.upvoteCount - s.votes.downvoteCount
  }

  /** The badge colours, after their Tailwind classes (`bg-green-100 text-green-800`, ...). */
  datatype Colour = Green | Yellow | Blue | Orange | Red | Grey

  /** `getStatusColor`: grey for "Closed" and for anything that is not a status. */
  function StatusColour(status: string): (c: Colour)
    ensures c == Grey <==> ProblemModel.ParseStatus(status) in {None, Some(ProblemModel.Closed)}
  {
    if status == "Open" then Green
    else if status == "In Progress" then Yellow
    else if status == "Resolved" then Blue
    else if status == "Closed" then Grey
    else Grey
  }

  /** `getPriorityColor`: grey exactly for what is not a priority. */
  function PriorityColour(priority: string): (c: Colour)
    ensures c == Grey <==> ProblemModel.ParsePriority(priority).None?
  {
    if priority == "Critical" then Red
    else if priority == "High" then Orange
    else if priority == "Medium" then Yellow
    else if priority == "Low" then Green
    else Grey
  }

  /** `getDifficultyColor`: grey exactly for what is not a difficulty. */
  function DifficultyColour(difficulty: string): (c: Colour)
    ensures c == Grey <==> SolutionModel.ParseDifficulty(difficulty).None?
  {
    if difficulty == "Easy" then Green
    else if difficulty == "Medium" then Yellow
    else if difficulty == "Hard" then Red
    else Grey
  }

  /** On the values the server stores, only a closed problem has a grey status badge, and
      every priority and difficulty has a colour of its own. */
  lemma StoredValuesColours(st: ProblemModel.Status, p: ProblemModel.Priority, d: SolutionModel.Difficulty)
    ensures StatusColour(ProblemModel.StatusName(st)) == Grey <==> st == ProblemModel.Closed
    ensures PriorityColour(ProblemModel.PriorityName(p)) != Grey
    ensures DifficultyColour(SolutionModel.DifficultyName(d)) != Grey
  {
  }
}
