/** The Solution document: its enumerated fields, its comments and its derived counts. */
module SolutionModel {
  import opened Outcomes
  import opened Text
  import opened Votes

  type ProblemId = nat

  datatype Difficulty = Easy | Medium | Hard
  datatype EstimatedTime = Hours | Days | Weeks | Months
  datatype ResourceType = Document | Video | Link | Tool

  const DifficultyNames: seq<string> := ["Easy", "Medium", "Hard"]
  const EstimatedTimeNames: seq<string> := ["Hours", "Days", "Weeks", "Months"]
  const ResourceTypeNames: seq<string> := ["Document", "Video", "Link", "Tool"]

  function DifficultyName(d: Difficulty): (s: string)
    ensures s in DifficultyNames
    ensures ParseDifficulty(s) == Some(d)
  {
    match d
    case Easy => "Easy"
    case Medium => "Medium"
    case Hard => "Hard"
  }

  /** The difficulty enum: exactly the three listed spellings are accepted. */
  function ParseDifficulty(s: string): (r: Option<Difficulty>)
    ensures r.Some? <==> s in DifficultyNames
  {
    if s == "Easy" then Some(Easy)
    else if s == "Medium" then Some(Medium)
    else if s == "Hard" then Some(Hard)
    else None
  }

  function EstimatedTimeName(t: EstimatedTime): (s: string)
    ensures s in EstimatedTimeNames
    ensures ParseEstimatedTime(s) == Some(t)
  {
    match t
    case Hours => "Hours"
    case Days => "Days"
    case Weeks => "Weeks"
    case Months => "Months"
  }

  /** The estimated-time enum: exactly the four listed spellings are accepted. */
  function ParseEstimatedTime(s: string): (r: Option<EstimatedTime>)
    ensures r.Some? <==> s in EstimatedTimeNames
  {
    if s == "Hours" then Some(Hours)
    else if s == "Days" then Some(Days)
    else if s == "Weeks" then Some(Weeks)
    else if s == "Months" then Some(Months)
    else None
  }

  function ResourceTypeName(t: ResourceType): (s: string)
    ensures s in ResourceTypeNames
    ensures ParseResourceType(s) == Some(t)
  {
    match t
    case Document => "Document"
    case Video => "Video"
    case Link => "Link"
    case Tool => "Tool"
  }

  /** The resource-type enum: exactly the four listed spellings are accepted. */
  function ParseResourceType(s: string): (r: Option<ResourceType>)
    ensures r.Some? <==> s in ResourceTypeNames
  {
    if s == "Document" then Some(Document)
    else if s == "Video" then Some(Video)
    else if s == "Link" then Some(Link)
    else if s == "Tool" then Some(Tool)
    else None
  }

  /** Parsing then naming a resource type gives back the spelling that was parsed. */
  lemma ResourceTypeParseName(s: string)
    requires ParseResourceType(s).Some?
    ensures ResourceTypeName(ParseResourceType(s).value) == s
  {
  }

  const DefaultDifficulty: Difficulty := Medium
  const DefaultEstimatedTime: EstimatedTime := Days

  /** A linked resource; its type is optional in the schema. */
  datatype Resource = Resource(name: string, url: string, kind: Option<ResourceType>)

  /** A comment; its creation time is left out. */
  datatype Comment = Comment(text: string, author: UserId)

  datatype Solution = Solution(
    description: string,
    images: seq<string>,
    resources: seq<Resource>,
    estimatedCost: real,
    estimatedTime: EstimatedTime,
    difficulty: Difficulty,
    author: UserId,
    problem: ProblemId,
    votes: Ledger,
    comments: seq<Comment>,
    isAccepted: bool)
  {
    /** The `upvoteCount` virtual. */
    function UpvoteCount(): nat { |votes.upvotes| }

    /** The `downvoteCount` virtual. */
    function DownvoteCount(): nat { |votes.downvotes| }

    /** The `commentCount` virtual. */
    function CommentCount(): nat { |comments| }
  }

  /** What every stored solution satisfies: the schema's `min: 0` on the cost, the `required`
      text of every comment, the length check every create and update applies to the
      description, and one vote per user. */
  ghost predicate SolutionOk(s: Solution) {
    && IsTrimmed(s.description) && |s.description| >= 20
    && s.estimatedCost >= 0.0
    && (forall i :: 0 <= i < |s.comments| ==> s.comments[i].text != [] && IsTrimmed(s.comments[i].text))
    && s.votes.SingleVotes()
  }

  /** Replacing the votes of a solution by a ledger with one vote per user keeps `SolutionOk`. */
  lemma WithVotesOk(s: Solution, votes: Ledger)
    requires SolutionOk(s) && votes.SingleVotes()
    ensures SolutionOk(s.(votes := votes))
  {
  }

  /** Whether a solution is accepted does not bear on `SolutionOk`. */
  lemma WithAcceptedOk(s: Solution, accepted: bool)
    requires SolutionOk(s)
    ensures SolutionOk(s.(isAccepted := accepted))
  {
  }
}
