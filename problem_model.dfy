/** The Problem document: its enumerated fields, its defaults and its derived vote counts. */
module ProblemModel {
  import opened Outcomes
  import opened Text
  import opened Votes

  datatype Category = Infrastructure | Environment | Social | Technology | Health | Education | Other
  datatype Priority = Low | Medium | High | Critical
  datatype Status = Open | InProgress | Resolved | Closed

  const CategoryNames: seq<string> :=
    ["Infrastructure", "Environment", "Social", "Technology", "Health", "Education", "Other"]
  const PriorityNames: seq<string> := ["Low", "Medium", "High", "Critical"]
  const StatusNames: seq<string> := ["Open", "In Progress", "Resolved", "Closed"]

  /** The stored spelling of a category; reading it back gives the same category. */
  function CategoryName(c: Category): (s: string)
    ensures s in CategoryNames
    ensures ParseCategory(s) == Some(c)
  {
    match c
    case Infrastructure => "Infrastructure"
    case Environment => "Environment"
    case Social => "Social"
    case Technology => "Technology"
    case Health => "Health"
    case Education => "Education"
    case Other => "Other"
  }

  /** The schema's category enum: exactly the seven listed spellings are accepted. */
  function ParseCategory(s: string): (r: Option<Category>)
    ensures r.Some? <==> s in CategoryNames
  {
    if s == "Infrastructure" then Some(Infrastructure)
    else if s == "Environment" then Some(Environment)
    else if s == "Social" then Some(Social)
    else if s == "Technology" then Some(Technology)
    else if s == "Health" then Some(Health)
    else if s == "Education" then Some(Education)
    else if s == "Other" then Some(Other)
    else None
  }

  /** Parsing then naming a category gives back the spelling that was parsed. */
  lemma CategoryParseName(s: string)
    requires ParseCategory(s).Some?
    ensures CategoryName(ParseCategory(s).value) == s
  {
  }

  function PriorityName(p: Priority): (s: string)
    ensures s in PriorityNames
    ensures ParsePriority(s) == Some(p)
  {
    match p
    case Low => "Low"
    case Medium => "Medium"
    case High => "High"
    case Critical => "Critical"
  }

  /** The schema's priority enum: exactly the four listed spellings are accepted. */
  function ParsePriority(s: string): (r: Option<Priority>)
    ensures r.Some? <==> s in PriorityNames
  {
    if s == "Low" then Some(Low)
    else if s == "Medium" then Some(Medium)
    else if s == "High" then Some(High)
    else if s == "Critical" then Some(Critical)
    else None
  }

  function StatusName(st: Status): (s: string)
    ensures s in StatusNames
    ensures ParseStatus(s) == Some(st)
  {
    match st
    case Open => "Open"
    case InProgress => "In Progress"
    case Resolved => "Resolved"
    case Closed => "Closed"
  }

  /** The schema's status enum: exactly the four listed spellings are accepted. */
  function ParseStatus(s: string): (r: Option<Status>)
    ensures r.Some? <==> s in StatusNames
  {
    if s == "Open" then Some(Open)
    else if s == "In Progress" then Some(InProgress)
    else if s == "Resolved" then Some(Resolved)
    else if s == "Closed" then Some(Closed)
    else None
  }

  const DefaultPriority: Priority := Medium
  const DefaultStatus: Status := Open

  /** Latitude and longitude, stored as given. */
  datatype Coordinates = Coordinates(lat: real, lng: real)

  datatype Problem = Problem(
    title: string,
    description: string,
    location: string,
    coordinates: Coordinates,
    images: seq<string>,
    category: Category,
    priority: Priority,
    status: Status,
    author: UserId,
    votes: Ledger,
    tags: seq<string>)
  {
    /** The `upvoteCount` virtual. */
    function UpvoteCount(): nat { |votes.upvotes| }

    /** The `downvoteCount` virtual. */
    function DownvoteCount(): nat { |votes.downvotes| }
  }

  predicate AllTrimmed(ss: seq<string>) {
    forall i :: 0 <= i < |ss| ==> IsTrimmed(ss[i])
  }

  /** What every stored problem satisfies: the schema's `required` and `trim` options together
      with the length checks every create and update applies, and one vote per user. */
  ghost predicate ProblemOk(p: Problem) {
    && IsTrimmed(p.title) && |p.title| >= 5
    && IsTrimmed(p.description) && |p.description| >= 20
    && IsTrimmed(p.location) && p.location != []
    && |p.images| >= 1 && (forall i :: 0 <= i < |p.images| ==> p.images[i] != [])
    && AllTrimmed(p.tags)
    && p.votes.SingleVotes()
  }

  /** Replacing the votes of a problem by a ledger with one vote per user keeps `ProblemOk`. */
  lemma WithVotesOk(p: Problem, votes: Ledger)
    requires ProblemOk(p) && votes.SingleVotes()
    ensures ProblemOk(p.(votes := votes))
  {
  }
}
