/** The problems and solutions as the client pages hold them after a fetch. The four vote fields
    a vote response carries (`upvotes`, `downvotes`, `upvoteCount`, `downvoteCount`) are kept
    together as one `Tally`, since every merge replaces all four at once. */
module ClientViews {
  import opened Votes

  /** A problem as the dashboard and the detail page hold it; enum fields are plain strings. */
  datatype ProblemView = ProblemView(
    id: nat,
    title: string,
    description: string,
    location: string,
    category: string,
    priority: string,
    status: string,
    images: seq<string>,
    author: UserId,
    votes: Tally)

  /** A solution as the detail page holds it. */
  datatype SolutionView = SolutionView(
    id: nat,
    description: string,
    estimatedCost: real,
    estimatedTime: string,
    difficulty: string,
    author: UserId,
    isAccepted: bool,
    commentCount: nat,
    votes: Tally)

  /** The counts a tally reports are the lengths of its lists, as the server computes them. */
  predicate CountsMatch(t: Tally) {
    t.upvoteCount == |t.upvotes| && t.downvoteCount == |t.downvotes|
  }
}
