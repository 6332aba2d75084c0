/** The dashboard's pure steps: the query string it fetches with, the search box's filter, the
    merge of a vote response into the fetched list, and the figures on the stats cards. */
module DashboardPage {
  import opened Text
  import opened Votes
  import opened Listing
  import opened ProblemRoutes
  import opened ClientViews

  /** `fetchProblems`' `URLSearchParams`, as its key/value pairs in the order they are added. */
  function QueryParams(category: string, status: string, sortBy: string): (params: seq<(string, string)>)
    ensures |params| >= 1 && params[|params| - 1] == ("sortBy", sortBy)
    ensures ("category", category) in params <==> category != []
    ensures ("status", status) in params <==> status != []
    ensures forall kv :: kv in params ==> kv.0 in ["category", "status", "sortBy"]
  {
    (if category != [] then [("category", category)] else [])
      + (if status != [] then [("status", status)] else [])
      + [("sortBy", sortBy)]
  }

  /** How the server reads one query parameter: the first value under `key`, and "" (which it
      treats like a missing parameter) when there is none. */
  function Lookup(params: seq<(string, string)>, key: string): string
    decreases |params|
  {
    if params == [] then []
    else if params[0].0 == key then params[0].1
    else Lookup(params[1..], key)
  }

  /** The list handler builds from the dashboard's parameters exactly the filter the selected
      category and status call for: each is applied only when it is not empty. */
  lemma QueryParamsReachServer(category: string, status: string, sortBy: string)
    ensures
      var params := QueryParams(category, status, sortBy);
      BuildProblemQuery(Lookup(params, "category"), Lookup(params, "status"))
        == BuildProblemQuery(category, status)
  {
    var params := QueryParams(category, status, sortBy);
    var tail := [("sortBy", sortBy)];
    assert Lookup(tail, "category") == [] && Lookup(tail, "status") == [] by {
      assert Lookup(tail[1..], "category") == [] && Lookup(tail[1..], "status") == [];
    }
    var withStatus := (if status != [] then [("status", status)] else []) + tail;
    assert Lookup(withStatus, "status") == status by {
      if status != [] {
        assert withStatus[0] == ("status", status);
      } else {
        assert withStatus == tail;
      }
    }
    assert Lookup(withStatus, "category") == [] by {
      if status != [] {
        assert withStatus[1..] == tail;
      } else {
        assert withStatus == tail;
      }
    }
    assert params == (if category != [] then [("category", category)] else []) + withStatus;
    if category != [] {
      assert params[0] == ("category", category);
      assert params[1..] == withStatus;
    } else {
      assert params == withStatus;
    }
  }

  /** The search box's test: the lowercased term occurs in the lowercased title, description
      or location. */
  predicate MatchesSearch(p: ProblemView, term: string, lower: char -> char) {
    var t := Lowercase(term, lower);
    || Includes(Lowercase(p.title, lower), t)
    || Includes(Lowercase(p.description, lower), t)
    || Includes(Lowercase(p.location, lower), t)
  }

  /** `filteredProblems`. */
  function FilteredProblems(problems: seq<ProblemView>, term: string, lower: char -> char)
    : (shown: seq<ProblemView>)
    ensures IsSubsequence(shown, problems)
    ensures forall p :: p in shown ==> MatchesSearch(p, term, lower)
    ensures forall p :: p in problems && MatchesSearch(p, term, lower) ==> p in shown
    ensures term == [] ==> shown == problems
  {
    var shown := Filter(problems, p => MatchesSearch(p, term, lower));
    FilterSubsequence(problems, p => MatchesSearch(p, term, lower));
    assert term == [] ==> shown == problems by {
      if term == [] {
        assert Lowercase(term, lower) == [];
        forall p | p in problems ensures MatchesSearch(p, term, lower) {
          IncludesEmpty(Lowercase(p.title, lower));
        }
        FilterAll(problems, p => MatchesSearch(p, term, lower));
      }
    }
    shown
  }

  /** `handleVote`'s merge: the problem with id `id` takes the four vote fields of the response;
      every other problem, and every other field, is kept. */
  function MergeVote(problems: seq<ProblemView>, id: nat, t: Tally): (merged: seq<ProblemView>)
    ensures |merged| == |problems|
    ensures forall i :: 0 <= i < |problems| ==> merged[i].(votes := problems[i].votes) == problems[i]
    ensures forall i :: 0 <= i < |problems| && problems[i].id == id ==> merged[i].votes == t
    ensures forall i :: 0 <= i < |problems| && problems[i].id != id ==> merged[i] == problems[i]
  {
    seq(|problems|, i requires 0 <= i < |problems| =>
      if problems[i].id == id then problems[i].(votes := t) else problems[i])
  }

  /** Merging the same response twice is merging it once. */
  lemma MergeVoteIdempotent(problems: seq<ProblemView>, id: nat, t: Tally)
    ensures MergeVote(MergeVote(problems, id, t), id, t) == MergeVote(problems, id, t)
  {
  }

  /** Every problem shows counts equal to its list lengths, and merging a server response
      keeps it so. */
  predicate AllCountsMatch(problems: seq<ProblemView>) {
    forall i :: 0 <= i < |problems| ==> CountsMatch(problems[i].votes)
  }

  lemma MergeVoteKeepsCounts(problems: seq<ProblemView>, id: nat, l: Ledger)
    requires AllCountsMatch(problems)
    ensures AllCountsMatch(MergeVote(problems, id, TallyOf(l)))
  {
  }

  predicate IsResolved(p: ProblemView) {
    p.status == "Resolved"
  }

  predicate IsInProgress(p: ProblemView) {
    p.status == "In Progress"
  }

  /** The "Resolved" card. */
  function ResolvedCount(problems: seq<ProblemView>): nat {
    |Filter(problems, IsResolved)|
  }

  /** The "In Progress" card. */
  function InProgressCount(problems: seq<ProblemView>): nat {
    |Filter(problems, IsInProgress)|
  }

  /** No problem is both resolved and in progress, so the two cards never add up to more than
      the "Total Problems" card. */
  lemma StatusCardsBounded(problems: seq<ProblemView>)
    ensures ResolvedCount(problems) + InProgressCount(problems) <= |problems|
  {
    FilterDisjoint(problems, IsResolved, IsInProgress);
  }

  /** `problems.reduce((sum, p) => sum + p.upvoteCount, sum)`, left to right. */
  function SumUpvotes(sum: int, problems: seq<ProblemView>): int
    decreases |problems|
  {
    if problems == [] then sum else SumUpvotes(sum + problems[0].votes.upvoteCount, problems[1..])
  }

  /** The "Total Votes" card: the reduce started at 0. */
  function TotalVotes(problems: seq<ProblemView>): (total: int)
    ensures total >= 0
  {
    SumUpvotesShift(0, problems);
    SumUpvotes(0, problems)
  }

  /** The running sum only adds to where it starts. */
  lemma {:induction false} SumUpvotesShift(sum: int, problems: seq<ProblemView>)
    ensures SumUpvotes(sum, problems) == sum + SumUpvotes(0, problems)
    ensures SumUpvotes(0, problems) >= 0
    decreases |problems|
  {
    if problems != [] {
      var first := problems[0].votes.upvoteCount;
      SumUpvotesShift(sum + first, problems[1..]);
      SumUpvotesShift(first, problems[1..]);
    }
  }

  /** The total over two lists is the sum of their totals. */
  lemma {:induction false} TotalVotesAppend(a: seq<ProblemView>, b: seq<ProblemView>)
    ensures TotalVotes(a + b) == TotalVotes(a) + TotalVotes(b)
    decreases |a|
  {
    if a == [] {
      assert a + b == b;
    } else {
      assert (a + b)[1..] == a[1..] + b;
      TotalVotesAppend(a[1..], b);
      SumUpvotesShift(a[0].votes.upvoteCount, a[1..] + b);
      SumUpvotesShift(a[0].votes.upvoteCount, a[1..]);
    }
  }

  /** No problems total 0, and one problem totals its upvote count; with `TotalVotesAppend` this
      makes the card the sum of every problem's `upvoteCount`. */
  lemma TotalVotesOne(p: ProblemView)
    ensures TotalVotes([]) == 0
    ensures TotalVotes([p]) == p.votes.upvoteCount
  {
    assert [p][1..] == [];
    assert SumUpvotes(0, [p]) == SumUpvotes(p.votes.upvoteCount, []);
  }

  /** The card shows 0 exactly when no problem has an upvote. */
  lemma {:induction false} TotalVotesZero(problems: seq<ProblemView>)
    ensures TotalVotes(problems) == 0 <==>
      forall i :: 0 <= i < |problems| ==> problems[i].votes.upvoteCount == 0
    decreases |problems|
  {
    if problems != [] {
      TotalVotesZero(problems[1..]);
      SumUpvotesShift(problems[0].votes.upvoteCount, problems[1..]);
      assert forall i :: 1 <= i < |problems| ==> problems[i] == problems[1..][i - 1];
    }
  }
}
