/** The vote ledger embedded in every Problem and Solution: the lists of users who upvoted and
    downvoted, and the rule the two vote handlers apply to them. */
module Votes {
  import opened Outcomes

  /** A user reference; the handlers compare users only by equality of their ids. */
  type UserId = nat

  datatype VoteType = Upvote | Downvote | Remove

  /** The `voteType` body field must be one of three literals; anything else is a 400. */
  function ParseVoteType(s: string): (r: Option<VoteType>)
    ensures r == Some(Upvote) <==> s == "upvote"
    ensures r == Some(Downvote) <==> s == "downvote"
    ensures r == Some(Remove) <==> s == "remove"
  {
    if s == "upvote" then Some(Upvote)
    else if s == "downvote" then Some(Downvote)
    else if s == "remove" then Some(Remove)
    else None
  }

  /** `list.filter(id => id !== u)`: every entry of `u` is dropped and every other entry kept. */
  function Without(s: seq<UserId>, u: UserId): (r: seq<UserId>)
    ensures multiset(r) == multiset(s)[u := 0]
    ensures |r| <= |s|
  {
    if s == [] then []
    else
      assert s == [s[0]] + s[1..];
      (if s[0] == u then [] else [s[0]]) + Without(s[1..], u)
  }

  /** Filtering distributes over concatenation, so the surviving entries keep their order. */
  lemma {:induction false} WithoutAppend(a: seq<UserId>, b: seq<UserId>, u: UserId)
    ensures Without(a + b, u) == Without(a, u) + Without(b, u)
  {
    if a == [] {
      assert a + b == b;
    } else {
      assert (a + b)[1..] == a[1..] + b;
      WithoutAppend(a[1..], b, u);
    }
  }

  /** A list that no longer holds `u` is left alone by filtering `u` out. */
  lemma {:induction false} WithoutAbsent(s: seq<UserId>, u: UserId)
    requires u !in s
    ensures Without(s, u) == s
  {
    if s != [] {
      WithoutAbsent(s[1..], u);
    }
  }

  /** What filtering `u` out leaves: no `u`, a fixed point of the filter, and a list to which
      appending `u` adds exactly one entry that the filter removes again. */
  lemma WithoutThenPush(s: seq<UserId>, u: UserId)
    ensures var w := Without(s, u);
      && u !in w
      && Without(w, u) == w
      && Without(w + [u], u) == w
      && multiset(w + [u])[u] == 1
  {
    var w: seq<UserId> := Without(s, u);
    assert u !in w by { assert multiset(w)[u] == 0; }
    WithoutAbsent(w, u);
    WithoutAppend(w, [u], u);
    assert Without([u], u) == [];
    assert multiset(w + [u]) == multiset(w) + multiset{u};
  }

  datatype Ledger = Ledger(upvotes: seq<UserId>, downvotes: seq<UserId>) {
    /** Every user appears at most once across both lists (one vote per user). */
    ghost predicate SingleVotes() {
      forall x :: multiset(upvotes)[x] + multiset(downvotes)[x] <= 1
    }
  }

  const EmptyLedger := Ledger([], [])

  /** The vote handlers: remove `u` from both lists, then append `u` to the list the vote names. */
  function ApplyVote(l: Ledger, u: UserId, v: VoteType): (r: Ledger)
    ensures multiset(r.upvotes)[u] == (if v == Upvote then 1 else 0)
    ensures multiset(r.downvotes)[u] == (if v == Downvote then 1 else 0)
    ensures v == Upvote ==> |r.upvotes| > 0 && r.upvotes[|r.upvotes| - 1] == u
    ensures v == Downvote ==> |r.downvotes| > 0 && r.downvotes[|r.downvotes| - 1] == u
    ensures Without(r.upvotes, u) == Without(l.upvotes, u)
    ensures Without(r.downvotes, u) == Without(l.downvotes, u)
  {
    var up := Without(l.upvotes, u);
    var down := Without(l.downvotes, u);
    WithoutThenPush(l.upvotes, u);
    WithoutThenPush(l.downvotes, u);
    match v
    case Upvote => Ledger(up + [u], down)
    case Downvote => Ledger(up, down + [u])
    case Remove => Ledger(up, down)
  }

  /** The vote handlers' steps on a document's two lists: filter the user out of both, then
      push the user onto the list the vote names. */
  method CastVote(l: Ledger, u: UserId, v: VoteType) returns (r: Ledger)
    ensures r == ApplyVote(l, u, v)
  {
    var up := Without(l.upvotes, u);
    var down := Without(l.downvotes, u);
    if v == Upvote {
      up := up + [u];
    } else if v == Downvote {
      down := down + [u];
    }
    r := Ledger(up, down);
  }

  /** A vote keeps every user at most once across the two lists. */
  lemma VoteKeepsSingleVotes(l: Ledger, u: UserId, v: VoteType)
    requires l.SingleVotes()
    ensures ApplyVote(l, u, v).SingleVotes()
  {
    var r := ApplyVote(l, u, v);
    forall x ensures multiset(r.upvotes)[x] + multiset(r.downvotes)[x] <= 1 {
      if x != u {
        calc {
          multiset(r.upvotes)[x];
          multiset(Without(r.upvotes, u))[x];
          multiset(Without(l.upvotes, u))[x];
          multiset(l.upvotes)[x];
        }
        calc {
          multiset(r.downvotes)[x];
          multiset(Without(r.downvotes, u))[x];
          multiset(Without(l.downvotes, u))[x];
          multiset(l.downvotes)[x];
        }
        assert multiset(l.upvotes)[x] + multiset(l.downvotes)[x] <= 1;
      }
    }
  }

  /** Only the last of two votes by the same user counts. */
  lemma LastVoteWins(l: Ledger, u: UserId, first: VoteType, second: VoteType)
    ensures ApplyVote(ApplyVote(l, u, first), u, second) == ApplyVote(l, u, second)
  {
    var m := ApplyVote(l, u, first);
    assert Without(m.upvotes, u) == Without(l.upvotes, u);
    assert Without(m.downvotes, u) == Without(l.downvotes, u);
  }

  /** Repeating a vote leaves the lists as the first vote left them: no duplicate accumulates. */
  lemma VoteIdempotent(l: Ledger, u: UserId, v: VoteType)
    ensures ApplyVote(ApplyVote(l, u, v), u, v) == ApplyVote(l, u, v)
  {
    LastVoteWins(l, u, v, v);
  }

  /** The vote handlers' response: both lists and their lengths. */
  datatype Tally = Tally(upvotes: seq<UserId>, downvotes: seq<UserId>, upvoteCount: nat, downvoteCount: nat)

  function TallyOf(l: Ledger): (t: Tally)
    ensures t.upvotes == l.upvotes && t.downvotes == l.downvotes
    ensures t.upvoteCount == |t.upvotes| && t.downvoteCount == |t.downvotes|
  {
    Tally(l.upvotes, l.downvotes, |l.upvotes|, |l.downvotes|)
  }

  /** Upvote then downvote by the same user, starting from no votes. */
  lemma UpvoteThenDownvote(a: UserId)
    ensures ApplyVote(ApplyVote(EmptyLedger, a, Upvote), a, Downvote) == Ledger([], [a])
    ensures TallyOf(Ledger([], [a])) == Tally([], [a], 0, 1)
  {
    LastVoteWins(EmptyLedger, a, Upvote, Downvote);
    assert Without([], a) == [];
  }
}
