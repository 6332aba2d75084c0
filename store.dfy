/** The server's handlers over the two collections. Each handler answers in the order the
    routes check: validation (400), lookup (404), ownership (403), then the write, where a
    document the schema refuses on save is a server error (500) that leaves the store as it
    was. Document ids are drawn from one counter, as object ids never repeat across
    collections. */
module Backend {
  import opened Outcomes
  import opened Text
  import opened Votes
  import opened ProblemModel
  import opened SolutionModel
  import opened ProblemRoutes
  import opened SolutionRoutes

  /** Replacing a solution by one with the same problem and acceptance keeps at most one
      accepted solution per problem. */
  lemma ReplaceKeepsAtMostOne(sols: map<nat, Solution>, id: nat, s: Solution)
    requires id in sols && AtMostOneAccepted(sols)
    requires s.problem == sols[id].problem && s.isAccepted == sols[id].isAccepted
    ensures AtMostOneAccepted(sols[id := s])
  {
    var r := sols[id := s];
    forall a, b | a in r && b in r && r[a].isAccepted && r[b].isAccepted && r[a].problem == r[b].problem
      ensures a == b
    {
      assert sols[a].isAccepted && sols[b].isAccepted && sols[a].problem == sols[b].problem;
    }
  }

  /** Adding a solution that is not accepted keeps at most one accepted per problem. */
  lemma InsertKeepsAtMostOne(sols: map<nat, Solution>, id: nat, s: Solution)
    requires AtMostOneAccepted(sols) && !s.isAccepted
    ensures AtMostOneAccepted(sols[id := s])
  {
    var r := sols[id := s];
    forall a, b | a in r && b in r && r[a].isAccepted && r[b].isAccepted && r[a].problem == r[b].problem
      ensures a == b
    {
      assert a != id && b != id;
      assert sols[a].isAccepted && sols[b].isAccepted && sols[a].problem == sols[b].problem;
    }
  }

  /** The accept handler's two writes, `updateMany` on the other solutions of the problem and
      then the save of the accepted one, have the effect `Accept` describes. */
  lemma AcceptWrites(m: map<nat, Solution>, sid: nat)
    requires sid in m
    ensures
      var pid := m[sid].problem;
      var others := map k | k in m :: if m[k].problem == pid && k != sid then m[k].(isAccepted := false) else m[k];
      others[sid := others[sid].(isAccepted := true)] == Accept(m, sid)
  {
    var pid := m[sid].problem;
    var others := map k | k in m :: if m[k].problem == pid && k != sid then m[k].(isAccepted := false) else m[k];
    var written := others[sid := others[sid].(isAccepted := true)];
    var expected := Accept(m, sid);
    assert written.Keys == expected.Keys;
    forall k | k in written ensures written[k] == expected[k] {
    }
  }

  /** Every stored problem is below the id counter and keeps `ProblemOk`. */
  ghost predicate ProblemsOk(m: map<nat, Problem>, bound: nat) {
    forall id :: id in m ==> id < bound && ProblemOk(m[id])
  }

  /** Every stored solution is below the id counter and keeps `SolutionOk`. */
  ghost predicate SolutionsOk(m: map<nat, Solution>, bound: nat) {
    forall id :: id in m ==> id < bound && SolutionOk(m[id])
  }

  lemma PutProblemOk(m: map<nat, Problem>, bound: nat, id: nat, p: Problem)
    requires ProblemsOk(m, bound) && id < bound && ProblemOk(p)
    ensures ProblemsOk(m[id := p], bound)
  {
  }

  lemma InsertProblemOk(m: map<nat, Problem>, bound: nat, p: Problem)
    requires ProblemsOk(m, bound) && ProblemOk(p)
    ensures bound !in m && ProblemsOk(m[bound := p], bound + 1)
  {
  }

  lemma PutSolutionOk(m: map<nat, Solution>, bound: nat, id: nat, s: Solution)
    requires SolutionsOk(m, bound) && id < bound && SolutionOk(s)
    ensures SolutionsOk(m[id := s], bound)
  {
  }

  lemma InsertSolutionOk(m: map<nat, Solution>, bound: nat, s: Solution)
    requires SolutionsOk(m, bound) && SolutionOk(s)
    ensures bound !in m && SolutionsOk(m[bound := s], bound + 1)
  {
  }

  lemma GrowOk(problems: map<nat, Problem>, solutions: map<nat, Solution>, bound: nat)
    requires ProblemsOk(problems, bound) && SolutionsOk(solutions, bound)
    ensures bound !in problems && bound !in solutions
    ensures ProblemsOk(problems, bound + 1) && SolutionsOk(solutions, bound + 1)
  {
  }

  /** Keeping only some of the solutions keeps their invariants. */
  lemma SubmapSolutionsOk(m: map<nat, Solution>, sub: map<nat, Solution>, bound: nat)
    requires SolutionsOk(m, bound) && AtMostOneAccepted(m)
    requires forall k :: k in sub ==> k in m && sub[k] == m[k]
    ensures SolutionsOk(sub, bound) && AtMostOneAccepted(sub)
  {
    forall a, b | a in sub && b in sub && sub[a].isAccepted && sub[b].isAccepted
      && sub[a].problem == sub[b].problem
      ensures a == b
    {
      assert m[a].isAccepted && m[b].isAccepted;
    }
  }

  class Store {
    var problems: map<nat, Problem>
    var solutions: map<nat, Solution>
    var nextId: nat

    /** Every stored document keeps its schema's rules and the routes' checks, ids are below
        the counter, and a problem has at most one accepted solution. */
    ghost predicate Valid()
      reads this
    {
      && ProblemsOk(problems, nextId)
      && SolutionsOk(solutions, nextId)
      && AtMostOneAccepted(solutions)
    }

    /** Every solution refers to a stored problem. Deleting a problem deletes its solutions,
        so the handlers keep this, but it is not part of `Valid`: the accept handler still
        has a branch for a solution whose problem is gone. */
    ghost predicate Linked()
      reads this
    {
      forall id :: id in solutions ==> solutions[id].problem in problems
    }

    constructor ()
      ensures Valid() && Linked()
      ensures problems == map[] && solutions == map[] && nextId == 0
    {
      problems := map[];
      solutions := map[];
      nextId := 0;
    }

    /** `GET /api/problems/:id`. */
    function GetProblem(id: nat): (r: Response<Problem>)
      reads this
      ensures r.Ok? <==> id in problems
      ensures r.Ok? ==> r.value == problems[id]
      ensures r.Err? ==> r.failure == NotFound
    {
      if id in problems then Ok(problems[id]) else Err(NotFound)
    }

    /** `GET /api/solutions/:id`. */
    function GetSolution(id: nat): (r: Response<Solution>)
      reads this
      ensures r.Ok? <==> id in solutions
      ensures r.Ok? ==> r.value == solutions[id]
      ensures r.Err? ==> r.failure == NotFound
    {
      if id in solutions then Ok(solutions[id]) else Err(NotFound)
    }

    /** Saving a new problem: it is stored under the next id. */
    method InsertProblem(p: Problem) returns (id: nat)
      requires Valid() && ProblemOk(p)
      modifies this
      ensures Valid()
      ensures old(Linked()) ==> Linked()
      ensures id == old(nextId) && id !in old(problems) && id !in old(solutions)
      ensures problems == old(problems)[id := p] && nextId == old(nextId) + 1
      ensures solutions == old(solutions)
    {
      InsertProblemOk(problems, nextId, p);
      GrowOk(problems, solutions, nextId);
      id := nextId;
      problems := problems[id := p];
      nextId := nextId + 1;
    }

    /** Saving a changed problem over the stored one. */
    method PutProblem(id: nat, p: Problem)
      requires Valid() && id in problems && ProblemOk(p)
      modifies this
      ensures Valid()
      ensures old(Linked()) ==> Linked()
      ensures problems == old(problems)[id := p]
      ensures solutions == old(solutions) && nextId == old(nextId)
    {
      PutProblemOk(problems, nextId, id, p);
      problems := problems[id := p];
    }

    /** Saving a new solution, not yet accepted: it is stored under the next id. */
    method InsertSolution(s: Solution) returns (id: nat)
      requires Valid() && SolutionOk(s) && !s.isAccepted
      modifies this
      ensures Valid()
      ensures old(Linked()) && s.problem in problems ==> Linked()
      ensures id == old(nextId) && id !in old(problems) && id !in old(solutions)
      ensures solutions == old(solutions)[id := s] && nextId == old(nextId) + 1
      ensures problems == old(problems)
    {
      InsertSolutionOk(solutions, nextId, s);
      GrowOk(problems, solutions, nextId);
      InsertKeepsAtMostOne(solutions, nextId, s);
      id := nextId;
      solutions := solutions[id := s];
      nextId := nextId + 1;
    }

    /** Saving a changed solution over the stored one; its problem and acceptance stay. */
    method PutSolution(id: nat, s: Solution)
      requires Valid() && id in solutions && SolutionOk(s)
      requires s.problem == solutions[id].problem && s.isAccepted == solutions[id].isAccepted
      modifies this
      ensures Valid()
      ensures old(Linked()) ==> Linked()
      ensures solutions == old(solutions)[id := s]
      ensures problems == old(problems) && nextId == old(nextId)
    {
      PutSolutionOk(solutions, nextId, id, s);
      ReplaceKeepsAtMostOne(solutions, id, s);
      solutions := solutions[id := s];
    }

    /** `Solution.deleteMany({ problem: pid })`. */
    method DeleteSolutionsOf(pid: nat)
      requires Valid()
      modifies this
      ensures Valid()
      ensures old(Linked()) ==> Linked()
      ensures solutions == map k | k in old(solutions) && old(solutions)[k].problem != pid :: old(solutions)[k]
      ensures forall k :: k in solutions ==> solutions[k].problem != pid
      ensures problems == old(problems) && nextId == old(nextId)
    {
      var kept := map k | k in solutions && solutions[k].problem != pid :: solutions[k];
      SubmapSolutionsOk(solutions, kept, nextId);
      solutions := kept;
    }

    /** Removing one problem document. */
    method RemoveProblem(id: nat)
      requires Valid()
      modifies this
      ensures Valid()
      ensures old(Linked()) && (forall k :: k in old(solutions) ==> old(solutions)[k].problem != id) ==> Linked()
      ensures problems == old(problems) - {id}
      ensures solutions == old(solutions) && nextId == old(nextId)
    {
      problems := problems - {id};
    }

    /** Removing one solution document. */
    method RemoveSolution(id: nat)
      requires Valid()
      modifies this
      ensures Valid()
      ensures old(Linked()) ==> Linked()
      ensures solutions == old(solutions) - {id}
      ensures problems == old(problems) && nextId == old(nextId)
    {
      var kept := solutions - {id};
      SubmapSolutionsOk(solutions, kept, nextId);
      solutions := kept;
    }

    /** `Solution.updateMany({ problem: pid, _id: { $ne: sid } }, { isAccepted: false })`. */
    method UnacceptOthers(pid: nat, sid: nat)
      requires Valid()
      modifies this
      ensures Valid()
      ensures old(Linked()) ==> Linked()
      ensures solutions == map k | k in old(solutions) ::
        if old(solutions)[k].problem == pid && k != sid then old(solutions)[k].(isAccepted := false)
        else old(solutions)[k]
      ensures problems == old(problems) && nextId == old(nextId)
    {
      var updated := map k | k in solutions ::
        if solutions[k].problem == pid && k != sid then solutions[k].(isAccepted := false) else solutions[k];
      forall k | k in updated ensures k < nextId && SolutionOk(updated[k]) {
        WithAcceptedOk(solutions[k], false);
      }
      forall a, b | a in updated && b in updated && updated[a].isAccepted && updated[b].isAccepted
        && updated[a].problem == updated[b].problem
        ensures a == b
      {
        assert solutions[a].isAccepted && solutions[b].isAccepted;
      }
      solutions := updated;
    }

    /** Saving a solution as accepted once no other solution of its problem is. */
    method MarkAccepted(id: nat)
      requires Valid() && id in solutions
      requires forall k ::
        (k in solutions && k != id && solutions[k].problem == solutions[id].problem) ==> !solutions[k].isAccepted
      modifies this
      ensures Valid()
      ensures old(Linked()) ==> Linked()
      ensures solutions == old(solutions)[id := old(solutions)[id].(isAccepted := true)]
      ensures problems == old(problems) && nextId == old(nextId)
    {
      var s := solutions[id].(isAccepted := true);
      WithAcceptedOk(solutions[id], true);
      PutSolutionOk(solutions, nextId, id, s);
      var updated := solutions[id := s];
      forall a, b | a in updated && b in updated && updated[a].isAccepted && updated[b].isAccepted
        && updated[a].problem == updated[b].problem
        ensures a == b
      {
        if a != id && b != id {
          assert solutions[a].isAccepted && solutions[b].isAccepted;
        }
      }
      solutions := updated;
    }

    /** `POST /api/problems`: the answer is the create decision, and only an accepted problem
        is stored, under a fresh id. */
    method CreateProblem(q: CreateRequest, user: UserId) returns (r: Response<Problem>)
      requires Valid()
      modifies this
      ensures Valid()
      ensures old(Linked()) ==> Linked()
      ensures r == NewProblem(q, user)
      ensures r.Ok? ==> problems == old(problems)[old(nextId) := r.value] && nextId == old(nextId) + 1
      ensures r.Ok? ==> old(nextId) !in old(problems) && old(nextId) !in old(solutions)
      ensures r.Err? ==> problems == old(problems) && nextId == old(nextId)
      ensures solutions == old(solutions)
    {
      r := NewProblem(q, user);
      if r.Ok? {
        NewProblemOk(q, user);
        var _ := InsertProblem(r.value);
      }
    }

    /** `PUT /api/problems/:id`: 400 on a failed validator, 404 on an unknown id, 403 unless the
        user is the author, 500 when the schema refuses the priority; otherwise only that
        problem changes, as `UpdatedProblem` says. */
    method UpdateProblem(id: nat, q: UpdateRequest, user: UserId) returns (r: Response<Problem>)
      requires Valid()
      modifies this
      ensures Valid()
      ensures old(Linked()) ==> Linked()
      ensures UpdateErrors(SanitizeUpdate(q)) != [] ==> r == Err(BadRequest(UpdateErrors(SanitizeUpdate(q))))
      ensures UpdateErrors(SanitizeUpdate(q)) == [] && id !in old(problems) ==> r == Err(NotFound)
      ensures (UpdateErrors(SanitizeUpdate(q)) == [] && id in old(problems) && old(problems)[id].author != user)
        ==> r == Err(Forbidden)
      ensures (UpdateErrors(SanitizeUpdate(q)) == [] && id in old(problems) && old(problems)[id].author == user)
        ==> (r.Err? <==> PriorityRefused(q.priority)) && (r.Err? ==> r.failure == ServerError)
      ensures r.Ok? ==>
        id in old(problems) && r == UpdatedProblem(old(problems)[id], q) && problems == old(problems)[id := r.value]
      ensures r.Err? ==> problems == old(problems)
      ensures solutions == old(solutions) && nextId == old(nextId)
    {
      var errs := UpdateErrors(SanitizeUpdate(q));
      if errs != [] {
        return Err(BadRequest(errs));
      }
      if id !in problems {
        return Err(NotFound);
      }
      if problems[id].author != user {
        return Err(Forbidden);
      }
      r := UpdatedProblem(problems[id], q);
      if r.Ok? {
        UpdatedProblemOk(problems[id], q);
        PutProblem(id, r.value);
      }
    }

    /** `DELETE /api/problems/:id`: 404 on an unknown id, 403 unless the user is the author;
        otherwise the problem and every solution of it are removed, and nothing else. */
    method DeleteProblem(id: nat, user: UserId) returns (r: Response<()>)
      requires Valid()
      modifies this
      ensures Valid()
      ensures old(Linked()) ==> Linked()
      ensures id !in old(problems) ==> r == Err(NotFound)
      ensures id in old(problems) && old(problems)[id].author != user ==> r == Err(Forbidden)
      ensures r.Ok? <==> id in old(problems) && old(problems)[id].author == user
      ensures r.Ok? ==> problems == old(problems) - {id}
      ensures r.Ok? ==>
        solutions == map k | k in old(solutions) && old(solutions)[k].problem != id :: old(solutions)[k]
      ensures r.Err? ==> problems == old(problems) && solutions == old(solutions)
      ensures nextId == old(nextId)
    {
      if id !in problems {
        return Err(NotFound);
      }
      if problems[id].author != user {
        return Err(Forbidden);
      }
      DeleteSolutionsOf(id);
      RemoveProblem(id);
      r := Ok(());
    }

    /** `POST /api/problems/:id/vote`: 400 on an unknown vote type, 404 on an unknown id;
        otherwise the user's earlier votes are filtered out, the new one is pushed, and the
        answer is the new tally. Only that problem's votes change. */
    method VoteProblem(id: nat, voteType: string, user: UserId) returns (r: Response<Tally>)
      requires Valid()
      modifies this
      ensures Valid()
      ensures old(Linked()) ==> Linked()
      ensures ParseVoteType(voteType).None? ==> r == Err(BadRequest([VoteTypeField]))
      ensures ParseVoteType(voteType).Some? && id !in old(problems) ==> r == Err(NotFound)
      ensures r.Ok? <==> ParseVoteType(voteType).Some? && id in old(problems)
      ensures r.Ok? ==>
        var v := ParseVoteType(voteType).value;
        var p := old(problems)[id];
        && problems == old(problems)[id := p.(votes := ApplyVote(p.votes, user, v))]
        && r.value == TallyOf(ApplyVote(p.votes, user, v))
      ensures r.Err? ==> problems == old(problems)
      ensures solutions == old(solutions) && nextId == old(nextId)
    {
      var parsed := ParseVoteType(voteType);
      if parsed.None? {
        return Err(BadRequest([VoteTypeField]));
      }
      if id !in problems {
        return Err(NotFound);
      }
      var p := problems[id];
      var votes := CastVote(p.votes, user, parsed.value);
      VoteKeepsSingleVotes(p.votes, user, parsed.value);
      ProblemModel.WithVotesOk(p, votes);
      PutProblem(id, p.(votes := votes));
      r := Ok(TallyOf(votes));
    }

    /** `POST /api/solutions`: 400 on a failed validator, 404 when the problem is not stored,
        500 when the schema refuses the document; otherwise the new solution is stored under
        a fresh id. */
    method CreateSolution(q: SolutionRequest, user: UserId) returns (r: Response<Solution>)
      requires Valid()
      modifies this
      ensures Valid()
      ensures old(Linked()) ==> Linked()
      ensures SolutionCreateErrors(SanitizeSolution(q)) != [] ==>
        r == Err(BadRequest(SolutionCreateErrors(SanitizeSolution(q))))
      ensures SolutionCreateErrors(SanitizeSolution(q)) == [] && q.problem.value !in old(problems) ==>
        r == Err(NotFound)
      ensures SolutionCreateErrors(SanitizeSolution(q)) == [] && q.problem.value in old(problems) ==>
        r == NewSolution(q, user)
      ensures r.Ok? ==> solutions == old(solutions)[old(nextId) := r.value] && nextId == old(nextId) + 1
      ensures r.Ok? ==> old(nextId) !in old(problems) && old(nextId) !in old(solutions)
      ensures r.Err? ==> solutions == old(solutions) && nextId == old(nextId)
      ensures problems == old(problems)
    {
      var errs := SolutionCreateErrors(SanitizeSolution(q));
      if errs != [] {
        return Err(BadRequest(errs));
      }
      if q.problem.value !in problems {
        return Err(NotFound);
      }
      r := NewSolution(q, user);
      if r.Ok? {
        NewSolutionOk(q, user);
        var _ := InsertSolution(r.value);
      }
    }

    /** `PUT /api/solutions/:id`: 400 on a failed validator, 404 on an unknown id, 403 unless
        the user is the author, 500 when the update validators refuse the cost or a resource
        type; otherwise only that solution changes, as `UpdatedSolution` says. */
    method UpdateSolution(id: nat, q: SolutionUpdateRequest, user: UserId) returns (r: Response<Solution>)
      requires Valid()
      modifies this
      ensures Valid()
      ensures old(Linked()) ==> Linked()
      ensures SolutionUpdateErrors(SanitizeSolutionUpdate(q)) != [] ==>
        r == Err(BadRequest(SolutionUpdateErrors(SanitizeSolutionUpdate(q))))
      ensures SolutionUpdateErrors(SanitizeSolutionUpdate(q)) == [] && id !in old(solutions) ==> r == Err(NotFound)
      ensures (SolutionUpdateErrors(SanitizeSolutionUpdate(q)) == [] && id in old(solutions)
               && old(solutions)[id].author != user) ==> r == Err(Forbidden)
      ensures (SolutionUpdateErrors(SanitizeSolutionUpdate(q)) == [] && id in old(solutions)
               && old(solutions)[id].author == user) ==> r == UpdatedSolution(old(solutions)[id], q)
      ensures r.Ok? ==> id in old(solutions) && solutions == old(solutions)[id := r.value]
      ensures r.Err? ==> solutions == old(solutions)
      ensures problems == old(problems) && nextId == old(nextId)
    {
      var errs := SolutionUpdateErrors(SanitizeSolutionUpdate(q));
      if errs != [] {
        return Err(BadRequest(errs));
      }
      if id !in solutions {
        return Err(NotFound);
      }
      if solutions[id].author != user {
        return Err(Forbidden);
      }
      r := UpdatedSolution(solutions[id], q);
      if r.Ok? {
        UpdatedSolutionOk(solutions[id], q);
        PutSolution(id, r.value);
      }
    }

    /** `DELETE /api/solutions/:id`: 404 on an unknown id, 403 unless the user is the author;
        otherwise only that solution is removed. */
    method DeleteSolution(id: nat, user: UserId) returns (r: Response<()>)
      requires Valid()
      modifies this
      ensures Valid()
      ensures old(Linked()) ==> Linked()
      ensures id !in old(solutions) ==> r == Err(NotFound)
      ensures id in old(solutions) && old(solutions)[id].author != user ==> r == Err(Forbidden)
      ensures r.Ok? <==> id in old(solutions) && old(solutions)[id].author == user
      ensures r.Ok? ==> solutions == old(solutions) - {id}
      ensures r.Err? ==> solutions == old(solutions)
      ensures problems == old(problems) && nextId == old(nextId)
    {
      if id !in solutions {
        return Err(NotFound);
      }
      if solutions[id].author != user {
        return Err(Forbidden);
      }
      RemoveSolution(id);
      r := Ok(());
    }

    /** `POST /api/solutions/:id/vote`: as for problems, on the solution's votes. */
    method VoteSolution(id: nat, voteType: string, user: UserId) returns (r: Response<Tally>)
      requires Valid()
      modifies this
      ensures Valid()
      ensures old(Linked()) ==> Linked()
      ensures ParseVoteType(voteType).None? ==> r == Err(BadRequest([VoteTypeField]))
      ensures ParseVoteType(voteType).Some? && id !in old(solutions) ==> r == Err(NotFound)
      ensures r.Ok? <==> ParseVoteType(voteType).Some? && id in old(solutions)
      ensures r.Ok? ==>
        var v := ParseVoteType(voteType).value;
        var s := old(solutions)[id];
        && solutions == old(solutions)[id := s.(votes := ApplyVote(s.votes, user, v))]
        && r.value == TallyOf(ApplyVote(s.votes, user, v))
      ensures r.Err? ==> solutions == old(solutions)
      ensures problems == old(problems) && nextId == old(nextId)
    {
      var parsed := ParseVoteType(voteType);
      if parsed.None? {
        return Err(BadRequest([VoteTypeField]));
      }
      if id !in solutions {
        return Err(NotFound);
      }
      var s := solutions[id];
      var votes := CastVote(s.votes, user, parsed.value);
      VoteKeepsSingleVotes(s.votes, user, parsed.value);
      SolutionModel.WithVotesOk(s, votes);
      PutSolution(id, s.(votes := votes));
      r := Ok(TallyOf(votes));
    }

    /** `POST /api/solutions/:id/comments`: 400 when the trimmed text is empty, 404 on an
        unknown id; otherwise the comment is appended (by any signed-in user) and is the
        answer. */
    method AddComment(id: nat, text: string, user: UserId) returns (r: Response<Comment>)
      requires Valid()
      modifies this
      ensures Valid()
      ensures old(Linked()) ==> Linked()
      ensures CommentErrors(text) != [] ==> r == Err(BadRequest(CommentErrors(text)))
      ensures CommentErrors(text) == [] && id !in old(solutions) ==> r == Err(NotFound)
      ensures r.Ok? <==> CommentErrors(text) == [] && id in old(solutions)
      ensures r.Ok? ==>
        && solutions == old(solutions)[id := WithComment(old(solutions)[id], text, user)]
        && r.value == Comment(Trim(text), user)
      ensures r.Err? ==> solutions == old(solutions)
      ensures problems == old(problems) && nextId == old(nextId)
    {
      var errs := CommentErrors(text);
      if errs != [] {
        return Err(BadRequest(errs));
      }
      if id !in solutions {
        return Err(NotFound);
      }
      var s := WithComment(solutions[id], text, user);
      WithCommentOk(solutions[id], text, user);
      PutSolution(id, s);
      r := Ok(s.comments[|s.comments| - 1]);
    }

    /** `PUT /api/solutions/:id/accept`: 404 on an unknown id; a solution whose problem is gone
        fails on reading the problem's author (500); 403 unless the user wrote the problem;
        otherwise every other solution of the problem is marked not accepted and then this one
        accepted, which is `Accept`. */
    method AcceptSolution(id: nat, user: UserId) returns (r: Response<Solution>)
      requires Valid()
      modifies this
      ensures Valid()
      ensures old(Linked()) ==> Linked()
      ensures id !in old(solutions) ==> r == Err(NotFound)
      ensures id in old(solutions) && old(solutions)[id].problem !in old(problems) ==> r == Err(ServerError)
      ensures (id in old(solutions) && old(solutions)[id].problem in old(problems)
               && old(problems)[old(solutions)[id].problem].author != user) ==> r == Err(Forbidden)
      ensures r.Ok? <==>
        (id in old(solutions) && old(solutions)[id].problem in old(problems)
         && old(problems)[old(solutions)[id].problem].author == user)
      ensures r.Ok? ==> solutions == Accept(old(solutions), id) && r.value == solutions[id]
      ensures r.Err? ==> solutions == old(solutions)
      ensures problems == old(problems) && nextId == old(nextId)
    {
      if id !in solutions {
        return Err(NotFound);
      }
      var parent := solutions[id].problem;
      if parent !in problems {
        return Err(ServerError);
      }
      if problems[parent].author != user {
        return Err(Forbidden);
      }
      ghost var before := solutions;
      UnacceptOthers(parent, id);
      MarkAccepted(id);
      AcceptWrites(before, id);
      r := Ok(solutions[id]);
    }
  }
}
