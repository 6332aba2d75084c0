# Yuvamanthan problem board, modelled in Dafny

Yuvamanthan is a community board. Signed-in users post local problems with photos and a map position, propose solutions to them, vote on both, comment on solutions, and the author of a problem accepts one solution. This project models the rules the server applies to those documents, and the pure steps of the four client pages that drive them.

- **Server side.**
  - `Backend.Store` is an in-memory store: maps from ids to `Problem` and `Solution` records, with user ids compared by equality.
  - Its methods are the route handlers. Each checks the request in the source's order: validators (400), existence (404), authorship (403), then the schema's own checks on save (500). Only then does it change state.
  - The checks and the new documents are functions in `ProblemRoutes` and `SolutionRoutes`. Vote lists are in `Votes`, pagination in `Listing`, and the schemas, enums and derived counts in `ProblemModel` and `SolutionModel`. `Text` holds JavaScript `trim` and `includes`.
- **Client side.**
  - `AuthContext` is the authentication reducer.
  - `CreateProblemPage`, `DashboardPage` and `ProblemDetailPage` are the page logic: tag parsing, image lists, submit guards, search, vote merges, stat cards, badge colours.
  - `ClientViews` holds the documents as the pages see them.

Invariants kept by every store method:
- `Valid`:
  - every stored problem and solution satisfies its schema (`ProblemOk`, `SolutionOk`);
  - every user is at most once across a document's two vote lists;
  - at most one solution per problem is accepted;
  - ids are below the next fresh id.
- `Linked`: every solution's problem is stored. Every method preserves it when it held before.

Two behaviours of the code that a reader might not expect, and that the model keeps:
- repeating a vote never duplicates the voter, because the lists are filtered before the push;
- any signed-in user may comment, not only a solution's author.

## Model

| member | source | states |
|---|---|---|
| Votes.ParseVoteType | routes/problems.js:188 | the vote type is one of exactly three literals, each mapped to its own vote |
| Votes.Without | routes/problems.js:206-207 | filtering a user out removes all of that user's entries and keeps every other entry |
| Votes.WithoutAppend | routes/problems.js:206-207 | filtering distributes over concatenation, so the other voters keep their order |
| Votes.ApplyVote | routes/problems.js:205-214 | afterwards the user is exactly once in the chosen list (last) and in neither list after `remove`; everyone else's entries are unchanged |
| Votes.CastVote | routes/solutions.js:214-223 | the step-by-step filter of both lists and the push give `ApplyVote` |
| Votes.VoteKeepsSingleVotes | routes/problems.js:205-214 | a vote keeps each user in at most one list, at most once |
| Votes.LastVoteWins | routes/problems.js:205-214 | two votes by one user leave the lists as the second vote alone would |
| Votes.VoteIdempotent | routes/problems.js:205-214 | the same vote twice equals the vote once |
| Votes.UpvoteThenDownvote | routes/problems.js:205-225 | an upvote then a downvote by one user ends with only the downvote, counted 0 and 1 |
| Votes.TallyOf | routes/problems.js:220-225 | the vote response carries both lists and counts equal to their lengths |
| Text.Trim | routes/problems.js:66-68 | the result is trimmed and no longer; it is empty exactly when the input is all white space; it adds no character; a trimmed input is kept |
| Text.TrimStrips | routes/problems.js:66-68 | the result is a slice of the input with only white space before and after it, so together with `Trim`'s own contract it is exactly the input without its white-space ends |
| Text.TrimIdempotent | models/Problem.js:7 | trimming twice is trimming once |
| Text.ValidatorLength | routes/problems.js:66-67 | the length `isLength` checks: no more than the string's length, equal to it exactly when there is no variation selector U+FE0E/U+FE0F, and 0 exactly when there is nothing else |
| Text.IncludesEmpty | client/src/pages/Dashboard.tsx:101-105 | every string includes the empty string |
| ProblemModel.CategoryName | models/Problem.js:31-35 | each category's name is one of the seven names and parses back to it |
| ProblemModel.ParseCategory | models/Problem.js:34 | a string parses exactly when it is one of the seven names |
| ProblemModel.CategoryParseName | routes/problems.js:71 | a name that parses is the name of what it parses to |
| ProblemModel.PriorityName | models/Problem.js:36-40 | each priority's name is one of the four and parses back to it |
| ProblemModel.ParsePriority | models/Problem.js:38 | a string parses exactly when it is one of the four priorities |
| ProblemModel.StatusName | models/Problem.js:41-45 | each status's name is one of the four and parses back to it |
| ProblemModel.ParseStatus | models/Problem.js:43 | a string parses exactly when it is one of the four statuses |
| ProblemModel.WithVotesOk | models/Problem.js:51-58 | a problem keeps its schema constraints when its votes are replaced by single votes |
| SolutionModel.DifficultyName | models/Solution.js:27-31 | each difficulty's name is one of the three and parses back to it |
| SolutionModel.ParseDifficulty | models/Solution.js:29 | a string parses exactly when it is one of the three difficulties |
| SolutionModel.EstimatedTimeName | models/Solution.js:23-26 | each time's name is one of the four and parses back to it |
| SolutionModel.ParseEstimatedTime | models/Solution.js:25 | a string parses exactly when it is one of the four times |
| SolutionModel.ResourceTypeName | models/Solution.js:14-17 | each resource type's name is one of the four and parses back to it |
| SolutionModel.ParseResourceType | models/Solution.js:16 | a string parses exactly when it is one of the four resource types |
| SolutionModel.ResourceTypeParseName | models/Solution.js:16 | a type name that parses is the name of what it parses to |
| SolutionModel.WithVotesOk | models/Solution.js:42-49 | a solution keeps its schema constraints when its votes are replaced by single votes |
| SolutionModel.WithAcceptedOk | models/Solution.js:65-68 | the accepted flag does not affect the schema constraints |
| Listing.Filter | routes/problems.js:16-20 | the matching documents are exactly the documents the query accepts |
| Listing.FilterAppend | routes/solutions.js:16-19 | filtering distributes over concatenation, so order is kept |
| Listing.FilterCounts | routes/problems.js:20-28 | every accepted document is kept as many times as it occurs, and no other document is kept |
| Listing.FilterAll | routes/problems.js:16-18 | with no filter given, every document matches |
| Listing.FilterNone | routes/problems.js:239 | a query no document meets matches nothing |
| Listing.FilterSubsequence | client/src/pages/Dashboard.tsx:101-105 | a filter keeps an order-preserving subsequence |
| Listing.FilterDisjoint | client/src/pages/Dashboard.tsx:186-196 | two filters that never both accept keep no more than the whole |
| Listing.CeilDiv | routes/problems.js:31 | `totalPages` is the fewest pages of `limit` items holding `total`, and 0 only for no items |
| Listing.OffsetIsProduct | routes/problems.js:24 | the number of documents skipped before a page, counted page by page, is `(page - 1) * limit` |
| Listing.PageOf | routes/problems.js:23-24 | a page has at most `limit` items, is empty once the skipped pages reach the end, and otherwise is the slice that starts after the first `page - 1` pages |
| Listing.List | routes/problems.js:20-34 | the response's total, page and items; `totalPages` is ceil(total/limit); items are non-empty exactly for pages up to `totalPages` |
| Listing.FirstPagesPrefix | routes/problems.js:23-24 | the first n pages together are the first n*limit documents, or all of them when there are fewer |
| Listing.AllPagesCoverAll | routes/problems.js:23-31 | the pages up to `totalPages` together are every matching document, in order |
| ProblemRoutes.TrimEach | models/Problem.js:59-62 | each tag is trimmed, in place |
| ProblemRoutes.CreateFailures | routes/problems.js:65-72 | a field is reported exactly when it is among those checked and its validator fails |
| ProblemRoutes.CreateErrors | routes/problems.js:65-78 | the 400 lists exactly the failing fields; there are none exactly when every create validator passes |
| ProblemRoutes.NewProblem | routes/problems.js:74-106 | a 400 when a validator fails; then a 500 exactly when the priority is outside the enum or an image is empty; the problem is accepted exactly when neither happens, with trimmed texts, category, priority (default Medium), status Open, trimmed tags (default []), no votes, the user as author |
| ProblemRoutes.NewProblemOk | models/Problem.js:3-62 | every problem create stores satisfies the schema |
| ProblemRoutes.UpdateFailures | routes/problems.js:116-119 | a field is reported exactly when it is among those checked and its validator fails |
| ProblemRoutes.UpdateErrors | routes/problems.js:116-125 | the 400 lists exactly the failing update fields; none exactly when all pass |
| ProblemRoutes.UpdatedProblem | routes/problems.js:137-148 | only title, description, status, priority and tags change; the text and enum fields change only when supplied non-empty, the tags whenever supplied, so `[]` clears them; a 500 exactly when the priority is outside the enum |
| ProblemRoutes.UpdatedProblemOk | routes/problems.js:144-148 | an update with validators run keeps the schema constraints |
| ProblemRoutes.BuildProblemQuery | routes/problems.js:16-18 | category and status filter only when given, with the given value |
| ProblemRoutes.MatchingProblems | routes/problems.js:15-26 | exactly the documents the query accepts, each as many times as it occurs, as an order-preserving subsequence; every document when no filter is given |
| ProblemRoutes.ListProblems | routes/problems.js:12-34 | the items are page `page` of the matching problems and the total is their number; at most `limit` items, each matching the given filters; items exactly for pages up to `totalPages` = ceil(total/limit) |
| SolutionRoutes.StoredResources | models/Solution.js:11-18 | resources are stored with their names, URLs and types |
| SolutionRoutes.SolutionCreateFailures | routes/solutions.js:70-75 | a field is reported exactly when it is among those checked and its validator fails |
| SolutionRoutes.SolutionCreateErrors | routes/solutions.js:70-81 | the 400 lists exactly the failing fields; none exactly when all create validators pass |
| SolutionRoutes.NewSolution | routes/solutions.js:99-110 | a 500 exactly when the cost is negative or a resource type is outside the enum; otherwise the trimmed description, images (default []), resources as sent, with their types parsed (default []), cost (default 0), time (default Days), difficulty (default Medium), the problem, the user as author, no votes, no comments, not accepted |
| SolutionRoutes.NewSolutionOk | models/Solution.js:3-71 | every solution create stores satisfies the schema |
| SolutionRoutes.SolutionUpdateFailures | routes/solutions.js:124-128 | a field is reported exactly when it is among those checked and its validator fails |
| SolutionRoutes.SolutionUpdateErrors | routes/solutions.js:124-134 | the 400 lists exactly the failing update fields; none exactly when all pass |
| SolutionRoutes.UpdatedSolution | routes/solutions.js:146-158 | author, problem, votes, comments and acceptance are kept; cost changes whenever supplied, including 0; images and resources whenever supplied, so `[]` clears them; the text and enum fields only when supplied non-empty; a 500 exactly when the cost is negative or a resource type is refused |
| SolutionRoutes.UpdatedSolutionOk | routes/solutions.js:154-158 | an update with validators run keeps the schema constraints |
| SolutionRoutes.CommentErrors | routes/solutions.js:245-251 | a comment is refused, on its text field, exactly when its trimmed text has no character `isLength` counts; in particular a blank text is refused |
| SolutionRoutes.WithComment | routes/solutions.js:260-265 | exactly one comment (trimmed text, the user) is appended at the end, earlier comments are kept, nothing else changes, and the count goes up by one |
| SolutionRoutes.WithCommentOk | models/Solution.js:50-59 | every comment keeps a non-empty text and an author |
| SolutionRoutes.Accept | routes/solutions.js:294-302 | the target is accepted, its problem's other solutions are not, other problems' solutions are untouched, and only the accepted flag changes |
| SolutionRoutes.AcceptKeepsAtMostOne | routes/solutions.js:294-302 | after accepting, at most one solution per problem is accepted |
| SolutionRoutes.AcceptIdempotent | routes/solutions.js:294-302 | accepting the same solution twice is accepting it once |
| SolutionRoutes.AcceptLastWins | routes/solutions.js:294-302 | accepting A then B of one problem leaves only B accepted, as accepting B alone |
| SolutionRoutes.MatchingSolutions | routes/solutions.js:16-30 | exactly the solutions of the given problem, or all when none is given, each as many times as it occurs, as an order-preserving subsequence; none when no solution matches |
| SolutionRoutes.ListSolutions | routes/solutions.js:12-37 | the items are page `page` of the matching solutions and the total is their number; at most `limit` items; items exactly for pages up to `totalPages` |
| SolutionRoutes.ProblemSolutions | routes/problems.js:235-256 | the problem's solutions are the solution listing filtered by that problem; empty for a problem without solutions |
| Backend.AcceptWrites | routes/solutions.js:295-302 | the `updateMany` write followed by setting the target accepted is exactly `Accept` |
| Backend.ReplaceKeepsAtMostOne | routes/solutions.js:301-302 | saving a solution with its problem and acceptance unchanged keeps at most one accepted per problem |
| Backend.Store.GetProblem | routes/problems.js:44-55 | 404 exactly for an unknown id, otherwise the stored problem |
| Backend.Store.GetSolution | routes/solutions.js:47-60 | 404 exactly for an unknown id, otherwise the stored solution |
| Backend.Store.CreateProblem | routes/problems.js:65-106 | the answer is `NewProblem`; only an accepted problem is stored, under a fresh id; nothing else changes |
| Backend.Store.UpdateProblem | routes/problems.js:116-148 | 400, then 404, then 403 for a non-author, each with no change; otherwise the problem becomes `UpdatedProblem` and nothing else changes |
| Backend.Store.DeleteProblem | routes/problems.js:160-177 | 404, 403 for a non-author, each with no change; otherwise the problem and exactly the solutions of it are removed |
| Backend.Store.VoteProblem | routes/problems.js:187-225 | 400 for an unknown vote type, then 404, each with no change; otherwise only that problem's votes become `ApplyVote`, and the answer is their tally |
| Backend.Store.CreateSolution | routes/solutions.js:70-114 | 400, then 404 when the problem is not stored, each with no change; otherwise the answer is `NewSolution`, stored under a fresh id when accepted |
| Backend.Store.UpdateSolution | routes/solutions.js:124-162 | 400, 404, 403 for a non-author, each with no change; otherwise the answer is `UpdatedSolution` and only that solution changes |
| Backend.Store.DeleteSolution | routes/solutions.js:172-186 | 404, 403 for a non-author, each with no change; otherwise only that solution is removed |
| Backend.Store.VoteSolution | routes/solutions.js:196-234 | as for problems, on the solution's votes |
| Backend.Store.AddComment | routes/solutions.js:244-270 | 400 for a blank text, then 404, each with no change; otherwise the comment is appended and the answer is the last comment |
| Backend.Store.AcceptSolution | routes/solutions.js:280-304 | 404, a 500 when the problem is gone, 403 unless the user wrote the problem, each with no change; otherwise the solutions become `Accept` of the old ones |
| AuthContext.InitialState | client/src/contexts/AuthContext.tsx:35-40 | no user, not authenticated, loading, and the stored token |
| AuthContext.Reduce | client/src/contexts/AuthContext.tsx:51-87 | AUTH_START sets only loading; AUTH_SUCCESS sets user, token, authenticated, not loading; AUTH_FAILURE and LOGOUT clear user and token, not authenticated, not loading; UPDATE_USER sets only the user; anything else keeps the state |
| AuthContext.FailureIsLogout | client/src/contexts/AuthContext.tsx:63-78 | AUTH_FAILURE and LOGOUT give the same state |
| AuthContext.LogoutIdempotent | client/src/contexts/AuthContext.tsx:71-78 | logging out twice is logging out once |
| AuthContext.ReduceKeepsConsistent | client/src/contexts/AuthContext.tsx:51-87 | an authenticated state always has a user and a token, and every action keeps that |
| AuthContext.RunKeepsConsistent | client/src/contexts/AuthContext.tsx:51-87 | any sequence of actions keeps a consistent state consistent |
| AuthContext.ReachableConsistent | client/src/contexts/AuthContext.tsx:35-87 | every state reachable from the initial state is consistent |
| AuthContext.SignedOutStaysOut | client/src/contexts/AuthContext.tsx:51-87 | a signed-out state becomes authenticated only through AUTH_SUCCESS |
| CreateProblemPage.Split | client/src/pages/CreateProblem.tsx:122 | `split(',')` gives at least one piece and no piece holds a comma |
| CreateProblemPage.JoinSplit | client/src/pages/CreateProblem.tsx:122 | joining the pieces with commas gives the string back |
| CreateProblemPage.SplitJoin | client/src/pages/CreateProblem.tsx:122 | comma-free pieces joined by commas split back into the same pieces |
| CreateProblemPage.SplitAppend | client/src/pages/CreateProblem.tsx:122 | a comma after a comma-free prefix splits off exactly that prefix |
| CreateProblemPage.DropEmpty | client/src/pages/CreateProblem.tsx:122 | `filter(tag => tag)` keeps exactly the non-empty strings |
| CreateProblemPage.DropEmptyAppend | client/src/pages/CreateProblem.tsx:122 | dropping empties distributes over concatenation, so order is kept |
| CreateProblemPage.TrimEachAppend | client/src/pages/CreateProblem.tsx:122 | trimming each piece distributes over concatenation |
| CreateProblemPage.ParseTags | client/src/pages/CreateProblem.tsx:122 | every tag is non-empty, trimmed and comma-free |
| CreateProblemPage.ParseTagsAppend | client/src/pages/CreateProblem.tsx:122 | the tags of `a,b` are the tags of `a` then those of `b`, so tags keep the order of their pieces |
| CreateProblemPage.ParseTagsOne | client/src/pages/CreateProblem.tsx:122 | a comma-free string gives its trimmed self as the one tag, or no tag when blank |
| CreateProblemPage.ParseTagsJoin | client/src/pages/CreateProblem.tsx:122 | a list of proper tags joined by commas parses back to itself |
| CreateProblemPage.RemoveImage | client/src/pages/CreateProblem.tsx:101-103 | drops exactly index i, keeping the others in order; an out-of-range index keeps the list |
| CreateProblemPage.KeepOthersDrops | client/src/pages/CreateProblem.tsx:102 | the indexed filter drops exactly the element at the index when it is in range |
| CreateProblemPage.KeepOthersKeeps | client/src/pages/CreateProblem.tsx:102 | the indexed filter keeps everything when the index is out of range |
| CreateProblemPage.AddImages | client/src/pages/CreateProblem.tsx:92 | uploaded images go after the existing ones, which are kept |
| CreateProblemPage.RemoveAfterUpload | client/src/pages/CreateProblem.tsx:92-103 | removing the image just uploaded undoes the upload |
| CreateProblemPage.OnSubmit | client/src/pages/CreateProblem.tsx:106-125 | refused with no request exactly when there are no images, or else no coordinates; otherwise it posts the form's fields, the images, the coordinates and the parsed tags |
| CreateProblemPage.SentPassesGuardedValidators | client/src/pages/CreateProblem.tsx:107-115 | a posted body always passes the server's coordinate and image validators |
| CreateProblemPage.SentTagsStored | client/src/pages/CreateProblem.tsx:122 | the server stores the posted tags exactly as the page parsed them |
| DashboardPage.QueryParams | client/src/pages/Dashboard.tsx:66-70 | category and status are added only when non-empty, and sortBy always, last |
| DashboardPage.QueryParamsReachServer | client/src/pages/Dashboard.tsx:66-72 | the server builds from those parameters exactly the category and status filter selected |
| DashboardPage.FilteredProblems | client/src/pages/Dashboard.tsx:101-105 | an order-preserving subsequence holding exactly the problems whose lower-cased title, description or location includes the lower-cased term; an empty term keeps every problem |
| DashboardPage.MergeVote | client/src/pages/Dashboard.tsx:85-95 | length and order kept; only the problem with the id changes, and only its four vote fields, which become the response's |
| DashboardPage.MergeVoteIdempotent | client/src/pages/Dashboard.tsx:85-95 | merging the same response twice is merging it once |
| DashboardPage.MergeVoteKeepsCounts | client/src/pages/Dashboard.tsx:85-95 | merging a server response keeps every shown count equal to its list's length |
| DashboardPage.StatusCardsBounded | client/src/pages/Dashboard.tsx:177-196 | the Resolved and In Progress cards together never exceed Total Problems |
| DashboardPage.TotalVotes | client/src/pages/Dashboard.tsx:206 | the Total Votes card is never negative |
| DashboardPage.TotalVotesOne | client/src/pages/Dashboard.tsx:206 | no problems total 0 and one problem totals its `upvoteCount`, so with `TotalVotesAppend` the card is the sum of all `upvoteCount`s |
| DashboardPage.TotalVotesZero | client/src/pages/Dashboard.tsx:206 | the card shows 0 exactly when no problem has an upvote |
| DashboardPage.SumUpvotesShift | client/src/pages/Dashboard.tsx:206 | the running sum only adds to its start |
| DashboardPage.TotalVotesAppend | client/src/pages/Dashboard.tsx:206 | the total of two lists is the sum of their totals |
| ProblemDetailPage.MergeProblemVote | client/src/pages/ProblemDetail.tsx:120-133 | no change when the problem has not loaded; otherwise exactly the four vote fields change |
| ProblemDetailPage.MergeSolutionVote | client/src/pages/ProblemDetail.tsx:135-153 | length and order kept; only the solution with the id changes, and only its four vote fields |
| ProblemDetailPage.MergeIdempotent | client/src/pages/ProblemDetail.tsx:120-153 | both merges are idempotent |
| ProblemDetailPage.SubmitSolution | client/src/pages/ProblemDetail.tsx:156-166 | refused with no request exactly when the description is blank after trimming; otherwise it posts the form's fields and the page's problem |
| ProblemDetailPage.FormAfterSubmit | client/src/pages/ProblemDetail.tsx:156-176 | after a saved submit the form is reset to the initial form; otherwise it is kept |
| ProblemDetailPage.InitialFormIsDefault | client/src/pages/ProblemDetail.tsx:169-174 | the reset time and difficulty are the server's defaults |
| ProblemDetailPage.PostedPassesValidators | client/src/pages/ProblemDetail.tsx:157-166 | a posted form with a long enough description and enum values passes every create validator |
| ProblemDetailPage.ShownImages | client/src/pages/ProblemDetail.tsx:249 | at most the first four images, in order; all of them when there are no more than four |
| ProblemDetailPage.Points | client/src/pages/ProblemDetail.tsx:502 | points are upvotes less downvotes, as lengths of the server's lists |
| ProblemDetailPage.StatusColour | client/src/pages/ProblemDetail.tsx:182-190 | grey exactly for Closed and for strings that are not a status |
| ProblemDetailPage.PriorityColour | client/src/pages/ProblemDetail.tsx:192-200 | grey exactly for strings that are not a priority |
| ProblemDetailPage.DifficultyColour | client/src/pages/ProblemDetail.tsx:202-209 | grey exactly for strings that are not a difficulty |
| ProblemDetailPage.StoredValuesColours | client/src/pages/ProblemDetail.tsx:182-209 | on stored values only a closed problem is grey; every priority and difficulty has a colour |

## Left out

- I/O and environment.
  - The HTTP layer, the `auth` middleware and `express-validator` plumbing are left out. Handlers are methods that take the signed-in user's id.
  - Logging is left out.
  - axios calls, local storage and `axios.defaults` are left out. The token read at start-up is a parameter of `AuthContext.InitialState`.
  - Toasts and navigation are left out.
  - Timestamps (`createdAt`, `Date.now`) and date formatting are left out.
- Mongoose.
  - `populate` is left out. Responses carry the stored documents.
  - The database sort by `sortBy` is left out. List functions take the collection already in sort order, so ordering is not verified.
  - Document ids are `nat` values from one counter.
- Typed id checks.
  - A malformed `problem` id in a solution create is `None` (the `isMongoId` check).
  - A malformed id in a path or in `problemId` (a cast error, answered with 500) is not modelled. Ids are always well formed here.
- ListProblems, ListSolutions, ProblemSolutions: require `page >= 1` and `limit >= 1`. Other values reach the database unchecked, and what the database does with them is not part of this model.
- `isNumeric`: abstracted to `NumberInput` and to `Option<real>` for coordinates. Floating-point arithmetic is modelled by `real`.
- Text.Lowercase: Unicode case mapping is a per-character parameter `lower`, not a fixed table.
- Concurrency: each handler is atomic. The window between the two writes of accept is not modelled.
- Client page pieces:
  - react-hook-form field rules, geolocation and geocoding (CreateProblem.tsx:44-76) are left out; coordinates arrive as an `Option`;
  - the mock upload URLs are left out;
  - the dashboard's own badge colour maps are presentation only;
  - Home, Profile and Navbar are purely presentational.
- AuthContext: the provider's `login`, `register`, `logout` and `updateProfile` effects are left out; only the reducer and the initial state are modelled.
- ProblemModel.Problem.UpvoteCount, DownvoteCount and SolutionModel.Solution.CommentCount are the schema's virtual lengths, written as such. Their meaning is stated by `Votes.TallyOf` and `SolutionRoutes.WithComment`.
