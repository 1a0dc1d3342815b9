# vamp — a Dafny model of the server actions and page logic

vamp is a showcase-and-funding platform for "vibecoders". Builders publish
projects, upvote projects and forum threads, comment and reply. Sponsors
post grants, builders apply to them, and sponsors approve or reject the
applications. This project models the platform's core in Dafny:

- the server actions that change the store: projects, votes, comments,
  forum threads and replies, grants and applications, user roles and
  profiles;
- the validation schemas those actions use;
- the query-and-arrange logic of the pages that read the store: discover,
  forum, search, grants, leaderboard, submit and the two dashboards;
- the client state of the upvote buttons, the application-review buttons
  and the project form's tool picker;
- the request middleware and the onboarding redirect.

The store (`Model.Db`) is an immutable record of maps from row id to row.
Votes are kept as sets of `(actor, target)` facts. Every action is a pure
function from a store and its inputs to a new store and a
`Result`/response, with each of the source's error branches modelled as a
value. The main invariants:

- `Votes.Reconciled`: every denormalised upvote counter equals the number
  of vote facts on its target.
- `Forum.RepliesCounted`: every thread's reply counter equals its number
  of replies.
- `Grants.UniqueApplications`: at most one application per project and
  grant.
- `Users.UniqueUsernames`: no two users share a username.

Each action that writes the store is proved to keep the invariants that
concern it.

Module layout:

- `Wrappers`: `Option` and `Result`.
- `Listing`: stable sorting, filtering, taking and summing of sequences. It
  models a store query's `orderBy`/`take` and the pages' array handling.
- `Text`: JavaScript's `trim`, ASCII `toLowerCase`, and case-insensitive
  `contains`.
- `Model`: the entities.
- `Validation`: the project schema, categories and tool list.
- `Votes`, `Projects`, `Comments`, `Forum`, `Grants`, `Users`: the actions.
- `Optimistic`, `ToolPicker`: client state.
- `Feeds`, `Search`, `GrantsPage`, `SubmitPage`, `Leaderboard`,
  `Dashboards`: pages.
- `Routing`: query-parameter links, the middleware and the onboarding check.

Values the program takes from its environment are parameters:

- the session (`Option<Id>`);
- the current time in milliseconds;
- database-generated ids;
- the URL validator (`isUrl`).

An id that collides with an existing row is modelled as the store rejecting
the insert. The action then reports its generic failure. Writes that already
happened stay: when `createProject`'s automatic grant application is
rejected, the new project remains stored (`Projects.CreateProject`); every
other action fails before its first write.

## Model

| member | source | states |
|---|---|---|
| Validation.ParseCategory | src/lib/validations.ts:4-14 | a parsed category name is exactly the listed value it came from |
| Validation.CategoryRoundTrip | src/lib/validations.ts:4-14 | every project category's value parses back to that category |
| Validation.EnumMatchesCategoryList | src/lib/validations.ts:4-45 | a string is accepted as a category exactly when it is one of the nine values of the category list |
| Validation.ProjectIssues | src/lib/validations.ts:16-46 | the reported fields are exactly the fields whose schema rule fails, at most one entry per field |
| Validation.ValidateProject | src/lib/validations.ts:16-46 | the project schema accepts iff every field rule holds (title 3-100 characters, tagline 10-140, description 50-5000, URLs valid or empty, at least one tool, a listed category); on success the data carries the input's fields and parsed category; on failure the error list is non-empty and names exactly the failing fields |
| Validation.EveryToolHasGroup | src/lib/validations.ts:51-88 | every vibe tool's category is one of the tool categories |
| Validation.ToolValuesDistinct | src/lib/validations.ts:51-72 | no two vibe tools share a value |
| Projects.SchemaInput | src/actions/projects.ts:31-42 | an empty category from the form is read as "OTHER" before validation |
| Projects.NewProjectFromForm | src/actions/projects.ts:59-73 | a project built from an accepted form keeps the given id, is published now, owned by the caller, starts at 0 upvotes, keeps the title, tagline, description and whole tech stack as typed, takes its first five tools as tags, stores empty URLs as null and the others as typed, and gets the chosen category ("OTHER" when none) |
| Projects.CreateProject | src/actions/projects.ts:17-121 | without a session or with an invalid form the store is unchanged and the matching error is returned; the call succeeds exactly when signed in, the form is valid, the project id is fresh and, if the chosen grant accepts applications, the application id is fresh and the project has no application to it; on success the stored row is the one `NewProjectFromForm` describes, and a pending application is added exactly when the chosen grant exists, is open and its deadline has not passed; the success message mentions the grant exactly when a grant id was given; a failure that changed the store is the generic one, after the project was stored and its automatic application was rejected |
| Projects.CreateProjectKeepsReconciled | src/actions/projects.ts:59-73 | creating a project keeps every project upvote counter equal to its number of votes |
| Projects.CreateProjectKeepsUnique | src/actions/projects.ts:76-96 | the automatic grant application never creates a second application for the same project and grant |
| Votes.Toggle | src/actions/projects.ts:123-212 | without a session, or for a missing target, nothing changes and the call fails; otherwise the caller's vote is removed if present and added if absent, and the counter moves by exactly one in that direction |
| Votes.UpvoteProject | src/actions/projects.ts:123-212 | succeeds iff signed in and the project exists; `upvoted` is true iff the caller had not voted before, the vote ledger then holds the vote iff `upvoted`, and `newCount` is the stored counter, one above or below the old one; a failure returns `(false, false, 0)` and leaves the store alone |
| Votes.UpvoteThread | src/actions/forum.ts:142-232 | the same contract for forum threads |
| Votes.ToggleKeepsReconciled | src/actions/projects.ts:151-202 | a toggle keeps every counter equal to the number of votes on its target |
| Votes.ToggleKeepsOtherCounters | src/actions/projects.ts:151-202 | a toggle changes no other target's counter |
| Votes.ToggleTwiceRestores | src/actions/projects.ts:151-202 | toggling the same vote twice restores the store; the two calls both succeed or both fail, report opposite flags, and the second reports the original count |
| Votes.UnvoteThenVote | src/actions/projects.ts:151-202 | removing an existing vote and voting again gives back the original store |
| Votes.VoteThenUnvote | src/actions/projects.ts:151-202 | voting and then un-voting gives back the original store |
| Votes.ThreeToggleScenario | src/actions/forum.ts:142-232 | two users voting and the first retracting reports counts 1, 2 and then 1, with the matching flags |
| Votes.ResponseOf | src/actions/projects.ts:131-211 | the response reports success exactly for a successful toggle and carries its flag and count; failures report `upvoted = false, newCount = 0` |
| Optimistic.Reduce | src/components/projects/upvote-button.tsx:30-36 | the optimistic reducer sets the flag and moves the count by one toward it |
| Optimistic.Click | src/components/projects/upvote-button.tsx:38-58 | a click while pending does nothing; signed-out sends to sign-in with the right callback; otherwise the shown state flips optimistically |
| Optimistic.ReduceTwiceRestores | src/components/projects/upvote-button.tsx:30-36 | applying the reducer forward and back restores the state |
| Optimistic.ClickTwiceRestores | src/components/forum/thread-upvote-button.tsx:27-48 | two clicks show the original state again |
| Optimistic.Mirror | src/components/projects/upvote-button.tsx:18-36 | the button state built from the store shows its counter and whether the user has voted |
| Optimistic.OptimisticMatchesServer | src/components/projects/upvote-button.tsx:38-58 | the optimistic state after a click equals the state the server's answer produces |
| Comments.ParentOf | src/actions/comments.ts:86 | an absent or empty parent id is stored as no parent |
| Comments.AddComment | src/actions/comments.ts:9-117 | errors in source order (no session, blank text, over 1000 characters, missing project, missing parent) leave the store unchanged; success iff all checks pass and the insert succeeds, and then the trimmed text is stored with the caller as author and replies start empty |
| Comments.DeleteComment | src/actions/comments.ts:119-168 | no session, a missing comment or a caller who is not the author fail with the store unchanged; otherwise exactly that comment is removed |
| Comments.AddThenDeleteRestores | src/actions/comments.ts:81-153 | a successful add followed by the author's delete restores the store |
| Comments.OnlyAuthorDeletes | src/actions/comments.ts:144-149 | a caller other than the author gets the not-author error and nothing changes |
| Comments.ParentMayBeOnOtherProject | src/actions/comments.ts:67-79 | the parent check only asks that the parent exist, so a reply may hang under a comment of another project |
| Comments.IdeographicSpacesAreEmpty | src/actions/comments.ts:38-43 | a comment of ideographic spaces only is rejected as empty and nothing is stored |
| Forum.ParseThreadCategory | src/actions/forum.ts:10-14 | a parsed thread category is exactly the value it came from |
| Forum.ThreadCategoryRoundTrip | src/actions/forum.ts:10-14 | every thread category's value parses back to it |
| Forum.ThreadIssues | src/actions/forum.ts:10-14 | the reported fields are exactly those failing the thread schema |
| Forum.CreateThread | src/actions/forum.ts:23-78 | no session or an invalid form fails with the store unchanged; success iff signed in, valid and the id is fresh, and then the thread is stored under that id with the caller as author, the form's title, content and category, unpinned, created now, and zero counters |
| Forum.CreateThreadKeepsReconciled | src/actions/forum.ts:55-62 | a new thread keeps thread upvote counters reconciled |
| Forum.CreateThreadKeepsCounts | src/actions/forum.ts:55-62 | a new thread keeps every reply counter equal to its number of replies |
| Forum.AddThreadReply | src/actions/forum.ts:80-140 | no session, or content that is blank or shorter than 2 characters, fails with the store unchanged; success iff the thread exists and the id is fresh, and then the trimmed content is stored under the given parent (none for an absent or empty parent id) and that thread's reply counter rises by one |
| Forum.ReplyKeepsCounts | src/actions/forum.ts:106-124 | adding a reply keeps every thread's reply counter equal to its number of replies |
| Forum.ReplyKeepsReconciled | src/actions/forum.ts:105-123 | adding a reply writes no vote and no upvote counter, so thread upvote counters stay equal to their vote tallies |
| Forum.ToggleKeepsRepliesCounted | src/actions/forum.ts:170-206 | a vote toggle, on a thread or a project, writes no reply and no reply counter, so every reply counter stays equal to its number of replies |
| Forum.OneCharacterReplyStored | src/actions/forum.ts:98-108 | the length check runs on the untrimmed content, so a space and one character pass and a one-character reply is stored |
| Grants.MaxRecipientsOf | src/actions/grants.ts:63 | a missing or zero parse gives 1; any other parsed value is kept |
| Grants.GrantIssues | src/actions/grants.ts:12-19 | the reported fields are exactly those failing the grant schema |
| Grants.ValidateGrant | src/actions/grants.ts:12-74 | the grant schema accepts iff every rule holds (title 5-100, a positive parsed amount, description at least 50, a valid or absent deadline, a positive recipient count); failures name exactly the failing fields |
| Grants.CreateGrant | src/actions/grants.ts:28-106 | no session or a role other than sponsor or admin fails with the store unchanged; an allowed caller with an invalid form gets exactly the failing fields; the call succeeds exactly when an allowed caller sends a valid form and the id is fresh, and then an OPEN grant owned by the caller and created now is added with the title, description and amount as typed, empty requirements as none (requirements of spaces only are kept as typed), the deadline when one was given and the recipient count with a missing or zero count read as 1, without touching the other grants |
| Grants.CreatedGrantListed | src/actions/grants.ts:204-220 | looked up at any time, a grant just created is among `getActiveGrants`' results exactly while its deadline, if it has one, has not passed at that time |
| Grants.NewApplication | src/actions/grants.ts:179-186 | an application starts pending for the given project and grant, under the given id and created now; an absent or empty message is stored as none and any other message as given |
| Grants.ApplyToGrant | src/actions/grants.ts:108-202 | errors in source order (no session, project not owned, grant missing or not open, deadline passed, already applied) leave the store unchanged; on success one pending application is added |
| Grants.ApplySucceedsIff | src/actions/grants.ts:108-202 | applying succeeds exactly when signed in as the project's owner, the grant accepts applications now, there is no earlier application and the id is fresh |
| Grants.ApplyKeepsUnique | src/actions/grants.ts:162-186 | applying keeps at most one application per project and grant |
| Grants.GetActiveGrants | src/actions/grants.ts:204-220 | lists exactly the grants accepting applications now, newest first |
| Grants.StatusOf | src/actions/grants.ts:222-226 | a sponsor's decision never sets an application back to pending or withdrawn |
| Grants.UpdateApplicationStatus | src/actions/grants.ts:222-293 | no session, a caller who is not the grant's sponsor, or an application of another grant fails with the store unchanged; otherwise only that application's status changes |
| Grants.UpdateKeepsUnique | src/actions/grants.ts:268-271 | a status change keeps applications unique |
| Grants.ApproveThenReject | src/actions/grants.ts:268-285 | a sponsor can approve, then reject, then approve again; each step succeeds and re-approving gives back the store of the first approval |
| Grants.OfferedDecisions | src/components/grants/application-actions.tsx:37-99 | approved applications offer only revoking, rejected ones only approving, others both; no offer sets the status the application already has |
| Grants.StartDecision | src/components/grants/application-actions.tsx:23-24 | a click marks the buttons pending with the clicked decision |
| Grants.FinishDecision | src/components/grants/application-actions.tsx:23-34 | when the request ends the buttons are idle and no decision is marked |
| Grants.SpinnerFollowsClick | src/components/grants/application-actions.tsx:44-91 | only the clicked button spins, and none spins once the request ends |
| Grants.OffersAreAccepted | src/components/grants/application-actions.tsx:37-99 | every decision the buttons offer to the grant's sponsor is accepted by the server action |
| Users.ParseRole | src/actions/users.ts:10 | only "VIBECODER" and "SPONSOR" parse, and never to admin |
| Users.SetUserRole | src/actions/users.ts:18-64 | no session or another role value fails with the store unchanged; success iff signed in, valid role and the user exists, and then only that user's role changes |
| Users.ProfileIssues | src/actions/users.ts:66-76 | the reported fields are exactly those failing the profile schema |
| Users.Updated | src/actions/users.ts:134-143 | the profile update writes name and username, stores an empty bio, website or twitter as null and a non-empty one as typed, and keeps id and role |
| Users.UpdateProfile | src/actions/users.ts:84-159 | no session, an invalid form or a username held by another user fails with the store unchanged; on success only the caller's row changes |
| Users.UpdateProfileKeepsUnique | src/actions/users.ts:119-143 | a profile update keeps usernames unique |
| Users.OwnUsernameNotTaken | src/actions/users.ts:119-132 | resubmitting one's own username is not reported as taken |
| Users.SetUserRoleKeepsUnique | src/actions/users.ts:45-48 | a role change keeps usernames unique |
| Text.Trim | src/actions/comments.ts:83 | the result is an infix of the input with only white space cut off around it, and it neither starts nor ends with white space; white space is ECMAScript's set: tab, vertical tab, form feed, the byte-order mark, the Unicode space separators and the four line terminators |
| Text.TrimEmptyIffBlank | src/actions/comments.ts:38-43 | trimming gives the empty string exactly when the input is all white space |
| Text.TrimIdempotent | src/actions/forum.ts:108 | trimming twice is trimming once |
| Text.Lower | src/app/search/page.tsx:55 | lower-casing keeps the length and lowers each ASCII letter |
| Text.LowerIdempotent | src/app/search/page.tsx:55 | lower-casing twice is lower-casing once |
| Text.CountNoun | src/app/forum/page.tsx:185 | the singular noun is chosen exactly for a count of one, the plural otherwise |
| Feeds.OrDefault | src/app/discover/page.tsx:39-40 | an absent or empty parameter falls back to the default |
| Feeds.OrderFollowsSort | src/app/discover/page.tsx:52-63 | "newest" orders by creation time, "mostUpvoted" by upvotes, and anything else ("trending") by upvotes and then creation time |
| Feeds.Feed | src/app/discover/page.tsx:66-78 | the feed is the first n of the pool in the chosen order (all of it when shorter), drawn from the pool with multiplicity, and no project left out ranks above a shown one |
| Feeds.DiscoverFeed | src/app/discover/page.tsx:39-78 | the first 30 published projects of the selected category (all of them when fewer) in the selected order, drawn from them with multiplicity, none left out ranking above a shown one |
| Feeds.DiscoverShowsAllWhenFew | src/app/discover/page.tsx:43-78 | with at most 30 published projects in the selected category the grid shows exactly those projects |
| Feeds.DiscoverDefaults | src/app/discover/page.tsx:39-40 | no parameters means category "ALL" and sort "trending", and empty parameters mean the same |
| Feeds.Trending | src/app/discover/page.tsx:81-98 | the five most upvoted projects of the last seven days (all of them when fewer), drawn from them with multiplicity, most upvoted first, none left out ranking above them |
| Feeds.TrendingShown | src/app/discover/page.tsx:150-157 | on the unfiltered view the strip is the first three trending projects, with any category filter it is empty, and it shows exactly when unfiltered and something trends |
| Feeds.OldProjectsNeverTrend | src/app/discover/page.tsx:81-98 | a project older than a week never trends |
| Feeds.UpvotedAfterToggle | src/app/discover/page.tsx:162-166 | after a successful toggle the page's "upvoted" flag equals the toggle's result; signed out it is always false |
| Feeds.ProjectList | src/components/projects/project-list.tsx:12-89 | the first `limit` (default 10) published projects in the chosen order (default "trending"), all of them when fewer, ranked from 1, drawn from the published projects with multiplicity, none left out ranking above a listed one |
| Feeds.ProjectListEmptyIff | src/components/projects/project-list.tsx:56 | the empty state shows exactly when no project is published |
| Feeds.ForumFilter | src/app/forum/page.tsx:64-70 | an absent, empty or "ALL" category means no filter |
| Feeds.ForumThreads | src/app/forum/page.tsx:73-92 | the first 30 threads of the category (all of them when fewer), drawn from them with multiplicity, pinned first, then by upvotes, then newest first, none left out ranking above a shown one |
| Feeds.CountsCoverAllThreads | src/app/forum/page.tsx:95-102 | the per-category counts add up to the number of threads |
| Feeds.CategoryHref | src/app/forum/page.tsx:172 | an active card links back to "/forum", any other card to its category |
| Feeds.CardLinkSelectsCategory | src/app/forum/page.tsx:64-92 | following a category card shows only threads of that category |
| Search.QueryOf | src/app/search/page.tsx:23 | the query is empty exactly when the parameter is absent or blank |
| Search.ProjectResults | src/app/search/page.tsx:48-68 | the 20 most upvoted published projects the query matches (every one of them when there are no more than 20), drawn from the matches with multiplicity, most upvoted first, none left out above them; `MatchingProjects` keeps exactly the matching projects |
| Search.GrantResults | src/app/search/page.tsx:71-89 | the 10 largest open grants the query matches (every one of them when there are no more than 10), drawn from the matches with multiplicity, largest first, none left out above them; `MatchingGrants` keeps exactly the matching grants |
| Search.SearchPage | src/app/search/page.tsx:23-91 | a blank query shows the empty state; otherwise the trimmed query's project and grant results |
| Search.SurroundingSpaceIgnored | src/app/search/page.tsx:23 | white space around the query changes nothing |
| Search.MatchIgnoresQueryCase | src/app/search/page.tsx:50-56 | matching is insensitive to the query's case |
| Search.StackEntryMatchesWhole | src/app/search/page.tsx:50-56 | for any published project whose title, tagline and description do not contain the query, the query matches exactly when the stack holds the lower-cased query as a whole entry, so an entry that merely contains it does not match |
| Search.FewMatchesAllShown | src/app/search/page.tsx:48-68 | with no more than 20 matches, a project is shown exactly when it is a published project the query matches |
| Search.TotalResultsCount | src/app/search/page.tsx:91 | a results page counts the matching projects up to 20 plus the matching grants up to 10, hence at most 30 |
| GrantsPage.Listed | src/app/grants/page.tsx:30-53 | lists exactly the open grants, largest first and newest among equal amounts |
| GrantsPage.ListsExpiredGrants | src/app/grants/page.tsx:30-33 | an open grant past its deadline is still listed although it accepts no applications |
| GrantsPage.Sponsors | src/app/grants/page.tsx:102 | the sponsors counted are exactly the distinct sponsors of the listed grants |
| GrantsPage.FiguresOfListed | src/app/grants/page.tsx:56-102 | the funding, application and grant figures are the sums over the open grants whatever the order, with no more sponsors than grants |
| GrantsPage.CtasFor | src/app/grants/page.tsx:18-27 | "create grant" shows exactly for sponsors, "become a sponsor" exactly for signed-in non-sponsors, and never both |
| SubmitPage.GuardFor | src/app/submit/page.tsx:21-34 | signed out goes to sign-in with callback "/submit", no role goes to onboarding, otherwise the form shows |
| SubmitPage.Fetched | src/app/submit/page.tsx:38-49 | the open grants, largest first |
| SubmitPage.Offered | src/app/submit/page.tsx:38-54 | exactly the grants accepting applications now, largest first |
| SubmitPage.OffersTheActiveGrants | src/app/submit/page.tsx:52-54 | the form offers the same grants as the active-grants action |
| SubmitPage.GrantTipIff | src/app/submit/page.tsx:52-54 | the grant tip shows exactly when some grant accepts applications |
| Dashboards.BuilderStatsOf | src/app/dashboard/projects/page.tsx:84-95 | the builder's counters count every project, published ones never exceeding the total; no project gives all zeros and one project gives its own contribution (1, 1 if published, its upvotes, its applications, its approved and its awaiting ones) |
| Dashboards.BuilderStatsAdd | src/app/dashboard/projects/page.tsx:84-95 | the counters of two lists of projects are the sums of each list's counters, so with `BuilderStatsOf` every counter is the sum of the projects' contributions |
| Dashboards.ApplicationsPartition | src/app/dashboard/projects/page.tsx:84-95 | total applications split into approved, awaiting and closed |
| Dashboards.PendingBanner | src/app/dashboard/projects/page.tsx:186-192 | the banner shows exactly when something is pending, in the singular for one |
| Dashboards.BannerIffSomeAwaiting | src/app/dashboard/projects/page.tsx:84-192 | the banner shows exactly when some application is pending or under review |
| Dashboards.RowExtrasOf | src/app/dashboard/projects/page.tsx:283-370 | the apply link shows exactly for published projects, and the "no applications" line only for published projects without applications |
| Dashboards.SponsorGate | src/app/dashboard/grants/page.tsx:39-51 | signed out goes to sign-in, sponsors see the page, everyone else goes home |
| Dashboards.SponsorStatsOf | src/app/dashboard/grants/page.tsx:73-76 | counts every grant; open grants never exceed the total; with positive amounts the funding is at least one per grant; one grant gives its own contribution (1, 1 if open, its applications, its amount) |
| Dashboards.SponsorStatsAdd | src/app/dashboard/grants/page.tsx:73-76 | the counters of two lists of grants are the sums of each list's counters |
| Dashboards.EmptyStateMeansZeroStats | src/app/dashboard/grants/page.tsx:155 | when the empty state shows, all stats are zero |
| Dashboards.PendingBadge | src/app/dashboard/grants/page.tsx:176 | the badge counts pending applications only |
| Dashboards.ReviewingNotOnBadge | src/app/dashboard/grants/page.tsx:176 | moving an application to review drops it from the badge, and a new one under review does not add to it |
| Dashboards.Preview | src/app/dashboard/grants/page.tsx:258 | the preview is the first three applications |
| Leaderboard.PublishedOf | src/app/leaderboard/page.tsx:25-56 | a user's counted projects are exactly their published ones |
| Leaderboard.VibeScoreCountsPublishedOnly | src/app/leaderboard/page.tsx:61 | the vibe score is the sum of upvotes over published projects only |
| Leaderboard.TopProject | src/app/leaderboard/page.tsx:74 | the top project is a most upvoted one, the first such |
| Leaderboard.EntryOf | src/app/leaderboard/page.tsx:59-84 | an entry carries the user's score and published-project count, the number of approved applications across the published projects and the sum of their grants' amounts, and an eligible user has a published top project |
| Leaderboard.PerProjectFigures | src/app/leaderboard/page.tsx:63-73 | adding up the per-project approval counts and amounts gives the count and amount total of the approved applications over all the projects at once |
| Leaderboard.NoGrantsNoAmount | src/app/leaderboard/page.tsx:63-73 | no approved grants means a total amount of zero |
| Leaderboard.Rank | src/app/leaderboard/page.tsx:59-85 | one entry per eligible user, highest score first |
| Leaderboard.RankMembers | src/app/leaderboard/page.tsx:25-85 | an entry is ranked exactly when it belongs to an eligible user |
| Leaderboard.PodiumSplit | src/app/leaderboard/page.tsx:88-89 | podium and rest partition the ranking and no one in the rest outscores the podium |
| Leaderboard.ShowsPodiumIff | src/app/leaderboard/page.tsx:170 | the podium shows exactly when there are at least three entries, and then holds the first three |
| Leaderboard.RanksFollowScores | src/app/leaderboard/page.tsx:209-211 | rank numbers follow the order, so a better rank never has a lower score |
| Leaderboard.TotalScoreOrderFree | src/app/leaderboard/page.tsx:92 | the total score is the sum over eligible users, independent of the ranking's order |
| Leaderboard.TotalProjectsOrderFree | src/app/leaderboard/page.tsx:93 | the total project count is the sum over eligible users, independent of the ranking's order |
| Leaderboard.TopVibecoders | src/app/discover/page.tsx:101-129 | the sidebar shows the five best of the 20 fetched vibecoders (all of them when fewer), drawn from them with multiplicity, highest score first, none left out above them |
| Leaderboard.TopVibecodersAreBestWhenFew | src/app/forum/page.tsx:105-130 | with at most 20 eligible users the sidebar shows the best of all of them |
| Leaderboard.LaterVibecodersNeverShown | src/app/discover/page.tsx:101-119 | a user beyond the first 20 fetched is never shown, whatever their score |
| ToolPicker.Toggle | src/components/projects/project-form.tsx:92-98 | toggling a tool flips its membership, keeps the others, appends a new tool at the end, and keeps the list free of duplicates |
| ToolPicker.ToggleTwiceFromAbsent | src/components/projects/project-form.tsx:92-98 | adding and then removing a tool restores the list |
| ToolPicker.ToggleTwiceFromPresent | src/components/projects/project-form.tsx:92-98 | removing and re-adding a tool moves it to the end; the list is unchanged exactly when the tool was already last |
| ToolPicker.ToggleTwiceReorders | src/components/projects/project-form.tsx:92-98 | toggling the first of two tools twice swaps them |
| ToolPicker.Remove | src/components/projects/project-form.tsx:100-102 | a tool is kept exactly when it was chosen and is not the removed one, and removing an unchosen tool changes nothing |
| ToolPicker.RemoveKeepsOrder | src/components/projects/project-form.tsx:100-102 | on a list without duplicates, removing the tool at position i leaves the others in their order |
| ToolPicker.RemoveIdempotent | src/components/projects/project-form.tsx:100-102 | removing twice is removing once |
| ToolPicker.ToolLabel | src/components/projects/project-form.tsx:104-106 | a known tool shows the label of its first listing; an unknown value shows itself |
| ToolPicker.GroupedFacts | src/components/projects/project-form.tsx:108-111 | groups follow the category order, none is empty, and each holds exactly its category's tools |
| ToolPicker.EveryToolOffered | src/components/projects/project-form.tsx:108-111 | every vibe tool appears in some group |
| ToolPicker.SubmitDisabled | src/components/projects/project-form.tsx:45 | the button is disabled while pending, and otherwise exactly when no tool is chosen |
| ToolPicker.EnablementFollowsSelection | src/components/projects/project-form.tsx:420 | choosing a tool enables submission and removing the last disables it |
| ToolPicker.InitialState | src/components/projects/project-form.tsx:66-78 | the form starts with no tools, category "OTHER" and the grant from the URL if any |
| ToolPicker.InitialFormDisabled | src/components/projects/project-form.tsx:75-420 | a fresh form cannot be submitted |
| Routing.Get | src/components/discover/category-filter.tsx:22-30 | the lookup finds the first pair with the name, and is absent exactly when no pair has it |
| Routing.Set | src/components/discover/category-filter.tsx:22-30 | after setting, the name reads back the value, and the pairs of every other name are kept in order |
| Routing.Delete | src/components/discover/category-filter.tsx:22-30 | after deleting, the name is absent and every other pair is kept in order |
| Routing.UpdateFilter | src/components/discover/category-filter.tsx:22-30 | "ALL" and "trending" clear the parameter, any other value sets it, and no other parameter changes |
| Routing.FilterTarget | src/components/discover/category-filter.tsx:22-30 | the link always goes to "/discover?" and carries nothing exactly when no parameter remains |
| Routing.CategoryPillSelects | src/components/discover/category-filter.tsx:22-30 | following a category pill makes the page show that category |
| Routing.SortButtonSelects | src/components/discover/category-filter.tsx:22-30 | following a sort button makes the page use that sort |
| Routing.FiltersIndependent | src/components/discover/category-filter.tsx:22-30 | changing the sort keeps the category, and the other way round |
| Routing.Middleware | src/middleware.ts:12-28 | a path starting with "/submit" or "/settings" without a non-empty session cookie goes to sign-in with the path as callback; everything else passes |
| Routing.MatchedIsProtected | src/middleware.ts:18-34 | every path the matcher runs the middleware on is one its prefix test protects |
| Routing.Handle | src/middleware.ts:22-34 | a request is sent to sign in, with its path as callback, exactly when the matcher covers its path and no session cookie is set |
| Routing.SignInPasses | src/middleware.ts:18-26 | the sign-in page itself is never redirected |
| Routing.EitherCookieCounts | src/middleware.ts:12-14 | either session cookie alone lets a request pass |
| Routing.PrefixNotSegment | src/middleware.ts:18-34 | the middleware's own test is a character prefix test that would send "/submitted" and "/settingsx" to sign in, but the matcher never runs it on them, so they pass |
| Routing.MiddlewareAgreesWithSubmitPage | src/middleware.ts:22-34 | the middleware, as the framework runs it, and the submit page send a signed-out visitor to the same sign-in target |
| Routing.OnboardingCheck | src/components/auth/onboarding-check.tsx:16-29 | redirects to "/onboarding" exactly when signed in without a role and not on a page that handles this itself |
| Routing.OnboardingIsFinal | src/components/auth/onboarding-check.tsx:21-24 | the onboarding page is never redirected, so the check cannot loop |
| Routing.OnlyRolelessUsersRedirected | src/components/auth/onboarding-check.tsx:16-29 | users with a role, and anyone not signed in, are never redirected |

## Left out

- Database I/O, `revalidatePath`, the NextAuth session lookup and console logging: the store is a value, the session a parameter, and cache revalidation has no observable effect on the model's state.
- Concurrency: every action runs atomically on one store value. Races between concurrent upvotes, and the source's lack of transactions around its paired writes, are not modelled.
- Store failures other than an id collision. The model has no failure injection: for example, the counter update after a vote row is written always succeeds. The one collision that can hit a second write, in `createProject`, keeps the first write as the source does.
- A reply to a missing thread is rejected up front. The source only fails when the insert's foreign key fails; the outcome is the same generic failure.
- Foreign keys, schema defaults and cascading deletes of the store: only the fields and defaults the actions set are modelled.
- String lengths count characters, not UTF-16 code units. Lower-casing covers ASCII letters only. `trim`'s white space follows the space separators of current Unicode; later additions to that category are not tracked.
- Amounts are unbounded integers; Prisma's `Decimal` and JavaScript's `Number` conversion are not modelled.
- URL validity is the `isUrl` parameter, because the URL grammar zod checks is not part of this model.
- Form fields are strings; `formData.get` returning `null` for a missing field is not modelled.
- The database's order among equal sort keys is unspecified. The model uses a stable sort over store order, and its contracts claim nothing about ties.
- `Routing.Serialize`: no percent-encoding of parameter names and values.
- The styles and the purely presentational components.
- Discover and forum pages with a category value outside the enum, which the store rejects with an error: the model filters by string and shows nothing.
- The forum and discover sidebars take 20 users in store order before sorting. This is modelled as written (`Leaderboard.LaterVibecodersNeverShown`), not corrected.
- ToolPicker.ToggleTwiceFromPresent: toggling a selected tool twice is not the identity, because the tool moves to the end of the list. The lemma states the move and proves the list is unchanged only when the tool was already last.
