# Paperclip: verified models of its state-changing cores

This project models nine small cores of the Paperclip repository in Dafny and proves what they are for, for all
inputs, all runs and all interleavings.

| files | core |
|---|---|
| `MergeSteps`, `MergeProjects`, `MergeIssues`, `MergeComments`, `MergeDocuments`, `MergeDocumentRuns`, `MergeAttachments`, `MergePlan`, `MergeLaws` | the worktree history import, `applyMergePlan`: one transaction over ten tables and a storage that is not rolled back |
| `WorktreeQuarantine`, `WorktreeList` | the quarantine of a seeded worktree database, and the parser of `git worktree list --porcelain` |
| `RemoteFiles`, `Base64`, `ShellWords` | sandbox file transfer over shell commands: upload by rename, chunked download, base64 (section 4 of RFC 4648), and quoting against a reader of POSIX shell words (sections 2.2, 2.3 and 2.10.1 of the POSIX.1-2017 Shell Command Language) |
| `ExcludePatterns` | exclude patterns: raw string tests that stand for path segments |
| `FirstAdmin`, `BoardClaim` | the first-admin claim under every interleaving, and the board-claim challenge over whole runs |
| `AgentJwt` | minting and verifying agent tokens (section 7.1 of RFC 7515, section 4.1 of RFC 7519, section 5 of RFC 4648) |
| `UiBranding`, `HslColor` | rewriting marked blocks of the page, and the colour arithmetic over exact reals |
| `LineStream` | putting lines back together from stream chunks |
| `Text` | string operations of JavaScript: search, split, join, trim, replace, decimal numerals |

The models follow the form of the code. What works step by step is a method with loops, proved equal to a function of
the old state: the merge, the quarantine, the uploads and downloads, the claims, the stream follower, the line parser
and the colour loop. What the code computes as an expression is a function. The laws are then lemmas about those
functions. A transaction is a fold of steps that may each be refused; a refusal puts the tables back.

Some results that a reading of one function does not show:

- **Merging twice.** A second run of the same plan changes nothing exactly when every planned document with a parent
  issue finds its (issue, key) slot occupied after the first run (`MergeLaws.ApplyTwice`). A planned document that
  stands on another planned document's slot can break this: the first run skips the one and moves the other, and the
  second run inserts a document (`MergeDocumentRuns.SquatterBreaksIt`). Without such squatters the merge is idempotent
  (`MergeLaws.NoSquattersApplyOnce`).
- **Links across companies.** The merge looks a document up by its id alone, so a plan for a document of another
  company overwrites its content, adds revisions to it, and leaves its link on an issue of this one
  (`MergeDocumentRuns.ForeignLinkMoves`). Without squatters each document ends exactly as its plan says or stays
  exactly as it was, and the plan's slot decides which (`MergeDocumentRuns.PlanDecided`,
  `MergeLaws.ApplyDecidesDocuments`); besides the issue counter no other row that was there changes, in any company
  (`MergeLaws.ApplyKeepsRows`). Without squatters, links stay with their companies exactly when no plan that finds its
  slot free, as the first plan for it, is for a document linked under another company: this is decided by the tables
  before the merge (`MergeDocumentRuns.LinksStayHome`, `MergeLaws.ApplyLinksStayHome`). With or without squatters it
  suffices that every planned document that is linked is linked under this company
  (`MergeDocumentRuns.OwnDocumentsStayHome`).
- **Board claim.** A claim leaves the instance without an admin exactly when `local-board` itself claims and no other
  admin exists (`BoardClaim.ClaimKeepsAnAdmin`). A failed grant leaves the tables handed over with the challenge still
  open, and retrying closes it (`BoardClaim.FailedGrantCanBeRetried`).
- **Bare wildcards.** The pattern made of two bare wildcards excludes nothing whose segments are non-empty
  (`ExcludePatterns.BareWildcardsMatchNothing`).
- **Branding.** A second branding changes nothing exactly when the page, with its favicon block filled and its runtime
  block emptied, has no favicon block or one that holds the favicon links, so the page before branding decides
  (`UiBranding.ApplyTwiceDecided`); on the branded page the same can be seen directly
  (`UiBranding.ApplyTwiceExactly`). That is so whenever neither favicon marker is repeated
  (`UiBranding.ApplyIsIdempotent`); a page with a favicon block inside the runtime block and another one behind it is
  branded differently the second time (`UiBranding.RepeatedFaviconBlock`).
- **Unfinished lines.** The follower of a run formats the last, unfinished line when any status has been reported, not
  only a final one; a run that disappears before that loses it (`LineStream.RunFollower.Follow`).

## Model

| member | source | states |
|---|---|---|
| MergePlan.MergeTarget.ApplyMergePlan | cli/src/commands/worktree.ts:2587-2977 | the merge either goes through as a whole, with exactly the tables, storage and report of its five parts in order, or reports failure with every table as before |
| MergeLaws.ApplyTwice | cli/src/commands/worktree.ts:2596-2977 | for sound document tables and plans with distinct document ids: after a merge that went through, the same plan with the same storages goes through again with all tables, the issue counter and the target storage unchanged if and only if every planned document with a parent issue finds its slot occupied; then it inserts nothing |
| MergeLaws.NoSquattersApplyOnce | cli/src/commands/worktree.ts:2596-2977 | for sound document tables and plans with distinct document ids, that condition is met whenever, before the first run, no planned document is on the (issue, key) slot of another planned document |
| MergeLaws.ApplyKeepsSound | cli/src/commands/worktree.ts:2596-2977 | every merge with the prefix of its company row, refused or not, keeps the issue numbering well formed, one workspace a remote place, one document a slot, one link id a document, one revision a number, and no link or revision without its document |
| MergeLaws.ApplyAddsUnderParents | cli/src/commands/worktree.ts:2750-2963 | every comment, link and attachment that was not there before belongs to the company and to an issue of that company |
| MergeLaws.ApplyLinksStayHome | cli/src/commands/worktree.ts:2780-2857 | for distinct document ids and no squatters, a merge that goes through keeps every link on an issue of its own company if and only if, before it, no plan that finds its slot free, as the first for it, is for a document linked under another company |
| MergeLaws.ApplyKeepsRows | cli/src/commands/worktree.ts:2596-2963 | a merge that goes through changes no project, workspace, issue, comment, revision, asset or attachment that was there and no company row but its own; every such row it adds is of this company |
| MergeLaws.ApplyDecidesDocuments | cli/src/commands/worktree.ts:2780-2898 | for distinct document ids and no squatters, over the whole merge: a plan that finds its slot free, as the first for it, leaves its document as planned, whichever company has it; a document without such a plan keeps its row, its link and its revisions; every document keeps its company and its origin |
| MergeLaws.RefusedLeavesTables | cli/src/commands/worktree.ts:2596-2963 | a refused merge leaves all tables alone; the target storage can only differ under planned keys of the company, by bodies the sources hold |
| MergeProjects.ProjectsOutcome | cli/src/commands/worktree.ts:2597-2666 | each imported project comes in as planned with all its workspaces there; every new workspace is of a new project of the company; no other row changes; the count is exact |
| MergeProjects.ProjectsAgain | cli/src/commands/worktree.ts:2597-2610 | afterwards every planned project is there and a second run inserts nothing |
| MergePlan.MergeTarget.InsertProjects | cli/src/commands/worktree.ts:2607-2666 | the project loop with its workspace loop: new projects only, each known workspace skipped, a repeated id or a second workspace in one remote place of a project refused |
| MergeProjects.ProjectsKeepRemotes | cli/src/commands/worktree.ts:2640-2665 | one workspace of a project in one remote place is kept |
| MergePlan.MergeTarget.InsertIssues | cli/src/commands/worktree.ts:2668-2735 | reserving the block of numbers on the company row and inserting the new issues; a missing company row fails the merge |
| MergeIssues.ImportNumbersInOrder | cli/src/commands/worktree.ts:2683-2735 | imported issues have exactly the numbers old counter + 1 to old counter + k in plan order, with matching identifiers and columns; the counter ends at the last; every other issue and company row is untouched |
| MergeIssues.ImportGoesThrough | cli/src/commands/worktree.ts:2668-2735 | the issue part goes through if and only if nothing is new, or the company row exists and each new issue has its own id, a fresh identifier, and a parent that is there or comes no later |
| MergeIssues.ImportKeepsNumbering | cli/src/commands/worktree.ts:2683-2735 | "prefixes distinct, numbers distinct within a company and at most its counter, identifier made of prefix and number" is kept |
| MergeIssues.WellNumberedGoesThrough | cli/src/commands/worktree.ts:2683-2735 | from such a state the import is refused exactly for a repeated id or a parent out of order, never for a number or identifier |
| MergeIssues.IdentifiersDistinct | cli/src/commands/worktree.ts:2698-2700 | in such a state no two issues of any companies share an identifier |
| MergeIssues.IdentifierDetermines | cli/src/commands/worktree.ts:2698-2698 | prefix and number can be read back from an identifier, even when prefixes hold dashes |
| MergeIssues.ImportAgain | cli/src/commands/worktree.ts:2668-2691 | importing the plan again inserts nothing and leaves the counter alone |
| MergePlan.MergeTarget.InsertComments | cli/src/commands/worktree.ts:2737-2771 | the comment loop: known ids and comments without a parent in the company are skipped, a repeated new id is refused |
| MergeComments.CommentsOutcome | cli/src/commands/worktree.ts:2737-2771 | the comments go through if and only if no two plans that are not skipped share an id, and then exactly those come in, as planned, counted exactly |
| MergeComments.CommentsParented | cli/src/commands/worktree.ts:2753-2771 | each inserted comment is on an issue of its own company |
| MergeComments.CommentsAgain | cli/src/commands/worktree.ts:2737-2758 | a second run does nothing |
| MergePlan.MergeTarget.MergeDocument | cli/src/commands/worktree.ts:2780-2898 | one planned document: skipped without parent or with another document on its slot, otherwise inserted or merged with its link and revisions |
| MergePlan.MergeTarget.MergeDocumentPlans | cli/src/commands/worktree.ts:2773-2898 | the document loop is that step for every candidate in order, up to the first refusal |
| MergeDocuments.StepPlaces | cli/src/commands/worktree.ts:2788-2898 | a planned document whose slot is free ends on its slot with the planned content and revisions; origin, company and link id of what was there are kept, and rows of other documents are untouched |
| MergeDocuments.StepSkips | cli/src/commands/worktree.ts:2782-2799 | a planned document without a parent, or whose slot another document holds, changes nothing |
| MergeDocuments.StepKeepsSound | cli/src/commands/worktree.ts:2780-2898 | each step keeps one document a slot, link ids distinct, one revision a number and no orphans |
| MergeDocuments.PlacedAgain | cli/src/commands/worktree.ts:2832-2898 | a document that already is as planned is not changed by its plan, only counted as merged |
| MergeDocuments.RevisionsAdded | cli/src/commands/worktree.ts:2875-2897 | revisions are only added, only to this document, all planned ones are there afterwards, and (document, number) stays unique |
| MergeDocumentRuns.RunKeepsSound | cli/src/commands/worktree.ts:2780-2898 | the same after any prefix of every run that goes through |
| MergeDocumentRuns.MergeTwice | cli/src/commands/worktree.ts:2773-2898 | for sound document tables and plans with distinct document ids, the document tables are fixed by a second run if and only if every planned document with a parent finds its slot occupied; the second run then counts merges only |
| MergeDocumentRuns.NoSquattersMergesOnce | cli/src/commands/worktree.ts:2788-2799 | for sound document tables and plans with distinct document ids, with no planned document on another's slot the second run inserts and changes nothing |
| MergeDocumentRuns.SquatterBreaksIt | cli/src/commands/worktree.ts:2788-2857 | a sound state and two plans for which the second run inserts a document the first one skipped |
| MergeDocumentRuns.StepKeepsParents | cli/src/commands/worktree.ts:2846-2857 | a step keeps "every link is on an issue of its own company" if and only if it does not move the link of another company's document |
| MergeDocumentRuns.RunParents | cli/src/commands/worktree.ts:2780-2857 | in every run that goes through, squatters or not, each link inserted is on an issue of the company, no link is lost or changes its company, and links end on issues of their companies if and only if no link of another company's document was changed |
| MergeDocumentRuns.LinksStayHome | cli/src/commands/worktree.ts:2780-2857 | for distinct document ids and no squatters, a condition on the tables before the run decides whether links stay with their companies: no plan that finds its slot free, as the first for it, is for a document linked under another company |
| MergeDocumentRuns.OwnDocumentsStayHome | cli/src/commands/worktree.ts:2780-2857 | in every run that goes through, links stay with their companies when each planned document that is linked is linked under this company |
| MergeDocumentRuns.PlanDecided | cli/src/commands/worktree.ts:2780-2898 | for distinct document ids and no squatters, in every run that goes through a planned document ends as planned if its plan finds the slot free, as the first for it, and otherwise nothing of it changes |
| MergeDocumentRuns.DocumentDecided | cli/src/commands/worktree.ts:2780-2898 | in such a run a document without such a plan is as it was, and every document keeps its company and its origin |
| MergeDocumentRuns.ForeignLinkMoves | cli/src/commands/worktree.ts:2800-2857 | sound tables and a plan that overwrite another company's document and leave its link on an issue of this company |
| MergeAttachments.ReadSourceAttachmentBody | cli/src/commands/worktree.ts:416-432 | the loop over the source storages returns what the first of them that has the object answers |
| MergeAttachments.FirstBodyIsFirst | cli/src/commands/worktree.ts:416-432 | the object is missing exactly when no storage has it; otherwise the answer is that of the earliest storage that does not report absence, errors included |
| MergePlan.MergeTarget.CopyAttachments | cli/src/commands/worktree.ts:2900-2963 | the attachment loop: skipped, missing, failed, or copied to the target storage and inserted with its asset |
| MergeAttachments.RunCompletes | cli/src/commands/worktree.ts:2900-2963 | each attachment inserted is on an issue of the company, has its asset, and the stored object is the sources' body; every plan is in, or misses its issue or its object |
| MergeAttachments.RunInserts | cli/src/commands/worktree.ts:2937-2962 | every new attachment whose issue and object are there comes in with both rows as planned |
| MergeAttachments.RunWrites | cli/src/commands/worktree.ts:2922-2935 | whether or not the run is refused, old rows are kept and storage is only written under planned keys of the company with the sources' bodies |
| MergeAttachments.AttachmentsAgain | cli/src/commands/worktree.ts:2903-2936 | a second run inserts and writes nothing and only counts missing objects |
| WorktreeQuarantine.WorktreeDb.Quarantine | cli/src/commands/worktree.ts:1186-1274 | the tables after the quarantine, one note for each former in-progress issue and no other, and every counter exact |
| WorktreeQuarantine.WorktreeDb.QuarantineAgents | cli/src/commands/worktree.ts:1193-1222 | the pass over the agents in any order: rows and both counters |
| WorktreeQuarantine.WorktreeDb.QuarantineIssues | cli/src/commands/worktree.ts:1224-1268 | the pass over the affected issues in any order: rows, notes and three counters |
| WorktreeQuarantine.QuarantineMakesHarmless | cli/src/commands/worktree.ts:1186-1274 | afterwards no agent runs, every heartbeat present is disabled, and no issue assigned to an agent alone is todo, in progress or in review |
| WorktreeQuarantine.HarmlessIsFixed | cli/src/commands/worktree.ts:1186-1274 | the databases a quarantine leaves alone are exactly the harmless ones, with all counters zero; so a second run does nothing |
| WorktreeQuarantine.QuarantineTouchesOnlyAgentWork | cli/src/commands/worktree.ts:1224-1252 | only affected issues change, never their company, user or other columns, and the status changes exactly for in-progress ones, to blocked |
| WorktreeQuarantine.NormalizedIsOff | cli/src/commands/worktree.ts:1165-1184 | a normalised configuration has its heartbeat off, reports a change exactly when it was not, keeps every other setting, and is fixed |
| WorktreeList.ParseGitWorktreeList | cli/src/commands/worktree.ts:1647-1683 | the line-driven loop computes the fold of its line step |
| WorktreeList.PorcelainReadsBack | cli/src/commands/worktree.ts:1647-1683 | the parser inverts the printer for any blocks with non-empty unbroken paths and any ignored attributes between, with or without the final newline and the final blank line |
| RemoteFiles.RemoteHost.WriteFile | packages/adapter-utils/src/command-managed-runtime.ts:125-171 | either branch succeeds exactly when every command it needs does, then leaves the whole buffer; a failure leaves the old content or the whole buffer, a stale temporary file never matters, and the standard inputs sent are those of the chosen branch |
| RemoteFiles.FileIsNeverTorn | packages/adapter-utils/src/command-managed-runtime.ts:125-171 | after any sequence of attempts the file holds its first content or the whole of one attempt, never older than the last that reported success |
| RemoteFiles.ChunkedBodies | packages/adapter-utils/src/command-managed-runtime.ts:55-64 | the chunk bodies concatenate to the base64 of the buffer and none exceeds 4 MiB |
| RemoteFiles.ScriptTokenized | packages/adapter-utils/src/command-managed-runtime.ts:141-194 | the shell reads every script of the upload and the download as exactly the words and operators meant, whatever characters the paths hold |
| RemoteFiles.ScriptReadsBack | packages/adapter-utils/src/command-managed-runtime.ts:141-194 | a parser of the tokens makes of the text of any list of commands exactly these commands, so what the shell runs is what was meant |
| RemoteFiles.ReadFile | packages/adapter-utils/src/command-managed-runtime.ts:172-208 | against a remote side whose shell reads the texts sent, and that prints the size with blanks around it and, for each block, any beginning of the base64 of any beginning of the block, broken into lines at will, it terminates and returns exactly the file if and only if the size and every digit of every block came back, and otherwise fails; never wrong bytes |
| Base64.CutDecodesToPrefix | packages/adapter-utils/src/command-managed-runtime.ts:196-197 | whatever is cut off the end of an encoding, the client decodes a beginning of the bytes |
| Base64.WholeNeedsEveryDigit | packages/adapter-utils/src/command-managed-runtime.ts:196-197 | of an encoding cut short it decodes all bytes exactly when every digit is there, padding or not |
| Base64.EncodedLengthExact | packages/adapter-utils/src/command-managed-runtime.ts:62-64 | `base64EncodedLength` is the length of the encoding |
| Base64.StrictDecodesEncoded | packages/adapter-utils/src/command-managed-runtime.ts:135-144 | the strict decoder of the remote side accepts every encoding and recovers the bytes |
| Base64.EncodeConcat | packages/adapter-utils/src/command-managed-runtime.ts:55-60 | bytes cut at a multiple of three encode piece by piece |
| Base64.NodeDecodesEncoded | server/src/agent-auth-jwt.ts:88-94 | the lenient decoder recovers the bytes from the padded and the base64url encoding |
| ShellWords.ShellQuoteReadsBack | packages/adapter-utils/src/command-managed-runtime.ts:43-45 | the shell reads a quoted value back as the value, anywhere in a word |
| ShellWords.QuoteShellValueReadsBack | cli/src/commands/env.ts:408-411 | the same for the other escape, the empty value included |
| ShellWords.ShellExportsReadBack | cli/src/commands/worktree-lib.ts:261-270 | a shell running the block sets exactly the kept entries in order, newlines in values included, if and only if every kept key is a shell name |
| ShellWords.EnvExportBlockReadsBack | cli/src/commands/env.ts:88-89 | the same for the deployment export block |
| ShellWords.UniqueByKey | cli/src/commands/env.ts:397-406 | the loop keeps the first row of each key |
| ShellWords.FirstOfEachKeyIsUnique | cli/src/commands/env.ts:397-406 | the kept keys are distinct and are all the keys |
| ShellWords.FirstOfEachKeyIsFirst | cli/src/commands/env.ts:397-406 | the kept rows are exactly those that carry their key first |
| ExcludePatterns.MatchesMeansSegments | packages/adapter-utils/src/exclude-patterns.ts:12-24 | for every path text and pattern text the string tests hold exactly when the pattern's segments stand in the path's segment list as its wildcards say |
| ExcludePatterns.ContainsTest | packages/adapter-utils/src/exclude-patterns.ts:5-10 | the four string tests find a run of segments exactly where the segment list holds it |
| ExcludePatterns.ExclusionClosedUnderDescendants | packages/adapter-utils/src/exclude-patterns.ts:26-28 | once a path is excluded, so is everything below it |
| ExcludePatterns.BareWildcardsMatchNothing | packages/adapter-utils/src/exclude-patterns.ts:13-15 | two bare wildcards exclude no path of non-empty segments |
| FirstAdmin.RoleTable.ClaimFirstInstanceAdmin | server/src/first-admin-claim.ts:19-55 | one undisturbed call: told of the first admin, or inserted and claimed, or rolled back when its hook throws |
| FirstAdmin.InterleavingIsSerial | server/src/first-admin-claim.ts:26-54 | under every interleaving the finished calls are those of one serial order, and the table holds exactly what that order leaves |
| FirstAdmin.AtMostOneFirstAdmin | server/src/first-admin-claim.ts:26-54 | starting without an admin at most one caller claims, it is the one admin, everyone else is told of it, and somebody has claimed once anybody has finished |
| FirstAdmin.NoClaimBesideAnAdmin | server/src/first-admin-claim.ts:29-41 | where an admin exists nobody claims |
| FirstAdmin.FailureLeavesNoTrace | server/src/first-admin-claim.ts:43-53 | a failed call leaves the table as it was and the lock free |
| FirstAdmin.LaterCallerCanWin | server/src/first-admin-claim.ts:26-54 | so long as nobody has claimed, any caller that has not begun has a run in which it claims: at once if the lock is free, after a failure of its holder if not |
| FirstAdmin.RunKeepsInv | server/src/first-admin-claim.ts:26-54 | the invariant of table, lock, log and callers holds in every reachable state |
| FirstAdmin.NoDeadlock | server/src/first-admin-claim.ts:27-27 | while a caller is unfinished some caller can take a step |
| FirstAdmin.EveryStepIsProgress | server/src/first-admin-claim.ts:26-54 | every step of a caller brings the end nearer |
| BoardClaim.Board.Initialize | server/src/board-claim.ts:44-67 | the challenge after a start-up: withdrawn, kept, or drawn afresh when expired or used |
| BoardClaim.Board.ClaimBoardOwnership | server/src/board-claim.ts:86-161 | outcome and tables of a claim, including a failed transaction and a failed grant |
| BoardClaim.ClaimKeepsAnAdmin | server/src/board-claim.ts:98-115 | a committed claim leaves an admin if and only if the claimer is not local-board or another admin exists |
| BoardClaim.ClaimHandsOver | server/src/board-claim.ts:98-143 | the claimer is admin instead of local-board and active in every company; nobody else's membership changes |
| BoardClaim.RunKeepsMemberships | server/src/board-claim.ts:44-161 | over every run, the memberships of users who never claim, and of principals that are no users, stay as they were |
| BoardClaim.RunKeepsRoles | server/src/board-claim.ts:44-161 | over every run, only local-board can lose the admin role and only users who claim can gain it; other roles stay |
| BoardClaim.RunKeepsAnAdmin | server/src/board-claim.ts:86-161 | over every run of claims by signed-in users an instance with an admin keeps one |
| BoardClaim.ClaimedForever | server/src/board-claim.ts:35-42 | after one successful claim and whatever runs follow, every claim is refused and no token is available at any time, roles and memberships stay as the claim left them, and the used token answers "claimed" until the next start-up and "invalid" from then on |
| BoardClaim.SettledForever | server/src/board-claim.ts:35-67 | once the instance is owned and no challenge is open, every run leaves roles and memberships as they are, and the challenge as it is until the first start-up, which withdraws it |
| BoardClaim.FailedGrantCanBeRetried | server/src/board-claim.ts:144-161 | after a failed grant the same claim again changes no table and closes the challenge |
| BoardClaim.ChallengeLifetime | server/src/board-claim.ts:35-67 | a fresh challenge is available to the holder of token and code exactly in an authenticated deployment whose only admin is local-board, for exactly a day |
| AgentJwt.MintThenVerify | server/src/agent-auth-jwt.ts:116-249 | a minted token whose header and claims read back verifies to the minted claims exactly for times up to its expiry, and to nothing afterwards |
| AgentJwt.SomePlatformReadsBack | server/src/agent-auth-jwt.ts:116-155 | codings under which header and claims read back exist, for every configuration and grant |
| AgentJwt.OtherInstanceRejects | server/src/agent-auth-jwt.ts:157-249 | such a token of an instance with an id verifies to nothing under any other instance id, whatever the other settings and whatever the hash |
| AgentJwt.AcceptedIsSigned | server/src/agent-auth-jwt.ts:157-249 | whatever is accepted is signed over its own header and claims with the key of this instance and that company, or, where still allowed, with the raw secret |
| AgentJwt.OnlyExpiryDependsOnTime | server/src/agent-auth-jwt.ts:157-249 | the clock decides nothing but expiry |
| AgentJwt.KeyDerivationSeparates | server/src/agent-auth-jwt.ts:84-86 | different (instance, company) pairs derive from different texts when company ids hold no colon |
| UiBranding.ApplyIsIdempotent | server/src/ui-branding.ts:205-230 | branding a page twice is branding it once, for every page in which neither favicon marker is repeated |
| UiBranding.ApplyTwiceDecided | server/src/ui-branding.ts:205-230 | branding a page twice is branding it once if and only if the page before branding, with its favicon block filled and its runtime block emptied, has no favicon block or one that holds the favicon links; the runtime branding does not matter |
| UiBranding.ApplyTwiceExactly | server/src/ui-branding.ts:205-230 | branding a page twice is branding it once if and only if the branded page has no favicon block or one that holds the favicon links |
| UiBranding.RepeatedFaviconBlock | server/src/ui-branding.ts:205-230 | a page, for every branding, that is branded differently the second time: its runtime block holds one favicon block and another is behind it |
| UiBranding.FillIsIdempotent | server/src/ui-branding.ts:205-219 | rewriting one marked block is idempotent on every text |
| UiBranding.OnlyMarkedRegionsChange | server/src/ui-branding.ts:221-230 | with the first markers of each kind in order and the runtime block first, the page changes between the markers only, where it holds the rendered content |
| UiBranding.OnlyMarkedRegionsChangeSwapped | server/src/ui-branding.ts:221-230 | the same with the favicon block first |
| UiBranding.ContentsInert | server/src/ui-branding.ts:180-203 | rendered content never contains or straddles a marker, whatever the branding values hold |
| UiBranding.EscapedAttributeReadsBack | server/src/ui-branding.ts:132-138 | an HTML attribute reader gets the value back from its escaped form and stops at its own closing quote |
| HslColor.HslToHex | server/src/ui-branding.ts:59-92 | the branch-by-branch computation yields the colour of the channels of the definition, a lower-case #rrggbb that normalising leaves alone |
| HslColor.ClampNeverActs | server/src/ui-branding.ts:53-57 | for any hue, saturation and lightness every channel lies in 0 to 255 before clamping |
| HslColor.ChannelsMeasured | server/src/ui-branding.ts:59-92 | the channels have the lightness and the chroma asked for |
| HslColor.HueReadsBack | server/src/ui-branding.ts:68-87 | the hue can be read back from the channels, so each of the six branches is the right one |
| HslColor.NormalColors | server/src/ui-branding.ts:40-51 | normalising yields a lower-case #rrggbb and leaves exactly those alone |
| HslColor.DeriveColorFromSeed | server/src/ui-branding.ts:94-100 | the hash loop stays within 32 bits and its intermediate value within 53; the colour is that of hue hash mod 360 |
| LineStream.ChunkingIsInvisible | cli/src/commands/heartbeat-run.ts:158-175 | for every way of cutting standard output and mixing in other streams, the lines formatted and the text held back are those of one split of the whole text |
| LineStream.RunFollower.HandleStreamChunk | cli/src/commands/heartbeat-run.ts:158-175 | one chunk's effect on what has been printed and on the buffer |
| LineStream.RunFollower.Follow | cli/src/commands/heartbeat-run.ts:219-281 | the polling loop ends with the first poll in which the run has disappeared, has a terminal status or is past the deadline; what has been formatted then is one split of all output received, with the unfinished last line exactly if it is not blank and any status has been set |
| LineStream.SplitResumes | cli/src/commands/heartbeat-run.ts:169-171 | finished lines stay as they are whatever follows; only the unfinished last line needs keeping, even with a CR at the end of a chunk |
| LineStream.SplitUnsplit | cli/src/commands/heartbeat-run.ts:170-170 | splitting recovers the lines of every text written with LF or CR LF |
| LineStream.UnsplitSplit | cli/src/commands/heartbeat-run.ts:170-170 | every text arises so: the split loses nothing but the choice of terminator |

## Left out

- Building the merge plan: the plan is an input of any shape; `cli/src/commands/worktree-merge-history-lib.ts` is not part of this model. Where a law needs distinct document ids it says so.
- Columns the merge copies unchanged are taken together in one list a row; the content and origin of a planned document arrive as two records.
- Foreign keys other than the parent of an issue: they could only refuse a merge, which then leaves the tables as they were. The other unique indexes of the merged tables are modelled, except those on issues of special origins, which an import never gives.
- Which row is `rows[0]` when two companies' links share an issue and key: the model takes the other document's row. Sound document tables, which every merge keeps, have no such pair.
- MergePlan.MergeTarget.ApplyMergePlan: the target storage is a map that refuses some keys for good; a put that fails after writing is not modelled.
- WorktreeQuarantine.WorktreeDb.Quarantine: the text of the quarantine note is one fixed value, not its letters; both passes see the tables as of the start of the transaction.
- RemoteFiles.RemoteHost.WriteFile: uploads to one path are taken one after the other, the remote `base64 -d` reports success only after the whole input, and the parent directory, timeouts and progress callbacks are not modelled.
- RemoteFiles.ReadFile: the file does not change while it is read, and the remote commands print nothing else; what the commands make of a path that is empty or begins with a dash is not modelled.
- FirstAdmin: the table lock is exclusive between claims and blocks other writers until commit; other writers change only rows of other roles; the order in which rows come back is that of insertion.
- BoardClaim.RunKeepsAnAdmin: claims do not overlap, since the code does not serialise them; the default grants are an abstract step that may fail.
- AgentJwt: the keyed hash is any function, and JSON and UTF-8 are any printers and readers that give back the header and the claims in question; the scope of an API key is any function; the instance id is a parameter.
- UiBranding: the branding is an input whose name, colours, favicon address and instance id are any texts; reading them from the environment, drawing the favicon and choosing the readable text colour (which needs powers of reals) are not modelled.
- LineStream.RunFollower.Follow: messages other than log chunks are not modelled, and a poll lists the chunks of this run's events only.
- HslColor: numbers are exact reals, so rounding of binary floating point is not modelled.
- `sanitizeWorktreeInstanceId`, the doctor checks, prompts, banners, process spawning, redaction by regular expressions and HTTP wiring: not modelled, as they are single expressions, I/O or tables.
