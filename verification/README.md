# Verification model of the agent control plane

A Dafny model of the decision logic of a Go control plane that keeps users, agent profiles,
skills, knowledge and runtimes in MySQL. Its handlers are short programs over a few tables;
each is modelled as one atomic step, and a handler that fails inside its transaction changes
nothing. Rows are values in maps and sequences keyed by the unique keys of the migrations.

Every component comes in the same parts:

- `...Model`: the tables, the queries, and what each step does, as functions of a `State`;
  events and runs over them.
- `...Theorems` (also `ReviewInvariants`, `ReviewLog`, `ReviewRoles`, `ReviewProgress` and
  `AgentProfiles`): the properties, for all inputs or over all runs.
- `...Outcomes` (also `AgentRows`, `KnowledgeOrder` and `SkillOrder`): when each request is
  accepted and what it writes, spelled out on the tables instead of through the conditions and
  update functions of the model, so that a mistake made in model and `Server` alike fails here.
- `...Store`: a class `Server` whose fields are the tables and whose methods update them
  statement by statement, with the loops of the source. Each method is proved to do what the
  model says; the methods take the place of the SQL statements and loops, so a wrong branch,
  a skipped update or a swapped assignment fails its contract.

| component | what it is about |
|---|---|
| Review | submission of a skill version, snapshot of the workflow, auto-advance, decisions, completion, publication |
| Agent | managed agent profiles reconciled with matched templates |
| Chat | regenerated answers and the one selected candidate per group |
| Import | Q&A and Markdown imports, tags, duplicates, reports and jobs |
| Approval | approval requests driving executions and skill installs, with the kill switch |
| Knowledge, Decimal | access to a knowledge base, policy keys and their codec |
| Skill | effective skill policies and installs |
| Runtime | runtime template resolution and its conflicts |
| Document | drafts and published versions |
| SplitSql, Text | the migration splitter and the string functions it uses |

Where the code differs from its documentation, or from what one would expect, the model follows
the code:

- `docs/knowledge-base.md:3` says that editing a draft creates a new version. The code
  overwrites a draft; a version is added exactly when the latest one is not a draft
  (`DocumentTheorems.EditAddsVersionIff`, and `DocumentTheorems.EditedDraftHere` for an input).
- `docs/domain-model.md:35` and the comment on the resolver put role bindings before
  department bindings. The code compares priorities only; `RuntimeTheorems.RoleDecidesIff`
  says exactly when departments make no difference, and
  `RuntimeTheorems.DepartmentBeatsRoleHere` shows a department winning.
- `docs/domain-model.md:35` calls knowledge access the union of the allowed bindings, while line
  57 of the same file lets explicit policies count as well, user before role, department and
  organization. The code does the latter (`KnowledgeTheorems.AccessSpec`); the former holds
  exactly as `KnowledgeTheorems.BindingsDecideIff` says, and fails at
  `KnowledgeTheorems.PolicyCanLower`.
- `docs/domain-model.md:33` says that a managed profile is deduplicated by user and template.
  Duplicate matches do share one profile, with all its sources, but profiles are unique by user
  and name. A renamed template gets a second profile: `AgentProfiles.OneManagedProfileIff` says
  exactly when a template has only one, `AgentProfiles.RenamedTemplateHere` and
  `AgentProfiles.RenamingLeavesTwoProfiles` show it failing. Templates that share a name compete
  for one profile (`AgentProfiles.EveryTemplateHasItsRowIff`).
- The 500-file limit of a Markdown upload is reported but keeps no file out
  (`ImportTheorems.LargeUploadIsNotValidated`): the counters add up, and every stored file is a
  valid one, only as `ImportTheorems.MdCountersConserveIff` and
  `ImportTheorems.StoredFilesAreValidIff` say; up to the limit `ImportTheorems.MdByteBound` holds.
- A document need not have the status of its latest version, because a refused write is ignored
  (`DocumentTheorems.StatusesAgreeIff`, and `DocumentTheorems.RefusedTitleHere` for an input: a
  title longer than its column).
- A cancelled execution is completed by a later approval
  (`ApprovalTheorems.CancelledCanComplete`).

## Model

| member | source | states |
|---|---|---|
| `ReviewStore.Server.ApproveAutoSteps` | backend/cmd/server/v033_completion_hotfix.go:1085-1112 | The loop terminates, approves exactly the maximal run of auto steps from the frontier and opens the manual step behind it, and tells whether there is one. |
| `ReviewStore.Server.Advance` | backend/cmd/server/v033_completion_hotfix.go:1084-1113 | The loop and the completion call at its exits leave exactly the closed form: auto steps from the frontier approved, and either the manual step behind them open or instance, submission and version approved. |
| `ReviewStore.Server.Finish` | backend/cmd/server/v033_completion_hotfix.go:1115-1135 | Instance, submission and version become approved together, unless some step is pending or in progress; then nothing changes. |
| `ReviewStore.Server.ActiveWorkflow` | backend/cmd/server/v033_completion_hotfix.go:1049-1052 | The active workflow of the organization with the least id, or none when the organization has no active workflow. |
| `ReviewStore.Server.Submit` | backend/cmd/server/v033_completion_hotfix.go:998-1081 | A version without an open submission gets a submission, an in-progress instance with one step per workflow step, and its leading auto steps settled; anything missing rolls the whole step back. |
| `ReviewStore.Server.Decide` | backend/cmd/server/v033_completion_hotfix.go:1195-1271 | An accepted verdict is recorded on its step with the reviewer; approval settles the steps behind it, a refusal stops instance and submission; every other request changes nothing. |
| `ReviewStore.Server.OpenNextAndAdvance` | backend/cmd/server/v033_completion_hotfix.go:1253-1270 | Opening the first pending step, or completing when there is none, and then running the advance loop is the same as settling once. |
| `ReviewStore.Server.PublishSubmission` | backend/cmd/server/main.go:1200-1222 | Only an approved submission is published; its version becomes published and immutable with it. |
| `ReviewStore.Server.PublishVersion` | backend/cmd/server/phase2.go:1326-1345 | Only an approved version is published, and becomes immutable. |
| `ReviewStore.Server.ValidateSteps` | backend/cmd/server/v033_completion_hotfix.go:951-970 | True exactly when each step has a non-blank name, a known mode, an existing role if any, and a role if it is manual. |
| `ReviewStore.Server.SaveWorkflow` | backend/cmd/server/v033_completion_hotfix.go:882-949 | A valid request creates the workflow or replaces all its steps; an invalid one changes nothing. |
| `ReviewInvariants.SettledShape` | backend/cmd/server/v033_completion_hotfix.go:1084-1113 | After settling, the frontier stands at the end of the auto run, the step there is manual and in progress, everything behind it is pending, and step definitions are unchanged. |
| `ReviewInvariants.SecondFinishIsNoOp` | backend/cmd/server/v033_completion_hotfix.go:1257-1269 | The completion call that ends the advance loop changes nothing after a last-step approval has already completed the instance. |
| `ReviewInvariants.AcceptedAtFrontier` | backend/cmd/server/v033_completion_hotfix.go:1225-1240 | In a consistent state an accepted decision is always about the first step that is not approved, of a submission that is in review. |
| `ReviewInvariants.RunKeepsInv` | backend/cmd/server/v033_completion_hotfix.go:1005-1135 | Every run of submissions, decisions, publications, workflow edits and directory changes keeps the four tables consistent. |
| `ReviewInvariants.ReviewShape` | backend/cmd/server/v033_completion_hotfix.go:1034-1135 | In every reachable state the steps are approved*, then at most one step that is open or refused, then pending*, and the instance status is determined by that step, in both directions. |
| `ReviewInvariants.TablesAgree` | backend/cmd/server/v033_completion_hotfix.go:1005-1020 | In every reachable state a version has at most one submission in review or approved, submissions and instances are in bijection, and their statuses correspond. |
| `ReviewInvariants.PublicationNeedsFullReview` | backend/cmd/server/main.go:1208-1220 | Whatever step moves a version to published, the version then has a submission that is approved and not yet published, whose instance has every step approved; earlier rounds do not count. |
| `ReviewInvariants.PublishedSubmissionIsFullyReviewed` | backend/cmd/server/main.go:1209-1216 | In every reachable state a published submission has an instance with every step approved. |
| `ReviewLog.SnapshotIsFrozen` | backend/cmd/server/v033_completion_hotfix.go:1053-1081 | Workflow edits interleaved freely, the step list of an instance never changes after it exists. |
| `ReviewLog.SubmissionTakesSnapshot` | backend/cmd/server/v033_completion_hotfix.go:1045-1081 | A new instance carries the steps of the chosen workflow of the submitter's organization, and the submission names submitter and version. |
| `ReviewLog.DecisionsFollowTheManualSteps` | backend/cmd/server/v033_completion_hotfix.go:1225-1271 | Over every run the accepted decisions on an instance are on its manual steps, in step order, each once, by a holder of the required role if one is set; it is approved exactly when every manual step was approved, so with m manual steps after exactly m approvals, and never takes more than m decisions. |
| `ReviewRoles.EveryDecisionIsByARoleHolder` | backend/cmd/server/v033_completion_hotfix.go:966-968 | From workflows that passed validation on, every decision ever accepted was taken on a step with a required role by a user holding that role at that moment. |
| `ReviewProgress.OpenReviewAccepts` | backend/cmd/server/v033_completion_hotfix.go:1220-1240 | In every reachable state an instance under review accepts every verdict on its frontier step from exactly the users holding the role of that step. |
| `ReviewProgress.EveryReviewCanBeCompleted` | backend/cmd/server/v033_completion_hotfix.go:1225-1271 | In every reachable state, if m manual steps of an instance under review remain, approvals by m users who may decide them, one per step in order, complete it. |
| `ReviewOutcomes.SubmissionAcceptedIff` | backend/cmd/server/v033_completion_hotfix.go:1005-1066 | A submission is accepted exactly when the version exists, no submission of it is pending, in review or approved, and the active workflow of the organization of the user with the least id has steps; refused and published submissions do not stand in the way. |
| `ReviewOutcomes.SubmissionOutcome` | backend/cmd/server/v033_completion_hotfix.go:998-1113 | An accepted submission adds one submission and one instance with one step per workflow step under fresh ids: leading auto steps approved, the next one open, the rest pending; everything else stays. |
| `ReviewOutcomes.ResubmissionOpensFreshInstance` | backend/cmd/server/v033_completion_hotfix.go:1005-1009 | In every reachable state, after a rejection or a request for changes a resubmission of the version is accepted and opens a fresh instance. |
| `ReviewOutcomes.DecisionAcceptedIff` | backend/cmd/server/v033_completion_hotfix.go:1204-1240 | A decision is accepted exactly when the instance is in progress and the step named is its open manual step, whose role, if it has one, the user holds. |
| `ReviewOutcomes.DecisionOutcome` | backend/cmd/server/v033_completion_hotfix.go:1238-1271 | The step carries verdict and reviewer; an approval also approves the auto steps behind it and opens the manual step behind those, or, when none is left, approves instance, submission and version; a refusal marks instance and submission only. |
| `ReviewOutcomes.DecisionsAreOnRecord` | backend/cmd/server/v033_completion_hotfix.go:1236-1239 | Over every run, each accepted decision is still found on its step, with its verdict and its user. |
| `ReviewOutcomes.VersionPublished` | backend/cmd/server/phase2.go:1326-1345 | An approved version becomes published and immutable; any other request changes nothing. |
| `ReviewOutcomes.SubmissionPublished` | backend/cmd/server/main.go:1200-1222 | In every reachable state an approved submission is published, and its version becomes published and immutable; any other request changes nothing. |
| `ReviewOutcomes.WorkflowSaved` | backend/cmd/server/v033_completion_hotfix.go:882-970 | A sound request, spelled out condition by condition, stores exactly the requested steps in order, active unless disabled was asked for; any other changes nothing. |
| `AgentStore.Server.UpsertManaged` | backend/cmd/server/phase3_templates.go:370-375 | The upsert leaves the row of the template at (user, name) and its source rows; an existing row keeps only its kind. |
| `AgentStore.Server.RecordTemplateSources` | backend/cmd/server/phase3_templates.go:387-421 | The profile lists one text per distinct binding that reaches the user, and each is upserted under (profile, template, scope, id) with its label. |
| `AgentStore.Server.DisableUnmatched` | backend/cmd/server/phase3_templates.go:378-384 | Exactly the managed profiles of the user whose source template is not matched are disabled. |
| `AgentStore.Server.Consolidate` | backend/cmd/server/phase3_templates.go:356-385 | The upsert loop followed by the sweep, for any row order of the query. |
| `AgentStore.Server.AssignProfileTemplates` | backend/cmd/server/phase2.go:922-936 | The older pass inserts a managed row only where (user, name) is free. |
| `AgentStore.Server.EnsureAutomaticProvisioned` | backend/cmd/server/phase2_lifecycle.go:3-18 | Whatever the provisioning mode, the profiles end as consolidation alone leaves them; automatic provisioning also sets up exactly the runtimes of the user from the default template, or just starts them. |
| `AgentStore.Server.ConsolidateAllManagedAgents` | backend/cmd/server/phase3_templates.go:342-354 | The loop over users consolidates one after the other, whatever the names; if each user has distinct names among the matched templates, the result is the declarative target of the set of users. |
| `AgentTheorems.ConsolidateIsTarget` | backend/cmd/server/phase3_templates.go:356-385 | With distinct names among the matched templates, consolidation equals a declarative target that does not mention order. |
| `AgentTheorems.ConsolidatedAt` | backend/cmd/server/phase3_templates.go:365-384 | Without a condition on names: a row that some matched template is named after carries the last such template; any other managed row of the user is disabled if its source is not matched, and nothing else changes. |
| `AgentTheorems.ConsolidationConverges` | backend/cmd/server/phase3_templates.go:365-384 | With distinct names among the matched templates, each one's profile is active, managed, at the template's version and lists all its sources; managed profiles without a matched source are disabled; other users and other unmanaged profiles are untouched; no further row appears. |
| `AgentTheorems.ConsolidationIsIdempotent` | backend/cmd/server/phase3_templates.go:356-385 | Running again in the same row order changes nothing, without a condition on names. |
| `AgentTheorems.StableInAnyOrderIff` | backend/cmd/server/phase3_templates.go:356-385 | Running again in every other row order changes nothing exactly when no two matched templates share a name. |
| `AgentTheorems.RowOrderIsIrrelevantIff` | backend/cmd/server/phase3_templates.go:357-372 | The result is the same for all row orders exactly when no two matched templates share a name. |
| `AgentTheorems.ConsolidateAllIsTarget` | backend/cmd/server/phase3_templates.go:342-354 | With distinct names for each user, consolidating any sequence of users, with repetitions and any row orders, gives the target of the set of users. |
| `AgentTheorems.UserOrderIsIrrelevant` | backend/cmd/server/phase3_templates.go:342-354 | Two sequences of the same visits leave the same tables, without a condition on names, as long as each user is visited in one row order. |
| `AgentProfiles.OneManagedProfileIff` | backend/cmd/server/phase3_templates.go:370-384 | Whatever the names, no managed profile of the user but the one it is named after names a matched template exactly when, before, every managed profile naming it stood at a key some matched template is named after; with distinct names that profile is there. |
| `AgentProfiles.RenamedTemplateHere` | backend/cmd/server/phase3_templates.go:370-384 | One user with a renamed template: after consolidation both the former and the new profile are managed and name it. |
| `AgentProfiles.RenamingLeavesTwoProfiles` | backend/cmd/server/phase3_templates.go:370-384 | With distinct names, consolidating, renaming a matched template to a free name and consolidating again leaves two active managed profiles for it. |
| `AgentProfiles.EveryTemplateHasItsRowIff` | backend/cmd/server/phase3_templates.go:370-375 | Every matched template has a managed profile of its name that names it, for all row orders, exactly when no two matched templates share a name. |
| `AgentModel.AssignMatchesLess` | backend/cmd/server/phase2.go:923 | Every template the older pass matches is matched by consolidation. |
| `AgentTheorems.AssignIsAbsorbed` | backend/cmd/server/phase2_lifecycle.go:16-17 | Assigning first and then consolidating gives the same profiles and sources as consolidating alone, without any condition on names. |
| `AgentRows.RowsAre` | backend/cmd/server/phase3_templates.go:357-359 | The query returns, once each, exactly the active templates with a binding to the organization, the department, a role, or the user. |
| `AgentRows.TemplateColumns` | backend/cmd/server/phase3_templates.go:370-375 | Without a condition on names: the profile of the last matched template of a name has the display name, description, class, model (none for 0) and version of the template, lists its sources, and keeps the kind it had, or is managed if new. |
| `AgentRows.OtherProfiles` | backend/cmd/server/phase3_templates.go:378-384 | Every profile that no matched template is named after stays, except that a managed one of the user whose source is not bound is disabled. |
| `AgentRows.RecordedRows` | backend/cmd/server/phase3_templates.go:387-421 | The recorded sources are exactly those of the bindings that reach the user, each with its label; all earlier rows stay. |
| `AgentRows.AssignRowsAre` | backend/cmd/server/phase2.go:923 | The older query finds exactly the active templates with an organization or department binding of the organization of the user. |
| `AgentRows.AssignedRow` | backend/cmd/server/phase2.go:924-934 | The row the older pass inserts, column by column; a name that is taken is left alone. |
| `ChatStore.Server.Send` | backend/cmd/server/v033_completion_hotfix.go:1635-1682 | A trimmed question and its reply are appended, both selected; a blank text, a foreign conversation or a missing model changes nothing. |
| `ChatStore.Server.Regenerate` | backend/cmd/server/v033_completion_hotfix.go:1715-1758 | The group is deselected and a selected candidate is appended that names the root; refused requests change nothing. |
| `ChatStore.Server.Select` | backend/cmd/server/v033_completion_hotfix.go:1760-1775 | Exactly the chosen candidate of its group is selected; other groups keep their selection. |
| `ChatTheorems.ChatRun` | backend/cmd/server/v033_completion_hotfix.go:1660-1769 | Over every run, candidates point to a root assistant message of the same conversation, each group has exactly one selected message, and the surplus of selected answers over questions stays what it was. |
| `ChatTheorems.OneSelectedAnswerPerQuestion` | backend/cmd/server/v033_completion_hotfix.go:1660-1752 | Starting from no messages, each conversation always has as many selected answers as questions. |
| `ChatTheorems.ReselectingUndoesRegeneration` | backend/cmd/server/v033_completion_hotfix.go:1734-1769 | Regenerating and then choosing the formerly selected candidate restores every old row and every transcript exactly. |
| `ChatTheorems.MessagesAreImmutable` | backend/cmd/server/v033_completion_hotfix.go:1660-1769 | Nothing but the selection flag of a message ever changes. |
| `ChatOutcomes.MessageSent` | backend/cmd/server/v033_completion_hotfix.go:1635-1682 | The owner appends the trimmed question and its reply, both selected; any other request does nothing. |
| `ChatOutcomes.AnswerRegenerated` | backend/cmd/server/v033_completion_hotfix.go:1715-1758 | An accepted request appends one selected candidate in the same conversation that names the first of its group and answers the last question before the regenerated message; the group is deselected and nothing else changes. It is accepted exactly for an assistant message of the user with a question before it. |
| `ChatOutcomes.LaterMessagesDoNotMatter` | backend/cmd/server/v033_completion_hotfix.go:1730 | Messages after the regenerated one make no difference to whether and what the new candidate answers. |
| `ChatOutcomes.CandidateSelected` | backend/cmd/server/v033_completion_hotfix.go:1760-1775 | The chosen message is selected and the rest of its group is not; nothing else changes. |
| `ImportStore.ParseCsv` | backend/cmd/server/v033_completion_hotfix.go:536-589 | The reading loop computes rows with their tags and errors of the record stream, with the limits and header checks of the source. |
| `ImportTags.CompletionTags` | backend/cmd/server/v033_completion_hotfix.go:521-534 | The two loops with the seen map compute the first occurrences of the trimmed, non-empty parts between bars. |
| `ImportTags.TagsSpec` | backend/cmd/server/v033_completion_hotfix.go:521-534 | Tags are non-empty, trimmed, free of bars and distinct, and are exactly the parts that are not blank. |
| `ImportTags.TagsAreStable` | backend/cmd/server/v033_completion_hotfix.go:571-664 | Cleaning tags when a row is read and again when it is written is the same as cleaning them once. |
| `ImportTheorems.UntaggedCsvTagsItsFirstColumn` | backend/cmd/server/v033_completion_hotfix.go:559-573 | In a CSV text without a tags column each row gets the tags of the first field of its record; the rows come without tags exactly when each of those fields has nothing but white space between its bars. |
| `ImportTheorems.QuestionBecomesTagHere` | backend/cmd/server/v033_completion_hotfix.go:559-573 | The columns question and answer and one record: its row is tagged with its question. |
| `ImportStore.Server.QaDuplicatesOf` | backend/cmd/server/v033_completion_hotfix.go:610-627 | The duplicate list, each row with its reason, in row order. |
| `ImportStore.Server.ImportQa` | backend/cmd/server/v033_completion_hotfix.go:629-688 | Table, job row and report after a Q&A import under a given pattern of write failures, with every failure and duplicate in order. |
| `ImportStore.Server.Validate` | backend/cmd/server/v033_completion_hotfix.go:749-782 | Errors, duplicates, valid count and total size of a Markdown upload; a refused file still counts towards the size. |
| `ImportTheorems.ValidationAddsUp` | backend/cmd/server/v033_completion_hotfix.go:749-782 | Up to 500 files valid + errors + duplicates = files and the total is that of all contents; beyond, one error and zeros. |
| `ImportStore.Server.ImportMarkdown` | backend/cmd/server/v033_completion_hotfix.go:784-842 | Table, job row and report after a Markdown import under a given pattern of write failures, with every failure and duplicate in order. |
| `ImportTheorems.FailuresAreListed` | backend/cmd/server/v033_completion_hotfix.go:657-665 | A position is reported as failed exactly when it was offered to the table and its write did not succeed. |
| `ImportModel.ImportStatus` | backend/cmd/server/v033_completion_hotfix.go:721-729 | Completed exactly without failures and duplicates, partial exactly with some success and some of them, failed exactly with some of them and no success. |
| `ImportTheorems.ParseConserves` | backend/cmd/server/v033_completion_hotfix.go:560-587 | Each record becomes one row or one error, rows are trimmed and complete, and only the record beyond the limit becomes both and ends the reading. |
| `ImportTheorems.QaCountersConserve` | backend/cmd/server/v033_completion_hotfix.go:647-678 | Under any pattern of write failures, success + failed + duplicates = rows + parse errors. |
| `ImportTheorems.QaCreatesDistinctQuestions` | backend/cmd/server/v033_completion_hotfix.go:610-677 | The created items have questions that are pairwise distinct after trimming and lowering, and none equals the title of a live Q&A item. |
| `ImportTheorems.QaReimport` | backend/cmd/server/v033_completion_hotfix.go:610-677 | On re-import a row is new again exactly when it was new the first time and its item row could not be written. |
| `ImportTheorems.QaReimportAddsNothing` | backend/cmd/server/v033_completion_hotfix.go:647-677 | Without write failures the second import of a request creates no item and reports every row as a duplicate. |
| `ImportTheorems.MdCountersConserveIff` | backend/cmd/server/v033_completion_hotfix.go:749-832 | The Markdown counters add up to the number of files exactly when at most 500 files were sent. |
| `ImportTheorems.MdByteBound` | backend/cmd/server/v033_completion_hotfix.go:757-765 | With at most 500 files exactly the accepted, writable files are stored, and their contents total at most 1,048,576. |
| `ImportTheorems.LargeUploadIsNotValidated` | backend/cmd/server/v033_completion_hotfix.go:749-752 | Beyond 500 files every file whose row can be written is stored, blank, oversized or duplicate. |
| `ImportTheorems.StoredFilesAreValidIff` | backend/cmd/server/v033_completion_hotfix.go:749-825 | Every stored file passed validation exactly when at most 500 files were sent or every file that can be written is acceptable. |
| `ImportTheorems.MdReimportAddsNothing` | backend/cmd/server/v033_completion_hotfix.go:766-778 | With at most 500 files and no write failures, the same upload again adds nothing. |
| `ImportOutcomes.QuestionsStored` | backend/cmd/server/v033_completion_hotfix.go:610-677 | The items appended are, in order, one for each new question whose item can be written, with the question, the answer and the cleaned tags of that very row. |
| `ImportOutcomes.DuplicatesExplained` | backend/cmd/server/v033_completion_hotfix.go:610-627 | A row is reported exactly when it is not new, with its number and the reason. |
| `ImportOutcomes.FilesStored` | backend/cmd/server/v033_completion_hotfix.go:749-832 | The items appended are, in order, one for each writable file that is new, or sent with more than 500, with the trimmed title, the contents without byte-order mark and the cleaned tags of that very file. |
| `ImportOutcomes.ErrorsExplained` | backend/cmd/server/v033_completion_hotfix.go:754-765 | An error is reported exactly for each file with a blank title or blank contents, or beyond 1048576 bytes in total, with its number and the reason. |
| `ImportOutcomes.RepeatsExplained` | backend/cmd/server/v033_completion_hotfix.go:766-778 | A duplicate is reported exactly for each sound file whose title is that of an earlier sound file or of a stored one, with its number and the reason. |
| `ImportOutcomes.RecordRead` | backend/cmd/server/v033_completion_hotfix.go:562-582 | A record becomes a row with its fields trimmed exactly when it has both columns and neither is blank; otherwise the error says why. |
| `ImportOutcomes.RequestRead` | backend/cmd/server/v033_completion_hotfix.go:536-560 | Sent rows win; a text that is too long, has no header or lacks a column gives no row and one error. |
| `ImportOutcomes.ReadingStops` | backend/cmd/server/v033_completion_hotfix.go:560-587 | At most 501 rows are kept, and each error names the line of a record that gives no row, or is the one behind 500 others. |
| `ApprovalStore.Server.CreateApproval` | backend/cmd/server/phase2.go:1858-1867 | A pending request with a fresh id and the chosen reviewer, and its pending approval step. |
| `ApprovalStore.Server.CreateExecution` | backend/cmd/server/phase3_execution.go:60-94 | A high or critical risk creates a pending request and a waiting execution that names it, anything else a completed execution. |
| `ApprovalStore.Server.ApplyInstall` | backend/cmd/server/v033_completion_hotfix.go:1416-1426 | The upsert on (profile, skill), refused exactly when the user does not own the profile. |
| `ApprovalStore.Server.CreateInstallApproval` | backend/cmd/server/v033_completion_hotfix.go:1428-1445 | A pending request and a parked row that names it; an existing row keeps its runtime state. |
| `ApprovalStore.Server.RequestInstall` | backend/cmd/server/v033_completion_hotfix.go:1361-1413 | By policy the install is refused, parked behind a request, or applied at once. |
| `ApprovalStore.Server.Decide` | backend/cmd/server/v033_completion_helpers.go:48-137 | A decision by another user on a pending request resolves request and approval step and applies its effects, or, when it cannot be applied, is rolled back entirely. |
| `ApprovalStore.Server.KillSwitch` | backend/cmd/server/phase3.go:503-527 | The runtime is marked killed and stopped, and exactly its queued, running and waiting executions are cancelled. |
| `ApprovalTheorems.RunKeepsInv` | backend/cmd/server/v033_completion_helpers.go:72-133 | Every run keeps requests and approval steps equal in status and every install row consistent with the request it names. |
| `ApprovalTheorems.ExecutionFollowsRequest` | backend/cmd/server/v033_completion_helpers.go:118-126 | In every interleaving with the kill switch, the status of an execution with a request is a function of the request status and of whether its runtime was killed since: approved means completed, rejected means rejected, pending means waiting or cancelled. |
| `ApprovalTheorems.CancelledCanComplete` | backend/cmd/server/v033_completion_helpers.go:118-120 | A later approval completes a cancelled execution: cancellation is not final. |
| `ApprovalTheorems.ResolvedAtMostOnce` | backend/cmd/server/v033_completion_helpers.go:72-90 | Over every run a request has at most one accepted decision, never by its requester; request and approval step say which, and the step says by whom. |
| `ApprovalTheorems.InstallsFollowRequests` | backend/cmd/server/v033_completion_hotfix.go:1416-1443 | With any overlap of requests for one (profile, skill), a parked row names a pending request, and a row naming a request has its profile, skill and version and the status that matches it; an installed one was applied while the requester owned the profile. |
| `ApprovalTheorems.ApprovedInstallWasApplied` | backend/cmd/server/v033_completion_helpers.go:92-106 | An approved install request was applied for a requester who owned the profile at that moment. |
| `ApprovalOutcomes.InstallRequested` | backend/cmd/server/v033_completion_hotfix.go:1361-1445 | A disabled policy or a skill not on offer changes nothing; an allowed install is put in place for the owner only; an approval policy files a request of the user and parks the row. |
| `ApprovalOutcomes.DecisionTakenIff` | backend/cmd/server/v033_completion_helpers.go:48-106 | A decision is taken exactly on a pending request of someone else, which for an install names profile, skill and version and, to be approved, is by the owner of the profile. |
| `ApprovalOutcomes.DecisionTaken` | backend/cmd/server/v033_completion_helpers.go:72-90 | A decision that is taken marks the request and its step with the verdict and the step with the user; beyond installs and executions nothing else changes. |
| `ApprovalOutcomes.DecidedInstalls` | backend/cmd/server/v033_completion_helpers.go:92-117 | An approved install is put in place; a rejected one rejects exactly the rows that name the request. |
| `ApprovalOutcomes.DecidedExecutions` | backend/cmd/server/v033_completion_helpers.go:118-126 | Exactly the executions that name a decided execution request are completed or rejected. |
| `ApprovalOutcomes.ExecutionCreated` | backend/cmd/server/phase3_execution.go:72-94 | A risky execution waits for a fresh pending request put to the reviewer; any other is completed at once. |
| `ApprovalOutcomes.RuntimeKilled` | backend/cmd/server/phase3.go:503-527 | The runtime is killed and stopped in every status column, and exactly its queued, running and waiting executions are cancelled. |
| `KnowledgeStore.Contains` | backend/cmd/server/v033_knowledge_access.go:94-101 | Membership, for positive targets only. |
| `KnowledgeStore.Server.RolesOf` | backend/cmd/server/v033_knowledge_access.go:13-23 | Exactly the roles bound to the user. |
| `KnowledgeStore.Server.ProfilesOf` | backend/cmd/server/v033_knowledge_access.go:24-37 | Exactly the active profiles of the user and their positive source templates. |
| `KnowledgeStore.Server.RankOf` | backend/cmd/server/v033_knowledge_access.go:48-65 | The specificity of a matching policy row, 0 for a row that does not match. |
| `KnowledgeStore.Server.BestPolicy` | backend/cmd/server/v033_knowledge_access.go:39-74 | The level of the last matching policy of greatest specificity, or a negative rank exactly when none matches. |
| `KnowledgeStore.Server.AnyBinding` | backend/cmd/server/v033_knowledge_access.go:76-91 | True exactly when some non-blocked binding of the base matches organization, department, a role, a profile or a template of the user. |
| `KnowledgeStore.Server.EffectiveAccess` | backend/cmd/server/v033_knowledge_access.go:8-92 | The resolver with its early returns computes the declarative access level. |
| `KnowledgeStore.Server.SavePolicy` | backend/cmd/server/v033_completion_hotfix.go:467-498 | A valid request upserts its row: only the level of an existing row changes. |
| `KnowledgeTheorems.AccessSpec` | backend/cmd/server/v033_knowledge_access.go:39-92 | Access is the level of the last policy of greatest specificity (user, role, department, organization); only when no policy matches it is read for an admitted user, else none. |
| `KnowledgeTheorems.BindingsDecideIff` | backend/cmd/server/v033_knowledge_access.go:39-91 | With the four known levels, access is the union of the allowed bindings exactly when no policy matches the user, or a binding admits the user and the deciding policy says read. |
| `KnowledgeTheorems.PolicyCanLower` | backend/cmd/server/v033_knowledge_access.go:72-90 | One user whom a binding admits and one policy query_only for that user: access is query_only. |
| `KnowledgeTheorems.SaveKeepsKnownLevels` | backend/cmd/server/v033_completion_hotfix.go:404-406 | Saving stores no level but the four known ones. |
| `KnowledgeTheorems.RowOrderIsIrrelevantIff` | backend/cmd/server/v033_knowledge_access.go:67-69 | Access is the same for every order of the policy rows exactly when the matching policies of greatest specificity carry one level. |
| `KnowledgeTheorems.KeysAreInjective` | backend/cmd/server/v033_completion_hotfix.go:403-431 | Two well-formed requests have the same subject key exactly when scope and target agree. |
| `KnowledgeTheorems.ListingRecoversTarget` | backend/cmd/server/v033_completion_hotfix.go:455-460 | Splitting a saved key at its first colon and parsing the rest gives back scope and target id. |
| `KnowledgeTheorems.SaveKeepsPoliciesOk` | backend/cmd/server/v033_completion_hotfix.go:492-493 | Saving keeps one row per knowledge base and key, filed under the scope its key names. |
| `KnowledgeTheorems.SavedUserPolicyDecides` | backend/cmd/server/v033_knowledge_access.go:62-69 | After saving a policy for a user, that user's access is exactly the saved level. |
| `KnowledgeTheorems.SaveLeavesOthersAlone` | backend/cmd/server/v033_completion_hotfix.go:482-493 | Saving leaves the access of every user the policy does not match, and of every other knowledge base, as it was. |
| `KnowledgeOrder.TiersDecideInOrder` | backend/cmd/server/v033_knowledge_access.go:8-92 | The last policy for the user decides, else the last for a held role, else the last for the department, else the last for the organization, else read or none by the bindings; stated on keys, without ranks. |
| `KnowledgeOrder.PolicySaved` | backend/cmd/server/v033_completion_hotfix.go:403-493 | A request with a known level, exactly the target of its scope and an existing target changes the level of the row with its key or appends one; any other changes nothing. |
| `Decimal.RoundTrip` | backend/cmd/server/v033_completion_hotfix.go:412-427 | Parsing reads back every 64-bit number that was printed, and printed numbers hold no colon. |
| `SkillStore.Server.Add` | backend/cmd/server/phase3.go:615-625 | After adding one more contribution the values map again holds, for each named skill of the catalog, its last contribution of greatest priority. |
| `SkillStore.Server.EffectiveSkills` | backend/cmd/server/phase3.go:613-656 | One item per catalogued skill that a template or an applicable assignment names, taken from its last contribution of greatest priority, in whatever order the map is ranged over. |
| `SkillStore.Server.EffectiveSkillsWithInstalls` | backend/cmd/server/v033_effective_configuration.go:11-38 | The merged list, then one explicit item for each installed skill it does not list; ids stay distinct. |
| `SkillTheorems.MergedPolicyIsMaximum` | backend/cmd/server/phase3.go:598-625 | A merged policy is the maximum in blocked > mandatory > explicit > default > optional of the contributions to its skill; if it is one of these five, every different policy among them has strictly less priority. |
| `SkillTheorems.DisabledIffBlocked` | backend/cmd/server/phase3.go:621-624 | A merged skill is disabled exactly when some contribution blocks it. |
| `SkillTheorems.EnabledIff` | backend/cmd/server/v033_effective_configuration.go:12-37 | With the installs appended, a skill is enabled exactly when it is in the catalog, something contributes or installs it, and nothing blocks it: an install never re-enables a blocked skill. |
| `SkillTheorems.RowOrderIsIrrelevantIff` | backend/cmd/server/phase3.go:621-650 | The policy of a skill is the same for every order of the assignment rows exactly when the assignments of greatest priority name one policy. |
| `SkillTheorems.KnownPoliciesIgnoreOrder` | backend/cmd/server/phase3.go:598-612 | With the five known policies the row order never matters. |
| `SkillOrder.ContributionsAre` | backend/cmd/server/phase3.go:626-650 | The contributions are exactly what the template lists, default where it names no policy, and what the assignments to organization, department, user, profile or a held role say. |
| `SkillOrder.StrongestPolicyWins` | backend/cmd/server/phase3.go:598-625 | A skill with a known policy carries the first of blocked, mandatory, explicit, default and optional that some contribution carries. |
| `SkillOrder.UnknownPoliciesTakeTheLast` | backend/cmd/server/phase3.go:613-625 | A skill with unknown policies only takes its last contribution as it is, enabled. |
| `SkillOrder.SourceShown` | backend/cmd/server/phase3.go:620-624 | The source shown is that of the last contribution with the merged policy. |
| `SkillOrder.EffectiveItems` | backend/cmd/server/v033_effective_configuration.go:11-38 | Every item is catalogued, and is either merged from contributions or an explicit one for an installed version of a skill that nothing else names. |
| `RuntimeStore.Server.Collect` | backend/cmd/server/v022_relationships.go:222-247 | The rows of one query, each candidate once, behind those found before. |
| `RuntimeStore.Server.Judge` | backend/cmd/server/v022_relationships.go:255-273 | First strictly greatest candidate, then its conflicts: the verdict on a candidate list. |
| `RuntimeStore.Server.ResolveRuntimeTemplate` | backend/cmd/server/v022_relationships.go:208-274 | Explicit assignment first, then the verdict on role and department candidates, with the default only when there is none. |
| `RuntimeTheorems.VerdictIsUnique` | backend/cmd/server/v022_relationships.go:255-273 | Every candidate list has exactly one verdict. |
| `RuntimeTheorems.VerdictSpec` | backend/cmd/server/v022_relationships.go:255-273 | Unresolved, resolved or conflict as the candidates of greatest priority name no, one or several templates; a conflict lists exactly their templates. |
| `RuntimeTheorems.BindingOrderIsIrrelevant` | backend/cmd/server/v022_relationships.go:218-273 | Status, priority, resolved template and templates in conflict do not depend on the order of the binding rows. |
| `RuntimeTheorems.RoleDecidesIff` | backend/cmd/server/v022_relationships.go:204-273 | For a user with role bindings and no explicit template, the department bindings leave the verdict on the role bindings alone exactly when each has less priority than the role winner, or the same priority and template. |
| `RuntimeTheorems.DepartmentCanBeatRole` | backend/cmd/server/v022_relationships.go:258-263 | A department binding above every role binding decides, against the documented order. |
| `RuntimeTheorems.DepartmentBeatsRoleHere` | backend/cmd/server/v022_relationships.go:222-263 | Tables with one role binding at priority 5 and one department binding at 9: the department template is resolved. |
| `RuntimeOutcomes.ExplicitTemplateWins` | backend/cmd/server/v022_relationships.go:209-215 | A user with an explicit template gets it at priority 1000, active or not and whatever is bound. |
| `RuntimeOutcomes.BoundCandidates` | backend/cmd/server/v022_relationships.go:222-248 | The candidates are exactly the active templates bound to a role of the user or to the department. |
| `RuntimeOutcomes.StrongestBindingDecides` | backend/cmd/server/v022_relationships.go:255-273 | A bound template never loses to a binding of lower priority; the resolved template is one of greatest priority and the only one. |
| `RuntimeOutcomes.DefaultForTheUnbound` | backend/cmd/server/v022_relationships.go:249-257 | A user with neither an explicit nor a bound template gets the active default of organization 1 at priority 0, and is unresolved exactly when there is none. |
| `DocumentStore.Server.Create` | backend/cmd/server/phase2.go:1405-1434 | A draft document and its version 1, or nothing for a missing title or unknown type; the document stays when its version cannot be written. |
| `DocumentStore.Server.Latest` | backend/cmd/server/phase2.go:1476 | The greatest version number, 0 without versions, and whether that version is a draft. |
| `DocumentStore.Server.Update` | backend/cmd/server/phase2.go:1461-1486 | A latest draft is overwritten in place, otherwise the next version is inserted; the document becomes a draft; each write may be refused and the other still happens. |
| `DocumentStore.Server.Publish` | backend/cmd/server/phase2.go:1487-1507 | The latest version and the document become published and the index pending, then indexed; each write may be refused and the others still happen; without a version nothing changes. |
| `DocumentTheorems.UpdateHistory` | backend/cmd/server/phase2.go:1476-1483 | If its version write is accepted an edit replaces the content of a latest draft or appends version n + 1, otherwise nothing; it touches no other document. |
| `DocumentTheorems.PublishHistory` | backend/cmd/server/phase2.go:1495-1503 | Publishing changes at most the status of the latest version. |
| `DocumentTheorems.RunKeepsInv` | backend/cmd/server/phase2.go:1425-1502 | Every run keeps the versions of each document numbered, whichever writes are refused. |
| `DocumentTheorems.VersionsAreNumbered` | backend/cmd/server/phase2.go:1425-1502 | Over every run from an empty store, whichever writes are refused, the versions of a document are exactly 1..n, only version n may be a draft, and a deleted document has none. |
| `DocumentTheorems.StatusesAgreeIff` | backend/cmd/server/phase2.go:1478-1502 | Over every run from an empty store the document and its latest version carry what was last written to each, and agree exactly when the last accepted write to the one and to the other wrote the same status. |
| `DocumentTheorems.TogetherMeansAgreement` | backend/cmd/server/phase2.go:1478-1502 | If no edit or publication has one of its two status writes refused alone, the document always has the status of its latest version. |
| `DocumentTheorems.EditKeepsAgreementIff` | backend/cmd/server/phase2.go:1476-1483 | An edit of a document whose statuses agree keeps them in agreement exactly when its two writes are accepted or refused together, or the document was a draft. |
| `DocumentTheorems.PublicationKeepsAgreementIff` | backend/cmd/server/phase2.go:1501-1502 | A publication of a document whose statuses agree keeps them in agreement exactly when its two writes are accepted or refused together, or the document was published. |
| `DocumentTheorems.RefusedTitleHere` | backend/cmd/server/phase2.go:1478-1483 | Create, publish and an edit whose document write is refused: the document stays published over a draft version 2. |
| `DocumentTheorems.PublishedContentIsFrozen` | backend/cmd/server/phase2.go:1476-1502 | Once published, a version keeps its content and status for as long as its document exists, whichever writes are refused. |
| `DocumentTheorems.EditAddsVersionIff` | backend/cmd/server/phase2.go:1476-1482 | An edit whose version write is accepted adds a version exactly when the latest one is not a draft. |
| `DocumentTheorems.EditedDraftHere` | backend/cmd/server/phase2.go:1476-1478 | A new document that is edited once still has one version, with the new content. |
| `DocumentOutcomes.DocumentCreated` | backend/cmd/server/phase2.go:1405-1434 | The document row and its first version, column by column, or nothing. |
| `DocumentOutcomes.DocumentEdited` | backend/cmd/server/phase2.go:1483 | An edit makes the document an unindexed draft with title and type as sent; other documents stay. |
| `DocumentOutcomes.VersionEdited` | backend/cmd/server/phase2.go:1474-1482 | In every consistent state an edit replaces the content of a latest draft or appends a draft with the next number; no other version changes. |
| `DocumentOutcomes.DocumentPublished` | backend/cmd/server/phase2.go:1501-1504 | Title and type stay; status and index follow the writes that are accepted. |
| `DocumentOutcomes.VersionPublished` | backend/cmd/server/phase2.go:1496-1501 | The latest version is published with its number and content; no other version changes. |
| `DocumentOutcomes.DocumentDeleted` | backend/cmd/server/phase2.go:1508-1522 | The document goes with its versions and nothing else does. |
| `SplitSql.SplitSQL` | backend/cmd/server/main.go:305-322 | The two loops compute the trimmed non-empty pieces between semicolons of the text without its comment lines. |
| `SplitSql.StatementsAreClean` | backend/cmd/server/main.go:314-321 | Every statement is trimmed, non-empty and free of semicolons. |
| `SplitSql.CommentLineIsInvisible` | backend/cmd/server/main.go:308-313 | Inserting or deleting a whole-line comment anywhere, semicolons in it or not, never changes the result. |
| `SplitSql.RoundTripIff` | backend/cmd/server/main.go:305-322 | Rendered with ";\n" and split again, a list of clean statements comes back exactly when none of them contains a line that reads as a comment. |
| `SplitSql.ResplittingCanLoseAStatement` | backend/cmd/server/main.go:308-313 | A statement the splitter itself returned can start with two dashes, and is dropped when the statements are rendered and split again. |

## Left out

- HTTP, JSON envelopes, permissions, audit and notification rows, timestamps, display columns: plumbing around the modelled tables.
- Transactions are atomic steps: isolation levels, lock waits and connection failures are not modelled. Single refused writes that the source goes on after are modelled in the imports and the documents; elsewhere (consolidation, publication of a submission, the kill switch, the step of an approval request) they are taken to succeed.
- Text is a sequence of bytes: white space and letter case are ASCII, and equality is exact where the database collates.
- ReviewModel: the columns `skills.status`, `skills.latest_version`, decision notes and the `required_approval` flag steer nothing; the flag is stored with the step. Looking up the latest version of a skill before submitting it is a parameter.
- ReviewModel: role, organization and binding tables change by one event that sets them to anything.
- AgentModel: profiles are rows at (user, name) and their surrogate ids are not modelled, so a source row is keyed by the profile's user and name. Deleting bindings and templates is a change of the input tables between consolidations.
- AgentModel: the order in which a query returns matched templates is a parameter; the distinct source rows of one template are taken in table order.
- AgentStore.Server.UpsertManaged: the insert (phase3_templates.go:370) leaves out `auxiliary_model_ids`, `optional_skill_ids` and `knowledge_override_ids`, which have no default (010_v033_admin_workspace_usability.sql:12-15), and a description may be longer than the 500 characters `profiles` takes (001_init.sql:113). A strict database refuses such rows and the source ignores it; the model lets them succeed.
- ReviewStore.Server.Submit: the source sets `skill_versions.updated_at` (v033_completion_hotfix.go:1017 and 1133), which no migration defines, and leaves out `skill_review_steps.findings` (line 1077), which has no default (010_v033_admin_workspace_usability.sql:95). As written these statements cannot succeed against the migrated schema; the model lets them.
- ChatModel: message ids are positions, reply texts are terms over model and question, and the effective model of a conversation is a parameter.
- ImportStore.ParseCsv: reads a stream of records; the CSV reader is a library.
- ApprovalStore.Server.CreateInstallApproval: the source inserts the requester under the column `requester_user_id` (v033_completion_hotfix.go:1430), which no migration defines, and leaves out `requester`, which has no default (002_phase2_control_plane.sql:188). As written that insert cannot succeed against the migrated schema; the model has one requester field and lets it.
- ApprovalStore.Server.Decide: does not model the `role_elevation` branch, because its metadata is read under names that differ from the stored keys. The comment of a decision is left out.
- ApprovalStore.Server.CreateApproval: does not look up the security administrator; the reviewer is a parameter. Its notification is left out.
- ApprovalModel: whether a skill is visible to the user and its version published, and whether a risk is high, are parameters.
- KnowledgeModel: the check that a policy target exists in the organization is a parameter.
- SkillModel: the names and risk levels shown with an item; a lookup by name that finds several skills takes the first in table order.
- RuntimeModel: the default template is the first in table order, where the query leaves the choice open; runtimes are reduced to the explicit assignment of their user.
- DocumentModel: owner, hash and document counts; a document insert that the database refuses changes nothing.
- ReviewStore.Server.Advance: a `return` inside the loop of the source is a `break` followed by the same completion call.
- RuntimeTheorems.BindingOrderIsIrrelevant: does not fix which of several sources with the same template and priority is reported, because that does depend on the order.
- SkillTheorems.RowOrderIsIrrelevantIff: is about the policy; the reported source depends on the order whenever two top contributions differ in source.
- `effectiveKnowledgeV033Completion`, the history of knowledge items and the workspace copies of documents repeat the modelled logic and would add only easier members.
- Handlers that no route binds any more (the older submit, review and approval paths) are not part of this model.
- Encryption, password hashing, tokens, mock providers, dashboards, listings and the frontend are not part of this model.
