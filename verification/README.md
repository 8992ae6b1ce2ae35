# Verified model of the enterprise communication service

A Dafny model of the parts of the service where correctness depends on order, failure or arithmetic: approval-gated
replies, mailbox credentials, authorization sessions, tracked work items and their creation, the context timeline, and
the bounded code that handles attachment bytes. `dafny verify dfyconfig.toml` checks everything.

## What is modelled

- **Replies** (`WorkflowModel`, `ReplyProtocol`, `ReplySafety`, `ReplyAnswers`, `ReplyService`). Any number of approve,
  reject and execute calls interleave read by read, save by save, with the external send between two transactions. A
  conditional save and its commit are one step, because the row lock it takes is held until the commit. A commit can
  succeed, roll back, or be applied although its caller is told it failed. A crashed call simply makes no further step.
- **Mailbox credentials** (`CredentialSaga`, `SagaSafety`, `SagaResults`, `SagaRecords`, `SagaAnswers`,
  `MailboxService`). The secret store and the account table fail independently; connect, connect-another and reauthorize
  callbacks, reauthorization marks and disconnects interleave store call by store call. The Gmail and Microsoft services
  are one model with the provider as a value. Locators are server-generated and never reused.
- **Authorization sessions** (`AuthorizationSessions`, `SessionAnswers`). Single-use sessions, their binding, their
  expiry and their PKCE verifiers. A digest is represented by what was digested, so SHA-256 and S256 are taken as
  collision-free; random states are never drawn twice.
- **The joint run** (`MailboxRun`). Consents and the saga over one account table: a saga callback begins exactly when a
  code exchange made by the consent side is answered with a mailbox.
- **Work items** (`WorkItemModel`, `WorkItemAnswers`, `WorkItemJournal`). The versioned aggregate, the events it emits
  and the journal fold.
- **Creation** (`WorkItemSources`, `Provenance`, `ProvenanceAnswers`, `WorkItemCreation`, `CreationProtocol`,
  `CreationResults`, `CreationAnswers`, `CreationService`). Candidate paging, reference verification, the two hash
  computations, and idempotent creation as interleaved steps over a table with its two unique indices. Hash functions
  and the canonical text of a source are parameters; what is assumed of them is stated as `Proper`, which can be met
  (`WorkItemCreation.ProperHashesExist`). No digest is assumed free of collisions; a result that two requests differ in
  their hash names those two (`NoCollision`).
- **Timeline** (`Paging`, `Timeline`, `TimelineService`, `TimelineAnswers`, `TimelineOnce`). The drain loops, the stable sort and the
  page.
- **Bytes and text** (`ByteStrings`, `Clamd`, `ClamdVerdicts`, `AttachmentPolicy`, `AttachmentAnswers`, `TextCollector`,
  `TextAnswers`, `WorkItemDue`). INSTREAM framing, bounded receive and verdicts, the ZIP inventory and kind detection,
  text collection, and due values against arbitrary time zones.
- `Text` and `Collections` hold the text normalisation and the counting facts the others share.

Each protocol has a specification (a `Step` function over a `State`) and a class whose methods change fields in place;
every such method is proved to take exactly the specified step. The `*Answers` modules say what each operation answers
and stores in terms of its inputs and the stored data, spelled out apart from the step functions.

## What the proofs found

- An attaching commit that is applied but reported as failed makes the callback delete the secret it has just attached
  (`SagaResults.LostAcknowledgementUnbacksAnAccount`). `SagaResults.ActiveAccountsAreBacked` says exactly when an ACTIVE
  account lacks its secret; with faithful acknowledgements only a disconnect can be the reason.
- Connecting over a REAUTH_REQUIRED row replaces the locator without deleting the old secret
  (`SagaResults.ConnectAbandonsTheStaleSecret`). A disconnect can clear a locator newer than the one it deleted. Both are
  among the five causes for which `SagaResults.OrphansHaveExactlyTheseCauses` proves that a secret is left behind if and
  only if one of them occurs; what is left behind is never used again (`SagaResults.OrphansAreNeverUsedAgain`).
- `apply` raises a validation error instead of a conflict exactly when the clock is behind the item's creation time
  (`WorkItemModel.ApplyIsClosed`).
- The 200000-character limit bounds the collected pieces, not the joined text
  (`TextCollector.UntruncatedTextMayExceedTheLimit`); `TextCollector.TextKeepsToTheLimit` says for every document whether
  its text keeps to the limit.
- A creation whose distinct sources collide under their SHA-256 keys is answered with a validation error
  (`WorkItemCreation.VerifiedRequestsMakeValidIntents`, `CreationResults.AnswersAreTruthful`).
- A reply with a NUL or newline before its last byte can be received, and even judged, differently depending on
  fragmentation (`Clamd.FragmentationIndependence`, `Clamd.InteriorNulMakesTheVerdictDepend`).

## Model

| member | source | states |
|---|---|---|
| Text.StripCutsOnlyBlanks | app/domain/models/validation.py:4-9 | stripping removes exactly the outer whitespace and leaves a trimmed middle part |
| Text.RequireTextIsStable | app/domain/models/validation.py:4-9 | a text is refused exactly when it is blank; an accepted text is nonempty and trimmed and is accepted unchanged again |
| WorkflowModel.RehydrateValidates | app/domain/models/workflow.py:78-113 | reading a row back accepts exactly the valid rows (normalised texts, both target halves or none, status/timestamp invariants) and leaves valid rows unchanged |
| WorkflowModel.MoveKeepsValidity | app/domain/models/workflow.py:131-207 | every legal transition yields a valid row, moves strictly forward, and touches only lifecycle columns; approval copies the proposed text |
| WorkflowModel.TerminalMeansNoMove | app/domain/models/workflow.py:19-39 | the terminal statuses are exactly those without an outgoing transition |
| WorkflowModel.WorkflowAction.RequireTransition | app/domain/models/workflow.py:161-164 | a transition is allowed exactly when the lifecycle table says so |
| WorkflowModel.WorkflowAction.Approve | app/domain/models/workflow.py:131-136 | in-place approval takes the specified move or leaves the object untouched |
| WorkflowModel.WorkflowAction.Reject | app/domain/models/workflow.py:138-142 | in-place rejection takes the specified move or leaves the object untouched |
| WorkflowModel.WorkflowAction.MarkExecuting | app/domain/models/workflow.py:144-147 | in-place start of execution takes the specified move or leaves the object untouched |
| WorkflowModel.WorkflowAction.MarkExecuted | app/domain/models/workflow.py:149-153 | in-place success takes the specified move or leaves the object untouched |
| WorkflowModel.WorkflowAction.MarkFailed | app/domain/models/workflow.py:155-159 | in-place failure takes the specified move or leaves the object untouched |
| ReplySafety.AtMostOneSendWithTheProposal | app/application/services/workflow_action_execution.py:65-225 | in every interleaving of any number of callers, with crashes and lost commits, the executor is invoked at most once per action, with exactly the proposed text and the account and message recorded at creation |
| ReplySafety.InvokedOnlyAfterExecutingIsCommitted | app/application/services/workflow_action_execution.py:75-78 | the executor is only ever called while the stored row is EXECUTING and nothing was sent for it |
| ReplySafety.RejectedIsNeverSent | app/application/services/workflow_actions.py:196-252 | a rejected action has never been sent and never will be, and its row never changes again |
| ReplySafety.TerminalRowsAreFinal | app/domain/models/workflow.py:19-39 | in every continuation terminal rows stay equal and no row changes its proposal or target |
| ReplySafety.StoredOutcomesAreTrue | app/application/services/workflow_action_execution.py:75-138 | stored EXECUTED means the one call returned; stored FAILED means it raised one of the two definite failures; every stored row is valid |
| ReplySafety.UnknownOutcomeStaysExecuting | app/application/services/workflow_action_execution.py:77-118 | a call that ended in any other exception leaves its row EXECUTING in every later state |
| ReplySafety.PendingCallMeansExecuting | app/application/services/workflow_action_execution.py:73-78 | while a call has not ended, or never will because its caller crashed, the row is EXECUTING |
| ReplySafety.OneOutcomePerAction | app/application/services/workflow_action_execution.py:77-138 | an action has at most one executor outcome |
| ReplySafety.CommandCarriesProposal | app/application/services/workflow_action_execution.py:321-342 | the command of a valid EXECUTING row carries exactly the proposed text and the recorded target |
| ReplySafety.CreationSnapshotsTheAnalysis | app/application/services/workflow_actions.py:63-103 | the exact new PENDING row and its proposal, with the trimmed draft and, only when both halves are present, the trimmed mailbox target; without a usable draft, with a blank message, under a taken id or without its commit nothing is stored |
| ReplySafety.ApprovalSucceeds | app/application/services/workflow_actions.py:217-252 | an undisturbed approval of a pending row is stored and answered |
| ReplySafety.ExecutionLaunches | app/application/services/workflow_action_execution.py:140-225 | an undisturbed execution of an approved row whose account may send commits EXECUTING and holds the right command |
| ReplySafety.ExecutionFinishes | app/application/services/workflow_action_execution.py:75-138 | after a normal return exactly one send is recorded and the row is stored as EXECUTED |
| ReplySafety.StepKeepsInvariant | app/application/services/workflow_action_execution.py:65-306 | every step of every caller keeps the protocol invariant |
| ReplySafety.RunKeepsInvariant | app/application/services/workflow_action_execution.py:65-306 | every run keeps the protocol invariant |
| ReplySafety.RunEvolves | app/domain/models/workflow.py:131-164 | over any run every row only moves forward along its lifecycle and sends only gain outcomes |
| ReplyService.Service.Propose | app/application/services/workflow_actions.py:54-103 | creation as one transaction, as exactly one step of the protocol |
| ReplyService.Service.LoadForDecision | app/application/services/workflow_actions.py:227-231 | the load of an approval or rejection, as exactly one step of the protocol |
| ReplyService.Service.Save | app/domain/interfaces/workflow_action_repository.py:51-61 | `save_owned`: conditional update by id, owner and expected status, then the re-read row, as exactly one step of the protocol |
| ReplyService.Service.CommitSave | app/application/services/workflow_actions.py:232-251 | raising on a refused save, or committing with any of the three outcomes, as exactly one step of the protocol |
| ReplyService.Service.SaveDecision | app/application/services/workflow_actions.py:231-252 | the transition of the loaded copy, its conditional save and commit, as exactly one step of the protocol |
| ReplyService.Service.LoadForExecution | app/application/services/workflow_action_execution.py:147-163 | the load and the status and target checks of an execution, as exactly one step of the protocol |
| ReplyService.Service.ResolveExecutor | app/application/services/workflow_action_execution.py:164-191 | the account and executor checks, as exactly one step of the protocol |
| ReplyService.Service.CommitExecuting | app/application/services/workflow_action_execution.py:192-199 | the APPROVED to EXECUTING save, the command and the commit, as exactly one step of the protocol |
| ReplyService.Service.InvokeExecutor | app/application/services/workflow_action_execution.py:77-78 | the start of the one external call, as exactly one step of the protocol |
| ReplyService.Service.ExecutorEnds | app/application/services/workflow_action_execution.py:77-105 | the end of the external call, by outcome, as exactly one step of the protocol |
| ReplyService.Service.LoadForOutcome | app/application/services/workflow_action_execution.py:279-282 | the load of the terminal transaction, as exactly one step of the protocol |
| ReplyService.Service.CommitTerminal | app/application/services/workflow_action_execution.py:227-306 | the terminal save, with the account marked for reauthorization when that is why it failed, as exactly one step of the protocol |
| ReplyService.Service.ExecuteAction | app/application/services/workflow_action_execution.py:65-138 | a whole execution, whatever fails on the way: it ends, calls the executor at most once and only for an action never sent before, with the proposed text and target, and reports a saved row only after that call and with its outcome |
| ReplySafety.ConclusionIsSafe | app/application/services/workflow_action_execution.py:75-138 | a committed command leads to exactly one call, the first for its action, and to an answer that tells its outcome |
| ReplyAnswers.CheckAnswers | app/application/services/workflow_action_execution.py:164-191 | the account check lets an execution go on exactly when the account exists, is the caller's, is ACTIVE, was granted MAIL_SEND or never recorded its grants, and an executor is available; otherwise the call ends as not executable |
| ReplyAnswers.SendsWereChecked | app/application/services/workflow_action_execution.py:65-225 | in every run every send was preceded by a check of its caller that found, at that moment, exactly these conditions on the account and provider of the sent command; and the sent action is the caller's own |
| ReplyAnswers.LoadAnswers | app/application/services/workflow_action_execution.py:147-163 | what the load of an execution answers: not found, invalid transition, not executable, or the row itself |
| ReplyAnswers.ExecutingIsStored | app/application/services/workflow_action_execution.py:192-225 | a checked execution wins exactly while the stored row is still APPROVED; then the row is EXECUTING and the command is the stored text and target with the checked provider, for each way the commit can end |
| ReplyAnswers.DecisionAnswers | app/application/services/workflow_actions.py:217-252 | every answer, row and table of an undisturbed approval or rejection, for any action, user and commit |
| ReplyAnswers.DecisionIsStored | app/application/services/workflow_actions.py:231-252 | in any reachable interleaving a loaded decision is stored exactly when the row is still PENDING; a lost race is a conflict |
| ReplyAnswers.LaunchAnswers | app/application/services/workflow_action_execution.py:140-225 | every answer, row and table of the undisturbed first half of an execution, for any action, user, account and commit |
| ReplyAnswers.ConclusionAnswers | app/application/services/workflow_action_execution.py:65-138 | one send and the exact answer, row and account status after each outcome and commit; a failed token refresh alone takes the account out of service |
| SagaResults.ActiveAccountsAreBacked | app/application/services/gmail_mailbox_oauth.py:240-365 | in every reachable state an ACTIVE account names a locator, and its secret is missing from the store exactly when a disconnect that read that locator removed it, or the attaching callback, told its commit had failed, removed it in compensation |
| SagaResults.BackedWhenCommitsAreAcknowledged | app/application/services/gmail_mailbox_oauth.py:240-276 | when attaching commits are acknowledged faithfully, only a disconnect that read the locator can have removed it |
| SagaResults.LostAcknowledgementUnbacksAnAccount | app/application/services/gmail_mailbox_oauth.py:240-256 | a concrete run with one lost acknowledgement leaves an ACTIVE account without its secret |
| SagaResults.ActiveCredentialIsNeverSwapped | app/application/services/mailbox_oauth_reauthorization.py:98-109 | no step replaces the locator of an ACTIVE account; it is only ever cleared by a disconnect |
| SagaResults.ExitsSettleTheCredential | app/application/services/gmail_mailbox_oauth.py:238-365 | on every exit after its creation the callback's secret is carried by the reported row and present, or out of the store, except that a failed deletion leaves it as it was and ServiceUnavailable is raised; an exit at the creation minted nothing, and the store has grown exactly when a create that raised kept its secret |
| SagaResults.SuccessNamesTheConsentingMailbox | app/application/services/mailbox_oauth_reauthorization.py:53-64 | a successful callback reports the consenting user's only row for the mailbox that consented, and a reauthorization the bound row |
| SagaResults.OrphansHaveExactlyTheseCauses | app/application/services/gmail_mailbox_oauth.py:402-469 | in every reachable state a step leaves a secret that no row names and no callback awaits if and only if it is one of five listed events in its listed circumstances |
| SagaResults.OrphansAreNeverUsedAgain | app/application/services/gmail_mailbox_oauth.py:402-469 | in every continuation no row ever names such a secret again and no callback answers for it |
| SagaResults.ConnectAbandonsTheStaleSecret | app/application/services/gmail_mailbox_oauth.py:433-449 | connecting over a REAUTH_REQUIRED row leaves the old secret in the store with no row naming it |
| SagaResults.ReauthorizationReplacesTheSecret | app/application/services/gmail_mailbox_oauth.py:278-365 | an undisturbed reauthorization removes the old secret and attaches the new one |
| SagaResults.DisconnectRemovesTheSecret | app/application/services/connector_accounts.py:201-260 | an undisturbed disconnect removes the secret and clears the row |
| SagaResults.RowsKeepTheirKey | app/application/services/mailbox_oauth_reauthorization.py:98-109 | no step removes a row or changes its owner, provider or mailbox |
| SagaRecords.RecordedCapabilitiesWereGranted | app/application/services/gmail_mailbox_oauth.py:418-449 | in every reachable state the capabilities a row records are exactly those granted to the callback that minted its locator; a row that names no locator records none |
| SagaRecords.AttachedAccountsRecordTheGrant | app/application/services/gmail_mailbox_oauth.py:418-457 | every step on which a callback reports an account it attached leaves that row ACTIVE with the callback's own locator and exactly the granted capabilities, whether it was inserted, reactivated or reauthorized |
| SagaRecords.OnlyTheRowWrittenChanges | app/application/services/gmail_mailbox_oauth.py:402-469 | no step changes any account row but the one its event writes |
| SagaAnswers.StoreAnswers | app/application/services/gmail_mailbox_oauth.py:224-238 | a consent without MAIL_READ stores nothing and fails; otherwise the secret is stored and owned by its callback, or its creation failed |
| SagaAnswers.ConnectAnswers | app/application/services/gmail_mailbox_oauth.py:240-276 | the exact exit, account row and set of secrets of an undisturbed connecting callback, for any mailbox, grant, found row, commit and clean-up |
| SagaAnswers.ReauthorizeAnswers | app/application/services/gmail_mailbox_oauth.py:278-365 | the exact exit, account row and set of secrets of an undisturbed reauthorization, for any account, failure, commit and clean-up |
| SagaAnswers.LostRacesAnswer | app/application/services/mailbox_oauth_reauthorization.py:98-128 | a callback whose row was attached, removed or inserted by somebody else meanwhile writes nothing and raises a conflict on reauthorization, unavailability on connecting |
| SagaAnswers.CleanupAnswers | app/application/services/gmail_mailbox_oauth.py:459-469 | a callback's clean-up removes exactly its own secret; a failed deletion is raised as unavailability |
| SagaAnswers.DisconnectAnswers | app/application/services/connector_accounts.py:201-312 | the exact answer, row and set of secrets of an undisturbed disconnect, for any user, account, deletion and commit |
| SagaAnswers.MarkAnswers | app/infrastructure/storage/repositories/connector_account.py:144-175 | a reauthorization mark changes exactly the status of the owner's ACTIVE row |
| SagaSafety.StepKeepsInvariant | app/application/services/microsoft_mailbox_oauth.py:240-469 | every store call and transaction keeps the link between the two stores |
| SagaSafety.RunKeepsInvariant | app/application/services/microsoft_mailbox_oauth.py:190-469 | every run keeps the link between the two stores, for either provider |
| MailboxService.Service.StoreNewCredential | app/application/services/gmail_mailbox_oauth.py:233-240 | the read-grant check and the store create, as exactly one step of the saga |
| MailboxService.Service.FindByKey | app/application/services/gmail_mailbox_oauth.py:412-417 | the lookup by owner, provider and external account |
| MailboxService.Service.FindExisting | app/application/services/gmail_mailbox_oauth.py:411-432 | the lookup and the reuse of an ACTIVE account, as exactly one step of the saga |
| MailboxService.Service.PersistConnectedAccount | app/application/services/gmail_mailbox_oauth.py:418-457 | the insert or compare-and-set reactivation and its commit, as exactly one step of the saga |
| MailboxService.Service.ReactivateOwned | app/application/services/mailbox_oauth_reauthorization.py:98-108 | compare-and-set from DISCONNECTED or REAUTH_REQUIRED |
| MailboxService.Service.CheckTarget | app/application/services/mailbox_oauth_reauthorization.py:86-97 | the bound-account checks in their order |
| MailboxService.Service.LoadReauthorizationTarget | app/application/services/mailbox_oauth_reauthorization.py:28-64 | the load of the bound account before anything is deleted, as exactly one step of the saga |
| MailboxService.Service.DeletePreviousCredential | app/application/services/microsoft_mailbox_oauth.py:319-321 | the deletion of the previous credential, as exactly one step of the saga |
| MailboxService.Service.RecheckReauthorizationTarget | app/application/services/mailbox_oauth_reauthorization.py:84-97 | the second read of the bound account, as exactly one step of the saga |
| MailboxService.Service.PersistReauthorizedAccount | app/application/services/mailbox_oauth_reauthorization.py:98-128 | the compare-and-set attach and its commit, as exactly one step of the saga |
| MailboxService.Service.CompensateStoredCredential | app/application/services/gmail_mailbox_oauth.py:459-469 | the deletion of the callback's own credential, as exactly one step of the saga |
| MailboxService.Service.LoadOwned | app/application/services/connector_accounts.py:262-279 | the load of a disconnect, as exactly one step of the saga |
| MailboxService.Service.DeleteStoredCredential | app/application/services/connector_accounts.py:281-312 | the secret deletion of a disconnect, as exactly one step of the saga |
| MailboxService.Service.DisconnectOwned | app/application/services/connector_accounts.py:225-244 | the row update of a disconnect, as exactly one step of the saga |
| AuthorizationSessions.EachStateIsExchangedOnce | app/application/services/mailbox_authorization_sessions.py:93-223 | each authorization state leads to at most one code exchange, which uses the verifier whose S256 challenge was generated with that state (sections 4.2 and 4.6 of RFC 7636), for the same user, provider, purpose and account |
| AuthorizationSessions.SpentStatesStaySpent | app/domain/interfaces/mailbox_authorization_session_repository.py:87-98 | a consumed state is never consumable again, whatever happens later, expiry clean-up included |
| AuthorizationSessions.BurnedStatesAreNeverExchanged | app/application/services/mailbox_authorization_sessions.py:184-223 | a state whose consumption was not acknowledged, was denied or failed is never exchanged |
| AuthorizationSessions.ConsumedInTimeAndCleared | app/infrastructure/storage/repositories/mailbox_authorization_session.py:83-143 | a session is consumed only before it expires and then keeps no verifier |
| AuthorizationSessions.ExchangesTargetOwnAccounts | app/application/services/mailbox_authorization_sessions.py:249-288 | the saga callback an exchange leads to acts for the consenting user and provider; it is a reauthorization exactly when the consent was, and then of an account that user owns at that provider |
| AuthorizationSessions.AnswersCarryTheGrant | app/application/services/mailbox_authorization_sessions.py:119-168 | the caller of a start is told exactly the generated challenge and expiry, and only after an acknowledged commit |
| AuthorizationSessions.TimelyCallbackExchanges | app/application/services/gmail_mailbox_oauth.py:190-222 | a callback in time, at the right provider, with the state handed out, exchanges its code once with the right verifier |
| AuthorizationSessions.StepKeepsInvariant | app/application/services/mailbox_authorization_sessions.py:93-288 | every start, consumption, exchange and clean-up keeps the session invariant |
| AuthorizationSessions.RunKeepsInvariant | app/application/services/mailbox_authorization_sessions.py:93-288 | every run keeps the session invariant |
| SessionAnswers.CleanUpDeletesExactlyTheExpired | app/infrastructure/storage/repositories/mailbox_authorization_session.py:145-155 | a clean-up deletes exactly the sessions whose expiry is at or before its instant, unless it is rolled back, and touches nothing else |
| SessionAnswers.SessionsLiveUntilUsedOrExpired | app/application/services/mailbox_authorization_sessions.py:225-247 | over every run without a clean-up past its expiry a session that is not brought to a callback stays exactly as it is |
| SessionAnswers.LiveSessionsServeTheirCallback | app/application/services/gmail_mailbox_oauth.py:190-222 | after every such run its callback still exchanges the code, with the session's own verifier and binding |
| SessionAnswers.StartAnswers | app/application/services/mailbox_authorization_sessions.py:93-118 | what a start is bound to, or which of the five refusals it gets, by its slugs, purpose, named account and that account's owner, provider and status |
| SessionAnswers.CreationStoresTheSession | app/application/services/mailbox_authorization_sessions.py:119-168 | the exact session stored and the exact answer, for each way the commit can end |
| SessionAnswers.CallbackAnswers | app/application/services/gmail_mailbox_oauth.py:190-217 | in every reachable state what a callback answers, and that it consumes its session exactly when it is complete and not rolled back over a live one |
| SessionAnswers.ExchangeAnswers | app/application/services/gmail_mailbox_oauth.py:218-222 | a holder exchanges exactly what it holds, once; anybody else nothing |
| AuthorizationSessions.SessionService.BindStart | app/application/services/mailbox_authorization_sessions.py:104-118 | slug parsing and account binding, as exactly one step |
| AuthorizationSessions.SessionService.CreateStarted | app/application/services/mailbox_authorization_sessions.py:119-168 | the insert and what its caller is told, as exactly one step |
| AuthorizationSessions.SessionService.CompleteAuthorization | app/application/services/gmail_mailbox_oauth.py:190-217 | refusal or consumption of the state before anything leaves the server, as exactly one step |
| AuthorizationSessions.SessionService.ExchangeAuthorizationCode | app/application/services/gmail_mailbox_oauth.py:218-222 | the exchange outside any transaction, as exactly one step |
| AuthorizationSessions.SessionService.DeleteExpiredSessions | app/application/services/mailbox_authorization_sessions.py:225-247 | the clean-up of expired sessions, as exactly one step |
| AuthorizationSessions.SessionService.ConsumeValid | app/infrastructure/storage/repositories/mailbox_authorization_session.py:83-143 | the compare-and-set wins exactly on a matching, unconsumed, unexpired session; it returns the old verifier and clears it |
| MailboxRun.HalvesAreReachable | app/application/services/mailbox_authorization_sessions.py:249-288 | in a joint run over one account table the consents and the saga each take a run of their own machine, so all results about either carry over |
| MailboxRun.CallbacksStemFromOneConsent | app/application/services/gmail_mailbox_oauth.py:190-240 | in every joint run each saga callback stems from exactly one code exchange, no two from the same state, with the right verifier, and acts for the user, provider and account of that consent |
| MailboxRun.ReportedAccountsWereConsentedTo | app/application/services/gmail_mailbox_oauth.py:190-276 | in every joint run a callback that reports an account reports the consenting user's row at the consented provider, and after a reauthorization the very row the consent was bound to |
| MailboxRun.RecordedCapabilitiesWereConsentedTo | app/application/services/gmail_mailbox_oauth.py:224-276 | in every joint run the capabilities an account row records are exactly those the provider reported granted when it answered the exchange of the callback that minted the row's locator |
| MailboxRun.StepKeepsInvariant | app/application/services/gmail_mailbox_oauth.py:190-276 | every step of the joint run keeps the link between exchanges and saga callbacks |
| WorkItemModel.ValidationFixesValidItems | app/domain/models/business_work_item.py:67-122 | re-validation accepts exactly the valid items unchanged and only ever yields valid items |
| WorkItemModel.TitleTextNormalises | app/domain/models/work_item_intent.py:43-47 | a title is refused exactly when it is blank, over 200 characters or has a NUL after trimming; an accepted one is the trimmed text and fixed under re-validation |
| WorkItemModel.DescriptionTextNormalises | app/domain/models/work_item_intent.py:50-56 | a description is refused exactly when it is over 4000 characters or has a NUL after trimming; a blank one becomes none, any other the trimmed text, fixed under re-validation |
| WorkItemModel.MetadataFits | app/domain/models/business_work_item_event.py:91-96 | no well-formed event payload can exceed the 8 KiB bound |
| WorkItemModel.ApplyIsClosed | app/domain/models/business_work_item.py:167-235 | on valid items `apply` is refused by a validator exactly when an effective command meets a clock behind the creation time; otherwise the next item and its one to three events are valid |
| WorkItemAnswers.ApplyAnswers | app/domain/models/business_work_item.py:167-248 | every answer of `apply` by the fields of item and command: not found, version conflict, not editable (archived item under an edit or status change, or edit of a finished item), invalid transition, unchanged, refused by a validator, or the exact next item |
| WorkItemAnswers.EventsTellTheDifference | app/domain/models/business_work_item.py:181-248 | the events of a command are exactly the difference between the item before and after it: changed details with both due values, status, archiving, departure and arrival, numbered in order under the new version |
| WorkItemAnswers.ValidItemsAreWellFormed | app/domain/models/business_work_item.py:67-122 | which items are valid, spelled out: texts, zone, key characters, digests, status and its times, clock order, and the confirmation of an AI origin |
| WorkItemAnswers.AcceptedEventsFitTheirKind | app/domain/models/business_work_item_event.py:15-109 | an event is accepted exactly by its actor, numbers and the payload of its kind; the size bound never refuses one |
| WorkItemAnswers.DigestsAreHex | app/domain/models/business_work_item_source.py:15-20 | a digest is exactly the lower-case hexadecimal text of 32 bytes |
| WorkItemModel.EditsTakeEffect | app/domain/models/business_work_item.py:169-199 | an edit sets every supplied field and nothing else, is a no-op exactly when all are equal, and is accepted exactly for the owner, the current version and an active, unarchived item |
| WorkItemModel.StatusLaw | app/domain/models/business_work_item.py:200-235 | any status may follow an active one; a terminal status is left only by an explicit reopening to OPEN; completion and cancellation times follow the status |
| WorkItemModel.RepeatingIsIdempotent | app/domain/models/business_work_item.py:167-235 | repeating a command against the version it produced changes nothing, except that a reopening conflicts |
| WorkItemModel.RestoreUndoesArchive | app/domain/models/business_work_item.py:218-235 | restoring an archived item gives back the item but for version and update time |
| WorkItemModel.CollectChanges | app/domain/models/business_work_item.py:183-186 | the loop over the supplied fields collects exactly the differing ones |
| WorkItemModel.DraftEdit | app/domain/models/business_work_item.py:187-199 | the events of an edit, in order: details, leaving the old context, joining the new one |
| WorkItemModel.BuildEvents | app/domain/models/business_work_item.py:235-248 | numbers and validates the events; one refused event refuses the command |
| WorkItemModel.ApplyCommand | app/domain/models/business_work_item.py:167-235 | `apply` as it runs equals its specification |
| WorkItemJournal.JournalReconstructsTheItem | app/domain/models/business_work_item.py:124-248 | for every sequence of commands, folding the journal alone gives status, due value, context, archived, completed, cancelled and update times and version exactly; identity never changes |
| WorkItemJournal.JournalShape | app/domain/models/business_work_item.py:167-248 | one group of one to three events per version, ordinals from zero, strictly ordered by (version, ordinal), every event valid, nothing ever removed |
| WorkItemJournal.VersionCountsEffectiveCommands | app/domain/models/business_work_item.py:171-235 | the version grows by exactly the number of effective commands |
| WorkItemJournal.OneWinnerPerVersion | app/domain/models/business_work_item.py:171-172 | among commands carrying the same expected version at most one takes effect |
| WorkItemJournal.EventsCarryTheChange | app/domain/models/business_work_item.py:173-248 | the events of one effective command carry the tracked state from the old item to the new one |
| WorkItemJournal.GroupsAreOrdered | app/domain/models/business_work_item.py:235-248 | grouped journals are strictly ordered and mention exactly the versions 1 to v |
| WorkItemJournal.StrangersChangeNothing | app/domain/models/business_work_item.py:169-170 | a command of anybody but the owner is not found and changes nothing |
| WorkItemJournal.ContextMoveIsTwoEvents | app/domain/models/business_work_item.py:193-199 | moving between contexts emits one departure and one arrival, in this order, under one version |
| WorkItemJournal.ContextsWereConfirmed | app/domain/models/business_work_item.py:169-199 | in every journal each move into or out of a context comes from an accepted edit by the owner that asked for exactly that context |
| WorkItemJournal.PerformKeepsSound | app/domain/models/business_work_item.py:167-248 | every call keeps the journal in step with the item |
| WorkItemSources.SourceValuesAreFaithful | app/domain/models/work_item_provenance.py:25-62 | two well-formed references have equal source values exactly when they are equal |
| Provenance.Project | app/application/services/work_item_provenance.py:47-84 | the page with a carried-over offset is: flatten all arrays, drop the offset, take the limit; it fails on a malformed observation |
| Provenance.PlacesFailOnlyWhenMalformed | app/application/services/work_item_provenance.py:61-67 | a page fails exactly when its window holds a malformed observation |
| Provenance.PagesCoverTheRow | app/application/services/work_item_provenance.py:47-84 | any number of consecutive pages of any sizes that reach the end give every candidate of the row once and in order, and one of them fails exactly when the row holds a malformed observation |
| Provenance.ReadsAreOneRead | app/application/services/work_item_provenance.py:55-84 | pages of any sizes, each read where the one before it ended, are one page of their total size, failures included |
| Provenance.EmittedLocatorsValidate | app/application/services/work_item_provenance.py:35-44 | every locator a page emits is well formed and passes `validate_candidate` on the same row |
| Provenance.ValidatedLocatorsNameTheirObservation | app/application/services/work_item_provenance.py:35-44 | a locator validates exactly when the observation it names still has its digest |
| Provenance.VerificationKeepsTheRequest | app/application/services/work_item_provenance.py:87-108 | verification yields a valid source that says exactly what the client asked for, its candidate still standing, with the mailbox columns of the owner's own analysis row and an account the owner owns |
| ProvenanceAnswers.VerifiedSourcesAreOwn | app/application/services/work_item_provenance.py:11-108 | whatever verifies is of the owner's own data: a stored row of the reference's kind that the owner owns, with that row's mailbox columns, or a mailbox account of the owner |
| ProvenanceAnswers.AnalysisAnswers | app/application/services/work_item_provenance.py:87-108 | every answer to an analysis reference: not found for a missing or foreign row, the candidate's refusal, not found for a foreign account or unusable columns, or the exact source |
| ProvenanceAnswers.MessageAnswers | app/application/services/work_item_provenance.py:87-108 | a plain message verifies exactly when its account is the owner's and its identifier is addressable |
| ProvenanceAnswers.ValidationAnswers | app/application/services/work_item_provenance.py:35-44 | the exact answer of candidate validation by the array its field names, the index and the digest of what stands there |
| ProvenanceAnswers.ObservationsAreListedInOrder | app/application/services/work_item_provenance.py:21-32 | the flat list of a row's observations: action items of a plain row in order, or of a spreadsheet first the mentions, then the dates |
| ProvenanceAnswers.FieldsNameTheirArrays | app/application/services/work_item_provenance.py:21-32 | which stored array each candidate field of each kind of row names |
| ProvenanceAnswers.NameableObservationsHaveDigests | app/domain/models/work_item_intent.py:113-133 | which observations can be candidates at all, by field, form and length |
| WorkItemCreation.CreationRequestHash | app/domain/models/work_item_intent.py:99-110 | the loop empties server-loaded columns of all but plain communications and hashes the sorted result |
| WorkItemCreation.HashesAgree | app/schemas/work_items.py:57-72 | for every request whose references verify, the client's hash equals the hash of the intent built from server-loaded sources |
| WorkItemCreation.HashIgnoresSourceOrder | app/domain/models/work_item_intent.py:99-110 | permuting the sources does not change the hash |
| WorkItemCreation.EqualHashesMeanEqualRequests | app/domain/models/work_item_intent.py:92-110 | two accepted requests whose hashed mappings do not collide have the same hash exactly when they have the same words and the same sources in any order |
| WorkItemCreation.SortForgetsOrder | app/domain/models/work_item_intent.py:109-110 | sorting by canonical text gives equal results exactly for permutations |
| WorkItemCreation.VerifiedRequestsMakeValidIntents | app/domain/models/work_item_intent.py:75-90 | an accepted request whose references verify has at most ten distinct sources, the designated origin among them, and passes the provenance validator exactly when no two of its sources share a SHA-256 key |
| WorkItemCreation.ProperHashesExist | app/domain/models/work_item_intent.py:16-34 | what is assumed of digests and of the canonical text can be met |
| WorkItemCreation.RequestsNameTenReferences | app/schemas/work_items.py:34-95 | a request is accepted exactly with normal texts, at most ten references including the candidate's, all well formed and distinct, and a confirmation exactly with a candidate |
| WorkItemCreation.IntentsNameTheirOrigin | app/domain/models/work_item_intent.py:59-90 | an intent is accepted exactly when it is confirmed and has a candidate precisely for an AI origin, with one of at most ten distinct sources designating it |
| WorkItemCreation.CreationSucceeds | app/domain/models/business_work_item.py:124-156 | a valid intent under a valid key always creates a fresh item with its created event |
| CreationResults.OneItemPerKey | app/infrastructure/storage/repositories/business_work_item.py:201-236 | in every reachable state there is at most one item per owner and creation key, and per owner and confirmed candidate |
| CreationResults.CreatedAtMostOnce | app/application/services/work_items.py:68-102 | however many callers race on one owner and key, at most one is told that it created the item |
| CreationResults.ReplaysSurviveAnything | app/application/services/work_items.py:68-82 | once answered, an equal request with permission gets the same item as it then is, marked as a replay, and a different one conflicts, after any mutations, source changes or other creations; the store is not changed |
| CreationResults.LookupOfTakenKey | app/application/services/work_items.py:74-82 | a taken key is answered by permission first, then by the hash, from stored data only |
| CreationResults.AnswersAreTruthful | app/application/services/work_items.py:83-102 | whatever is returned exists, is the caller's, answers its own request and was permitted; a validation failure is answered only when two distinct sources of the request share a key |
| CreationResults.ReturnedItemsAnswerTheRequest | app/application/services/work_items.py:74-102 | a returned item was created by a request with the same words and sources, unless the two requests are a hash collision |
| CreationResults.DifferentRequestsConflict | app/application/services/work_items.py:68-82 | under a key that was answered with an item, and after any events, a request with permission gets that item exactly when it has the same words and sources, and conflicts otherwise, unless the two requests are a hash collision; the store is not changed |
| CreationResults.StoredItemsAreSound | app/infrastructure/storage/repositories/business_work_item.py:201-236 | every stored item is valid, reconstructed by its journal, and has exactly its request's sources |
| CreationResults.RefusalsChangeNothing | app/application/services/work_items.py:68-102 | every answer but a returned item, or a commit of unknown outcome, leaves the store as it was |
| CreationResults.UndisturbedCreationSucceeds | app/application/services/work_items.py:83-100 | an undisturbed creation returns a fresh item of the caller with exactly the requested sources |
| CreationAnswers.SourcesWereTheOwners | app/application/services/work_items.py:68-102 | in every run each source of every stored item was its owner's own stored row or account at the moment the creating call verified it |
| CreationAnswers.LoadedSourcesAreOwn | app/application/services/work_items.py:82-83 | every source a verification loads is the owner's own |
| CreationAnswers.LoadingAnswers | app/application/services/work_items.py:82-83 | references are verified in order: all sources, or the answer of the first reference that is refused |
| CreationAnswers.LookupAndVerifyAnswer | app/application/services/work_items.py:73-83 | what the replay lookup and the verification answer, by the item stored under the key, its sources and hash, and the caller's permission |
| CreationAnswers.InsertAnswers | app/application/services/work_items.py:84-102 | what the insert answers and stores in every reachable state, by the item of the same key, the item of the same candidate, the store's check, the permission and the commit |
| CreationProtocol.StepKeepsInvariant | app/application/services/work_items.py:68-102 | every lookup, verification, insert, mutation and source change keeps the table, its two unique indices and the answers consistent |
| CreationProtocol.RunKeepsInvariant | app/application/services/work_items.py:68-146 | every run keeps them consistent |
| CreationService.Service.LookupExisting | app/application/services/work_items.py:72-81 | the replay lookup, as exactly one step |
| CreationService.Service.VerifySources | app/application/services/work_items.py:82-83 | verification and the permission check, as exactly one step |
| CreationService.Service.InsertVerified | app/application/services/work_items.py:84-100 | the intent and `create_owned` with its commit, as exactly one step |
| CreationService.Service.MutateOwned | app/infrastructure/storage/repositories/business_work_item.py:239-291 | a mutation under its row lock, as exactly one step |
| CreationService.Service.GetByCreationKey | app/infrastructure/storage/repositories/business_work_item.py:60-68 | the item stored under this owner and key |
| CreationService.Service.SourcePermission | app/application/services/work_items.py:60-66 | permission is missing exactly when some source has a mailbox account and the caller may not read communications |
| CreationService.Service.VerifyReferences | app/application/services/work_items.py:82-82 | verifies references in order and stops at the first that is refused |
| Timeline.StableSortSorts | app/application/services/context_timeline.py:112-112 | the sort orders newest first, then by id, and loses nothing |
| Timeline.SortIsMerge | app/application/services/context_timeline.py:79-112 | sorting everything is merging the sorted rest with an ordered event source |
| Timeline.PrefixPageIsFullPage | app/application/services/context_timeline.py:79-113 | the page built from only offset + limit events equals the slice of the fully sorted merge, for every offset, limit and event count, given ordered events |
| Timeline.ShortReadsNeedOrder | app/application/services/context_timeline.py:76-113 | the short read gives the right page for every other source, offset and limit exactly when the events come in timeline order |
| Timeline.UnorderedEventsBreakThePage | app/application/services/context_timeline.py:79-86 | without that order the short read picks a wrong entry |
| TimelineService.ListTimeline | app/application/services/context_timeline.py:50-121 | `list_timeline` returns exactly the slice of everything sorted, with clamped limit and offset |
| TimelineService.RepositoryOrderSuffices | app/infrastructure/storage/repositories/business_work_item.py:401-412 | the repository's order by time and event id is the timeline order of the entries |
| TimelineService.LeadingEvents | app/application/services/context_timeline.py:79-99 | the paged loop reads exactly the first offset + limit events |
| TimelineService.LoadAllLinks | app/application/services/context_timeline.py:172-191 | the drain loop returns every link in order |
| TimelineService.MatchingAnalyses | app/application/services/context_timeline.py:193-212 | the drain loop returns exactly the linked analyses |
| TimelineService.MatchingAttachments | app/application/services/context_timeline.py:214-235 | the nested drain returns the attachment analyses of every linked message |
| TimelineService.MatchingWorkflows | app/application/services/context_timeline.py:237-256 | the drain loop returns exactly the linked actions |
| TimelineService.Assemble | app/application/services/context_timeline.py:123-170 | the assembly collects the context, link, analysis, attachment and workflow entries |
| TimelineService.PagesCoverTheTimeline | app/application/services/context_timeline.py:74-113 | successive pages concatenate to the whole ordered timeline with no gap or repeat |
| TimelineService.EnumerationNeverShows | app/application/services/context_timeline.py:150-170 | the enumeration order of the provenance set never shows when entry ids are distinct |
| TimelineService.AnalysesShownAreLinked | app/application/services/context_timeline.py:193-212 | an analysis is on the timeline exactly when its own message is linked to the context |
| TimelineService.WorkflowEntriesTellTheStatus | app/application/services/context_timeline.py:311-382 | the entries of a stored action spell out its lifecycle |
| TimelineAnswers.TimelineShowsExactly | app/application/services/context_timeline.py:123-382 | an entry is on the timeline exactly when it is one of: the context's creation or archiving, a link, an analysis or attachment analysis of a linked message, a dated transition of an action on a linked message, or a work item event, each with its own id, instant and source |
| TimelineOnce.NothingIsShownTwice | app/application/services/context_timeline.py:74-170 | with row identifiers that are keys the whole ordered timeline repeats no entry, however the provenance set is enumerated |
| TimelineAnswers.WorkflowEntriesAreDated | app/application/services/context_timeline.py:311-382 | each entry of an action carries the instant stored for that very transition |
| TimelineAnswers.LimitsAreClamped | app/application/services/context_timeline.py:74-78 | the page size is the requested one brought between 1 and 100 |
| Paging.PagesConcatenate | app/application/services/context_timeline.py:113-113 | pages of equal size concatenate to one window |
| Paging.WindowOfJoin | app/application/services/work_item_provenance.py:55-84 | a window over two joined lists is the part in the first plus what still fits of the second |
| Clamd.InstreamFrames | app/infrastructure/attachments/clamav_protocol.py:22-38 | the framing loop yields the specified frames, or refuses a payload over the limit |
| Clamd.FramingRoundTrips | app/infrastructure/attachments/clamav_protocol.py:22-38 | decoding the concatenated frames followed by anything recovers exactly the content and stops exactly behind the terminator |
| Clamd.TruncatedStreamsNeverDecode | app/infrastructure/attachments/clamav_protocol.py:22-38 | no proper prefix of the stream decodes |
| Clamd.FrameSizes | app/infrastructure/attachments/clamav_protocol.py:30-37 | every data frame carries 1 to 8192 bytes under its own length; the last frame is the zero length |
| Clamd.WireLength | app/infrastructure/attachments/clamav_protocol.py:30-37 | the wire length is n + 4 * (ceil(n / 8192) + 1) |
| Clamd.RecvBounded | app/infrastructure/attachments/clamav_scanner.py:87-98 | the receive loop equals its specification under every fragmentation |
| Clamd.Receive | app/infrastructure/attachments/clamav_scanner.py:87-98 | the result is a prefix of at most the limit and ends at the limit, at the end of the stream, or behind a NUL or newline |
| Clamd.FragmentationIndependence | app/infrastructure/attachments/clamav_scanner.py:87-98 | the received bytes are independent of fragmentation exactly when no byte before the last, within the limit, is a NUL or newline |
| Clamd.VerdictIgnoresFragmentation | app/infrastructure/attachments/clamav_scanner.py:44-58 | a reply of at most 512 bytes whose only NUL or newline is its last byte gets one verdict, however it arrives |
| Clamd.OneLineReplies | app/infrastructure/attachments/clamav_protocol.py:41-68 | a well-formed reply is judged by exactly the line the daemon wrote |
| Clamd.CleanMeansOk | app/infrastructure/attachments/clamav_protocol.py:41-68 | such a reply is CLEAN exactly for the two OK lines and MALICIOUS exactly for a FOUND line |
| Clamd.InteriorNulMakesTheVerdictDepend | app/infrastructure/attachments/clamav_scanner.py:87-98 | a concrete reply with an interior NUL gets two different verdicts under two fragmentations |
| ClamdVerdicts.CleanIsEarned | app/infrastructure/attachments/clamav_scanner.py:44-98 | a scan is CLEAN if and only if the content is within 5 MiB, the socket answered, and the received bytes are ASCII whose first line, blanks removed, is OK or stream: OK |
| ClamdVerdicts.ScanAnswers | app/infrastructure/attachments/clamav_scanner.py:44-58 | for every content, reply and fragmentation the exact verdict: an oversize payload or a failed exchange is an error, anything else is the meaning of what was received |
| ClamdVerdicts.RepliesMeanTheirLine | app/infrastructure/attachments/clamav_protocol.py:41-68 | for every reply the exact verdict of the one line it is read as: OK, FOUND, ERROR, or unknown |
| AttachmentPolicy.MemberInventory | app/domain/attachment_policy.py:582-631 | the inventory is the exact name set, count and sum, or the error of the first refused member in check order |
| AttachmentPolicy.ListedMembersAreBounded | app/domain/attachment_policy.py:601-630 | a listed archive meets the entry, single, ratio and total bounds, and no name is absolute or climbs |
| AttachmentPolicy.StrictNamesAreDistinct | app/domain/attachment_policy.py:607-616 | in strict mode names are pairwise distinct and as many as the members |
| AttachmentPolicy.ListedNamesStayInside | app/domain/attachment_policy.py:617-618 | every listed name stays inside the root at every step of its path |
| AttachmentPolicy.DetectKind | app/domain/attachment_policy.py:267-290 | a kind is detected exactly when its own recogniser matches |
| AttachmentPolicy.AtMostOneRecogniser | app/domain/attachment_policy.py:267-290 | at most one recogniser matches any payload |
| AttachmentPolicy.DocxIsNotXlsx | app/domain/attachment_policy.py:486-524 | no archive is recognised as both document and workbook |
| AttachmentPolicy.AcceptedMeansRecognised | app/domain/attachment_policy.py:245-264 | accepted content is of the declared kind, matches no other recogniser, and is within every size bound |
| AttachmentPolicy.DocxAcceptance | app/domain/attachment_policy.py:527-544 | a recognised document is accepted exactly when it has no macro project and no encryption marker |
| AttachmentPolicy.XlsxAcceptance | app/domain/attachment_policy.py:293-338 | a recognised workbook is accepted exactly without macros, encryption markers, external links or connections |
| AttachmentAnswers.OfficeAcceptance | app/domain/attachment_policy.py:293-338 | an office document is accepted exactly when its archive is within its entry, size, total and ratio bounds, has the parts of its kind and not the other's, and has no macro project, encryption part, external link or connection |
| AttachmentAnswers.OfficeRecognition | app/domain/attachment_policy.py:486-524 | which archives are detected as document or workbook, by their members alone |
| AttachmentAnswers.ListedExactly | app/domain/attachment_policy.py:582-631 | an archive is listed exactly when it has few enough members, each listable on its own, the sizes add up to little enough and, in strict mode, no name repeats |
| AttachmentAnswers.RefusalsNameTheirReason | app/domain/attachment_policy.py:601-630 | a member exceeds a limit only if its name, and for the total also its ratio, is in order; everything else is unsupported |
| AttachmentAnswers.PdfAcceptance | app/domain/attachment_policy.py:407-417 | a PDF is accepted exactly with its signature and without an encryption dictionary or active markup in its first 8192 bytes |
| AttachmentAnswers.ImageAcceptance | app/domain/attachment_policy.py:399-406 | images are accepted exactly by their signatures, a JPEG only with a nonzero fourth byte |
| AttachmentAnswers.TextAcceptance | app/domain/attachment_policy.py:428-449 | plain text is accepted exactly when it carries no other signature and decodes to text without NUL |
| AttachmentAnswers.SizesAnswer | app/domain/attachment_policy.py:231-242 | the exact answer to every combination of actual and reported size |
| AttachmentAnswers.OtherRefusalsAreUnsupported | app/domain/attachment_policy.py:245-264 | content of acceptable size is accepted as declared or unsupported, nothing else |
| AttachmentAnswers.ComponentsSplitAtSlashes | app/domain/attachment_policy.py:617-618 | the parts of a name have no slash and joined by slashes give the name |
| AttachmentPolicy.Budget.Consume | app/domain/attachment_policy.py:200-206 | consuming spends the size or fails and spends nothing |
| AttachmentPolicy.BudgetIsNeverOverdrawn | app/domain/attachment_policy.py:180-206 | over any sequence of payloads the budget is never overdrawn and never given back |
| TextCollector.CollectDocx | app/infrastructure/attachments/docx.py:37-75 | paragraphs, then table rows while nothing was cut, collected as the fold of all pieces |
| TextCollector.CollectPdf | app/infrastructure/attachments/pdf.py:46-67 | the page limit, then the pages collected as the fold of all pieces |
| TextCollector.CollectionIsBoundedPrefix | app/infrastructure/attachments/docx.py:37-75 | the collection is a prefix of the nonempty pieces with only the last possibly cut, lengths summing to min(total, 200000), flagged exactly when the total exceeds 200000 |
| TextAnswers.PiecesAreTheDocument | app/infrastructure/attachments/docx.py:41-63 | what is offered is the trimmed paragraphs in order, then every row of every table in order as its nonempty trimmed cells between tabs |
| TextAnswers.ShortDocumentsAreExtractedWhole | app/infrastructure/attachments/docx.py:37-79 | a document of at most 200000 characters is extracted as exactly its nonempty paragraphs and rows, one line each; the text is marked as truncated exactly beyond that |
| TextAnswers.PagesAreOfferedAsTheyAre | app/infrastructure/attachments/pdf.py:49-52 | a page's text is offered as it is, and a page without text offers nothing |
| TextCollector.NoTextMeansNoPiece | app/infrastructure/attachments/docx.py:79-81 | the extracted text is empty exactly when no nonempty piece was offered |
| TextCollector.TextIsTheOfferedPieces | app/infrastructure/attachments/docx.py:37-81 | the extracted text is the nonempty pieces up to the limit joined by newlines, the last one reached cut to what the limit leaves and stripped of trailing blanks |
| TextCollector.TextKeepsToTheLimit | app/infrastructure/attachments/docx.py:37-81 | if all pieces fit, the text is unflagged and within 200000 characters exactly when the pieces and the newlines between them are; otherwise it is flagged and within the limit exactly when the cut leaves at least as many trailing blanks as there are newlines |
| TextCollector.UntruncatedTextMayExceedTheLimit | app/infrastructure/attachments/docx.py:79-91 | two paragraphs of together 200000 characters give a text of 200001 characters that is not marked as truncated |
| WorkItemDue.StoredDueRoundTrips | app/domain/models/work_item_due.py:107-127 | storing a valid due value and reading it back gives the same value, in every zone and around clock changes |
| WorkItemDue.ReadingInvertsStoring | app/domain/models/work_item_due.py:107-127 | reading a stored value gives a due value exactly when that is valid and stored as just that |
| WorkItemDue.RangeOfTheCalendar | app/domain/models/work_item_due.py:83-100 | the accepted range is that of the years 1 to 9999 |
| WorkItemDue.EveryInstantIsRepresentable | app/domain/models/work_item_due.py:117-127 | every stored instant in range reads back as a valid due value of that instant |
| WorkItemDue.AcceptedWallTimes | app/domain/models/work_item_due.py:83-100 | a wall time and offset are accepted exactly when some instant shows them in the zone |
| WorkItemDue.SkippedWallTimesAreRefused | app/domain/models/work_item_due.py:88-97 | a wall time the zone skips is refused whatever offset is claimed |
| WorkItemDue.RepeatedWallTimesStayApart | app/domain/models/work_item_due.py:93-100 | a repeated wall time is accepted with either offset, and the two stay different instants |
| WorkItemDue.ModelDueIsFaithful | app/domain/models/work_item_due.py:64-100 | valid due values are equal exactly when their instants and zones are |

## Left out

- Workflow execution: logging, principals and identity resolution; the caller is a user id.
- `ConnectorAccountService.register` accepts caller-chosen locators, so it is outside the fresh-locator assumption of the saga.
- Display identities and provider grant revocation after a disconnect: neither touches the two stores the saga links.
- Deletion of users, analyses or accounts: rows persist in the reply and saga models.
- Token exchange, token refresh, executors and provider connectors: nondeterministic outcomes of one step.
- SHA-256, canonical JSON, time zone data, ZIP, XML and text decoding: parameters with the assumptions stated where used.
- Time zone database membership in `confirmed_zone`: only the syntactic part of a zone name is checked.
- Parsing and printing of dates, instants and candidate JSON: values are taken after parsing.
- `BusinessWorkItem.overdue`, list filters and query predicates: single-branch reads.
- Existence and archive state of business contexts, and the repository's second look at the sources: one yes-or-no input of each insert and mutation.
- The truncation, warning and limitation disclosures copied onto every candidate of a page.
- Titles and summaries of timeline entries, and the floating-point timestamp in the sort key: entries are ordered by exact instants.
- The SQL adapter that returns a ready timeline page: only the portable path is modelled, on repositories that do not change during one request.
- PDF text normalisation after joining, and the warnings of both parsers: they do not affect what is collected.
- File name and media type parsing of `_declared_kind`: its result is the declared kind of the content.
- Timeouts and socket errors of the clamd exchange: one error outcome.
- HTTP routes, settings, the frontend, AI providers and mailbox listing: plumbing around the modelled parts.
