# Knowledge gateway: verified models

The gateway lets language-model clients work on governed Google Workspace sources, a HubSpot
connection and an inbox of agent signals. This project models its protocols and its bounded
algorithms in Dafny and proves what they keep. Verify with `dafny verify dfyconfig.toml`.

How the parts are modelled:

- **Shared objects.** `ObjectStore` is a bucket whose objects carry a generation: the number of the
  write that stored them, so a generation never returns, not even after a delete and a new create.
- **Other clients.** Every protocol class owns a `world` (bucket and clock), counts its `calls` to the
  provider, and has a fixed function `others`: what other clients attempt before each call arrives
  (`Schedules`). Any such function is an interleaving. Contracts name the foreign steps as
  `Between(others, old(calls), calls)`, so they are those of the schedule and no others, and say
  what the method itself attempted and where that landed.
- **Agent signal inbox** (`SignalRecords`, `SignalStore`, `SignalInbox`, `SignalHistory`,
  `SignalExpiry`, `SignalBox`): the operations against the bucket, theorems over the log of every
  run, and the proof that lazily expired claims look like eagerly expired ones.
- **HubSpot connection** (`RefreshLease`, `TokenStore`, `TokenManager`, `OAuthPending`): the
  fencing protocol around rotating refresh tokens (section 6 of RFC 6749), the token manager that
  drives it, and single-use OAuth states.
- **Source proposals** (`ProposalStore`): one document that concurrent creators append to.
- **DOCX text** (`StyledText`, `RunText`, `Clearing`, `Placeholders`, `DocxPackage`): replacement across w:t elements (ECMA-376
  Part 1, section 17.3.3.31), as an in-place loop over an array of run texts.
- **Document tabs** (`TabForest`, `DocumentTabs`): inspect, check and commit under a required
  revision while others edit.
- **Spreadsheets** (`ColumnNames`, `SheetRanges`, `CellValidation`, `SheetPolicy`, `SheetBatch`,
  `SheetCalls`): column names, bounded ranges, validation inspection under a read budget, admission
  and execution of edit batches.
- **Drive** (`AncestorSearch`, `SourceAccess`), **document text** (`BoundedText`), **images** (`ImageSizing`).

Some statements are false without a condition; the model keeps the code's behaviour and says exactly
when they hold.

- Titles of an admitted spreadsheet batch can clash if a sheet is renamed twice
  (`SheetBatch.RenamedTwiceCanClash`); plan and spreadsheet part exactly when a rename gives away a
  title that another sheet holds (`SheetBatch.OutOfStepIffStealing`).
- A bare release or dismiss agrees with eager expiry exactly when the claim has not run out
  (`SignalExpiry.BareReleaseAgrees`), and so does the status that a repeated delivery reports
  (`SignalExpiry.RedeliverySimulates`).
- After a replace-all the searched text is gone from every text exactly when at no offset the
  replacement can complete what is left of it around a match (`Clearing.ClearsIff`). For a
  placeholder: when the replacement, laid over it at any offset, never agrees with it
  (`Placeholders.PlaceholderClearsIff`); for a replacement without braces: when it does not occur
  inside the placeholder (`Placeholders.OrdinaryValueClearsIff`). The check of the file read back,
  which looks at all parts, then passes exactly when the parts that were not searched had none
  (`DocxPackage.PlaceholderReadBack`).
- The depth budget leaves no policy wrongly decided exactly when all ancestors after the first so
  many, in breadth-first order, are the file itself or its drive
  (`SourceAccess.BudgetDecidesExactly`); for one, a block can stay hidden
  (`SourceAccess.BudgetCanHideABlock`).
- The tab checks keep every document good exactly when the required revision existed before the call
  (`DocumentTabs.SafeIffKnownRevision`).
- A second refresh lease is taken beside an unfinished, unexpired one exactly when a new
  authorization was saved over the first (`RefreshLease.OverlapIffSavedOver`); the two then share a
  token exactly when a later rotation brought the token of the first back
  (`RefreshLease.OverlapSharesIffBroughtBack`).
- A rotated token is kept exactly when no write landed between acquisition and completion
  (`TokenStore.RotationIsKept`); noting an account is such a write
  (`TokenStore.AccountUpdateLosesRotation`).

Standing assumptions: one clock, which never goes back; conditional writes either land or do not;
casefold, strip, the range grammar, rounding and the square root are function parameters; tab and
sheet references are taken decoded, and several may name one tab or sheet.

## Model

| member | source | states |
|---|---|---|
| ObjectStore.CompareAndSetKeepsValid | app/agent_signals.py:291-310 | A conditional write stores under a new generation and leaves every other object alone |
| ObjectStore.LiveVersionIsWhatWasRead | app/agent_signals.py:291-301 | If the generation a client read is still live, the object still holds what it read |
| ObjectStore.MovedMeansWritten | app/agent_signals.py:291-301 | A precondition fails only because somebody wrote that object in between |
| ObjectStore.GenerationNeverReturns | app/agent_signals.py:254-310 | A generation once replaced never becomes live again, also across delete and create |
| SignalStore.RunKeepsSafe | app/agent_signals.py:228-233 | Whatever clients attempt on whatever old version, every committed write is an allowed transition of the record just before it |
| SignalStore.Backend.Replace | app/agent_signals.py:291-301 | Writes the decided record over the version read, or reports that the version moved on, with nothing else changed |
| SignalStore.Backend.Delete | app/agent_signals.py:303-310 | Deletes the version read and no other |
| SignalInbox.AgentSignalInbox.Receive | app/agent_signals.py:326-348 | Delivery is idempotent: creates a pending record once, otherwise reports the stored one and changes nothing |
| SignalInbox.AgentSignalInbox.Update | app/agent_signals.py:562-577 | In at most five rounds, and in five for a conflict: the world is what the schedule's foreign steps make of it, with one write of this call on success and none otherwise; success applied the action to the record live at that very write, a refusal is that of the record then stored, and a conflict is reported only if at least five of those foreign writes hit this object |
| SignalInbox.AgentSignalInbox.Claim | app/agent_signals.py:385-405 | The claim transition at the call's clock reading, on whatever is stored when it lands |
| SignalInbox.AgentSignalInbox.Complete | app/agent_signals.py:407-443 | The completion transition, likewise |
| SignalInbox.AgentSignalInbox.Dismiss | app/agent_signals.py:445-477 | The dismissal transition, likewise; an empty or too long reason is refused without a write |
| SignalInbox.AgentSignalInbox.Release | app/agent_signals.py:479-503 | The release transition, likewise |
| SignalRecords.DeliveryAnswer | app/agent_signals.py:160-196 | A delivery starts a pending signal that nothing has happened to |
| SignalRecords.ClaimAnswer | app/agent_signals.py:385-405 | Exactly: a signal can be claimed if it is pending or its claim ran out; it is then the claimant's for the lease, and nothing else changes; which error is given otherwise |
| SignalRecords.CompletionAnswer | app/agent_signals.py:421-441 | Exactly: only while claimed and in time, by the claimant; what it writes and which error is given otherwise |
| SignalRecords.DismissalAnswer | app/agent_signals.py:455-475 | Exactly: a pending signal by anybody, a claimed one by its claimant, a finished one by nobody; what it writes and which error is given otherwise |
| SignalRecords.ReleaseAnswer | app/agent_signals.py:484-501 | Exactly: only a claimed signal, in time or not, by its claimant; it is then without a claim again |
| SignalRecords.ExpiryAnswer | app/agent_signals.py:535-560 | A claim is overdue from its deadline on, and expiry leaves it as a release would |
| SignalRecords.CleanupAnswer | app/agent_signals.py:520-533 | A record is due exactly if it is finished and ended before the retention period |
| SignalInbox.AgentSignalInbox.NormalizeExpired | app/agent_signals.py:535-553 | Attempts the expiry of the version read exactly if its claim is overdue at the call's clock reading, and nothing else; the caller sees what that made of the record or the record now stored, and fails only if the signal vanished |
| SignalInbox.AgentSignalInbox.Get | app/agent_signals.py:350-351 | Shows a record stored at some moment of the call; alone, exactly the record with an overdue claim lapsed, and stores that |
| SignalInbox.AgentSignalInbox.Cleanup | app/agent_signals.py:520-533 | Whatever interleaves, attempts exactly the deletions of the listed records due at its clock reading, each on the version listed, and counts them; alone, removes exactly the terminal records older than retention |
| SignalInbox.AgentSignalInbox.List | app/agent_signals.py:353-383 | Whatever interleaves: every record shown was stored at some moment of the call, in order, without repeats, within the limit; a record live and matching all the time is listed unless the answer is full; own writes are expiries and due deletions; fails only if a listed signal vanished. Alone, a right listing of the swept and lapsed box |
| SignalBox.SortByUrgency | app/agent_signals.py:376-382 | A sorted rearrangement: urgent first, then oldest occurrence, then receipt; ties stay as they stood |
| SignalBox.SelectMatching | app/agent_signals.py:368-375 | Exactly the records that match the filter |
| SignalBox.MatchesConjoins | app/agent_signals.py:368-375 | A filter that asks for nothing matches all, and each thing asked for is one more condition |
| SignalBox.OrderIsByKey | app/agent_signals.py:376-382 | The order is that of the key urgent first, occurrence, receipt |
| SignalBox.SweepAnswer | app/agent_signals.py:520-533 | A cleanup leaves exactly what did not end before the retention period, as it was |
| SignalBox.LapseAnswer | app/agent_signals.py:535-560 | A reader is shown an overdue claim as released and anything else as stored |
| SignalBox.FirstOfSortedIsListing | app/agent_signals.py:366-383 | The first `limit` of the sorted matches leave out only records that should not come before any of them |
| SignalHistory.WriteIsATransition | app/agent_signals.py:385-577 | In every run, each committed write is one allowed transition of the record stored just before it, decided on a clock reading not later than the write |
| SignalHistory.PayloadNeverChanges | app/agent_signals.py:160-196 | Payload and receipt fields stay what they were at receipt as long as the record exists |
| SignalHistory.TerminalIsFinal | app/agent_signals.py:407-533 | A completed or dismissed record stays exactly as it is until cleanup removes that very record |
| SignalHistory.OnlyCleanupDeletes | app/agent_signals.py:520-533 | The only deletion removes a terminal record that was older than retention |
| SignalHistory.ClaimEnds | app/agent_signals.py:385-503 | The next write after a claim: another claim or an expiry only at its deadline, completion only before it, and completion, dismissal or release with a principal only by the claimer |
| SignalHistory.ClaimsExclude | app/agent_signals.py:385-405 | A second claim lands only after the first one's deadline or after a release, completion or dismissal in between |
| SignalHistory.CompletionHasItsClaim | app/agent_signals.py:407-443 | A completion follows a claim directly, before its deadline, and with a principal given it is the claimer's |
| SignalHistory.StoredIsWellFormed | app/agent_signals.py:385-503 | A claimed record has claimant and deadline, a pending one neither, and completion and dismissal times exactly their own states |
| SignalExpiry.CallSimulates | app/agent_signals.py:326-443 | One call on the lazy box and on the eager box keeps the boxes related, and gives the same outcome apart from updated_at if and only if it does not redeliver a signal whose claim is overdue |
| SignalExpiry.RedeliverySimulates | app/agent_signals.py:343-348 | A repeated delivery never creates again in either box; the status reported agrees if and only if the claim is not overdue |
| SignalExpiry.RunSimulates | app/agent_signals.py:535-560 | The boxes stay related over every sequence of calls in clock order |
| SignalExpiry.LazyRefinesEager | app/agent_signals.py:326-443 | In every such sequence each call answers as if claims lapsed at their deadline, apart from updated_at, if and only if it is not such a redelivery |
| SignalExpiry.ListingsAgree | app/agent_signals.py:353-383 | A right listing of one box is a right listing of a box that differs in updated_at only |
| SignalExpiry.BareReleaseAgrees | app/agent_signals.py:479-503 | Without a preceding get, release answers as the reference does after eager expiry if and only if the claim has not run out |
| SignalExpiry.BareDismissAgrees | app/agent_signals.py:445-477 | The same for dismiss |
| SignalExpiry.Perform | app/agent_signals.py:326-503 | Every call of the inbox, alone on the bucket, answers as the lazy model that refines the eager one: receive, get, list, cleanup, claim, complete, and release and dismiss after get |
| SignalExpiry.GetThenUpdate | app/mcp_server.py:2281-2310 | Release and dismiss after get, as the tools do it, behave as in that model |
| RefreshLease.RunKeepsSafe | app/adapters/hubspot/token_store.py:131-243 | In every interleaving, each write is legal on the version just before it |
| RefreshLease.FinishFollowsAcquire | app/adapters/hubspot/token_store.py:202-232 | Fencing: a completion or failure is the write directly after the acquisition of its lease, with that lock and token |
| RefreshLease.TokenIsTheLastOne | app/adapters/hubspot/token_store.py:131-220 | The stored token is always that of the last saved connection or completed rotation |
| RefreshLease.SupersededChangesNothing | app/adapters/hubspot/token_store.py:202-232 | After any later write, the holder's completion or failure changes nothing |
| RefreshLease.AcquireAnswer | app/adapters/hubspot/token_store.py:169-200 | Exactly: a lease is granted on a connection that needs no new authorization and is not refreshing with time left; it locks the document with the id until the time is up and changes nothing else |
| RefreshLease.ReachedDeadlineNeverBlocks | app/adapters/hubspot/token_store.py:176-180 | A lock whose deadline is reached never blocks the next lease |
| RefreshLease.DocumentIsConsistent | app/adapters/hubspot/token_store.py:131-243 | Refreshing holds exactly when lock id and expiry are present |
| RefreshLease.OnlySaveReconnects | app/adapters/hubspot/token_store.py:131-243 | Required reauthorization is left only by saving a connection |
| RefreshLease.LeaseFate | app/adapters/hubspot/token_store.py:169-243 | After any number of writes, whatever tokens go round, a lease is finished, run out, saved over by a new authorization, or still the one the document carries |
| RefreshLease.OverlapIffSavedOver | app/adapters/hubspot/token_store.py:131-200 | Of two acquisitions, the later within the first's deadline, the first is unfinished if and only if the first write after it other than noting an account is a new authorization |
| RefreshLease.OverlapSharesIffBroughtBack | app/adapters/hubspot/token_store.py:131-219 | When newly saved tokens are new, such a pair shares a token if and only if a rotation in between brought the first's token back and nothing replaced it again |
| RefreshLease.BackIffBroughtBack | app/adapters/hubspot/token_store.py:131-219 | A token once replaced is stored again if and only if a rotation brought it back |
| RefreshLease.LeasesExclude | app/adapters/hubspot/token_store.py:169-200 | When a lease on a token is taken, every earlier lease on that token is finished or has run out, given that HubSpot never reissues an old token |
| RefreshLease.RecycledTokenIsShared | app/adapters/hubspot/token_store.py:202-219 | That happens: a log in which a rotation returns an old token and two unfinished, unexpired leases share it |
| TokenStore.HubSpotTokenStore.SaveConnection | app/adapters/hubspot/token_store.py:131-152 | Succeeds exactly if the bucket answers and nobody writes in between, and then the document is the new token, scope and account, active and unlocked |
| TokenStore.HubSpotTokenStore.AcquireRefreshLease | app/adapters/hubspot/token_store.py:169-200 | The whole answer: granted if and only if connected, not locked at the clock reading and undisturbed, then with the token and scope found and the document locked under the id until now plus the lease; each error exactly in its case |
| TokenStore.HubSpotTokenStore.CompleteRefresh | app/adapters/hubspot/token_store.py:202-219 | Outages apart, succeeds if and only if nobody wrote since the lease was taken; the document then has the given token, the given scope or the lease's, is active and unlocked, and is otherwise as found |
| TokenStore.HubSpotTokenStore.FailRefresh | app/adapters/hubspot/token_store.py:221-232 | Ends the lease if it is still held, leaving the document active or in need of authorization and otherwise as found; writes nothing if not |
| TokenStore.HubSpotTokenStore.UpdateAccount | app/adapters/hubspot/token_store.py:234-243 | Writes exactly if there is a connection and it is undisturbed, and changes the account and nothing else |
| TokenStore.WhyFinished | app/adapters/hubspot/token_store.py:202-232 | Outages apart, finishing a lease succeeds if and only if no other write came after the acquisition |
| TokenStore.OperatedPlayed | app/adapters/hubspot/token_store.py:131-243 | Each operation is a run of the schedule with at most that one conditional write of its own |
| TokenStore.OperatedAnswer | app/adapters/hubspot/token_store.py:131-243 | Each operation writes if and only if its decision on the document found allows it and nobody writes in between |
| TokenStore.RotationIsKept | app/adapters/hubspot/token_store.py:202-219 | A token that HubSpot issued and that was never stored before becomes the stored one if and only if no write landed between acquisition and completion |
| TokenStore.AccountUpdateLosesRotation | app/adapters/hubspot/token_store.py:202-243 | If only accounts were noted in between, completion is refused and the document keeps the replaced token under the lease's lock |
| TokenManager.HubSpotTokenManager.IsValid | app/adapters/hubspot/mcp_client.py:83-90 | A remembered access token counts until its expiry |
| TokenManager.HubSpotTokenManager.Cached | app/adapters/hubspot/mcp_client.py:45-49 | A token still usable before or after the wait for the lock is used, also one that another coroutine remembered meanwhile |
| TokenManager.HubSpotTokenManager.AcquireLease | app/adapters/hubspot/mcp_client.py:50-62 | A chain of at most five tries, each from where the one before ended, each but the last refused because of a running refresh or a foreign write; the answer is the last try's, and a refresh in progress is reported only after five |
| TokenManager.HubSpotTokenManager.FinishRefresh | app/adapters/hubspot/mcp_client.py:63-81 | Every exit leaves the lease over while storage is available and raises what the refresh raised. Success, which is exactly that nobody wrote since the lease was taken, stored the token sent, or the lease's if none was sent, and remembers the access token until a minute before it expires; a token sent and never stored before is the stored one if and only if the call succeeds |
| TokenManager.HubSpotTokenManager.GetAccessToken | app/adapters/hubspot/mcp_client.py:44-81 | Its own attempts are acquisitions and the finish of the lease taken; with storage available that lease is over on every exit; success after a refresh stored the token sent, or the lease's if none was sent; with nobody else writing the document ends active, or in reauthorization exactly for an invalid refresh token |
| TokenManager.ChainLog | app/adapters/hubspot/mcp_client.py:50-62 | Tries that fail leave the bucket to others; one that succeeds adds its own acquisition |
| OAuthPending.PendingStore.CreatePending | app/adapters/hubspot/token_store.py:93-100 | Stores a pending authorization unless the state is in use |
| OAuthPending.PendingStore.ConsumePending | app/adapters/hubspot/token_store.py:102-129 | Success exactly when this very call deleted the authorization it had read, in time; an expired one is used up too; refused exactly when there was none or somebody else was faster |
| OAuthPending.ConsumedOnce | app/adapters/hubspot/token_store.py:102-129 | Two consumptions of a state take two different creations, whatever interleaves |
| OAuthPending.ConsumesACreation | app/adapters/hubspot/token_store.py:93-129 | What a consumption takes is what the last creation of that state stored |
| ProposalStore.YamlSourceProposalStore.Create | app/source_proposal_store.py:83-104 | Every create that returns has its record in the document exactly once, by at most one own append after the schedule's foreign ones; a refused create did not write; a conflict is reported only after at least five foreign commits |
| ProposalStore.YamlSourceProposalStore.Get | app/source_proposal_store.py:110-118 | The stored proposal with that id, or not found exactly when there is none |
| ProposalStore.StepIsAppend | app/source_proposal_store.py:83-104 | An append decided on an old version lands exactly if that version is still the last and has no such id, and does nothing otherwise |
| ProposalStore.OnlyGrows | app/source_proposal_store.py:83-104 | Every version of the document is a prefix of every later one, one record longer per write |
| ProposalStore.IdsStayDistinct | app/source_proposal_store.py:83-104 | No id is ever in the document twice |
| ProposalStore.OnceInAlwaysIn | app/source_proposal_store.py:83-118 | A proposal once in is in every later version exactly once |
| StyledText.FindIsLeftmost | app/docx_production.py:662 | The search misses no occurrence |
| StyledText.StyledIsPlain | app/docx_production.py:653-686 | Forgetting runs, styled replacement is leftmost non-overlapping replacement of the joined text |
| StyledText.ParagraphDeterminesRuns | app/docx_production.py:653-686 | The styled view loses nothing: it determines every run's text |
| RunText.Offsets | app/docx_production.py:666-670 | Begin and end of every run in the visible text |
| RunText.FirstReaching | app/docx_production.py:671-672 | The first run that reaches a position |
| RunText.RewriteRuns | app/docx_production.py:677-682 | Rewrites the first and last run of a match, empties those between, touches no other |
| RunText.Splice | app/docx_production.py:671-682 | That rewriting replaces exactly the matched characters, the new ones in the first matched character's run, all others where they were |
| RunText.ReplaceMatch | app/docx_production.py:665-682 | One match replaced in place, on the styled view |
| RunText.ReplaceAcrossRuns | app/docx_production.py:653-686 | The loop equals styled replacement, keeps the number of runs, counts the replacements, and terminates |
| DocxPackage.ReplaceInPart | app/docx_production.py:448-453 | Every paragraph up to the first match, or every paragraph, becomes its styled replacement; the others are untouched |
| DocxPackage.DocxPackage.ReplaceText | app/docx_production.py:441-458 | Parts elsewhere than asked for stay as they are; with replace-all every other part is replaced throughout, without it only the first paragraph that has the text; the count is zero exactly if no part asked for has it |
| DocxPackage.OnlyThatLocation | app/docx_production.py:443-446 | The same, from what became of the parts |
| DocxPackage.FirstMatchOnly | app/docx_production.py:448-458 | Without replace-all a paragraph is replaced exactly if no match stands earlier in the parts asked for |
| DocxPackage.CountMeansFound | app/docx_production.py:349-366 | The count is zero exactly when no selected part has the text, and at most one for the first occurrence |
| DocxPackage.UnmatchedIsUntouched | app/docx_production.py:653-686 | A paragraph without a match keeps every run as it was |
| Clearing.ReplacedLacks | app/docx_production.py:653-686 | If no offset restores the searched text, a replace-all of any text leaves none |
| Clearing.ClearsIff | app/docx_production.py:653-686 | Exactly: every text is cleared if and only if no offset restores it, whatever the searched text and the replacement, the empty one included |
| Clearing.UnborderedClearsIff | app/docx_production.py:653-686 | If no proper beginning of the searched text is its end, every text is cleared if and only if the replacement never meets it at an offset |
| Clearing.SharingNothingNeverMeets | app/docx_production.py:653-686 | A non-empty replacement that shares no character always clears |
| Placeholders.PlaceholderAnswer | app/docx_production.py:43 | A placeholder is a name of 1 to 100 characters, none a brace or a line end, in double braces |
| Placeholders.PlaceholderIsUnbordered | app/docx_production.py:43 | No proper beginning of a placeholder is its end |
| Placeholders.PlaceholderClearsIff | app/docx_production.py:125-129 | Replacing a placeholder clears every text if and only if the replacement never meets it |
| Placeholders.OrdinaryValueClearsIff | app/docx_production.py:125-129 | A replacement without braces clears if and only if it does not occur inside the placeholder |
| Placeholders.NamesAndValues | app/docx_production.py:125-129 | "Anna" clears "{{name}}" although it shares characters; "am" occurs inside it |
| Placeholders.FindAllFinds | app/docx_production.py:411 | The pattern's matches from the left are exactly the placeholders that occur |
| Placeholders.CheckFindsIff | app/docx_production.py:405-417 | The check on the joined paragraphs finds a placeholder if and only if one paragraph has it |
| Clearing.RemovalCanLeaveAMatch | app/docx_production.py:653-686 | An empty replacement can leave a match |
| Clearing.SharingCanLeaveAMatch | app/docx_production.py:653-686 | A replacement sharing a character can leave a match |
| DocxPackage.SelectedPartIsCleared | app/docx_production.py:441-458 | If no offset restores the searched text, no paragraph of a selected part contains it afterwards |
| DocxPackage.SomePartIsNotCleared | app/docx_production.py:441-458 | Otherwise there is a part whose replacement leaves it |
| DocxPackage.ReadBackPasses | app/knowledge.py:578-584 | If no offset restores it, the text is gone from all parts exactly when the parts that were not searched had none |
| DocxPackage.PlaceholderReadBack | app/knowledge.py:578-584 | For a placeholder that its replacement never meets, the check of the file read back passes exactly in that case |
| TabForest.HasIsListed | app/adapters/google_workspace/docs.py:493-538 | The inspected list has exactly the tabs of the tree |
| TabForest.EffectOfRequest | app/adapters/google_workspace/docs.py:293-345 | On the inspected list a request that is carried out adds one entry, changes one title, or, for a childless tab, takes one entry away, and nothing else |
| TabForest.DeleteTakesOne | app/knowledge.py:960-971 | Where ids are distinct, deleting a tab takes away exactly its entry if and only if the tab is childless |
| TabForest.TreeListsParentsFirst | app/adapters/google_workspace/docs.py:493-538 | In the inspected list of any tree, every parent named stands before its child |
| TabForest.PermittedKeepsGood | app/knowledge.py:781-1099 | A request permitted on the list it is carried out on keeps at least one tab, distinct ids and case-insensitively distinct titles |
| TabForest.PermitsExactly | app/knowledge.py:781-1099 | On a good document the checks pass if and only if the request can be carried out, leaves it good, and takes no other tab along |
| TabForest.InsertedAt | app/adapters/google_workspace/docs.py:293-345 | A new tab stands at the index asked for, or last |
| TabForest.InsertedUnder | app/adapters/google_workspace/docs.py:293-345 | A new child tab stands among the children of its parent |
| DocumentTabs.GoogleDoc.BatchUpdate | app/adapters/google_workspace/docs.py:347-397 | Carried out on exactly the required revision or not at all |
| DocumentTabs.TabGateway.CreateTab | app/knowledge.py:781-851 | Each refusal has its cause; a success is one write, on the list the checks passed on if the client's revision existed before the call |
| DocumentTabs.TabGateway.RenameTab | app/knowledge.py:854-918 | The same for rename |
| DocumentTabs.TabGateway.DeleteTab | app/knowledge.py:921-984 | The same for delete |
| DocumentTabs.TabGateway.CheckCreate | app/knowledge.py:819-830 | The checks of a create pass exactly when the request is permitted; which refusal is given when |
| DocumentTabs.TabGateway.CheckRename | app/knowledge.py:888-896 | The checks of a rename pass exactly when the request is permitted; which refusal is given when |
| DocumentTabs.TabGateway.CheckDelete | app/knowledge.py:953-968 | The checks of a delete pass exactly when the request is permitted; which refusal is given when |
| DocumentTabs.TabGateway.ValidTitle | app/knowledge.py:1025-1033 | A title is valid if and only if, stripped, it has 1 to 100 characters and no control character |
| DocumentTabs.SuccessKeepsGood | app/knowledge.py:781-1099 | Check-then-commit is atomic: every success under a revision that existed before the call takes a good document to a good one |
| DocumentTabs.DocumentStaysGood | app/knowledge.py:781-1099 | If others leave the document good, it is good after every step of the call |
| DocumentTabs.GuessedRevisionCanClash | app/adapters/google_workspace/docs.py:347-397 | For every good document, every permitted create, rename or delete and every revision number still to come, there are good edits of others and a run of the call that ends with clashing titles or without a tab |
| DocumentTabs.SafeIffKnownRevision | app/knowledge.py:781-1099 | While others keep the document good, a permitted request keeps it good in every run if and only if the required revision existed before the call (for a rename, given a title that case folding tells from the new one) |
| ColumnNames.ColumnName | app/adapters/google_workspace/validation.py:21-26 | The loop computes the bijective base-26 name |
| ColumnNames.ColumnNumber | app/policies/workspace.py:86-91 | The loop computes the number of the upper-cased name |
| ColumnNames.LettersAnswer | app/adapters/google_workspace/validation.py:14 | The letters of a column name are those of the two alphabets |
| ColumnNames.UpperAnswer | app/policies/workspace.py:88 | A small letter counts as the capital at its place in the alphabet |
| ColumnNames.NumberOfName | app/adapters/google_workspace/validation.py:21-26 | Number undoes name, for every number |
| ColumnNames.NameOfNumber | app/policies/workspace.py:86-91 | Name undoes number, for every upper-case string |
| ColumnNames.ThreeLetters | app/spreadsheet_production.py:161 | At most three letters is exactly the numbers 1 to 18278 |
| SheetRanges.BoundedAnswer | app/adapters/google_workspace/validation.py:10-18 | A bounded range is exactly the cells it names, and refused exactly if an end is open, the ends are out of order or there are too many cells |
| SheetRanges.SingleCell | app/adapters/google_workspace/validation.py:14-18 | One cell is that cell, row and column as written |
| SheetRanges.SourceAnswer | app/adapters/google_workspace/validation.py:29-58 | A source is exactly the cells it names on its sheet, each open end filled in on its own; each refusal exactly in its case |
| SheetRanges.ColumnAnswer | app/adapters/google_workspace/validation.py:14 | Column names are the letters of columns 1 to 18278, in either case |
| SheetRanges.FirstTitledIsFirst | app/adapters/google_workspace/validation.py:38 | The sheet is the first of that title |
| SheetRanges.ResolvedFits | app/adapters/google_workspace/validation.py:29-58 | A resolved source lies on the named sheet, within its grid and the remaining budget |
| SheetRanges.OpenColumnsAreWhole | app/adapters/google_workspace/validation.py:45-51 | An open column range is all rows of those columns or an error, and exactly when which |
| CellValidation.Resolve | app/adapters/google_workspace/validation.py:134-164 | Source number k is refused, read in vain or read exactly as its limit, the known structure and the remaining budget say |
| CellValidation.DistinctValues | app/adapters/google_workspace/validation.py:152-162 | The distinct non-empty values in first-seen order |
| CellValidation.CollectRules | app/adapters/google_workspace/validation.py:87-94 | The rule of a cell is that of the last block that has one |
| CellValidation.InspectCells | app/adapters/google_workspace/validation.py:61-178 | The cells inspected are exactly those the range names, or the target is refused for exactly one of three reasons; one entry per cell row by row, each describing its rule and its source's status; the sources are those of the distinct expressions in first-seen order |
| CellValidation.TargetAnswer | app/adapters/google_workspace/validation.py:62-86 | Which cells are the target, and which refusal is given when |
| CellValidation.DecimalAnswer | app/adapters/google_workspace/validation.py:100 | A row is written in decimal without leading zeros |
| CellValidation.AddressIsUnique | app/adapters/google_workspace/validation.py:100 | Different cells have different addresses |
| CellValidation.OneEntryPerCell | app/adapters/google_workspace/validation.py:98-100 | Cell (row, column) is entry (row - top) * width + column - left |
| CellValidation.ReadsAreBounded | app/adapters/google_workspace/validation.py:97-164 | Cells read from sources total at most the limit, and no source after the fiftieth is read |
| CellValidation.OneSourcePerExpression | app/adapters/google_workspace/validation.py:123-169 | Every distinct expression has exactly one source entry, and no other has one |
| CellValidation.FirstSeenIsDistinct | app/adapters/google_workspace/validation.py:153-161 | First-seen order keeps every element once and invents none |
| CellValidation.FirstSeenGrows | app/adapters/google_workspace/validation.py:153-161 | An element new at some place is the next one kept |
| CellValidation.InValues | app/adapters/google_workspace/validation.py:154-161 | The values looked at are all those of the range that are neither missing nor empty text |
| SheetPolicy.ValidateOperations | app/policies/workspace.py:143-280 | Accepts exactly the admitted batches, and refuses with the first refused operation's code or the exceeded limit's |
| SheetPolicy.AdmittedIsBounded | app/policies/workspace.py:269-280 | A batch is admitted if and only if it has 1 to 50 operations, none of them is refused, and together they write at most the cell limit and change at most ten tabs |
| SheetPolicy.AdmittedIsWellAimed | app/policies/workspace.py:165-268 | Every operation of an admitted batch is on a known sheet, its values fit its range, and it inserts or deletes at most 1000 rows or columns that are there |
| SheetPolicy.WellAimedPasses | app/policies/workspace.py:165-268 | An operation like that, other than on tabs, is never refused, and counts as many cells as it has values |
| SheetPolicy.RangeAnswer | app/policies/workspace.py:166-207 | When a range and its values are refused, and how |
| SheetPolicy.DimensionAnswer | app/policies/workspace.py:245-268 | When an insertion or deletion is refused, and how |
| SheetPolicy.TabsAnswer | app/policies/workspace.py:217-244 | When a tab change is refused, and the account of titles, deletions and changes otherwise |
| SheetBatch.KeepsAnOriginal | app/policies/workspace.py:236-244 | After every accepted prefix an original sheet is still there, however many references name one sheet |
| SheetBatch.TitlesStayDistinct | app/policies/workspace.py:214-235 | Titles distinct without regard to case stay so after every prefix if each sheet is renamed at most once |
| SheetBatch.PlanStaysInStep | app/policies/workspace.py:214-235 | The planned titles cover the real ones as long as no rename steals a title |
| SheetBatch.OutOfStepIffStealing | app/policies/workspace.py:224-235 | An accepted rename breaks that exactly when another sheet holds the renamed sheet's first title |
| SheetBatch.StealingLetsTitlesClash | app/policies/workspace.py:214-235 | Then titles clash at once, or the policy accepts a create that makes them clash |
| SheetBatch.RenamedTwiceCanClash | app/policies/workspace.py:214-235 | An admitted batch that renames one sheet twice can end with clashing titles |
| SheetBatch.ValuesCallReaches | app/adapters/google_workspace/sheets.py:181-228 | A values call, addressed by the title before the batch, reaches its sheet exactly when that sheet is there under that title, and then no other |
| SheetBatch.ValuesReachExactly | app/adapters/google_workspace/sheets.py:181-228 | After every prefix of an admitted batch that renames no sheet twice, exactly when no operation of the prefix deleted the sheet or left it under another title |
| SheetBatch.NeverRenamedKeepsTitle | app/adapters/google_workspace/sheets.py:181-228 | It is, as long as no earlier operation renamed it |
| SheetBatch.ValuesCanGoAstray | app/adapters/google_workspace/sheets.py:181-228 | After an earlier rename, values can end up on a newly created sheet |
| SheetCalls.ApplyOperations | app/adapters/google_workspace/sheets.py:152-237 | The provider's effects in call order are the operations in order, none lost or repeated; a prefix of them if a call fails, and only then; every request with the id and every values call with the title of the sheet its reference names, batches never empty and never adjacent |
| SheetCalls.EveryCallIsSafe | app/adapters/google_workspace/sheets.py:165-237 | After every call an original sheet is there, and titles are distinct if no sheet is renamed twice |
| SheetCalls.ValuesCallIsNext | app/adapters/google_workspace/sheets.py:181-228 | Each values call made carries out the operation right after those of the calls before it, under its sheet's first title |
| SheetCalls.EveryValuesCallReaches | app/adapters/google_workspace/sheets.py:181-228 | So each values call made reaches the sheet its operation names if and only if no operation before it deleted that sheet or left it under another title, and then no other sheet |
| AncestorSearch.GetResource | app/adapters/google_workspace/drive.py:233-258 | Terminates on any parent graph; the result is the first files in breadth-first order, as many as the budget or all: no repeats, only true ancestors, nearest first with nothing nearer left out; fails if and only if the file or one of the first `budget` files in that order is missing |
| AncestorSearch.OneOrder | app/adapters/google_workspace/drive.py:237-249 | There is only one breadth-first order, so that result is unique |
| AncestorSearch.CompleteOrder | app/adapters/google_workspace/drive.py:237-249 | Every file has a complete breadth-first order, cycles or not |
| AncestorSearch.CompleteOrderIsAll | app/adapters/google_workspace/drive.py:237-249 | It lists exactly the ancestors |
| AncestorSearch.ChainIsOrder | app/adapters/google_workspace/drive.py:237-249 | With one parent each, it is the chain of parents |
| AncestorSearch.FindsAll | app/adapters/google_workspace/drive.py:233-258 | With at most as many ancestors as the budget, the result is all of them |
| AncestorSearch.LevelsAreDistances | app/adapters/google_workspace/drive.py:237-249 | The queue finds files at their true distance |
| SourceAccess.DecisionIsRight | app/policies/source_access.py:125-143 | Then the decision for a source is the one on full reachability |
| SourceAccess.DecisionAnswer | app/policies/source_access.py:125-143 | Refused if the file, its drive or an ancestor is blocked; otherwise granted if and only if the source's location is one of them |
| SourceAccess.AuthorizationAnswer | app/policies/source_access.py:106-123 | The first readable source the file lies in, unless it lies in a blocked place |
| SourceAccess.AuthorizeIsRight | app/policies/source_access.py:106-123 | Then the first readable source granted is the one on full reachability |
| SourceAccess.NeverWrongIff | app/policies/source_access.py:125-143 | No policy is decided wrongly on the ancestors found if and only if the locations found are all there are |
| SourceAccess.BeyondBudgetSomeDecisionErrs | app/adapters/google_workspace/drive.py:240-249 | With more ancestors than the budget, besides the file and its drive, some policy is always decided wrongly |
| SourceAccess.BudgetDecides | app/adapters/google_workspace/drive.py:233-258 | For a file on no cycle and not below its drive's id, no policy is decided wrongly if and only if the ancestors are at most the budget |
| SourceAccess.BudgetDecidesExactly | app/adapters/google_workspace/drive.py:233-258 | For every file: no policy is decided wrongly if and only if all that follows the first `budget` ancestors in breadth-first order is the file itself or its drive |
| SourceAccess.BudgetDecidesBelowDrive | app/adapters/google_workspace/drive.py:233-258 | On a chain up to the drive's root: if and only if the ancestors other than the drive are at most the budget |
| SourceAccess.BudgetCanHideABlock | app/adapters/google_workspace/drive.py:240-249 | A file two folders deep with the outer one blocked: the search with budget one can only return the inner folder, and access is granted |
| BoundedText.DocumentIsCut | app/adapters/google_workspace/docs.py:426-460 | For any nesting of tabs, tables and contents the walk yields the depth-first text in non-empty pieces |
| BoundedText.Bounded | app/adapters/google_workspace/docs.py:462-474 | The first `limit` characters of any pieces, and exactly when they are flagged |
| BoundedText.GetText | app/adapters/google_workspace/docs.py:426-474 | The first characters of the document, flagged exactly when there are more, after asking for at most limit + 1 pieces |
| BoundedText.EmptyPieceWouldBeFlagged | app/adapters/google_workspace/docs.py:472-473 | An empty piece after text that fits exactly would be flagged |
| ImageSizing.PixelLimitNeverBinds | app/visual_assets.py:463-469 | The pixel scale is above one of the dimension scales, always |
| ImageSizing.AlwaysSafe | app/visual_assets.py:438-472 | Every in-range request on a positive source succeeds within 4096 by 4096 and the pixel limit, never above what was asked for, and without upscaling never above the source; other requests are refused |
| ImageSizing.AnySourceIsSafe | app/visual_assets.py:453-454 | The same when the source does not state its size |
| ImageSizing.AgainIsTheSame | app/visual_assets.py:438-472 | Without upscaling, asking again for the same changes nothing |
| ImageSizing.ShapeIsKept | app/visual_assets.py:438-472 | Without a request, width' * height and height' * width differ by less than width + height |
| ImageSizing.RequestIsTight | app/visual_assets.py:455-472 | A request that needs no enlarging, or may enlarge, meets one requested side exactly and keeps the shape, and that is the result if it is within the limits |
| ImageSizing.LimitIsReached | app/visual_assets.py:463-471 | An image beyond the limits comes out with its larger side at 4096 |
| ImageSizing.RequestForMoreIsIgnored | app/visual_assets.py:455-462 | Without upscaling, asking for no less than both sides have is asking for nothing |
| ImageSizing.UnstatedSides | app/visual_assets.py:453-454 | A side that is not stated, or is zero, counts as 1024 |

## Left out

- Network calls, credentials, HTTP endpoints, tool registration and audit records.
- Encryption, hashing, JSON, YAML, ZIP and XML: records, tokens, digests and paragraphs are values.
- Regular expressions: what they find in a range is a parameter, so quoting and the grammar of A1 text are not modelled.
- A storage call that reports an outage although its write landed, and crashes or cancellation between two calls.
- Several clocks: all clients read one clock that never goes back.
- The in-process lock of the token manager, beyond what another coroutine may have remembered during the wait, and the pauses between attempts.
- The inbox's `status` counts: the same cleanup and normalization as a listing, then three sums.
- The text of completion summaries and reasons beyond the length check, and the metadata checks.
- Listing the bucket is one step; an iteration that other clients overtake is not modelled.
- SignalExpiry.LazyRefinesEager: calls follow one another; interleaved calls are covered by the theorems on the log instead.
- Text nodes of a paragraph inside a text box inside a paragraph belong to both paragraphs in the source; here every run has one paragraph.
- DOCX operations other than text replacement, and whether anchors stay valid across a batch.
- Tab contents, indexes and nesting levels: a tab is its id, title and place. An index beyond the last sibling puts the tab last.
- Spreadsheet formats and cell contents; a request on a sheet that the same batch deleted before does nothing.
- SheetBatch.ValuesCallReaches: a title is looked up exactly; the provider's own case rules for A1 text are not modelled.
- Sheet dimensions are checked against the inspected grid, as the source does; resizing within a batch is not followed.
- Two values that Python calls equal although their types differ (True and 1) are distinct here.
- ImageSizing.AlwaysSafe: real arithmetic; floating-point error is not modelled, and sources have positive sizes.
- Image decoding, SVG cleaning, size and byte limits of sources.
