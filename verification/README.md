# Mirror X Codex: a verified model

The repository extends the Codex desktop app: two scripts injected into its pages, a manager window, a relay for
phones with its web client, a mock host, and a chat bridge. This project models the parts of it that keep state
or transform data and proves what they promise.

| module | what it models |
|---|---|
| `RateLimiting` | the relay's token buckets per client address, with lazy pruning |
| `JsonScanner` | the scanner that cuts a JSON object out of a reply |
| `StepwisePanel` | the panel of suggested prompts: settling, asking, caching, showing |
| `RequestValues`, `RequestRewrite`, `RequestEnvelopes` | the rewriter of outgoing requests: the search for the model, service tier and model provider, and every envelope |
| `SidebarOrder`, `SidebarLists`, `SidebarProjection`, `SidebarRest`, `SidebarSurvivor` | the order of conversation rows, the lists they hang in, the two passes that bring rows under the project they were moved to, that a second projection has nothing left to do, and which of several rows is left |
| `SettingsSync` | local settings kept in step with a backend that answers in any order |
| `TierStore`, `TierChoices` | the stored service-tier choices with their draft and their limit of 120, and what requests are sent with after any run of choices |
| `Marketplaces` | adding local plugin marketplaces to the server's list |
| `Base64`, `Hkdf` | the hand-written encoders and the two key expansions |
| `ChunkTransfer` | the mock host's chunked uploads and downloads |
| `ApplyGuard`, `KeyValidation`, `KeyOutcomes` | the manager's guard, the panel of keys, checks, selections and late answers, and what its operations come to |
| `ModelRows` | merging, saving and loading the model table of a profile |
| `SplitReply` | cutting a reply into messages of limited length |
| `Text`, `SessionKeys`, `TierModes`, `Wrappers` | shared definitions |

Code that changes fields, lists or maps in place is a class or a method with loops; each such method is proved equal
to a function of the old state (`Step`, `Check`, `Handle`, `Projected`, ...), and the lemmas then speak about every
run of these functions. Code made of expressions is functions. An asynchronous operation is split where it waits:
one method up to the call, one for the answer, so that runs may interleave answers in any order. Clocks, replies and
the presence of DOM nodes are parameters. `dafny verify dfyconfig.toml` checks everything.

## Where the code does less than one might expect

Each of these is a proved statement with the exact condition or a concrete run:

- Pruning the limiter is invisible exactly for windows up to 600 s or capacities below one token, and for
  capacities that are not negative exactly then does the bound on admissions hold (`PruningNeverShowsIff`, `AdmissionBoundIff`).
- The reorder and the detector of the sidebar compare keys differently (by locale and by code unit): the detector
  rests exactly if no two rows tied in pin and time disagree (`ReorderSettlesIff`, `MixedCaseNeverSettles`), and
  exactly then do insertion and reorder agree (`InsertAgreesWithReorderIff`).
- The stepwise panel remembers one pending key only, so an unanswered key is requested again exactly if another key
  was requested last (`UnansweredKeyIsAskedAgainIff`); and a settled scan shows the prompts it chose exactly unless a
  refresh that found no message blanked the panel while the record says that they are shown
  (`SettledScanShowsItsChoiceIff`).
- A settings change whose call failed stays until a later call answers (`FailedSetIsNotRolledBack`).
- Beyond 255 * 32 octets the host fails while the phone still produces a key (`DeriveBoth`).
- A saved model table loads as the merged rows exactly if no trimmed name holds a line break (`LoadOfSave`).
- The manager's default model stays valid because its controls are disabled during operations, not because of its
  handlers (`DefaultStaysSelected`, `DefaultGoesStaleUngated`, `DefaultGoesStaleNameless`).

## Model

| member | source | states |
|---|---|---|
| `RateLimiting.RateLimiter.constructor` | apps/codex-plus-mobile-relay/src/rate_limiter.rs:22-31 | a new limiter has no buckets, remembers the time as its last cleanup, and refills one capacity per window, a window below one second counting as one |
| `RateLimiting.RateLimiter.CheckAndConsume` | apps/codex-plus-mobile-relay/src/rate_limiter.rs:33-52 | in place: the client's bucket is created full if new, credited, and charged one token if it holds one; every other bucket stays |
| `RateLimiting.RateLimiter.CleanupStale` | apps/codex-plus-mobile-relay/src/rate_limiter.rs:54-63 | in place: at most every 300 s, exactly the buckets untouched for 600 s go |
| `RateLimiting.LevelLater` | apps/codex-plus-mobile-relay/src/rate_limiter.rs:41-44 | waiting adds exactly the refill of that time to what a client could spend, up to the capacity, with or without a bucket |
| `RateLimiting.CheckOnLevels` | apps/codex-plus-mobile-relay/src/rate_limiter.rs:33-52 | a handshake is admitted exactly if its client could spend a token, costs that client one, and changes what no other client could spend |
| `RateLimiting.CleanupKeepsLevels` | apps/codex-plus-mobile-relay/src/rate_limiter.rs:54-63 | for windows up to 600 s pruning changes what no client could spend |
| `RateLimiting.CleanupDropsIff` | apps/codex-plus-mobile-relay/src/rate_limiter.rs:54-63 | a cleanup drops exactly the buckets untouched for 600 s, and does nothing within 300 s of the last one |
| `RateLimiting.SameLevelsSameDecisions` | apps/codex-plus-mobile-relay/src/rate_limiter.rs:33-63 | two limiters with equal levels, one pruning and one not, answer every ordered run alike |
| `RateLimiting.PruningNeverShowsIff` | apps/codex-plus-mobile-relay/src/rate_limiter.rs:54-63 | lazy pruning changes no decision of any run exactly if the window is at most 600 s or the capacity is below one token |
| `RateLimiting.LongWindowShowsPruning` | apps/codex-plus-mobile-relay/src/rate_limiter.rs:59-61 | for a longer window and a capacity of at least one a run exists that is answered differently because of pruning |
| `RateLimiting.TellApart` | apps/codex-plus-mobile-relay/src/rate_limiter.rs:33-52 | clients with different levels can be told apart by further handshakes; the distinguishing run is constructed |
| `RateLimiting.TinyCapacityAdmitsNobody` | apps/codex-plus-mobile-relay/src/rate_limiter.rs:46-51 | with a capacity below one every handshake of every run is refused |
| `RateLimiting.RunStaysSound` | apps/codex-plus-mobile-relay/src/rate_limiter.rs:33-63 | after every ordered run, pruning or not, each bucket holds between 0 and the capacity |
| `RateLimiting.AdmissionsArePaid` | apps/codex-plus-mobile-relay/src/rate_limiter.rs:41-51 | the potential argument: the admissions of one client are bounded by its level at the start plus what refills |
| `RateLimiting.AdmissionBoundIff` | apps/codex-plus-mobile-relay/src/rate_limiter.rs:22-63 | in any stretch of any run, pruning included, one client is admitted at most capacity + refill * time: this holds of all runs exactly if the capacity is not negative and the window is at most 600 s or the capacity below one token |
| `RateLimiting.LongWindowExceeds` | apps/codex-plus-mobile-relay/src/rate_limiter.rs:54-63 | for a longer window and a capacity of at least one, a run of drained buckets, ten idle minutes and pruning exceeds the bound |
| `RateLimiting.OneCycle` | apps/codex-plus-mobile-relay/src/rate_limiter.rs:33-63 | draining a full bucket and pruning it ten minutes later admits one capacity for what refills while draining, and leaves it full |
| `JsonScanner.ExtractJsonObject` | assets/inject/stepwise-inject.js:1664-1697 | the loop over depth, string and escape returns the shortest stretch from the brace before the first marker whose depth outside strings returns to zero, or nothing |
| `JsonScanner.ExtractUnique` | assets/inject/stepwise-inject.js:1664-1697 | that description has one answer only, so it determines the result |
| `JsonScanner.MarkerIff` | assets/inject/stepwise-inject.js:1666-1667 | the expression matches exactly at the quoted name followed by a colon and true, with any blanks between |
| `JsonScanner.ValuePasses` | assets/inject/stepwise-inject.js:1676-1694 | any printed JSON value, read inside an object, leaves the scanner in the mode it was in and never closes the object |
| `JsonScanner.ObjectClosesAtItsEnd` | assets/inject/stepwise-inject.js:1676-1694 | the first closing brace of a printed object is its last character, whatever follows |
| `JsonScanner.MatchStaysBeforeBrace` | assets/inject/stepwise-inject.js:1666-1670 | a marker match that starts before a brace ends before it, so what follows cannot create an earlier match |
| `JsonScanner.ScanStartsAtBrace` | assets/inject/stepwise-inject.js:1666-1674 | with no earlier marker the scan starts at the brace in front of the payload's first key |
| `JsonScanner.PayloadIsExtracted` | assets/inject/stepwise-inject.js:1664-1697 | every printed object (sections 4 and 7 of RFC 8259) whose first key is the marker with value true is cut out exactly, whatever follows and whatever marker-free text precedes |
| `StepwisePanel.Panel.constructor` | assets/inject/stepwise-inject.js:40-52 | a panel starts with nothing shown, cached or pending |
| `StepwisePanel.Panel.RequestBridgeStepwise` | assets/inject/stepwise-inject.js:1763-1782 | in place: a key is asked for unless empty, pending or cached, and then becomes the pending one |
| `StepwisePanel.Panel.ReceiveReply` | assets/inject/stepwise-inject.js:1783-1814 | in place: an answer is cached under its key, empty if disabled, failed or lost, and ends only its own pending request |
| `StepwisePanel.Panel.ForceRefreshStepwise` | assets/inject/stepwise-inject.js:1816-1853 | in place: a manual refresh blanks the panel, forgets the key it finds and asks again |
| `StepwisePanel.Panel.ClearPromptsForNewAssistant` | assets/inject/stepwise-inject.js:1855-1860 | in place: the shown prompts go and the message becomes pending |
| `StepwisePanel.Panel.ScanMessage` | assets/inject/stepwise-inject.js:2035-2114 | in place: a scan that reached a message records a new hash, waits out the idle time, asks the bridge, and shows what it chose |
| `StepwisePanel.PromptsBelongToLastMessage` | assets/inject/stepwise-inject.js:1763-1860 | in every run, replies in any order, shown prompts belong to the assistant hash recorded last and came from that message's text or an answer to its key |
| `StepwisePanel.RequestsAreSettled` | assets/inject/stepwise-inject.js:2035-2114 | a scan asks the bridge only if every message-reaching scan of the last 1300 ms saw the same hash, or that very message was refreshed by hand, not ignored, and every scan since saw it |
| `StepwisePanel.AnsweredKeyIsNotAskedAgain` | assets/inject/stepwise-inject.js:1763-1814 | a key that was answered is requested again only after a manual refresh of it that was not ignored |
| `StepwisePanel.CachedIffAnswered` | assets/inject/stepwise-inject.js:1783-1843 | in every run a key is cached exactly if it was answered and not effectively refreshed since |
| `StepwisePanel.PendingIffAwaited` | assets/inject/stepwise-inject.js:1763-1814 | in every run a key is pending exactly if it was the last one requested and was not answered since |
| `StepwisePanel.BusyIff` | assets/inject/stepwise-inject.js:1763-1814 | in every run the panel waits for an answer exactly if a request was made and no reply, for any key, came since |
| `StepwisePanel.RecordIs` | assets/inject/stepwise-inject.js:2035-2065 | the panel remembers the text seen last, and since when it has stood: its first sight, or no time at all after a refresh by hand |
| `StepwisePanel.ScanCallsIff` | assets/inject/stepwise-inject.js:2035-2090 | a scan gets as far as showing prompts and calling the bridge exactly if the text is the one that stands and was refreshed by hand or has stood for the idle time |
| `StepwisePanel.RequestedIff` | assets/inject/stepwise-inject.js:1763-1853 | an event requests a key exactly if it gets as far as calling for it and the key has no answer that still counts and is not the one waited for |
| `StepwisePanel.UnansweredKeyIsAskedAgainIff` | assets/inject/stepwise-inject.js:1763-1814 | a requested and unanswered key is requested once more, by a call for it, exactly if the last request was for another key |
| `StepwisePanel.DoubleRequestHappens` | assets/inject/stepwise-inject.js:1763-1814 | such a run exists: going to another message and back requests the first key twice without an answer |
| `StepwisePanel.StaysInSync` | assets/inject/stepwise-inject.js:2066-2114 | in every run a panel blanked by an empty refresh shows nothing until the recorded display changes, and otherwise the recorded display tells the prompts that are shown |
| `StepwisePanel.CacheIsLastAnswer` | assets/inject/stepwise-inject.js:1783-1843 | in every run the cache holds for each key what its last reply brought, unless the message was refreshed by hand since; a reply that is disabled, failed or lost brings nothing |
| `StepwisePanel.ChoiceIsDue` | assets/inject/stepwise-inject.js:2088-2092 | the prompts chosen for a message are those of the reply that stands if it brought some, else those in the text |
| `StepwisePanel.SettledScanShowsItsChoiceIff` | assets/inject/stepwise-inject.js:2066-2114 | a scan of a settled message shows exactly the prompts due, the bridge's before those in the text, unless they are some, an empty refresh blanked the panel and the record says that they are shown already; told by the replies and refreshes of the run |
| `StepwisePanel.EmptyRefreshBlanksThePanel` | assets/inject/stepwise-inject.js:1816-1853 | such a run exists, and its one reply answers an earlier request: after a refresh that found no message, a scan of the same message leaves the panel blank although it chose prompts |
| `SessionKeys.ValidKey` | assets/inject/renderer-inject.js:4406-4410 | the result is empty or an acceptable session key of 8 to 128 characters |
| `SessionKeys.ValidKeyIsStable` | assets/inject/renderer-inject.js:4406-4410 | an accepted key is accepted again unchanged |
| `SessionKeys.ValidKeyIff` | assets/inject/renderer-inject.js:4406-4410 | the texts that stand for a key: the key, bare or after one `local:`, with or without blanks around |
| `SessionKeys.AcceptedKeys` | assets/inject/renderer-inject.js:4406-4410 | every text of 8 to 128 letters, digits and the marks _ . - is accepted as it is, except the three names |
| `RequestRewrite.ApplyTouchesFourFields` | assets/inject/renderer-inject.js:2185-2305 | rewriting parameters changes no field but serviceTier, service_tier, modelProvider and model_provider |
| `RequestRewrite.ModelIsFirstName` | assets/inject/renderer-inject.js:1657-1678 | the model looked at is the first text that is not blank, in the order of the keys at each level, at most four levels deep, and the catalog's only if there is none |
| `RequestRewrite.OwnModelDecides` | assets/inject/renderer-inject.js:1657-1678 | a request's own model field, if not blank, decides whatever the catalog says |
| `RequestValues.FirstNameIsUnique` | assets/inject/renderer-inject.js:1657-1670 | there is only one such first text |
| `RequestRewrite.OverrideDecides` | assets/inject/renderer-inject.js:2185-2203 | when an override applies, the effective tier sent is the one it decided, even if both spellings were present |
| `RequestRewrite.FastOnlyForSupportedModels` | assets/inject/renderer-inject.js:2134-2203 | with tier controls on, parameters sent with the fast tier name a model that offers it, in every mode; the model is the first one the request names, the catalog's if it names none |
| `RequestRewrite.FastIsSentIff` | assets/inject/renderer-inject.js:2134-2203 | with tier controls on, a thread or turn request goes out with the fast tier exactly if the model it names offers it and fast is wanted: by global or thread mode, or, where no mode decides, by the request itself; every other request keeps its tier |
| `RequestRewrite.SentTierIs` | assets/inject/renderer-inject.js:2134-2203 | the very fields sent: under Fast the account's fast value or null if the model does not offer it, under Standard null, and where no mode decides both spellings as they were, or null if fast is asked for and not offered |
| `RequestRewrite.ThreadModeIs` | assets/inject/renderer-inject.js:2129-2173 | which mode counts in custom control: that of the thread the parameters name, else the envelope, else the screen, except that new threads go by their own identifiers or the draft |
| `RequestRewrite.WordsAreRead` | assets/inject/renderer-inject.js:1640-1682 | the five models that offer fast and the two words for it, without regard to blanks around them |
| `RequestRewrite.OverrideTwice` | assets/inject/renderer-inject.js:2150-2183 | deciding again on what was sent does nothing or repeats the decision |
| `RequestRewrite.ApplyIdempotent` | assets/inject/renderer-inject.js:2185-2203 | rewriting parameters twice is rewriting them once |
| `RequestRewrite.ProviderSettles` | assets/inject/renderer-inject.js:2268-2305 | after the provider rewrite a second one has nothing to do |
| `RequestRewrite.ProviderIsNamed` | assets/inject/renderer-inject.js:2268-2305 | a request in reach leaves with the target provider and without the legacy field exactly if it starts a thread or named no foreign provider |
| `RequestRewrite.NewThreadsNameTheirProvider` | assets/inject/renderer-inject.js:2216-2305 | new threads of a profile that relays leave with the provider the profile asks for; without one nothing is rewritten, and other requests only under a pure API |
| `RequestRewrite.OpenAiIsLeftAlone` | assets/inject/renderer-inject.js:2220-2305 | nothing is rewritten in a session of openai or if the profile asks for openai or no provider |
| `RequestRewrite.TurnsNameTheirProvider` | assets/inject/renderer-inject.js:2268-2305 | under a pure API a turn that names a provider leaves with the target unless it named a foreign one, and is untouched otherwise |
| `RequestRewrite.BareFrame` | assets/inject/renderer-inject.js:2366-2405 | in each of the nine envelope kinds rewriting replaces the parameters in their place and keeps the message type, request kind and thread hint |
| `RequestRewrite.BareIdempotent` | assets/inject/renderer-inject.js:2366-2405 | rewriting a message without fetch envelope twice is rewriting it once |
| `RequestRewrite.FetchCommutes` | assets/inject/renderer-inject.js:2337-2365 | the rewritten fetch body, text or object, is the rewritten inner message with the body's own type put back, and no other field of the envelope changes |
| `RequestRewrite.SentIsRewritten` | assets/inject/renderer-inject.js:2334-2405 | for every envelope, unwrapping what is sent gives the rewritten inner message |
| `RequestRewrite.SentFastOnlyForSupportedModels` | assets/inject/renderer-inject.js:2334-2405 | with tier controls on, whatever the modes, draft and envelope, a thread or turn request whose effective tier is fast names a model that offers it, or none and goes to a catalog model that does |
| `RequestRewrite.SentFastIsSentIff` | assets/inject/renderer-inject.js:2334-2405 | for every envelope the request sent is of the same kind in the same place, and its tier is fast exactly if fast is wanted and the model the request names offers it |
| `RequestRewrite.SentIdempotent` | assets/inject/renderer-inject.js:2334-2405 | rewriting any message, fetch envelopes included, twice is rewriting it once |
| `RequestEnvelopes.EveryKindCarries` | assets/inject/renderer-inject.js:2366-2405 | a message of each of the eight kinds, put together from any other fields, carries its request under the method it stands for |
| `RequestEnvelopes.RewritingIsRefilling` | assets/inject/renderer-inject.js:2366-2405 | rewriting a message of any kind is putting together the message of the rewritten request |
| `RequestEnvelopes.FetchStandsFor` | assets/inject/renderer-inject.js:2337-2365 | a fetch with a plain body or one as text, with any query, stands for the message its address names |
| `RequestEnvelopes.EveryEnvelopeIsRewritten` | assets/inject/renderer-inject.js:2334-2405 | for each kind, bare or in a fetch: what goes out is, or stands for, the message of the rewritten request |
| `RequestEnvelopes.OthersAreSentAsTheyAre` | assets/inject/renderer-inject.js:2334-2405 | messages of any other type are sent as they are |
| `SidebarOrder.ChatsSortNeedsCorrection` | assets/inject/renderer-inject.js:6561-6582 | the detector is false exactly if the rows are ordered by pinned, then time descending, then key descending |
| `SidebarOrder.GreaterIsTotal` | assets/inject/renderer-inject.js:6573-6578 | the order of keys by UTF-16 code units is total |
| `SidebarOrder.GreaterIsByUnits` | assets/inject/renderer-inject.js:6573-6578 | the comparison of keys is that of their UTF-16 code units, surrogate pairs included |
| `SidebarOrder.SortedMeans` | assets/inject/renderer-inject.js:6561-6582 | the detector's order, told by pin, then time, then code units |
| `SidebarOrder.SortRowsSorts` | assets/inject/renderer-inject.js:6584-6591 | with any locale order, also one that calls different keys equal, the reorder's comparator sorts: an ordered permutation of the rows |
| `SidebarOrder.SortRowsMeans` | assets/inject/renderer-inject.js:6584-6591 | the reorder's order, told by pin, then time, then locale |
| `SidebarOrder.SortedIsFixed` | assets/inject/renderer-inject.js:6584-6591 | sorting rows in comparator order keeps them as they stand |
| `SidebarOrder.ReorderSettlesIff` | assets/inject/renderer-inject.js:6561-6602 | the detector is false after a reorder exactly if no two rows tied in pin and time disagree: the locale puts them the other way round than the code units do, or calls them equal and they stood the other way round |
| `SidebarOrder.MixedCaseNeverSettles` | assets/inject/renderer-inject.js:6561-6602 | under a locale that puts small letters first two tied keys of mixed case keep the detector true for ever |
| `SidebarLists.ThreadList.InsertBefore` | assets/inject/renderer-inject.js:6344-6379 | in place: the row leaves its old place and stands in front of the reference, or at the end |
| `SidebarLists.ThreadList.InsertRowItemByTime` | assets/inject/renderer-inject.js:6344-6379 | in place: the row goes in front of the first row it precedes, else in front of the first child that is not a row |
| `SidebarLists.ThreadList.ReorderChatsRows` | assets/inject/renderer-inject.js:6584-6602 | in place: from two rows on they are put one by one in comparator order before the first child that is not a row |
| `SidebarLists.InsertKeepsTidy` | assets/inject/renderer-inject.js:6344-6379 | inserting into a list with sorted rows in front keeps it so, conserves all children and keeps the others in order |
| `SidebarLists.ReorderSortsInPlace` | assets/inject/renderer-inject.js:6584-6602 | reordering permutes the rows into comparator order and keeps the other children in order; from two rows on they stand in front; the detector accepts the result exactly if no two tied rows disagree |
| `SidebarLists.InsertAgreesWithReorderIff` | assets/inject/renderer-inject.js:6344-6379 | inserting one row by time and sorting the list with the row added give the same order exactly if no two tied rows disagree |
| `SidebarLists.WithoutKeepsTidy` | assets/inject/renderer-inject.js:6488-6515 | a list in the sidebar's order stays in it when rows leave |
| `SidebarProjection.Sidebar.Remove` | assets/inject/renderer-inject.js:6488-6488 | in place: a row leaves its list |
| `SidebarProjection.Sidebar.MoveRow` | assets/inject/renderer-inject.js:6440-6454 | in place: a row is moved into the target's list at its time and marked, or nothing happens when there is no list |
| `SidebarProjection.Sidebar.KeepRowsUnderTarget` | assets/inject/renderer-inject.js:6477-6500 | in place: the first pass keeps one row per session among those under their target |
| `SidebarProjection.Sidebar.BringRowsUnderTarget` | assets/inject/renderer-inject.js:6501-6520 | in place: the second pass moves in a row of each session that has none there and removes the rest |
| `SidebarProjection.Sidebar.ApplyProjectMoveProjection` | assets/inject/renderer-inject.js:6470-6523 | in place: the two passes one after the other |
| `SidebarProjection.MovedSessionHasOneRow` | assets/inject/renderer-inject.js:6470-6523 | for any starting duplicates and order, a projected session whose target list exists ends with exactly one row, in that list, and no session that had a row loses its last one |
| `SidebarProjection.UnmovedSessionStays` | assets/inject/renderer-inject.js:6470-6523 | rows of sessions without projection stay where they were |
| `SidebarProjection.ProjectedIsConsistent` | assets/inject/renderer-inject.js:6470-6523 | every row still hangs in exactly the list its parent says, and the lists stay the same ones |
| `SidebarProjection.ProjectedIsInOrder` | assets/inject/renderer-inject.js:6470-6523 | every list in the sidebar's order stays in it through both passes, and every list keeps its children that are not rows, in order |
| `SidebarSurvivor.FirstPassKeepsPreferred` | assets/inject/renderer-inject.js:6477-6500 | of the rows under the target the first pass leaves, if there is a list to go to, the last one that was unmarked at the start, else the first; without a list the first unmarked one, else the first; rows elsewhere stay |
| `SidebarSurvivor.SurvivorIs` | assets/inject/renderer-inject.js:6470-6523 | both passes leave exactly that row of a moved session, or if none was under the target its first row, brought in; it is marked and shown once in the list with its time |
| `SidebarSurvivor.SomeRowSurvives` | assets/inject/renderer-inject.js:6470-6523 | there is such a row unless the session is left alone: no row under the target and no list to go to |
| `SidebarSurvivor.SessionIsLeftAlone` | assets/inject/renderer-inject.js:6470-6523 | and then no row of the session changes its place |
| `SidebarSurvivor.UnmovedRowLosesItsMark` | assets/inject/renderer-inject.js:6501-6512 | rows of sessions without projection lose their mark |
| `SidebarRest.InsertionIsIdle` | assets/inject/renderer-inject.js:6344-6379 | inserting a row where it stands already changes nothing, unless another row of the list ties with it |
| `SidebarRest.ProjectedIsAtRest` | assets/inject/renderer-inject.js:6470-6523 | a projection leaves each projected session settled: one row under the target, shown once in its list with its time, and the list in order, or no row there and no list to go to |
| `SidebarRest.ProjectionComesToRest` | assets/inject/renderer-inject.js:6470-6523 | when the target lists start in order, projecting again, whichever rows are looked at in whichever order as long as those still on the page are, with the times they had or were given, changes no list and no parent |
| `SettingsSync.BackendSettings.constructor` | assets/inject/renderer-inject.js:1339-1340 | the settings start as the defaults, with no call under way |
| `SettingsSync.BackendSettings.BeginApply` | assets/inject/renderer-inject.js:2490-2491 | in place: a load joins the calls of the run with the number it will be judged by when its reply comes |
| `SettingsSync.BackendSettings.FinishApply` | assets/inject/renderer-inject.js:2492-2506 | in place: the run's step for a reply to a load, and what the handler returns: whether it was merged |
| `SettingsSync.BackendSettings.BeginSet` | assets/inject/renderer-inject.js:2551-2555 | in place: the run's step for a local set, which shows at once and outdates every earlier call |
| `SettingsSync.BackendSettings.FinishSet` | assets/inject/renderer-inject.js:2556-2564 | in place: the run's step for a reply to a set |
| `SettingsSync.NumbersCountSets` | assets/inject/renderer-inject.js:2490-2564 | in every run a remembered number is current exactly if no set has started since |
| `SettingsSync.AcceptedIffTimely` | assets/inject/renderer-inject.js:2490-2564 | in every run a reply is merged exactly if no set has started since its call |
| `SettingsSync.NumbersAreFaithful` | assets/inject/renderer-inject.js:2490-2564 | the numbered protocol holds, in every interleaving, exactly the settings of a log without numbers |
| `SettingsSync.LocalValueSticks` | assets/inject/renderer-inject.js:2551-2564 | after a local set of k, in every interleaving, k keeps its value until it is set again or a reply to that set or a later call is merged |
| `SettingsSync.FailedSetIsNotRolledBack` | assets/inject/renderer-inject.js:2551-2564 | in every interleaving a set whose call failed keeps its value until the key is set again or a reply to a later call brings it |
| `SettingsSync.FailedReplyChangesNothing` | assets/inject/renderer-inject.js:2490-2564 | a failed reply changes no setting, in any run and to whatever call |
| `TierStore.Store.constructor` | assets/inject/renderer-inject.js:1775-1780 | the store starts empty |
| `TierStore.Store.SetThreadOverride` | assets/inject/renderer-inject.js:1853-1870 | in place: an override switches to custom control and stores, replaces or removes the thread's entry, or the draft when there is no thread |
| `TierStore.Store.BindDraft` | assets/inject/renderer-inject.js:1872-1886 | in place: a draft of at most a minute is bound to the thread and used up, in custom control only |
| `TierStore.Store.SetControlMode` | assets/inject/renderer-inject.js:1888-1922 | in place: a mode other than custom clears entries and draft |
| `TierStore.ReadAfterWrite` | assets/inject/renderer-inject.js:1775-1828 | reading back what was written gives the state with its most recent entries, whenever it is read |
| `TierStore.WriteReadWrite` | assets/inject/renderer-inject.js:1775-1828 | writing what was read back changes nothing |
| `TierChoices.ReadTells` | assets/inject/renderer-inject.js:1775-1836 | whatever is stored: the last usable entry for each key is read if the version is right, missing times are now, and a record without mode is custom exactly if it holds something |
| `TierStore.StepIsSeen` | assets/inject/renderer-inject.js:1853-1922 | each operation on the stored record is, seen through reading, the operation on the state |
| `TierStore.StepStaysSteady` | assets/inject/renderer-inject.js:1853-1922 | one step keeps the invariant of the store: what is stored are choices that were made, and no choice that is missing is later than one that is kept |
| `TierStore.StoreStaysSteady` | assets/inject/renderer-inject.js:1775-1922 | from the empty store, after any run: at most 120 entries under different valid keys, none inheriting, and no choice that is missing is later than one that is kept; outside custom control no entries and no draft |
| `TierStore.StepRetains` | assets/inject/renderer-inject.js:1775-1922 | no step loses a choice while there is room: it is stored afterwards, or the store is full of 120 others no older, or it was missing before |
| `TierStore.ChoicesAreRetained` | assets/inject/renderer-inject.js:1775-1922 | after any run every choice that stands is in the store, or at some point of the run it stood while 120 others no older filled the store |
| `TierStore.BindKeepsEntries` | assets/inject/renderer-inject.js:1872-1886 | a binding consumes the draft and replaces no entry: the new entry and every old one are there unless 120 others no older crowd them out, and nothing else is |
| `TierChoices.ModeIsLastSet` | assets/inject/renderer-inject.js:1853-1922 | in any run the control mode is the one set last, by a control that was let through or, to custom, by any override; the default mode belongs to the last control other than custom |
| `TierChoices.DraftIff` | assets/inject/renderer-inject.js:1853-1922 | in any run the store holds a draft exactly if a choice without thread stands, with its mode and time: nothing replaced it, bound it within a minute, or left custom control |
| `TierChoices.DraftBecomesChoice` | assets/inject/renderer-inject.js:1872-1886 | a thread that turns up within a minute gets the drafted mode if it has none: the choice is made and stored unless 120 others no older crowd it out, and the draft is used up |
| `TierChoices.ChoiceIsSent` | assets/inject/renderer-inject.js:2150-2203 | from choice to request: after any run in custom control a thread's turn goes out in the mode last chosen for it, or in the default mode if the store has none |
| `TierChoices.DraftIsSent` | assets/inject/renderer-inject.js:2150-2203 | a new thread without key goes out in the mode drafted in the last minute, else in the default mode |
| `Base64.Base64Encode` | crates/codex-plus-core/src/ads.rs:74-95 | the loop over three-byte chunks computes the standard encoding |
| `Base64.EncodedLength` | crates/codex-plus-core/src/ads.rs:76-95 | the output has 4 * ceil(n / 3) characters |
| `Base64.EncodeIsSymbols` | crates/codex-plus-core/src/ads.rs:77-93 | the output is the symbols of the six-bit groups, padded to a multiple of four |
| `Base64.BytesOfSextets` | crates/codex-plus-core/src/ads.rs:77-93 | regrouping bits six by six loses nothing |
| `Base64.DecodeEncode` | crates/codex-plus-core/src/ads.rs:74-95 | the encoder has a left inverse on every byte sequence (section 4 of RFC 4648) |
| `Base64.B64UrlEncode` | apps/codex-plus-mobile-relay/pwa/crypto.js:19-26 | the loop and the replacements compute the URL encoding without padding |
| `Base64.B64UrlDecode` | apps/codex-plus-mobile-relay/pwa/crypto.js:28-37 | the padding computed from the length and the loop decode the text into a new array, or fail as `atob` does |
| `Base64.UrlEncodeIsSymbols` | apps/codex-plus-mobile-relay/pwa/crypto.js:19-26 | the URL form is the URL symbols of the groups and holds no padding, plus or slash |
| `Base64.UrlDecodeEncode` | apps/codex-plus-mobile-relay/pwa/crypto.js:19-37 | decoding after encoding is the identity on every byte sequence (section 5 of RFC 4648) |
| `Base64.EncodingsAreInjective` | apps/codex-plus-mobile-relay/pwa/crypto.js:19-26 | different bytes have different texts, in both alphabets |
| `Hkdf.HkdfHmacFallback` | apps/codex-plus-mobile-relay/pwa/crypto.js:58-78 | the in-place loop fills the buffer with the first L octets of T(1) | T(2) | ... (section 2.3 of RFC 5869, empty info) |
| `Hkdf.SetBytes` | apps/codex-plus-mobile-relay/pwa/crypto.js:73-73 | copying a piece to an offset changes only that stretch |
| `Hkdf.HkdfExpand` | scripts/mobile_pwa_mock_host.py:23-30 | the append-and-truncate loop gives the same octets for L up to 255 * 32 and fails beyond |
| `Hkdf.DeriveBoth` | apps/codex-plus-mobile-relay/pwa/crypto.js:58-78 | host and phone derive the same key for every L up to 255 * 32; beyond it only the host fails |
| `Hkdf.OkmUnique` | apps/codex-plus-mobile-relay/pwa/crypto.js:58-78 | the description of the key material has one answer |
| `Hkdf.StreamStep` | apps/codex-plus-mobile-relay/pwa/crypto.js:65-76 | whole blocks followed by the beginning of the next one are the beginning of the stream |
| `Hkdf.OctetOfBlock` | scripts/mobile_pwa_mock_host.py:23-30 | octet k of the material is octet k mod 32 of block k div 32 + 1 |
| `Hkdf.OkmPrefix` | apps/codex-plus-mobile-relay/pwa/crypto.js:58-78 | a shorter key is the beginning of a longer one |
| `ChunkTransfer.Host.constructor` | scripts/mobile_pwa_mock_host.py:430-430 | a host starts without uploads |
| `ChunkTransfer.Host.FileUpload` | scripts/mobile_pwa_mock_host.py:461-513 | in place: start, chunk, finish and cancel messages change the table of uploads as the handler does, errors included |
| `ChunkTransfer.FileDownload` | scripts/mobile_pwa_mock_host.py:515-589 | the loop sends a start, the slices in order with running totals, and an end with ceil(len / chunk) and the length, or a refusal |
| `ChunkTransfer.HostHoldsSessions` | scripts/mobile_pwa_mock_host.py:461-513 | in every interleaving the table holds exactly the uploads that are open, each with its accepted chunks in order |
| `ChunkTransfer.SessionHasMessages` | scripts/mobile_pwa_mock_host.py:472-487 | an open upload has a start message and, after it, chunk messages numbered 0, 1, 2, ... that carried its data |
| `ChunkTransfer.FinishIff` | scripts/mobile_pwa_mock_host.py:488-506 | in every interleaving a finish is accepted exactly if its upload is open and the chunks add up to the declared size, and hands over those chunks in order |
| `ChunkTransfer.AnswerIff` | scripts/mobile_pwa_mock_host.py:461-513 | every answer of the host: a chunk is received exactly if its upload is open and it carries the next number and readable data, and the answer counts the bytes so far |
| `ChunkTransfer.UploadsAreIndependent` | scripts/mobile_pwa_mock_host.py:461-513 | an upload's state depends on its own messages only |
| `ChunkTransfer.SlicesJoin` | scripts/mobile_pwa_mock_host.py:545-589 | the slices of a download join to the file |
| `ChunkTransfer.TotalsAreRight` | scripts/mobile_pwa_mock_host.py:545-589 | the running total in each frame counts the bytes of all parts up to it |
| `ChunkTransfer.ReplayCollects` | scripts/mobile_pwa_mock_host.py:481-487 | an upload fed with the slices collects exactly them |
| `ChunkTransfer.DownloadThenUpload` | scripts/mobile_pwa_mock_host.py:461-589 | whatever other uploads run in between, an upload fed with the parts of a download stores exactly the downloaded file |
| `SplitReply.SplitReply` | tools/codex-wechat/codex_wechat.py:562-576 | the loop terminates for every text and limit and computes the pieces |
| `SplitReply.OneCut` | tools/codex-wechat/codex_wechat.py:569-574 | each round leaves a strictly shorter rest, even when the cut is 0 and only stripping makes progress |
| `SplitReply.CutsAtLineEnds` | tools/codex-wechat/codex_wechat.py:569-574 | a text that is too long is cut at its last line end within the limit if that lies in the second half of it, else at the limit |
| `SplitReply.PiecesKeepVisible` | tools/codex-wechat/codex_wechat.py:562-576 | no visible character is lost, added or moved |
| `SplitReply.PiecesFit` | tools/codex-wechat/codex_wechat.py:562-576 | every chunk fits the limit and only the first can be empty |
| `SplitReply.PieceCount` | tools/codex-wechat/codex_wechat.py:568-574 | all but one chunk use up half a limit of text |
| `SplitReply.SplitIsGood` | tools/codex-wechat/codex_wechat.py:562-576 | for every text: chunks fit, visible characters survive in order, and from limit 2 on there are at most len / (limit div 2) + 1 chunks |
| `SplitReply.LimitOneCutsNothing` | tools/codex-wechat/codex_wechat.py:569-574 | with limit 1 a leading line end is cut off as an empty chunk |
| `ModelRows.MergeModelWindowRows` | apps/codex-plus-manager/src/model-windows.ts:32-47 | the loops over both lists with a set of seen names compute the merge |
| `ModelRows.KeptAreFirsts` | apps/codex-plus-manager/src/model-windows.ts:38-45 | exactly the first row under every trimmed name that is not blank is kept, in order, with the blanks around its name and window gone |
| `ModelRows.KeptIsTidy` | apps/codex-plus-manager/src/model-windows.ts:38-45 | merged rows are trimmed, named and under different names |
| `ModelRows.MergeInSteps` | apps/codex-plus-manager/src/model-windows.ts:32-47 | merging in two steps is merging once, so merging is idempotent and an earlier merge never changes which rows win |
| `ModelRows.BlankIsNothing` | apps/codex-plus-manager/src/model-windows.ts:46-46 | the blank row that stands for no rows is ignored by later merges |
| `ModelRows.SerializeModelWindowRows` | apps/codex-plus-manager/src/model-windows.ts:64-80 | the loop computes the stored name list and window table of the merged rows |
| `ModelRows.SplitOfJoin` | apps/codex-plus-manager/src/model-windows.ts:56-77 | splitting joined lines gives the lines, if none holds a line break |
| `ModelRows.LoadedNames` | apps/codex-plus-manager/src/model-windows.ts:49-62 | no loaded name holds a line break |
| `ModelRows.LoadedAreLines` | apps/codex-plus-manager/src/model-windows.ts:49-62 | loading any stored text gives a row for every line that is not blank, in order, trimmed, with the window stored for it, or the placeholder |
| `ModelRows.WindowsFound` | apps/codex-plus-manager/src/model-windows.ts:64-80 | the window table gives back every row's window and names no other row |
| `ModelRows.LoadOfSave` | apps/codex-plus-manager/src/model-windows.ts:49-80 | loading what was saved gives the merged rows, the empty case included, exactly if no trimmed name holds a line break |
| `ModelRows.SaveOfMerge` | apps/codex-plus-manager/src/model-windows.ts:64-80 | saving does not tell merged rows from unmerged ones |
| `Marketplaces.Localized` | assets/inject/renderer-inject.js:3403-3416 | filling in a local plugin's missing fields keeps its key |
| `Marketplaces.LocalizedOnlyFills` | assets/inject/renderer-inject.js:3403-3416 | filling in changes no field that holds something, and a missing one gets the key, the key with the marketplace, the marketplace, or no keywords |
| `Marketplaces.LocalCopiesAreOfficial` | assets/inject/renderer-inject.js:3475-3482 | a local copy of one of the five official marketplaces goes by the official name, and nothing else is renamed |
| `Marketplaces.KeyIsFirstName` | assets/inject/renderer-inject.js:3398-3401 | a plugin goes by the first of its three names that is there, trimmed |
| `Marketplaces.NothingIsInvented` | assets/inject/renderer-inject.js:3418-3473 | every plugin afterwards was in that marketplace before or is the filled-in copy of a plugin of a local marketplace of that name |
| `Marketplaces.Last` | assets/inject/renderer-inject.js:3444-3448 | the marketplace found under a name is the last one of that name |
| `Marketplaces.Catalog.MergePluginMarketplacePlugins` | assets/inject/renderer-inject.js:3418-3434 | in place: the loop with a set of known keys appends the missing keyed plugins to one marketplace and counts them |
| `Marketplaces.Catalog.MergeLocalPluginMarketplaces` | assets/inject/renderer-inject.js:3436-3473 | in place: the table by name leads every local marketplace to the last one of its name or to a new one, and both counts are the growth of the lists |
| `Marketplaces.ServerListStays` | assets/inject/renderer-inject.js:3418-3473 | every marketplace of the server stays in its place under its name with its plugins in front, and what is added has new and different keys |
| `Marketplaces.LocalPluginsArePresent` | assets/inject/renderer-inject.js:3418-3473 | every keyed plugin of every named local marketplace is there afterwards |
| `Marketplaces.MergeOneIsIdleIff` | assets/inject/renderer-inject.js:3451-3468 | a local marketplace changes nothing exactly if all it offers is there |
| `Marketplaces.MergingAgainAddsNothing` | assets/inject/renderer-inject.js:3436-3473 | merging again any of the same local marketplaces, in any order, changes nothing |
| `ApplyGuard.FirstFailing` | apps/codex-plus-manager/src/simple-app-guards.ts:64-64 | the first element that fails, if any does |
| `ApplyGuard.GuardIsSilentIff` | apps/codex-plus-manager/src/simple-app-guards.ts:55-106 | the guard is silent exactly if the machine is ready, keys and verifications go together and there is one, each group in use selects a model, no model is selected twice inside a group or across groups, the default is selected, and images have a key or a configuration if wanted |
| `ApplyGuard.SelectedAre` | apps/codex-plus-manager/src/simple-app-guards.ts:91-94 | the models looked at are those selected in the groups in use, and one is found twice exactly if it is selected twice in a group or in two groups |
| `ApplyGuard.ReasonIsFirstGround` | apps/codex-plus-manager/src/simple-app-guards.ts:55-106 | of twelve grounds, told by the input alone, the reason given is the first that applies |
| `ApplyGuard.RefusalIsJustified` | apps/codex-plus-manager/src/simple-app-guards.ts:55-106 | every reason given is true of the input, and a group or check it names is the first one to blame |
| `ApplyGuard.GuardAgreesWithHandler` | apps/codex-plus-manager/src/SimpleApp.tsx:513-563 | the guard is silent exactly if the machine is ready, all later checks of `enable` pass and the default has a name, so no later error can occur behind a silent guard |
| `ApplyGuard.SentAreConfigured` | apps/codex-plus-manager/src/SimpleApp.tsx:519-534 | the handler's groups with trimmed keys are the groups the guard looked at |
| `ApplyGuard.RepeatsIff` | apps/codex-plus-manager/src/simple-app-guards.ts:91-94 | comparing sizes with the set finds exactly the lists that repeat an element |
| `KeyValidation.Manager.constructor` | apps/codex-plus-manager/src/SimpleApp.tsx:263-291 | the panel starts empty, with no operation under way |
| `KeyValidation.Manager.BeginOperation` | apps/codex-plus-manager/src/SimpleApp.tsx:293-299 | in place: an operation gets a fresh token only if none is under way |
| `KeyValidation.Manager.EndOperation` | apps/codex-plus-manager/src/SimpleApp.tsx:301-305 | in place: only the owner of the current token releases it |
| `KeyValidation.Manager.ClearGroupValidation` | apps/codex-plus-manager/src/SimpleApp.tsx:404-416 | in place: the discovery and selection go, and a default among the captured selection falls back on the captured other one |
| `KeyValidation.Manager.Validate` | apps/codex-plus-manager/src/SimpleApp.tsx:418-431 | in place: up to the call, with the counter raised and the group cleared; a blank key ends at once |
| `KeyValidation.Manager.FinishValidation` | apps/codex-plus-manager/src/SimpleApp.tsx:448-474 | in place: an answer is dropped if the counter moved, else it clears the group or fills it |
| `KeyValidation.Manager.ValidateImageKey` | apps/codex-plus-manager/src/SimpleApp.tsx:476-491 | in place: up to the call, the confirmation is taken back even when another operation is under way |
| `KeyValidation.Manager.FinishImageValidation` | apps/codex-plus-manager/src/SimpleApp.tsx:492-511 | in place: an answer is dropped if the counter moved, else it confirms or not |
| `KeyValidation.Manager.EnableAccess` | apps/codex-plus-manager/src/SimpleApp.tsx:513-565 | in place: an application starts only past the guard, the repeated checks and the token |
| `KeyValidation.Manager.FinishApplication` | apps/codex-plus-manager/src/SimpleApp.tsx:639-663 | in place: success empties all keys and selections; a restore empties them whenever it answers |
| `KeyValidation.Manager.OnApiKeyChange` | apps/codex-plus-manager/src/SimpleApp.tsx:1196-1204 | in place: an edit raises the counter, clears the group and lets its default fall back |
| `KeyValidation.Manager.OnImageKeyChange` | apps/codex-plus-manager/src/SimpleApp.tsx:1274-1278 | in place: an edit raises the counter and takes the confirmation back |
| `KeyValidation.Manager.OnSelectAll` | apps/codex-plus-manager/src/SimpleApp.tsx:1632-1635 | in place: all found models are selected and an empty default is filled |
| `KeyValidation.Manager.OnClearSelection` | apps/codex-plus-manager/src/SimpleApp.tsx:1641-1646 | in place: the selection is emptied and its default falls back |
| `KeyValidation.Manager.OnToggleModel` | apps/codex-plus-manager/src/SimpleApp.tsx:1677-1688 | in place: one model is added or removed and the default follows |
| `KeyValidation.RunsStayHonest` | apps/codex-plus-manager/src/SimpleApp.tsx:293-511 | in every run, whatever the backend answers and edits and late answers included: at most one operation, a verified group was verified for the trimmed key now in its box, only models found with it are selected, a confirmed image key is the one in its box |
| `KeyValidation.DefaultStaysSelected` | apps/codex-plus-manager/src/SimpleApp.tsx:404-474 | in every run with selections disabled during operations and discoveries that list their default, the default model is empty or in some group's selection; if keys can be edited during operations, models need names |
| `KeyValidation.AnswerKeepsDefaultIff` | apps/codex-plus-manager/src/SimpleApp.tsx:457-466 | an answer that is taken leaves a selected default exactly if there was one, or its own default is empty, among its models or selected in the other group |
| `KeyValidation.DefaultGoesStaleNameless` | apps/codex-plus-manager/src/SimpleApp.tsx:404-474 | with keys editable during operations and a model without name, a run leaves the default on a model nobody selected |
| `KeyValidation.DefaultGoesStaleUngated` | apps/codex-plus-manager/src/SimpleApp.tsx:404-474 | were selections enabled during operations, a run would leave the default on a model nobody selected |
| `KeyValidation.LateAnswerIsDropped` | apps/codex-plus-manager/src/SimpleApp.tsx:451-451 | once a key was edited, the answer to an earlier check changes nothing but the end of the operation, whatever happens in between |
| `KeyValidation.AppliesIff` | apps/codex-plus-manager/src/SimpleApp.tsx:513-565 | the application starts exactly if the guard is silent |
| `KeyValidation.AppliedIsVerified` | apps/codex-plus-manager/src/SimpleApp.tsx:513-634 | in any run, what an application sends is verified: each group carries the very key that was checked and only models found with it, no model twice, the default among them, and the image key if images are wanted |
| `KeyOutcomes.ApplicationForgetsIff` | apps/codex-plus-manager/src/SimpleApp.tsx:639-663 | a successful application, restore or recovery leaves no key, discovery, selection, default or image key; a failed one leaves all as they were |
| `KeyOutcomes.ForgottenUntilTyped` | apps/codex-plus-manager/src/SimpleApp.tsx:513-663 | and none of it comes back in any run until the user types a key |
| `KeyOutcomes.CheckBegins` | apps/codex-plus-manager/src/SimpleApp.tsx:418-431 | asking for a check of a key that is not blank begins one for the trimmed key and drops what was found before |
| `KeyOutcomes.AnswerIsTaken` | apps/codex-plus-manager/src/SimpleApp.tsx:448-474 | whatever else happens meanwhile, if the key is not edited the answer counts: models found are shown and selected and fill an empty default, any other answer leaves the group without models |
| `KeyOutcomes.ImageAnswerIsTaken` | apps/codex-plus-manager/src/SimpleApp.tsx:492-511 | an image key that is not edited meanwhile is confirmed exactly if the answer says so |
| `KeyOutcomes.LateImageAnswerIsDropped` | apps/codex-plus-manager/src/SimpleApp.tsx:492-511 | once the image key was edited, the answer to an earlier check only ends its operation, whatever happens in between |
| `KeyOutcomes.ConfirmationIsWithdrawn` | apps/codex-plus-manager/src/SimpleApp.tsx:476-491 | asking for a check of the image key, even in vain, withdraws its confirmation |
| `KeyOutcomes.DefaultFollows` | apps/codex-plus-manager/src/SimpleApp.tsx:1632-1688 | edits and selections act on their own group, and a default that is no longer selected falls back on the first model that still is, of this group before the other |
| `KeyOutcomes.DefaultIsChosen` | apps/codex-plus-manager/src/SimpleApp.tsx:1695-1702 | choosing a default makes it the default and changes nothing else |

## Left out

- Pages, styles, menus, notices, dialogs, timers and observers: user interface. Rows, lists and containers are sequences with abstract identities, and a list of rows has one list item per row.
- Network, sockets, subprocesses, local storage and desktop calls: they appear as events, answers or a stored value.
- SHA-256, HMAC, AES-GCM and the sealed envelopes: HMAC is any function with results of 32 bytes.
- `JSON.parse` and `JSON.stringify`: an inverse pair on values; the model table's windows are the table itself. Only the scanner reads JSON as text. Property names with a meaning of their own (`__proto__`) and the reordering of integer-like property names are not modelled.
- Coercions of values that are no strings: numbers, booleans and arrays carry their printed text and whether they count as true (`Other`). That is what an array amounts to wherever it stands, the `input` of a turn for instance, except where the array itself is the parameters of a request, which is not modelled.
- Lower-casing beyond ASCII letters: the words that are compared are ASCII. Texts with unpaired surrogates are not modelled.
- Rounding in the limiter: times and tokens are reals, and the clock of a run does not go backwards.
- Python's decoding of malformed base64, which skips foreign characters: a chunk that does not decode is an error. The host's own `b64url` and `unb64url` call the library and are not modelled.
- The preview mode of the manager without a desktop backend, its notices and search filters, and the operations that do not touch keys (refresh, repair, launch, install), which only hold the token.
- Renders that lag behind in the manager: every handler sees the state left by the event before it, except for the values that `validate` captures on purpose. The wording of its messages is replaced by reasons.
- Objects shared between two places of an answer: each marketplace and plugin of a list is its own value, and fields no code reads are kept as one opaque part.
- `deferNewThreadProviderToValidatedConfig`, the dispatcher patch, the module loader's retries, version comparison, model names read from the page: plumbing around the rewriter.
- `uniquePrompts`, the parsing of prompts, and filling the composer: easy members around the panel.
- The chat bridge's sessions (`_collect_turn`, `_request`, the window of seen messages): only its text splitter is modelled.
- `modelWindowsMapToText` and `buildModelWindows`: the older text form of the model table, easy members.
- Hiding empty-list placeholders after a projection and clearing references to settled rows.
- MovedSessionHasOneRow: assumes that each row has an identity of its own, that all rows looked at hang in some list when the passes begin, and that a project's list lies under the project.
- SurvivorIs: makes the same assumptions.
- ProjectionComesToRest: assumes besides that lists show each row under the session it belongs to, that the rows looked at are all rows of the page, and that the target lists start in order.
- PayloadIsExtracted: assumes that the text before the payload holds no marker of its own, since the first marker wins.
- DefaultStaysSelected: assumes that a discovery lists its default (`AnswerKeepsDefaultIff` says what else happens) and that selections are made only while no operation runs, as the disabled controls ensure; if keys are edited during operations, also that models have names.
- SettledScanShowsItsChoiceIff: excludes a collision of the hash of the prompts shown with that of the prompts chosen.
- ReorderSettlesIff: asks of the locale's comparison that it orders all strings, as `localeCompare` does; which order it is stays open.
- AppliedIsVerified: an image key that is typed in while images are switched off is sent without being confirmed.
