# Verified core of LocalAgentManager

Dafny models of the parts of the desktop application whose correctness depends on bit
arithmetic, on crashes between file operations, on responses that arrive in any order,
or on several callers at once, with proofs of what those parts promise.

`dafny verify dfyconfig.toml` checks everything.

| modules | what they model |
|---|---|
| `Base64Url`, `SessionImport`, `Json`, `Positional` | the hand-written base64url codec; turning a browser session into `auth.json`, with the synthesised id token, and importing the result again |
| `Disk`, `PatSwitch`, `UsageTimeline`, `PatRuns` | switching the active account as a sequence of file operations, each of which may fail or be the last one; the timeline of switches; reading back which account is active |
| `WrapperRepair` | repairing the launcher scripts of managed accounts |
| `SessionMerge`, `SessionStore` | the session list: paging, sorting, filtering and clearing with requests in flight |
| `UsageSummary`, `UsageStore` | the usage dashboard: summary and panel requests that overtake each other |
| `CallWindow` | the streaming reader that finds what belongs to one model call in a log |
| `Ordering`, `Strings`, `ThreadIndex`, `CallSort` | grouping usage calls into threads, their neighbours, and the table's sort orders |
| `Sidecar` | the launcher's gateway process: start, verify, kill, retry, retain, stop |
| `ModelList` | the editable model list of a provider and its context-window buttons |
| `QuotaFlight` | the single-flight quota refresh with its cache |

## How to read the models

Code that changes state step by step is a class or a method with loops, proved against a
specification function or a transition function; the theorems about whole runs are
lemmas about those functions. A `Disk` records every state a crash could leave behind,
and counts the calls that fail for reasons of their own, so that one contract covers the
undisturbed run and all others. The stores, the quota service and the gateway process
take their surroundings (the schedule, the servers' answers, exit states, random
numbers, clocks, process ids) from parameters or from nondeterministic choice, so a
theorem about every run is a theorem about every environment.

Four assumptions are stated as `requires` clauses: printing JSON and parsing it are
inverse (`Faithful`); printing the timeline and reading it are inverse and no cut-off
timeline text reads as one (`Reliable`); a formatted time is not empty; and comparing
strings by locale is a consistent total order in which only equal strings tie
(`IsLocale`).

Where a promise holds only under a condition, the exact condition is proved:
re-import of a session (`ImportTwice`), one owner per instant when the clock may be set
back (`SingleOwnerAfter`, `SingleOwnerIff`), earlier switches and the owner of the
credentials when a switch is interrupted (`HistoryCanBeLost`, `OwnerCanBeLost`), a list
that follows its sort and age filter (`FollowsIff`), a panel that goes back to an older answer (`ReloadCanBeUndone`,
`DashboardCanBeUndone`), answers that commute (`MergeCommutes`, `DiagnosticsRace`), the
model list's round trip and its buttons (`RoundTrip`, `PresetIsExact`). Concrete inputs
on which it fails stand beside it (`AccountCanBeLost`, `ClockSetBack`,
`EmptyAccountGoesStale`, `OlderOverviewCanWin`, `PresetCanMergeModels`,
`ColonIdSwallowsWindow`). The callers in the program pass no empty account id.

## Model

| member | source | states |
|---|---|---|
| Base64Url.TableIsSymbol | apps/desktop/src-tauri/src/services/account.rs:1840 | the 64-character table agrees, entry by entry, with the arithmetic the decoder uses on symbols |
| Base64Url.EncodeLoop | apps/desktop/src-tauri/src/services/account.rs:1839-1858 | the group-of-three loop with its special cases for one and two trailing bytes writes the bytes, padded with zero bits, as one number in base 64 (RFC 4648 section 5, unpadded) |
| Base64Url.ShiftIn | apps/desktop/src-tauri/src/services/account.rs:1876-1880 | shifting a sextet into the 32-bit buffer, which wraps, and moving a full byte out loses no pending bit of the stream |
| Base64Url.DecodeLoop | apps/desktop/src-tauri/src/services/account.rs:1860-1882 | the bit-buffer loop equals: refuse foreign characters, skip `=`, regroup the sextets into bytes |
| Base64Url.RoundTrip | apps/desktop/src-tauri/src/services/account.rs:1839-1882 | decoding an encoding gives the bytes back, for every byte string |
| Base64Url.DecodeMeaning | apps/desktop/src-tauri/src/services/account.rs:1860-1882 | on any text: refused iff some character is neither in the alphabet nor `=`; otherwise floor(3k/4) bytes for k symbols, denoting the number the symbols spell without its spare low bits |
| Base64Url.EncodeInvertsDecode | apps/desktop/src-tauri/src/services/account.rs:1839-1882 | encoding inverts decoding on a string iff that string is canonical (RFC 4648 section 3.5) |
| SessionImport.FirstAliasDecides | apps/desktop/src-tauri/src/services/account.rs:2254-2276 | the first alias that occurs at the top, under `tokens` or under `user` decides, and no later alias is consulted even if what it holds is not a usable string; without any alias there is no value |
| SessionImport.SpellingsInOrder | apps/desktop/src-tauri/src/services/account.rs:2254-2276 | each of the eight labelled strings is looked for under its two spellings, in this order: at the top, under `tokens`, under `user`, and then the same for the other spelling |
| Json.TrimTakesEnds | apps/desktop/src-tauri/src/services/account.rs:1792-1802 | trimming takes the white characters at both ends and nothing else |
| SessionImport.AccountInOrder | apps/desktop/src-tauri/src/services/account.rs:1609-1619 | the eight places an account id is read from, in order: four in the session, then two claims of the id token, then the same two of the access token |
| SessionImport.EmailInOrder | apps/desktop/src-tauri/src/services/account.rs:1641-1646 | the five places an e-mail address is read from, in order |
| SessionImport.PlanInOrder | apps/desktop/src-tauri/src/services/account.rs:1647-1656 | the five places a plan is read from, in order, and `free` if none holds one |
| SessionImport.ReadInOrder | apps/desktop/src-tauri/src/services/account.rs:1585-1757 | every other field read off a session: the tokens, the session token that stands in for a refresh token, the expiry, the time of the last refresh or else the clock, the type or else `codex` |
| SessionImport.WrittenObject | apps/desktop/src-tauri/src/services/account.rs:1690-1749 | the written object, field by field |
| SessionImport.PayloadIsSecondPart | apps/desktop/src-tauri/src/services/account.rs:1833-1837 | the claims of a token are its second part, decoded and parsed; a further dot ends it, and a text without a dot has none |
| SessionImport.SynthesisedInOrder | apps/desktop/src-tauri/src/services/account.rs:1620-1640 | the claims of a synthesised id token: where user, organization and project are read from, in order, the account, the e-mail address, the times, the issuer and the subject |
| SessionImport.CompatTokenDecodes | apps/desktop/src-tauri/src/services/account.rs:1759-1790 | the three-part token built from a payload decodes to exactly that payload (compact form of RFC 7515 section 7.1) |
| SessionImport.CompatClaims | apps/desktop/src-tauri/src/services/account.rs:1763-1779 | reading the claims of a synthesised payload gives back the account, user, organization, project and email it was built from |
| SessionImport.SynthesisedClaims | apps/desktop/src-tauri/src/services/account.rs:1585-1757 | when the id token is synthesised, the account its claims name is the account the profile was read with |
| SessionImport.ReadWritten | apps/desktop/src-tauri/src/services/account.rs:1585-1757 | a second import reads every field of a written profile back, except that the account becomes the one its tokens claim |
| SessionImport.BuildWritten | apps/desktop/src-tauri/src/services/account.rs:1585-1757 | importing a written profile writes the same profile, with the account its tokens claim |
| SessionImport.WriteIsInjectiveInAccount | apps/desktop/src-tauri/src/services/account.rs:1585-1757 | two results that differ in the account id only are different files |
| SessionImport.TokensAreRead | apps/desktop/src-tauri/src/services/account.rs:1585-1757 | an import succeeds iff the session holds an access, id, refresh or session token |
| SessionImport.ImportTwice | apps/desktop/src-tauri/src/services/account.rs:1585-1790 | for every session that holds a token, re-importing the result of its import gives the same object iff the id token was synthesised or the account is the one the session's own tokens claim; the clock of the second import does not matter |
| SessionImport.ImportThrice | apps/desktop/src-tauri/src/services/account.rs:1585-1790 | for every session that holds a token the result of the second import is a fixed point |
| SessionImport.AccountCanBeLost | apps/desktop/src-tauri/src/services/account.rs:1585-1757 | a session with only an account id and a refresh token loses the account id on re-import |
| PatSwitch.ValidateProfileId | apps/desktop/src-tauri/src/services/types.rs:224-252 | an accepted id is the trimmed input, holds only letters, digits, `_` and `-`, and is `main` or a well-formed name; what is refused is neither |
| PatSwitch.AcceptedNames | apps/desktop/src-tauri/src/services/types.rs:224-252 | the accepted names, character by character and with their length |
| PatSwitch.SlotHolds | apps/desktop/src-tauri/src/services/account.rs:1980-2098 | the slot holds an account iff both of its files equal those of the profile, absence included |
| PatSwitch.FaultlessAnswer | apps/desktop/src-tauri/src/services/account.rs:1980-2098 | without faults each answer is given exactly when its own condition on the name, the profile list, the parsed files and the temporary files holds |
| PatSwitch.WriteTemp | apps/desktop/src-tauri/src/services/account.rs:2028-2043 | only the temporary file differs in every state on the way, torn writes included; it holds the content on success |
| PatSwitch.ReplaceFile | apps/desktop/src-tauri/src/services/account.rs:2028-2050 | up to the rename only the temporary file differs, from then on the target has the complete new content for good; a failure before the rename leaves the target as it was |
| PatSwitch.RecordPatUsageSwitch | apps/desktop/src-tauri/src/services/account.rs:2100-2129 | only the timeline file differs; once writing has begun every state holds a prefix of the new text and none the old one; on success it is the timeline with the switch recorded |
| PatSwitch.SwitchSecondFile | apps/desktop/src-tauri/src/services/account.rs:2056-2095 | the last stage: `auth-f.json` is replaced, or removed when the profile has none, and no state falls back; the exact answer when nothing fails |
| PatSwitch.SwitchFiles | apps/desktop/src-tauri/src/services/account.rs:2025-2098 | the writing part: the states pass through untouched, first file replaced, recording and finished in this order; the exact answer when nothing fails |
| PatSwitch.SwitchToPatAccount | apps/desktop/src-tauri/src/services/account.rs:1980-2098 | wherever the switch stops or crashes the slot is (old, old), (new, old) or (new, new), never (old, new) or partial, and the stages never decrease from state to state; a failure before the first rename leaves slot and timeline as they were; early refusals touch nothing; Ok means the slot equals the profile, absence of `auth-f.json` included; without faults the answer is exactly the documented one |
| PatSwitch.StagesAreCrashPoints | apps/desktop/src-tauri/src/services/account.rs:1980-2098 | every state of every stage is one that the run theorems allow an attempt to leave behind |
| UsageTimeline.RecordKeepsContiguous | apps/desktop/src-tauri/src/services/account.rs:2100-2137 | with a clock that does not go back, recording a switch closes the last event at the instant the new one opens, and changes nothing else |
| UsageTimeline.ExactlyOneOwner | apps/desktop/src-tauri/src/services/account.rs:2100-2137 | in a gap-free timeline every instant from the start of its first event on lies in exactly one event, and no earlier instant lies in any |
| UsageTimeline.RecordedOneByOne | apps/desktop/src-tauri/src/services/account.rs:2100-2129 | recording a series of switches gives one event each: it starts with its switch, names its account and ends with the next |
| UsageTimeline.RecordedLabels | apps/desktop/src-tauri/src/services/account.rs:2112-2137 | each event carries the label of its account, `main` or the launcher's name, and the one workspace |
| UsageTimeline.ClosesLatestOpen | apps/desktop/src-tauri/src/services/account.rs:2100-2129 | of any timeline, however it came about, recording closes the latest open event alone and adds one event behind |
| UsageTimeline.AttributedToLatest | apps/desktop/src-tauri/src/services/account.rs:2100-2129 | of switches made in time order every instant from the first switch on is attributed to exactly one event, that of the latest switch made by then, and no instant before |
| UsageTimeline.SingleOwnerAfter | apps/desktop/src-tauri/src/services/account.rs:2100-2129 | whatever the clock says, recording a switch keeps the ownership of every instant unique iff it was unique and the reading is not before the last switch, or not before the end of any earlier stretch of activity |
| UsageTimeline.SingleOwnerIff | apps/desktop/src-tauri/src/services/account.rs:2100-2129 | for every run of switches and every clock, no instant has two owners iff each reading met that condition when it was taken |
| UsageTimeline.SetBackHarmsIff | apps/desktop/src-tauri/src/services/account.rs:2100-2129 | after switches in time order the next one keeps ownership unique iff there was none, the clock is not behind the last switch, or no time passed between the first and the last |
| UsageTimeline.ClockSetBack | apps/desktop/src-tauri/src/services/account.rs:2100-2129 | a run with a clock set back in which two accounts own the same instant |
| PatRuns.AttemptKeepsTimeline | apps/desktop/src-tauri/src/services/account.rs:1980-2129 | one switch attempt, finished or cut short anywhere, leaves a gap-free timeline: the old one, the old one with this switch recorded, none at all, or this switch alone |
| PatRuns.RunKeepsTimeline | apps/desktop/src-tauri/src/services/account.rs:1980-2129 | after any run of attempts, finished, failed or crashed, the timeline is gap-free with only the last event open |
| PatRuns.HistoryOfRun | apps/desktop/src-tauri/src/services/account.rs:1980-2129 | as long as no attempt of a run loses earlier events, the timeline is exactly the switches that reached it, in order |
| PatRuns.SuccessesAreRecorded | apps/desktop/src-tauri/src/services/account.rs:1980-2129 | after any run of successes that could read the timeline, it is exactly the switches made |
| PatRuns.EveryInstantAttributed | apps/desktop/src-tauri/src/services/account.rs:1980-2129 | after such a run every instant from the first switch on is attributed to exactly one account, that of the latest switch made by then, and no instant before the first switch is |
| PatRuns.HistoryCanBeLost | apps/desktop/src-tauri/src/services/account.rs:2100-2129 | because the file is rewritten in place, an attempt that is cut short can lose the events recorded before it iff there are any |
| PatRuns.LossStartsOver | apps/desktop/src-tauri/src/services/account.rs:2100-2129 | after such a loss the next success leaves its own event as the only one, and nothing before it is attributed |
| PatRuns.OwnerCanBeLost | apps/desktop/src-tauri/src/services/account.rs:1980-2129 | known before the call: an attempt can leave the open event naming an account that does not own the active credentials iff there is an open event and the profile's `auth.json` differs from the active one |
| PatRuns.OwnerAfter | apps/desktop/src-tauri/src/services/account.rs:1980-2129 | how that happens: if the open event named the owner before, it fails to do so afterwards iff a timeline is still readable and the attempt stopped between replacing `auth.json` and writing it |
| PatRuns.SuccessRestoresOwner | apps/desktop/src-tauri/src/services/account.rs:1980-2129 | whatever came before, after a success the open event names the account of the attempt, which owns the active `auth.json` |
| PatRuns.RunKeepsOwner | apps/desktop/src-tauri/src/services/account.rs:1980-2129 | from the start of a run, or from any success in it, as long as no attempt stops in that window, the open event's account owns the bytes of the active `auth.json` |
| PatRuns.SwitchOrDie | apps/desktop/src-tauri/src/services/account.rs:1980-2129 | one call of the switch that may die at any recorded state leaves a state the run theorems speak of; a call that is done succeeded in their sense; one that neither dies nor meets a fault loses no earlier event |
| PatRuns.SwitchRepeatedly | apps/desktop/src-tauri/src/services/account.rs:1980-2129 | any series of calls, each of which may fail or die anywhere, is such a run: the timeline has no gap; if the last call was a success its account owns the active credentials; without deaths and faults the timeline is exactly the switches that reached it, and if all calls succeed all the switches made |
| PatRuns.MarkActiveAuthAccount | apps/desktop/src-tauri/src/services/account.rs:280-311 | the marking loop, in place on the account list: ids stay as they are, and an account is flagged iff it alone looks active, by the last four characters of `tokens.account_id` in the parsed files, or by equal bytes where the active file has none |
| PatRuns.FlaggedIffOnlyMatch | apps/desktop/src-tauri/src/services/account.rs:280-321 | an account is flagged iff it matches the active credentials and no other account does |
| PatRuns.FlaggedIffLooksActive | apps/desktop/src-tauri/src/services/account.rs:280-321 | the same on the parsed files: with a `tokens.account_id` of at least four characters in the active file an account is flagged iff it alone has one with the same last four characters, whatever else the files hold; otherwise iff it alone has the same bytes |
| PatRuns.OpenEventIsFlagged | apps/desktop/src-tauri/src/services/account.rs:280-321 | when the open event owns the active credentials its account is flagged iff no other profile shares its account suffix (or its bytes, where there is no suffix); nothing else is ever flagged |
| PatRuns.AtMostOneFlagged | apps/desktop/src-tauri/src/services/account.rs:280-311 | in no state is the main account flagged, nor are two accounts |
| WrapperRepair.ManagedAccounts | apps/desktop/src-tauri/src/services/account.rs:1036-1051 | every managed account other than main is listed, each with the place its script is found at |
| WrapperRepair.WhoIsManaged | apps/desktop/src-tauri/src/services/account.rs:431-434 | an account is looked after iff the manager created it and it is not the main one |
| WrapperRepair.ChosenDir | apps/desktop/src-tauri/src/services/account.rs:995-1021 | the local directory is chosen iff it is on the search path, or the other one is not and it exists |
| WrapperRepair.PlaceOfScript | apps/desktop/src-tauri/src/services/account.rs:1036-1047 | a script found in one of the directories only is left there; one in both or in neither belongs in the preferred one |
| WrapperRepair.WriteExecutable | apps/desktop/src-tauri/src/services/types.rs:72-79 | only the temporary file differs in every state on the way |
| WrapperRepair.ReplaceWrapper | apps/desktop/src-tauri/src/services/account.rs:461-475 | in every state on the way the account starts with its old script or the new one; on success the new one is at the preferred place |
| WrapperRepair.NoScriptLost | apps/desktop/src-tauri/src/services/account.rs:429-459 | in every state repair passes through, an account that had a script still has one, and accounts that are not managed keep theirs |
| WrapperRepair.KeptFiles | apps/desktop/src-tauri/src/services/account.rs:429-459 | the same file by file: who has a script in either directory keeps one in either directory, with an old content or the expected one; nothing else is touched |
| WrapperRepair.FixedFiles | apps/desktop/src-tauri/src/services/account.rs:442-457 | success file by file: the expected script stands at the preferred place, and a copy elsewhere remains only where it was shadowed before |
| WrapperRepair.RepairOne | apps/desktop/src-tauri/src/services/account.rs:443-457 | one account: skipped without a write iff its script is right and in place; otherwise the right script is put in place before the old copy is removed |
| WrapperRepair.OneMoreFixed | apps/desktop/src-tauri/src/services/account.rs:442-457 | repairing an account leaves all others as they were, also when an id is listed twice |
| WrapperRepair.OneMoreReported | apps/desktop/src-tauri/src/services/account.rs:456 | a place is reported exactly when its account needed repair at the start |
| WrapperRepair.RepairManagedWrappers | apps/desktop/src-tauri/src/services/account.rs:429-459 | with faults and crashes anywhere: nobody loses a script and nothing else is written; Ok means every managed account has the expected script at its preferred place; without faults it is Ok iff every route resolves, and it reports exactly the accounts that needed repair |
| WrapperRepair.AfterRepair | apps/desktop/src-tauri/src/services/account.rs:995-1021 | creating the directory that was chosen does not change the choice |
| WrapperRepair.RepairTwice | apps/desktop/src-tauri/src/services/account.rs:429-459 | a second repair without faults returns an empty list and writes nothing |
| SessionMerge.MergeSessions | apps/desktop/src/stores/sessions.ts:17-31 | the loop over both lists into a `Map`, then the sort, equals sorting the entries of the map |
| SessionMerge.CompareIsPreorder | apps/desktop/src/stores/sessions.ts:24-30 | for both orders the comparator is total, transitive and antisymmetric in sign |
| SessionMerge.MergeMeaning | apps/desktop/src/stores/sessions.ts:17-31 | one entry per path, sorted, and the union of both lists with the new page winning |
| SessionMerge.WhatIsListed | apps/desktop/src/stores/sessions.ts:17-31 | a session is listed iff it is the last with its path in the new page, or the last with its path in the old list and its path is not in the new page |
| SessionMerge.HowItIsListed | apps/desktop/src/stores/sessions.ts:24-30 | for each sort the fields of two listed sessions in order: by time or by size, in its direction, and by path where they agree |
| SessionMerge.MergeIsCanonical | apps/desktop/src/stores/sessions.ts:17-31 | the result depends only on what the two lists hold, not on their order |
| SessionMerge.RemergeIsNoOp | apps/desktop/src/stores/sessions.ts:17-31 | merging the same page again changes nothing |
| SessionStore.Store.LoadSessions | apps/desktop/src/stores/sessions.ts:120-136 | the part of a load before its await, field by field: one request for the first page under a fresh generation, an empty list, and loading; it establishes the invariant from any state whose requests are not from a later generation |
| SessionStore.Store.LoadMoreSessions | apps/desktop/src/stores/sessions.ts:156-168 | the part of a load-more before its await: with an account, a cursor and nothing loading it adds one request with the current generation, account, sort, age and cursor and sets `loading`; otherwise it changes nothing |
| SessionStore.Store.ChangeSort | apps/desktop/src/stores/sessions.ts:109-113 | a new sort reloads the current account, if there is one |
| SessionStore.Store.ChangeAgeFilter | apps/desktop/src/stores/sessions.ts:114-118 | a new age filter reloads the current account, if there is one |
| SessionStore.Store.ClearAll | apps/desktop/src/stores/sessions.ts:243-259 | clearing starts a new generation and resets what is listed |
| SessionStore.Store.Resume | apps/desktop/src/stores/sessions.ts:137-183 | the part of a load after its await, for an answer or a failure that may be late; like every method of the store it keeps the invariant |
| SessionStore.LoadMoreSendsOne | apps/desktop/src/stores/sessions.ts:156-168 | as a step of the store: exactly one request is added, with these contents, or nothing changes |
| SessionStore.LoadMoreMerges | apps/desktop/src/stores/sessions.ts:168-183 | answering it leaves the list as the merge of the old list with the page, and the cursor of the page |
| SessionStore.LoadReplaces | apps/desktop/src/stores/sessions.ts:137-155 | answering a first page leaves the list as that page alone |
| SessionStore.LateOrFailed | apps/desktop/src/stores/sessions.ts:137-183 | a failure of the current request ends the loading and keeps the list; a late answer or failure changes nothing but the request |
| SessionStore.StepKeepsInv | apps/desktop/src/stores/sessions.ts:109-183 | every action and every late, stale or failed answer keeps the invariant |
| SessionStore.RunKeepsInv | apps/desktop/src/stores/sessions.ts:109-183 | the invariant holds in every interleaving |
| SessionStore.LoadingIsExact | apps/desktop/src/stores/sessions.ts:120-183 | `loading` holds iff a request of the current generation is in flight, and there is never more than one |
| SessionStore.ListedSessions | apps/desktop/src/stores/sessions.ts:109-183 | in every run: what is listed is the merge of answers to requests of the current generation, account, sort and age, each continuing at the cursor of the one before; `hasMore` iff there is a cursor |
| SessionStore.ListedFromAnswers | apps/desktop/src/stores/sessions.ts:137-183 | every listed session came in one of those answers |
| SessionStore.FollowsIff | apps/desktop/src/stores/sessions.ts:109-183 | of a list that follows its sort and age filter, including what is on the way, exactly one kind of step leaves it behind: a different sort or filter while something is listed or loading for the empty account id |
| SessionStore.AccountsFollow | apps/desktop/src/stores/sessions.ts:109-183 | in every run that loads no empty account id, the list follows its sort and age filter throughout |
| SessionStore.EmptyAccountGoesStale | apps/desktop/src/stores/sessions.ts:109-118 | the condition is needed: a list loaded for the empty account id stays behind when the sort changes |
| UsageSummary.MergeCommutes | apps/desktop/src/stores/usage.ts:55-69 | from any summary, or none, two answers give the same summary in both orders iff they do not contradict each other |
| UsageSummary.MergeTwice | apps/desktop/src/stores/usage.ts:55-69 | merging an answer twice is merging it once |
| UsageSummary.ArrivalOrder | apps/desktop/src/stores/usage.ts:55-69 | any two arrival orders of answers that do not contradict each other give the same summary |
| UsageSummary.RepeatedAnswer | apps/desktop/src/stores/usage.ts:55-69 | repeating an answer, at any distance, changes nothing |
| UsageSummary.PanelsAgree | apps/desktop/src/stores/usage.ts:55-79 | activity, insights, calls, threads and an overview never contradict each other iff the overview repeats no panel with other content |
| UsageSummary.DiagnosticsRace | apps/desktop/src/stores/usage.ts:71-79 | an overview and a diagnostics answer commute iff they carry the same diagnostics |
| UsageStore.Store.LoadUsageSummary | apps/desktop/src/stores/usage.ts:97-148 | a dashboard load issues its three requests, and no other, under one fresh id, and changes nothing on screen |
| UsageStore.Store.LoadUsageSection | apps/desktop/src/stores/usage.ts:158-214 | a panel reload issues one request under a fresh id of its own channel, and changes nothing on screen |
| UsageStore.Store.SelectUsageScope | apps/desktop/src/stores/usage.ts:259-267 | selecting a scope empties the summary and forgets all channels |
| UsageStore.Store.InvalidateAll | apps/desktop/src/stores/usage.ts:269-278 | invalidation empties everything and forgets all channels |
| UsageStore.Store.Settle | apps/desktop/src/stores/usage.ts:97-226 | an answer is used only if its guard still holds, and then sets exactly the fields of its own panel; a stale answer or a rejection changes nothing on screen; like every method of the store it keeps the invariant |
| UsageStore.AnswerFills | apps/desktop/src/stores/usage.ts:55-226 | for each of the seven kinds of answer, on the fields on screen: exactly the fields of its panel are set to what it holds |
| UsageStore.AnswerFillsItsPanel | apps/desktop/src/stores/usage.ts:97-226 | the same for a step of any run: a used answer fills its panel, any other step of settling leaves the screen as it is |
| UsageStore.CurrentIsLatest | apps/desktop/src/stores/usage.ts:97-226 | the guards accept a request iff it is the latest of its channel and newer than the last reset |
| UsageStore.RunKeepsInv | apps/desktop/src/stores/usage.ts:97-278 | the invariant on ids, requests in flight and answers used holds in every schedule |
| UsageStore.LatestWins | apps/desktop/src/stores/usage.ts:97-278 | in every schedule an answer is used iff it is the latest issued on its channel and was issued after the last reset |
| UsageStore.OnlySinceReset | apps/desktop/src/stores/usage.ts:97-278 | what is on screen is the replay of answers issued since the last reset, and ids of used answers never decrease on a channel |
| UsageStore.SummaryIsFold | apps/desktop/src/stores/usage.ts:55-226 | the summary is the fold of the used answers, so arrival order matters only where answers disagree |
| UsageStore.StaleStaysStale | apps/desktop/src/stores/usage.ts:97-278 | from any state on, every answer used was issued later or was in flight and current in that state: a stale request never becomes current again |
| UsageStore.ReloadCanBeUndone | apps/desktop/src/stores/usage.ts:97-226 | for every run: after a reload of a panel an older answer can replace the reload's own answer iff a current dashboard load has its request for that panel in flight when the reload is issued |
| UsageStore.DashboardCanBeUndone | apps/desktop/src/stores/usage.ts:97-226 | the mirror image: after a dashboard load, iff the panel is on the dashboard and its own latest reload is in flight and current |
| UsageStore.OlderSettlesLast | apps/desktop/src/stores/usage.ts:97-226 | in that case settling the newer request and then the older one puts the older answer on screen, whatever the answers are |
| UsageStore.OlderOverviewCanWin | apps/desktop/src/stores/usage.ts:97-226 | a schedule in which an older dashboard load replaces a newer overview reload |
| CallWindow.CallRawContents | apps/desktop/src-tauri/src/commands/mod.rs:567-651 | the streaming push-and-clear loop, its early stop and its errors equal the declarative window |
| CallWindow.AnswerOfCall | apps/desktop/src-tauri/src/commands/mod.rs:567-651 | for every log and line number: the three texts of the lines since the nearest boundary if the line is a token count reached before any read error; three empty texts if it is not and the log is readable; otherwise the error |
| CallWindow.BoundaryLines | apps/desktop/src-tauri/src/commands/mod.rs:581-593 | the exact JSON of a boundary: an entry of type `turn_context`, or an `event_msg` whose payload is a `token_count` |
| CallWindow.ListedLines | apps/desktop/src-tauri/src/commands/mod.rs:610-643 | the exact JSON of a line that is listed, for each of the three lists |
| CallWindow.ListedTexts | apps/desktop/src-tauri/src/commands/mod.rs:612-640 | the text a listed line contributes, with the defaults for a tool call without name or arguments |
| CallWindow.MessageText | apps/desktop/src-tauri/src/commands/mod.rs:653-665 | the text of a message is its text parts, one per line; other parts are passed over |
| CallWindow.ItemsAppend | apps/desktop/src-tauri/src/commands/mod.rs:575-644 | what two stretches of log contribute is what each contributes, in order |
| Strings.JoinAppend | apps/desktop/src-tauri/src/commands/mod.rs:598-602 | a separator stands between any two parts and nowhere else |
| CallWindow.OneListPerLine | apps/desktop/src-tauri/src/commands/mod.rs:600-667 | a line is reported in at most one of the three texts, and a message never as an empty item |
| CallWindow.WindowIsExact | apps/desktop/src-tauri/src/commands/mod.rs:567-651 | the window of a call starts right after the nearest boundary before it |
| CallWindow.BelongsToNextBoundary | apps/desktop/src-tauri/src/commands/mod.rs:567-651 | a line is in the window of a call iff no boundary lies between them |
| CallWindow.WindowsAreDisjoint | apps/desktop/src-tauri/src/commands/mod.rs:567-651 | no line is reported for two calls |
| CallWindow.WindowsPartitionItems | apps/desktop/src-tauri/src/commands/mod.rs:567-651 | cutting the log into windows neither drops, repeats nor reorders an item |
| CallWindow.BoundaryHasNoItem | apps/desktop/src-tauri/src/commands/mod.rs:580-640 | a boundary contributes nothing itself |
| ThreadIndex.BuildCallAdjacencyIndex | apps/desktop/src/lib/usage-dashboard-data.ts:32-59 | the two `Map`s and the in-place sorts equal the index defined thread by thread |
| ThreadIndex.IndexCoversRows | apps/desktop/src/lib/usage-dashboard-data.ts:32-59 | with unique ids every row is indexed once, at its own place in its thread, which is sorted and holds exactly the rows with its key |
| ThreadIndex.OldestFirst | apps/desktop/src/lib/usage-dashboard-data.ts:26-59 | the calls of an entry stand oldest first, with the smaller running total first where the times agree, and its neighbours are the calls beside it |
| ThreadIndex.OnlyRowsAreIndexed | apps/desktop/src/lib/usage-dashboard-data.ts:32-59 | nothing but the given rows is indexed |
| ThreadIndex.NeighboursAgree | apps/desktop/src/lib/usage-dashboard-data.ts:32-59 | s is next of r iff r is previous of s, and then they share a thread key |
| ThreadIndex.WalkVisitsThread | apps/desktop/src/lib/usage-dashboard-data.ts:32-59 | following next from the i-th call visits exactly the rest of the thread, in order, and stops |
| ThreadIndex.ThreadsNeverMix | apps/desktop/src/lib/usage-dashboard-data.ts:21-24 | two calls share a thread key iff both are named alike or both are unnamed with the same session |
| ThreadIndex.ChronologicalIsPreorder | apps/desktop/src/lib/usage-dashboard-data.ts:26-30 | the chronological comparator is total, transitive and antisymmetric in sign |
| ThreadIndex.LastCallOfLastThread | apps/desktop/src/lib/usage-dashboard-data.ts:32-59 | also when rows share an id: an id is indexed iff a row has it, and its entry is that of the last call with the id in the last thread that has one |
| ThreadIndex.AdjacentByIdAlone | apps/desktop/src/lib/usage-dashboard-data.ts:61-67 | a call is looked up by its id alone: it stands in the thread of the row with that id, and by itself if no row has it |
| CallSort.Clamp | apps/desktop/src/lib/usage-dashboard-analysis.ts:10-12 | values within the bounds are left alone, others are moved to the bound they exceed |
| CallSort.AttentionRises | apps/desktop/src/lib/usage-dashboard-analysis.ts:14-19 | more tokens and a worse cache ratio never lower the score; exactly when it is 0 and exactly when it is 71 |
| CallSort.AttentionBetweenBounds | apps/desktop/src/lib/usage-dashboard-analysis.ts:14-19 | the score between its bounds, as a number |
| CallSort.NumberColumns | apps/desktop/src/lib/usage-dashboard-analysis.ts:27-55 | each of the twelve number columns rises ascending and falls descending in its own field |
| CallSort.TextColumns | apps/desktop/src/lib/usage-dashboard-analysis.ts:27-55 | each of the five text columns follows the collation of its own field |
| CallSort.TiedCalls | apps/desktop/src/lib/usage-dashboard-analysis.ts:53-58 | calls the column does not tell apart stand newest first, then by record id, in both directions |
| CallSort.LabelOfThread | apps/desktop/src/lib/usage-dashboard-data.ts:21-24 | a thread goes by its name, else by its session, else by a fixed label |
| CallSort.CompareIsPreorder | apps/desktop/src/lib/usage-dashboard-analysis.ts:47-59 | for every column and direction the comparison is total, transitive and antisymmetric in sign |
| CallSort.SortedThreadIsCanonical | apps/desktop/src/lib/usage-dashboard-analysis.ts:61-67 | with distinct record ids the sorted list is sorted and independent of the input order |
| CallSort.DirectionFlipsColumnOnly | apps/desktop/src/lib/usage-dashboard-analysis.ts:47-59 | reversing the direction swaps exactly the pairs that differ in the column, never those decided by the tie-breakers |
| Ordering.SortIsSorted | apps/desktop/src/lib/usage-dashboard-analysis.ts:66 | reference sort: the result is sorted by any consistent comparator |
| Ordering.SortIsStable | apps/desktop/src/lib/usage-dashboard-analysis.ts:66 | reference sort: elements that compare equal keep their order |
| Ordering.StableSortUnique | apps/desktop/src/lib/usage-dashboard-analysis.ts:66 | being sorted and stable determines the result, so any stable sort is the reference sort |
| Ordering.SortIsCanonical | apps/desktop/src/lib/usage-dashboard-analysis.ts:66 | without ties the input order does not matter |
| Sidecar.RestartsAreBounded | apps/desktop/src-tauri/src/services/gateway/sidecar.rs:711-730 | a restart is allowed for exactly the first failures up to the maximum; its delay lies between the doubling backoff and a quarter more, capped, and is never below the backoff of an earlier failure |
| Sidecar.BackoffDoubles | apps/desktop/src-tauri/src/services/gateway/sidecar.rs:715-720 | the backoff starts at the initial delay and doubles with every failure until the cap or the 32nd failure |
| Sidecar.DelaysSpread | apps/desktop/src-tauri/src/services/gateway/sidecar.rs:711-728 | a delay can come out for some seed iff it lies between the backoff and a quarter more, within the cap |
| Sidecar.LauncherDelays | apps/desktop/src-tauri/src/bin/lam.rs:552-557 | the launcher waits 100, 200 and 400 milliseconds, each up to a quarter more, and gives up at the fourth failure |
| Sidecar.Supervisor.Observe | apps/desktop/src-tauri/src/services/gateway/supervisor.rs:241-303 | the next state, action and count for each of the ten observations; a verified process is recovered only for a proven mismatch at the threshold of bad observations in a row |
| Sidecar.NewSupervisor | apps/desktop/src-tauri/src/services/gateway/supervisor.rs:214-227 | a supervisor exists iff the threshold is at least two |
| Sidecar.Readiness.PrepareGateway | apps/desktop/src-tauri/src/bin/lam.rs:307-355 | the exact events of a preparation: at most three looks at the claimed process, each but the last inconclusive; only a third one that proved a mismatch terminates the process; the last event decides the answer |
| Sidecar.Readiness.InspectOnce | apps/desktop/src-tauri/src/bin/lam.rs:319-350 | one look: healthy, wait for another look, or reconcile, with the events and the answer of each |
| Sidecar.Readiness.StartSidecar | apps/desktop/src-tauri/src/bin/lam.rs:396-468 | the questions asked before a child is launched and the answer of each failure; a failed bootstrap write drops the child unreaped |
| Sidecar.Readiness.RetainChild | apps/desktop/src-tauri/src/bin/lam.rs:470-486 | the slot takes a child only when empty and unpoisoned; otherwise the child is killed and waited for |
| Sidecar.Readiness.AwaitReady | apps/desktop/src-tauri/src/bin/lam.rs:561-579 | the exact events of watching a child: a health check that succeeds among the first fifty, before the child exits or is lost sight of, makes it ready; it is given up only when it exited by itself after a failed check or after fifty failed checks, and killed only after fifty |
| Sidecar.Readiness.LaunchOnce | apps/desktop/src-tauri/src/bin/lam.rs:559-579 | one child from start to verdict, with the exact change of owner and of all three fault counts; its events come in their turn and the last one decides the answer |
| Sidecar.Readiness.OneRound | apps/desktop/src-tauri/src/bin/lam.rs:558-590 | one round either gives the final answer or gives up its child, waits, finds the port free and may go on |
| Sidecar.Readiness.EnsureReady | apps/desktop/src-tauri/src/bin/lam.rs:535-595 | at most four children, one at a time, none held on return; every event comes in its turn (`Flows`): a child given up is followed by a wait of the right length and a new inspection, and only a child that failed exactly fifty checks, or was confirmed and refused, is killed; the last event decides the answer; `HealthFailed` only after four children were given up; an owner changes only on success; bootstrap and status faults occur exactly with their own errors, and failed waits at most once a child |
| Sidecar.Readiness.StopOwnedChild | apps/desktop/src-tauri/src/bin/lam.rs:488-512 | shutdown leaves no owned child unless the lock is poisoned: the exact events of polling, exit, loss and kill, and Ok iff the child was waited for |
| Sidecar.StepBalances | apps/desktop/src-tauri/src/bin/lam.rs:470-599 | every orderly event keeps the balance of started, reaped, lost and kept children |
| Sidecar.Conservation | apps/desktop/src-tauri/src/bin/lam.rs:470-599 | in every orderly log each child started is exactly one of reaped, lost, held or owned, and none is lost unless a bootstrap write, a status query or a wait failed |
| Sidecar.FaultsAreCounted | apps/desktop/src-tauri/src/bin/lam.rs:470-599 | each fault counter is the number of children lost for that reason |
| Sidecar.NothingLeftBehind | apps/desktop/src-tauri/src/bin/lam.rs:488-599 | once nothing is held or owned, every child started was reaped iff no such fault occurred |
| ModelList.DecimalDenotes | apps/desktop/src/components/provider-center.tsx:169-175 | a printed decimal number reads back as itself |
| ModelList.ReadWindow | apps/desktop/src/components/provider-center.tsx:159-164 | a printed positive safe integer is read back as that window |
| ModelList.WindowOfDigits | apps/desktop/src/components/provider-center.tsx:159-164 | any row of digits, with or without leading zeros, is read as the number it denotes if that is positive and at most 2^53 - 1, and as no window otherwise |
| ModelList.EntryByParts | apps/desktop/src/components/provider-center.tsx:155-164 | an entry is cut at its first colon into a trimmed id and a window, unless it starts with the colon |
| ModelList.ParseOneMore | apps/desktop/src/components/provider-center.tsx:148-156 | one more piece at the end of any text: blank or repeated it changes nothing, otherwise it adds the model it stands for |
| ModelList.FormatInRow | apps/desktop/src/components/provider-center.tsx:169-175 | printed entries stand in a row with a comma and a blank between them, each with its window behind a colon if it has one |
| ModelList.SplitAtSeparator | apps/desktop/src/components/provider-center.tsx:152 | a comma or line break anywhere splits the text into the pieces on either side |
| ModelList.LineBreaksAreCommas | apps/desktop/src/components/provider-center.tsx:148-167 | commas and line breaks are interchangeable |
| ModelList.ParsedIsShaped | apps/desktop/src/components/provider-center.tsx:148-167 | whatever the text, each parsed model has a trimmed, non-empty id without separators, a colon in it only as the first character and then no window, and a positive safe window if any |
| ModelList.ReadBack | apps/desktop/src/components/provider-center.tsx:148-175 | printing models of that shape and parsing them drops repetitions and nothing else |
| ModelList.RoundTrip | apps/desktop/src/components/provider-center.tsx:148-175 | parsing a printed list gives the list back iff every model has that shape and none is repeated |
| ModelList.Form.ApplyContextWindowPreset | apps/desktop/src/components/provider-center.tsx:308-327 | the new text; read again it lists the same models with the one window iff no id is listed twice and, with a window to write, no id starts with a colon |
| ModelList.PresetNumbers | apps/desktop/src/components/provider-center.tsx:314-320 | the window each button stands for |
| ModelList.PresetIsExact | apps/desktop/src/components/provider-center.tsx:308-327 | the same equivalence for every list parsing can produce |
| ModelList.PresetCanMergeModels | apps/desktop/src/components/provider-center.tsx:308-327 | an id listed with two windows is listed once after the windows are taken away |
| ModelList.ColonIdSwallowsWindow | apps/desktop/src/components/provider-center.tsx:154-156 | every id that starts with a colon swallows the window written behind it |
| QuotaFlight.Combined | apps/desktop/src-tauri/src/services/antigravity.rs:444-480 | a server has answered iff at least one of its two questions was answered; the answer is ok, carries what was answered and leaves the rest empty |
| QuotaFlight.QueryPortsForQuota | apps/desktop/src-tauri/src/services/antigravity.rs:439-486 | the first port that answers, and its answer; nothing iff none does |
| QuotaFlight.LockStep | apps/desktop/src-tauri/src/services/antigravity.rs:521-541 | every step keeps: exactly the lock's owner is between acquiring and releasing it, a crash under the lock poisons it, and nobody queries under a poisoned lock |
| QuotaFlight.AskStep | apps/desktop/src-tauri/src/services/antigravity.rs:543-551 | queries go only to the caller's own port with a token it observed |
| QuotaFlight.OrderStep | apps/desktop/src-tauri/src/services/antigravity.rs:488-559 | every step keeps each caller's answer justified by the queries sent so far |
| QuotaFlight.CacheStep | apps/desktop/src-tauri/src/services/antigravity.rs:81-98 | every step keeps the cache genuine, and newest except for an answer that its caller is about to store or crashed with |
| QuotaFlight.RunKeepsInv | apps/desktop/src-tauri/src/services/antigravity.rs:488-559 | the invariant holds in every interleaving of any number of callers, crashes included |
| QuotaFlight.OneQuerierAtATime | apps/desktop/src-tauri/src/services/antigravity.rs:521-551 | at most one caller queries at a time, and it owns the lock |
| QuotaFlight.AnswersAreGenuine | apps/desktop/src-tauri/src/services/antigravity.rs:488-559 | an ok answer, own or shared, came from a query to the caller's configured port with a (pid, token) it observed; a failed query is reported only after every process was asked in vain |
| QuotaFlight.LoserGetsNewest | apps/desktop/src-tauri/src/services/antigravity.rs:100-123 | a caller that loses the try-lock is refused iff the cache holds nothing for its port and one of its processes; otherwise it gets a matching answer, and the only newer answer can be that to the very last query, whose caller is about to store it or has crashed |
| QuotaFlight.Sharing | apps/desktop/src-tauri/src/services/antigravity.rs:100-123 | over any state: a blocked caller gets the cached response iff there is one for its configured port and for the pid and token of some process it found, wherever in the list; otherwise the refusal; nothing else changes |
| QuotaFlight.CrashIsFinal | apps/desktop/src-tauri/src/services/antigravity.rs:533-541 | after a crash under the lock no query is ever sent again |
| QuotaFlight.Service.QueryUnderLock | apps/desktop/src-tauri/src/services/antigravity.rs:543-559 | the loop over processes is a run of the machine and returns the first process's answer in order |
| QuotaFlight.Service.GetLiveQuota | apps/desktop/src-tauri/src/services/antigravity.rs:488-559 | an uninterrupted call is a run of the machine, with the exact answer and cache in each case, the sharing of a cached answer spelled out on port, pid and token |

## Left out

- JSON text: parsing and printing are parameters assumed inverse; numbers in JSON are integers.
- Floating point: scores, ratios and costs are reals, so rounding and NaN are not modelled.
- Locale comparison: an arbitrary consistent total order stands for `localeCompare`.
- Durability: a completed file operation is not undone by a crash; losing it before a sync is not modelled.
- Permissions, symbolic links and directories: reduced to calls that may fail.
- `CallWindow.CallRawContents`: lines arrive as parsed values or errors, so the encoding of the file is not modelled.
- `UsageStore`: the loading flags of the panels, which two channels share, and the combined panel refresh, which re-issues an old request, are left out.
- `SessionStore`: selecting, resuming, deleting and measuring sessions are separate actions that share only the reset; they are left out.
- `ModelList.RoundTrip`: numerals other than plain digits are read by a parameter, and text is a sequence of Unicode scalar values, so unpaired surrogates do not occur.
- `ModelList.Entry`: windows above 10^21, which would print with an exponent, are printed in full; no such window is ever read back either way.
- `Sidecar`: building the command line and environment, the reservation of the listening port, and the pauses between polls are left out; verification and inspection answer arbitrarily, and are recorded with their answers.
- `WrapperRepair.RepairManagedWrappers`: listing the accounts is one call that may fail; the cache it writes, and the text of the scripts, are not modelled, and which directories are on the search path is given.
- `WrapperRepair.Effective`: the other directory may come first on the search path, and then the shell starts the copy there; repair chooses by the order of candidates, and so does this definition.
- `QuotaFlight`: the cache's own mutex never poisons, because nothing inside it can panic; error texts are reduced to their kind.
- Interface, tray, terminal and Keychain code: layout and input/output only.
- Expiry of tokens, and the text fields for header and query pairs: not part of this model.
