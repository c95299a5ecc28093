# Button registry, JSON cache, auth-flow trackers and school years of the AppVenture Discord bot

This project models the state-keeping core of the AppVenture Discord bot in Dafny and proves properties of it.
There are two generations of the bot: the current one under `bot/src/` and an earlier one under `src/`.

- **`UIHelper`** (modules `UiHelper` and `LegacyUiHelper`). This is the button-callback registry. It has three tables:
  - `callbacks`: the registered callback names.
  - `pending`: button id → (callback name, args), for buttons handed out but not yet seen on a message.
  - `buttons`: message id → list of (button id, callback name, args).

  Gateway events move entries between the tables: a message is sent, edited or deleted, an interaction arrives, the bot connects. The pure steps that both versions share are in `Registry`. The component trees that the handlers read are in `Components`.
- **`JSONCache`** (module `JsonCache`). These are named JSON mappings loaded from `<storage><name>.json`. Each mapping has a pre-save hook. The cache hands out the live mapping by reference, so what a caller changes is what gets saved. The current bot stores under `/storage/` and the earlier one under `storage/`.
- **Auth-flow trackers** (modules `AuthFlows`, `MsAuth`, `LegacyMsAuth`, `GithubAuth`). Each tracker keeps the pending OAuth 2.0 authorization-code flows. They are keyed by the `state` value of section 4.1 of RFC 6749, which section 10.12 of RFC 6749 uses against request forgery. A tracker mints a flow, looks it up, claims it from the provider's callback, and prunes flows that are 86400 s old or older.
- **School years** (module `Members`). This covers `Member.year` in its Python and SQL forms, the graduation cut-offs, and the count of updated members in `create_members`.

Files, the clock, UUIDs and the OAuth providers are inputs:

- The storage directory is a `Disk` object holding a map from path to `Blob`.
- `orjson.dumps`/`orjson.loads` are the abstract pair `Json.Dumps`/`Json.Loads`.
- `time.time()` is a `now: real` parameter.
- `uuid.uuid4()` is a caller-given token, or a sequence of candidates for a retry loop.
- The token endpoint, Microsoft Graph, GitHub and the guild's member list are parameters of the handlers.

Python exceptions are values: `Result.Err`, `Outcome.Fail` or `Reply.Raised`.

## Model

| member | source | states |
|---|---|---|
| Json.Loads | bot/src/bot/cogs/json_cache.py:35 | decoding succeeds exactly on bytes that encode a value |
| Json.Dumps | bot/src/bot/cogs/json_cache.py:50-51 | what is written decodes back to the same value, and a written file is never empty |
| Json.LoadObject | bot/src/bot/cogs/json_cache.py:29-35 | a missing file reads as `{}`; an existing file loads only when it decodes to a JSON object |
| Json.ReloadAfterWrite | bot/src/bot/cogs/json_cache.py:46-51 | a mapping written to a file reads back as the same mapping |
| JsonCache.HookOrNoOp | bot/src/bot/cogs/json_cache.py:24-27 | with no hook given the hook is the no-op; a given hook is kept; the same holds for `src/bot/cogs/json_cache.py:20-23` |
| JsonCache.MissingHookIsNoOp | bot/src/bot/cogs/json_cache.py:24-27 | saving a cache registered without a hook leaves its mapping unchanged |
| JsonCache.PathInjective | bot/src/bot/cogs/json_cache.py:30 | two cache names never share a file |
| JsonCache.JsonCache.constructor | bot/src/bot/cogs/json_cache.py:15-19 | the cache starts with no registrations and its loop stopped |
| JsonCache.JsonCache.RegisterCache | bot/src/bot/cogs/json_cache.py:21-40 | records (hook or no-op, fresh mapping loaded from the file, `{}` when missing) under the name, replacing an earlier pair, and returns that very mapping; a file that does not decode, or decodes to anything but a JSON object, is refused and nothing is recorded; the same holds for `src/bot/cogs/json_cache.py:19-36` |
| JsonCache.JsonCache.HookOne | bot/src/bot/cogs/json_cache.py:48 | the hook of one cache changes only that cache's mapping, to what the hook makes of it |
| JsonCache.JsonCache.WriteOne | bot/src/bot/cogs/json_cache.py:50-51 | the write of one cache sets only that cache's file, to the encoding of its mapping |
| JsonCache.JsonCache.SaveOne | bot/src/bot/cogs/json_cache.py:47-51 | one iteration of the save loop extends the caches hooked and written by one name and leaves the rest as they were |
| JsonCache.JsonCache.SaveData | bot/src/bot/cogs/json_cache.py:46-53 | every mapping becomes its hook's result on the old mapping; every cache file then holds the post-hook mapping; files of no cache are untouched, and no other file appears; the same holds for `src/bot/cogs/json_cache.py:42-49` |
| JsonCache.JsonCache.OnConnect | bot/src/bot/cogs/json_cache.py:42-44 | starts the save loop; starting a running loop raises `RuntimeError`; the same holds for `src/bot/cogs/json_cache.py:38-40` |
| JsonCache.JsonCache.CogUnload | bot/src/bot/cogs/json_cache.py:59-65 | a running loop is cancelled and its after-loop save runs once, with the full `SaveData` result including its frame on other files; a loop never started changes no mapping and no file; the same holds for `src/bot/cogs/json_cache.py:55-61` |
| AuthFlows.Trunc | bot/src/cogs/ms_auth.py:159 | `int()` on a float truncates toward zero: within 1 of the value, on the side of zero |
| AuthFlows.Unexpired | bot/src/cogs/ms_auth.py:321-327 | the kept flows are flows of the input, unchanged and still timestamped |
| AuthFlows.UnexpiredExactly | bot/src/cogs/ms_auth.py:321-327 | a flow is kept if and only if it exists and `now - ts < 86400`, and a kept flow keeps its value; the same holds for `bot/src/bot/cogs/github_auth.py:132-137`, `src/bot/cogs/ms_auth.py:315-321` |
| AuthFlows.UnexpiredIdempotent | bot/src/cogs/ms_auth.py:321-327 | pruning twice at the same time removes nothing more |
| AuthFlows.UnexpiredAntitone | bot/src/cogs/ms_auth.py:321-327 | a later prune never keeps a flow that an earlier prune dropped |
| AuthFlows.MintedLifetime | bot/src/cogs/ms_auth.py:159 | a flow stamped `int(now)` survives every prune for at least 86399 s and none from 86400 s on |
| AuthFlows.PruneInPlace | bot/src/cogs/ms_auth.py:321-327 | deleting the expired keys from a copy of the items leaves the live mapping equal to the unexpired flows; the same holds for `bot/src/bot/cogs/github_auth.py:132-137` |
| Fresh.FirstFree | bot/src/cogs/ms_auth.py:149-150 | the retry loop settles on a token not taken, and every token drawn before it was taken; the same holds for `bot/src/cogs/ui_helper.py:56-57` |
| MsAuth.AllMsRecords | bot/src/cogs/ms_auth.py:41-43 | a mapping of `(timestamp, member id, flow)` records is timestamped, so the prune hook applies to it |
| MsAuth.RealMsAuthLink | bot/src/cogs/ms_auth.py:139-146 | `False` exactly when the request has no state, `None` for an unknown state, otherwise the stored flow's `auth_uri` |
| MsAuth.ClaimNotFound | bot/src/cogs/ms_auth.py:170-172 | the answer is 404 if and only if the state is unknown or its flow is empty, and a 404 changes nothing |
| MsAuth.ClaimProviderErrorKeeps | bot/src/cogs/ms_auth.py:174-180 | a token error answers 500 with the provider's description, or the default text, and keeps the flow |
| MsAuth.ClaimSuccessConsumes | bot/src/cogs/ms_auth.py:182-204 | after a successful exchange exactly the state is deleted, whatever follows; success holds if and only if mail and name are present and non-empty and the member is in the guild |
| MsAuth.ClaimRemovesAtMostState | bot/src/cogs/ms_auth.py:170-182 | a claim removes nothing or exactly its own state, and keeps the records well-formed |
| MsAuth.ClaimNoReplay | bot/src/cogs/ms_auth.py:170-182 | once a claim has consumed its state, any replay of the same callback answers 404 |
| MsAuth.MintedClaimable | bot/src/cogs/ms_auth.py:159-172 | a freshly minted flow with a non-empty flow dictionary is never answered 404 |
| MsAuth.ActionOf | bot/src/cogs/ms_auth.py:45-47 | exactly the three registered names have a factory |
| MsAuth.JoinWrapper | bot/src/cogs/ms_auth.py:49-51 | `accept_as_alumni_wrapper`: a wrong arity raises `TypeError`; one argument is accepted if and only if it is an `int` (a `bool` included), else `ValueError`; the callback acts on that requester, a `bool` counting as 1 or 0; the same holds for `bot/src/cogs/ms_auth.py:79-81`, `bot/src/cogs/ms_auth.py:109-111` |
| MsAuth.JoinButtonsAccepted | bot/src/cogs/ms_auth.py:214-240 | the join buttons carry `(member.id,)`, which every factory accepts |
| MsAuth.MSAuth.constructor | bot/src/cogs/ms_auth.py:41-43 | the tracker keeps the very mapping the cache returned |
| MsAuth.MSAuth.GetMsAuthLink | bot/src/cogs/ms_auth.py:148-161 | the minted state was not a key before; exactly that key is set to `(int(now), member id, flow)`; the link is the redirect domain + `ms_auth?state=` + state |
| MsAuth.MSAuth.OnMsAuthResponse | bot/src/cogs/ms_auth.py:163-204 | a request without `response` answers 500 and changes nothing; otherwise the answer and the remaining flows are those of `MsClaim` |
| MsAuth.Create | bot/src/cogs/ms_auth.py:29-47 | registers "auth_flows" with the prune hook and keeps that mapping, which holds the file's content; other registrations of the shared cache stay as they were; then adds exactly the three factory names; a name already registered raises |
| LegacyMsAuth.RealMsAuthLink | src/bot/cogs/ms_auth.py:141-142 | `None` for an unknown state; otherwise the same answer as the current lookup |
| LegacyMsAuth.SavedFileHoldsNoExpired | src/bot/cogs/ms_auth.py:323-328 | the file a save writes reads back as the pruned flows, none of them expired |
| LegacyMsAuth.MSAuth.constructor | src/bot/cogs/ms_auth.py:43 | the tracker starts with no flows and no save loop |
| LegacyMsAuth.MSAuth.GetMsAuthLink | src/bot/cogs/ms_auth.py:144-153 | stores `(int(now), member id, flow)` under the given state, overwriting any flow already there, and returns the link |
| LegacyMsAuth.MSAuth.OnMsAuthResponse | src/bot/cogs/ms_auth.py:155-190 | the answer and the remaining flows are those of the same claim function as the current tracker |
| LegacyMsAuth.MSAuth.LoadAuthFlows | src/bot/cogs/ms_auth.py:304-313 | a missing file loads as `{}`; the flows become the file's content and the loop starts; a running loop raises after the flows were replaced; an undecodable file changes nothing |
| LegacyMsAuth.MSAuth.PruneAuthFlows | src/bot/cogs/ms_auth.py:315-321 | rebuilding the dictionary leaves exactly the unexpired flows |
| LegacyMsAuth.MSAuth.SaveAuthFlows | src/bot/cogs/ms_auth.py:323-328 | prunes, then overwrites the file with the pruned flows |
| LegacyMsAuth.MSAuth.CogUnload | src/bot/cogs/ms_auth.py:330-340 | a running loop is stopped and saves once more; a loop never started changes nothing |
| LegacyMsAuth.Create | src/bot/cogs/ms_auth.py:31-49 | registers the three factories, then loads the stored flows; the tracker holds what the file holds |
| GithubAuth.AllGhRecords | bot/src/bot/cogs/github_auth.py:32-34 | a mapping of `(timestamp, member id)` records is timestamped, so the prune hook applies to it |
| GithubAuth.Refusal | bot/src/bot/cogs/github_auth.py:53-63 | "link Microsoft first" if and only if the user holds the member role without a database row; "already linked" if and only if that check passes and a non-empty GitHub name is on record; otherwise no refusal |
| GithubAuth.GhClaimNotFound | bot/src/bot/cogs/github_auth.py:91-93 | the answer is 404 if and only if the state is unknown, its member id is 0, or `code` is missing or empty, and a 404 changes nothing |
| GithubAuth.GhClaimProviderErrorKeeps | bot/src/bot/cogs/github_auth.py:104-108 | a failed exchange answers 500 with GitHub's text and keeps the flow |
| GithubAuth.GhClaimSuccessConsumes | bot/src/bot/cogs/github_auth.py:110-123 | after an ok exchange that carries `access_token` exactly the state is deleted; the answer is success for a guild member, else 400 |
| GithubAuth.GhClaimTokenlessConsumes | bot/src/bot/cogs/github_auth.py:104-113 | an ok exchange whose body lacks `access_token` still deletes exactly the state, then raises `KeyError` |
| GithubAuth.GhClaimNoReplay | bot/src/bot/cogs/github_auth.py:91-110 | a claim removes nothing or exactly its state, and a consumed state answers 404 to any replay |
| GithubAuth.GithubAuth.constructor | bot/src/bot/cogs/github_auth.py:32-34 | the tracker keeps the very mapping the cache returned |
| GithubAuth.GithubAuth.Verify | bot/src/bot/cogs/github_auth.py:44-82 | a refusal adds no flow; otherwise exactly `state` is set to `(int(now), member id)` and the GitHub authorize URL for that state is returned |
| GithubAuth.GithubAuth.OnGhAuthResponse | bot/src/bot/cogs/github_auth.py:84-123 | a request without `response` answers 500 and changes nothing; otherwise the answer and the remaining flows are those of `GhClaim`, including the `KeyError` after the delete when the token body lacks `access_token` |
| GithubAuth.Create | bot/src/bot/cogs/github_auth.py:27-34 | registers "github_auth_flows" with the prune hook and keeps that mapping, loaded from the file; other registrations of the shared cache stay as they were |
| Components.ButtonIdsExactly | bot/src/cogs/ui_helper.py:101-113 | an id is found if and only if it is the `custom_id` of a type-2 component reached through type-1 rows |
| Components.ButtonIdsAppend | src/bot/cogs/ui_helper.py:78-85 | the walk of a concatenation is the walk of each part, in order (the `extend`/`append` of the list version) |
| Components.ViewItems | bot/src/cogs/ui_helper.py:74-75 | every view item is a top-level component or the child of a top-level row |
| Components.CustomIds | bot/src/cogs/ui_helper.py:75-84 | every id read from the view belongs to a button item with a non-empty `custom_id` |
| Components.ViewAgreesWithWalk | bot/src/cogs/ui_helper.py:74-80 | on rows that hold no rows, the view's ids are the walk's non-empty ids in the same order |
| Registry.PromoteOrigin | bot/src/cogs/ui_helper.py:82-89 | every attached entry was named on the message and was pending with that callback name and those args |
| Registry.PromoteIds | bot/src/cogs/ui_helper.py:82-90 | the attached ids are exactly the named ids that were pending, each attached once |
| Registry.PromotePending | bot/src/cogs/ui_helper.py:90 | `pending` loses exactly the attached ids |
| Registry.PromoteAppend | bot/src/cogs/ui_helper.py:75-90 | handling ids `a + b` is handling `a`, then `b` against what is still pending |
| Registry.SurvivorsInOrder | bot/src/cogs/ui_helper.py:135-142 | the kept entries are old entries in their old order |
| Registry.SurvivorsTake | bot/src/cogs/ui_helper.py:135-142 | the kept ids are exactly the new ids that some old entry carried; the set left over is the new ids not kept |
| Registry.SurvivorsDistinct | bot/src/cogs/ui_helper.py:135-142 | an id is kept at most once |
| Registry.Retain | src/bot/cogs/ui_helper.py:110 | an entry is kept if and only if it was there and its id is in the new list |
| Registry.RetainInOrder | src/bot/cogs/ui_helper.py:110 | the kept entries are in their old order |
| Registry.KeepRegistered | bot/src/cogs/ui_helper.py:184-188 | an entry stays if and only if its callback name is registered |
| Registry.FilterRegistered | bot/src/cogs/ui_helper.py:192-194 | every message key stays, and every remaining entry names a registered callback |
| Registry.FilterRegisteredIdempotent | bot/src/cogs/ui_helper.py:192-194 | filtering a second time changes nothing |
| Registry.FirstMatch | bot/src/cogs/ui_helper.py:178-182 | the position found carries the id and no earlier one does; none if and only if no entry carries it |
| Registry.RouteFiresFirstMatch | bot/src/cogs/ui_helper.py:160-182 | a factory is invoked only past every guard, and only for the first entry whose id equals `custom_id`; nothing fires if and only if a guard fails or no entry matches |
| Registry.RegisteredNeverMissing | bot/src/cogs/ui_helper.py:180 | when every entry names a registered callback, the unguarded lookup never raises |
| Registry.DecodeEntry | src/bot/cogs/ui_helper.py:161 | a decoded entry encodes back to the stored value |
| Registry.EntriesRoundTrip | src/bot/cogs/ui_helper.py:176-181 | a list of entries decodes back from its encoding |
| Registry.ButtonsRoundTrip | src/bot/cogs/ui_helper.py:161-181 | the whole table decodes back from its encoding |
| UiHelper.AttachTo | bot/src/cogs/ui_helper.py:86-89 | adding nothing leaves the table; adding something creates the key if needed; other keys are untouched |
| UiHelper.AttachToTwice | bot/src/cogs/ui_helper.py:86-89 | two appends to a message are one append of both |
| UiHelper.UIHelper.constructor | bot/src/cogs/ui_helper.py:37-47 | no callbacks, nothing pending, `buttons` as the cache loaded it |
| UiHelper.UIHelper.RegisterCallback | bot/src/cogs/ui_helper.py:49-53 | a registered name raises `ValueError` and leaves `callbacks`; otherwise exactly that name is added |
| UiHelper.UIHelper.GetButton | bot/src/cogs/ui_helper.py:55-64 | the id is the first candidate not pending, and exactly that key is set to (name, args); the callbacks are not consulted |
| UiHelper.UIHelper.OnMessage | bot/src/cogs/ui_helper.py:66-90 | no-op for another author or no components; otherwise the view's pending custom buttons move, in view order, from `pending` to the end of the message's list, and ids not pending are skipped |
| UiHelper.UIHelper.TakeItem | bot/src/cogs/ui_helper.py:76-90 | one view item extends that move by one id when it is a custom button |
| UiHelper.UIHelper.OnRawMessageDelete | bot/src/cogs/ui_helper.py:92-94 | exactly the message's key goes |
| UiHelper.UIHelper.OnRawBulkMessageDelete | bot/src/cogs/ui_helper.py:96-99 | exactly the given keys go |
| UiHelper.UIHelper.FindButtonIds | bot/src/cogs/ui_helper.py:101-113 | the result is the set of the ids of the walk |
| UiHelper.UIHelper.FilterButtons | bot/src/cogs/ui_helper.py:135-142 | the filter with its discarding closure keeps the survivors and leaves the set of ids not kept |
| UiHelper.UIHelper.AddPending | bot/src/cogs/ui_helper.py:147-154 | the remaining ids, in the set's iteration order, move from `pending` to the end of the list when pending |
| UiHelper.UIHelper.OnRawMessageEdit | bot/src/cogs/ui_helper.py:115-158 | no author, or another author: nothing changes; by the bot: the list is the survivors followed by the pending new ids, `pending` loses those ids, and an empty list loses its key |
| UiHelper.UIHelper.Reconcile | bot/src/cogs/ui_helper.py:131-158 | the edit's state change once the author is known to be the bot |
| UiHelper.UIHelper.OnInteraction | bot/src/cogs/ui_helper.py:160-182 | the outcome is `Route`: at most the first matching entry fires, or the missing-callback error |
| UiHelper.UIHelper.OnConnect | bot/src/cogs/ui_helper.py:190-194 | the table becomes its registered-only filter, keys kept |
| LegacyUiHelper.UIHelper.constructor | src/bot/cogs/ui_helper.py:19-23 | empty tables, no loop |
| LegacyUiHelper.UIHelper.RegisterCallback | src/bot/cogs/ui_helper.py:25-29 | a registered name raises `ValueError` and leaves `callbacks`; otherwise exactly that name is added |
| LegacyUiHelper.UIHelper.GetButton | src/bot/cogs/ui_helper.py:31-38 | the given id becomes the custom id and is set to (name, args), overwriting |
| LegacyUiHelper.UIHelper.OnMessage | src/bot/cogs/ui_helper.py:40-64 | no-op for another author or no components; otherwise the pending custom buttons move in view order |
| LegacyUiHelper.UIHelper.TakeItem | src/bot/cogs/ui_helper.py:49-64 | one view item extends that move by one id when it is a custom button |
| LegacyUiHelper.UIHelper.OnRawMessageDelete | src/bot/cogs/ui_helper.py:66-68 | exactly the message's key goes |
| LegacyUiHelper.UIHelper.OnRawBulkMessageDelete | src/bot/cogs/ui_helper.py:70-73 | exactly the given keys go |
| LegacyUiHelper.UIHelper.FindButtonIds | src/bot/cogs/ui_helper.py:75-87 | the result is the depth-first walk, duplicates kept |
| LegacyUiHelper.UIHelper.AddPending | src/bot/cogs/ui_helper.py:112-119 | the listed ids, in list order, move from `pending` to the end of the list when pending |
| LegacyUiHelper.UIHelper.OnRawMessageEdit | src/bot/cogs/ui_helper.py:89-119 | by the bot: the list is the retained old entries followed by the pending listed ids; the key is kept even when empty; otherwise nothing changes |
| LegacyUiHelper.UIHelper.OnInteraction | src/bot/cogs/ui_helper.py:121-143 | the outcome is `Route`, the same as the current helper |
| LegacyUiHelper.UIHelper.DropUnregistered | src/bot/cogs/ui_helper.py:163-164 | the table becomes its registered-only filter, keys kept |
| LegacyUiHelper.UIHelper.OnConnect | src/bot/cogs/ui_helper.py:151-169 | a missing or empty file is read as `{}` and `{}` is written; a table that does not decode fails with nothing changed; otherwise the table is replaced by the filtered stored table and the loop starts, raising if it was running |
| LegacyUiHelper.UIHelper.SaveButtons | src/bot/cogs/ui_helper.py:175-181 | the file is overwritten with the encoded table |
| LegacyUiHelper.UIHelper.CogUnload | src/bot/cogs/ui_helper.py:171-189 | a running loop stops and saves once more; otherwise nothing changes |
| LegacyUiHelper.SaveThenLoad | src/bot/cogs/ui_helper.py:154-181 | a saved table reads back exactly on the next connect |
| Members.ParseInt | bot/src/utils/database.py:35-36 | `int()` succeeds exactly on a non-empty string of digits, with a value below 10 to its length |
| Members.Year | bot/src/utils/database.py:33-37 | a value exactly when the email has digits at positions 1-3; `IndexError` when the slice parses but `email[3]` is missing; the same holds for `src/database.py:19-23` |
| Members.YearBounds | bot/src/utils/database.py:33-37 | the year lies in `[join_level, join_level + 99]`, so in `[0, 108]`, and equals the join level in the join year |
| Members.YearAdvances | bot/src/utils/database.py:37 | a year later the year is one more, until the two-digit year wraps |
| Members.SubstrIsSlice | bot/src/utils/database.py:43-44 | the 1-indexed `SUBSTR(email, 2, 2)` and `SUBSTR(email, 4, 1)` are `email[1:3]` and `email[3]` |
| Members.TruncMod | bot/src/utils/database.py:46 | SQL `MOD` agrees with `%` on a non-negative dividend and is non-positive on a negative one |
| Members.SqlYear | bot/src/utils/database.py:39-47 | the query succeeds on the same emails as the property; the same holds for `src/database.py:25-33` up to the lenient `CAST` (see Left out) |
| Members.SqlYearAgrees | bot/src/utils/database.py:39-47 | from year 99 on, the query and the property agree in success and in value; the same holds for `src/database.py:25-33` up to the lenient `CAST` (see Left out) |
| Members.SqlYearDisagreesBeforeJoinYear | bot/src/utils/database.py:46 | before the join year the two forms differ: Python gives 93 where SQL gives -7 |
| Members.GraduatedThreshold | bot/src/utils/database.py:119-126 | as written, the cut-off is 4 in every month; the month-dependent assignments are dead; the same holds for `src/database.py:66-73` |
| Members.OverlapAsWritten | bot/src/utils/database.py:119-144 | as written, a member is in both selections if and only if `4 <= year < ` the non-graduated cut-off |
| Members.OverlapInMarch | bot/src/utils/database.py:119-144 | a year-5 member in March is in both selections, even with `strict` |
| Members.IntendedGraduatedThreshold | bot/src/utils/database.py:120-123 | the intended cut-off is 6 if and only if the month is November or later, otherwise 7 |
| Members.NonGraduatedThreshold | bot/src/utils/database.py:128-133 | the cut-off is 6 if and only if `strict` and the month is November or later, otherwise 7; the same holds for `src/database.py:75-80` |
| Members.IntendedSplit | bot/src/utils/database.py:129 | with the intended cut-off every member is in a selection, and in both if and only if not `strict`, in November or December, in year 6 |
| Members.NumExistingUpdated | bot/src/utils/database.py:85 | 0 when `update_existing` is false, otherwise `len(emails) - num_new` |
| Members.UpdatedCountsExisting | bot/src/utils/database.py:76-85 | for distinct emails the reported count is the number of uploaded emails already stored |

## Left out

- File I/O is a map from path to `Blob`. `orjson` is the abstract pair `Dumps`/`Loads`, so byte-level JSON syntax is not modelled.
- The 5-minute loops, `after_loop` and `cog_unload` are explicit calls. Every async handler is one atomic step; event interleaving is not modelled.
- `JsonCache.JsonCache.SaveData`: every hook runs at the same `now`, whereas each prune in the source reads `time.time()` itself.
- UUIDs are parameters. The retry loops take a sequence of candidates that holds a free token. The other mints take the token directly.
- The provider calls are results passed in: msal's flow and token exchange, Microsoft Graph, GitHub's token endpoint (its `ok`, its text and the `access_token` of its body), and `guild.get_member`. The PyGithub `get_user()` call that follows is not modelled: it cannot fail in the model. `.title()` on the display name is not modelled; only whether the name is empty matters.
- Callback bodies are not modelled: role changes, kicks, DMs, `interaction.edit`, `do_verification` and its `get_button` calls. A dispatch is modelled as which factory is called with which args.
- JsonCache.JsonCache.RegisterCache: a file holding a top-level JSON array or string is registered and returned by the source, because `orjson.loads` and `len` both accept it. The model refuses it, because every cache here is a mapping from string keys. A number, boolean or null is refused in both; the source raises `TypeError` at `len`.
- Stored data with the wrong shape is rejected up front: a flow that is not `[int, int(, object)]`, or a button table that is not lists of `[str, str, list]`. The trackers' `Create` methods and the older `OnConnect` fail at once. The source would raise later, at the first use.
- The current helper's `buttons` table is a JSON-cache mapping in the source. The model keeps it as a typed map that is loaded once, so its save through the cache is not modelled.
- Ids are strings throughout. The source compares `message.author.id` (an `int`) with the application id.
- A type-1 component without `components` raises `KeyError` in `find_button_ids`. The model has no such component.
- `View.from_message` limits, and component types other than rows and buttons in a view, are not modelled.
- `Members.ParseInt`: Python's `int()` and SQL `CAST` also accept a sign, surrounding whitespace and (in Python) underscores. The model accepts digits only, and emails of the form `h<digits>` never contain those.
- The SQLite `CAST` of the earlier database is lenient: it turns a non-numeric string into 0. The model treats it as an error.
- The Peewee queries themselves are not modelled: selection, ordering, joins, transactions and `get_member_by_*`. Only the cut-offs and the year expression are.
- `Members.UpdatedCountsExisting` assumes distinct emails. With repeated emails in an upload, `len(emails)` counts the repeats.

## Findings

| source | as written | input that shows it | evidently intended | confidence | as-written member | corrected member |
|---|---|---|---|---|---|---|
| bot/src/utils/database.py:119-126 (and src/database.py:66-73) | `target_year = 4` overwrites the month-dependent cut-off, so "graduated" means year 4 and up all year round | a year-5 member in March is returned by both `get_graduated()` and `get_non_graduated(strict=True)` | cut-off 7, or 6 from November, so that the two selections overlap only in November and December without `strict`, as the comment at line 129 says | not executed | Members.OverlapInMarch | Members.IntendedSplit |
