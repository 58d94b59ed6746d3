# Scratch account linking and Discord linked roles, in Dafny

This project models the core of a Discord bot, written in Rust, that links
Scratch accounts to Discord accounts and publishes Discord "linked roles"
metadata for each Discord user. The metadata are: whether any linked account
has Scratcher status, the highest follower count, and the oldest join date.
The model is written in Dafny and its properties are proved.

The model covers these parts of the bot:

- **Account-link store** (`database.dfy`). The four tables
  `discord_accounts`, `scratch_accounts`, `tokens` and `metadata` are held
  in memory.
  - Every single-query primitive has the meaning of its SQL. Reads are
    functions of the table state. Writes are methods of a `Transaction`
    that works on a copy of the pool's committed tables.
  - `Commit` writes the copy back to the pool. A transaction dropped on an
    early return changes nothing.
  - `link_account` and `transfer_linked_accounts` are proved against
    complete specifications of their outcome and of the new committed
    state.
  - Both preserve a table invariant: no two rows share a username up to
    letter case.
  - `database_tests.dfy` replays the store's own test cases.
- **OAuth tokens** (`token.dfy`, `token_client.dfy`).
  - A stored token keeps an absolute expiry. The token response of
    section 5.1 of RFC 6749 carries `expires_in` instead. The model
    converts between the two and proves the round trip.
  - `get_active_token` uses the stored token until its expiry lies
    strictly in the past. After that it asks the refresh-token grant of
    section 6 of RFC 6749 for a new token, and commits the new token.
- **Role-connection update** (`update.dfy`).
  - Every linked account is looked up on ScratchDB. The concurrent lookups
    are collected in completion order, which is a parameter of the model.
  - The results are aggregated into the three metadata values, and the
    role connection is published.
  - The transaction this operation opens is never committed, and it never
    writes a metadata row. The model keeps both facts. It proves that a
    renewed token is used for the one call and then lost.
- **Background updater** (`background_updater.dfy`).
  - Each step takes the metadata record with the oldest `updated_at` and
    updates that user if the record was written before today's start time.
  - The daily pass keeps its success and failure counters and stops at the
    first step with nothing to do.
  - The update writes no metadata, so a pass that finds a due record never
    finishes. The model proves this.
- **Input extraction** (`site.dfy`).
  - A project id or username can be typed bare or as a link to one of the
    known sites. The extraction logic and the username rule are modelled,
    and the extraction tests are proved for every combination they
    enumerate.
  - The Markdown links the bot prints lead back to the id or username they
    show.
  - Parsing follows Rust's `str::parse::<i64>`, including the 64-bit range.
- **Command options** (`context.dfy`). Typed lookups of
  the options of an application command, and the sub-command or
  sub-command group at the head of the option list.
- **Metadata schema** (`model.dfy`, `metadata.dfy`).
  - The metadata type's wire discriminants 1..8.
  - The limits the platform documents for each field.
  - The constant three-entry schema, proved within those limits and
    proved to match the serialised fields of `RoleConnectionData`.
- **Embed records** (`embeds.dfy`, `embeds_project.dfy`,
  `embeds_user.dfy`). A project record and a user record are filled in
  place by merging an official-API record and a ScratchDB record. The
  model proves the merges idempotent, and proves what each merge keeps
  and overwrites.

Time is a whole number of seconds. The clock, the token endpoint, the
ScratchDB lookup, the completion order of concurrent lookups and the
publishing call are all parameters.

## Model

| member | source | states |
|---|---|---|
| RoleConnectionModel.ToByte | src/linked_roles/model.rs:9-36 | every metadata type is sent as a byte between 1 and 8 |
| RoleConnectionModel.FromByte | src/linked_roles/model.rs:9-36 | a byte names a metadata type exactly when it lies in 1..8, and the type it names is sent as that byte |
| RoleConnectionModel.DiscriminantsFollowDeclarationOrder | src/linked_roles/model.rs:14-35 | the eight variants in declaration order have discriminants 1, 2, …, 8, and every variant is among them |
| RoleConnectionModel.FromByteToByte | src/linked_roles/model.rs:9-36 | decoding the byte of any variant gives that variant back; no two variants share a byte |
| RoleConnectionMetadata.MetadataSchema | src/linked_roles/metadata.rs:16-52 | the schema has three entries: `scratcher` (BooleanEqual), `followers` (IntegerGreaterThanOrEqual) and `joined` (DatetimeGreaterThanOrEqual), in that order |
| RoleConnectionMetadata.SchemaWithinLimits | src/linked_roles/metadata.rs:16-52 | every entry meets the documented limits of src/linked_roles/model.rs (key of a-z, 0-9 and `_` with at most 50 characters, name at most 100, description at most 200), and the keys are pairwise distinct |
| RoleConnectionMetadata.SchemaLocalizations | src/linked_roles/metadata.rs:22-49 | `scratcher` has no name translation; `followers` and `joined` have exactly a Polish one; every description has exactly a Polish translation |
| RoleConnectionMetadata.Serialize | src/linked_roles/metadata.rs:8-14 | the serialised object has exactly the three field names as keys |
| RoleConnectionMetadata.SerializeIsInjective | src/linked_roles/metadata.rs:8-14 | the serialised object determines the data it came from |
| RoleConnectionMetadata.SchemaMatchesData | src/linked_roles/metadata.rs:8-52 | the schema keys are exactly the serialised field names of `RoleConnectionData`, and each entry's type compares against the kind of value that field holds |
| OAuthTokens.IntoOAuth | src/linked_roles/token.rs:16-35 | the response is a Bearer token with the same access token and the stored refresh token; `expires_in` is the seconds left until the expiry, or 0 once the expiry has passed |
| OAuthTokens.TryFromOAuth | src/linked_roles/token.rs:37-49 | conversion fails exactly when the response lacks `expires_in` or a refresh token; otherwise both strings are copied and the expiry is `now + expires_in` |
| OAuthTokens.RoundTrip | src/linked_roles/token.rs:57-74 | converting to a response and back at one moment keeps both strings, and the expiry becomes the later of the original expiry and `now` |
| OAuthTokens.RoundTripWithinOneSecond | src/linked_roles/token.rs:57-74 | with clock readings at most one second apart, an unexpired token comes back with the same strings and an expiry at most one second later, which is what the conversion test checks |
| TokenClient.ActiveToken | src/linked_roles/token_client.rs:41-58 | no stored token gives `UserNotAuthorized`; a stored token whose expiry is not strictly past is used as it is; otherwise the grant's error, an incomplete response, or the converted response is the outcome; a token obtained never expires before `now` |
| TokenClient.ActiveTokenSkipsExchange | src/linked_roles/token_client.rs:46 | an unexpired token is returned without consulting the token endpoint, whatever the endpoint would answer |
| TokenClient.ExpiryIsExclusive | src/linked_roles/token_client.rs:46 | a token expiring exactly now is still used unchanged |
| TokenClient.RefreshIfExpired | src/linked_roles/token_client.rs:41-59 | inside a transaction: the result is the active token; a successful result is stored for `id` and nothing else changes; on an error nothing is written |
| TokenClient.GetActiveToken | src/linked_roles/token_client.rs:38-64 | the committed tables gain only the active token for `id`, and that token is what a later read returns; when refreshing fails, the error is returned and the stored token stays |
| Database.GetDiscordAccount | src/database/mod.rs:89-106 | an account is found exactly when its id is in `discord_accounts`, and it carries that id |
| Database.FindUsername | src/database/mod.rs:127-145 | the position of the first row whose username equals the given one up to letter case; none exactly when no row matches |
| Database.GetScratchAccount | src/database/mod.rs:127-145 | a found row is in the table and matches up to case; nothing is found exactly when no row matches up to case |
| Database.LinkedAccounts | src/database/mod.rs:147-165 | the result holds exactly the rows owned by `id` |
| Database.LinkedAccountsAppend | src/database/mod.rs:147-165 | selecting from a table with one more row appends that row when `id` owns it: the selection keeps table order and every matching row |
| Database.GetLinkedScratchAccounts | src/database/mod.rs:147-165 | every account the user has linked, and only those |
| Database.GetToken | src/database/mod.rs:209-221 | a token is found exactly when `id` has one, and it is the stored one |
| Database.OldestIndex | src/database/mod.rs:259-273 | a row with the least `updated_at`, the first such row in table order |
| Database.GetOldestMetadata | src/database/mod.rs:259-273 | nothing exactly on an empty table; otherwise the id and time of an existing row, and no row is older |
| Database.FindMetadata | src/database/mod.rs:275-290 | the first metadata row of `id`; none exactly when `id` has no row |
| Database.GetMetadata | src/database/mod.rs:275-290 | the cached values of a row of `id`; nothing exactly when `id` has no row |
| Database.LookupIgnoresCase | src/database/mod.rs:135 | two usernames that agree up to case find the same row |
| Database.LookupFindsTheUniqueRow | src/database/mod.rs:127-145 | when usernames are unique up to case, any row matching the username is the one the lookup returns |
| Database.InsertAfterFailedLookup | src/database/mod.rs:331-343 | appending a row whose username the lookup did not find keeps usernames unique, and the lookup then finds the new row |
| Database.Reassign | src/database/mod.rs:194-199 | the `UPDATE` keeps every row in place with its username, and afterwards the previous owner owns no row unless it is the new owner |
| Database.ReassignKeepsUsernames | src/database/mod.rs:194-199 | changing owners leaves every username, and so uniqueness, as it was |
| Database.ReassignEmptiesSource | src/database/mod.rs:194-199 | after a transfer the previous owner owns no row |
| Database.ReassignGathersAtTarget | src/database/mod.rs:194-199 | after a transfer the new owner owns exactly its own rows and the previous owner's rows |
| Database.ReassignKeepsOthers | src/database/mod.rs:194-199 | rows of any third owner stay where and as they were |
| Database.Pool.constructor | src/database/mod.rs:324-329 | a pool over the given committed tables |
| Database.Transaction.Begin | src/database/mod.rs:329 | a transaction starts from the committed tables of its pool |
| Database.Transaction.Commit | src/database/mod.rs:345 | the working copy becomes the committed state |
| Database.Transaction.CreateDiscordAccount | src/database/mod.rs:108-125 | an existing id is a key violation and writes nothing; otherwise exactly that id is added |
| Database.Transaction.CreateLinkedScratchAccount | src/database/mod.rs:167-187 | an existing exact username is a key violation and writes nothing; otherwise exactly the row `(username, id)` is appended |
| Database.Transaction.TransferLinkedScratchAccounts | src/database/mod.rs:189-207 | every row of `from` is given to `to`, nothing else changes, and the usernames of those rows are returned |
| Database.Transaction.WriteToken | src/database/mod.rs:223-243 | an upsert: the given token, expired or not, is returned and stored for `id`; other tokens are unchanged |
| Database.Transaction.DeleteToken | src/database/mod.rs:245-257 | removes and returns `id`'s token; fails and writes nothing when there is none |
| Database.Transaction.WriteMetadata | src/database/mod.rs:292-315 | fails and writes nothing when `id` has no row; otherwise only `id`'s rows change, taking the new values and `now` as their time, and the new values read back |
| Database.LinkAccount | src/database/mod.rs:324-348 | a username taken up to case gives `AlreadyLinkedToYou` or `AlreadyLinkedToOther(owner)` and writes nothing; otherwise the Discord account is added if absent and exactly one row `(username, id)` is added; unique usernames stay unique |
| Database.TransferLinkedAccounts | src/database/mod.rs:356-385 | no match gives `NotLinked` and a match owned by `id` gives `AlreadyLinkedToYou`, both writing nothing; otherwise the Discord account is added if absent, every row of the previous owner goes to `id`, and the previous owner and the moved usernames are returned; unique usernames stay unique |
| DatabaseScenarios.TransferTests | src/database/tests/transfer.rs:3-61 | the four transfer tests: already yours, not linked, and to a registered or an unregistered account, which moves both of the owner's accounts |
| DatabaseScenarios.LinkTwice | src/database/mod.rs:324-348 | linking a free username succeeds; linking it again in any letter case reports who holds it and writes nothing more |
| DatabaseScenarios.WriteTokenTest | src/database/tests/token.rs:6-40 | a written token, expired or not, is returned and then read back |
| DatabaseScenarios.MetadataTests | src/database/tests/metadata.rs:5-54 | the oldest row of the fixture, no oldest row on an empty table, the cached values, and a write that returns the new values |
| Update.Collect | src/linked_roles/update.rs:99-117 | the lookups taken in order: succeeds exactly when every lookup does, with one result per lookup in that order; otherwise the error of the first failing lookup |
| Update.FetchScratchData | src/linked_roles/update.rs:99-117 | the loop's result is the ordered fan-in of the linked accounts' lookups |
| Update.CollectCoversEveryAccount | src/linked_roles/update.rs:103-116 | for any completion order the fan-in succeeds exactly when every lookup does, and then holds one user per linked account, every account's user among them |
| Update.MaxFollowersIndex | src/linked_roles/update.rs:132-141 | an account with the most followers, counting missing statistics as 0; every later account has strictly fewer, so it is the last such account, as `max_by_key` picks |
| Update.MinJoined | src/linked_roles/update.rs:130 | the least join time of the accounts, attained by one of them |
| Update.FindMetadataValues | src/linked_roles/update.rs:119-155 | platform name `Scratch`; Scratcher exactly when some account is; the oldest join time; followers and username both from the last account with the most followers, whose count is at least every account's |
| Update.PlatformNameWithinLimit | src/linked_roles/update.rs:144 | the platform name meets the 50-character limit, so the role connection is within the documented limits whenever the username is |
| Update.MetadataIgnoresOrder | src/linked_roles/update.rs:125-154 | any rearrangement of the accounts gives the same three metadata values |
| Update.SameMembersSameMaximum | src/linked_roles/update.rs:132-152 | two lists with the same members give the same follower count |
| Update.SameMembersSameMinimum | src/linked_roles/update.rs:130 | two lists with the same members give the same join time |
| Update.TieGoesToLastAccount | src/linked_roles/update.rs:112-141 | on a follower tie the published username is that of the account collected last, so it depends on completion order |
| Update.FromTokenError | src/linked_roles/update.rs:31-49 | every token error is reported as the update error of the same kind, with the same payload |
| Update.RoleConnectionUpdate | src/linked_roles/update.rs:55-96 | no stored token gives `UserNotAuthorized`; a token error is returned as the update error of the same kind; a success needs an active token, was published with that token's access token, and names the platform `Scratch` |
| Update.UpdatePublishesWithActiveToken | src/linked_roles/update.rs:61-93 | a published update used the stored access token while the stored token had not strictly expired, and otherwise the access token of the successful refresh response |
| Update.UpdateAggregatesLinkedAccounts | src/linked_roles/update.rs:81-95 | a published update means `id` has at least one linked account, every lookup succeeded, and the values summarise them: Scratcher iff one is, joined no later and followers no fewer than any |
| Update.PublishedAggregate | src/linked_roles/update.rs:81-95 | a published role connection is the aggregate of a successful, non-empty fan-in |
| Update.AggregateOverLinked | src/linked_roles/update.rs:83-85 | the aggregate of a successful fan-in summarises the lookups of all linked accounts |
| Update.UpdateRoleConnection | src/linked_roles/update.rs:55-96 | the outcome is the role-connection update of the committed tables |
| Update.RenewedTokenIsDiscarded | src/linked_roles/update.rs:59-79 | after a successful update on an expired token, the store still holds the old token, which differs from the token used |
| BackgroundUpdater.Today | src/linked_roles/background_updater.rs:21-30 | the same UTC day as `now`, at the time of day of `start` |
| BackgroundUpdater.DayStart | src/linked_roles/background_updater.rs:30 | midnight of the day: a whole number of days, the same day as the time given |
| BackgroundUpdater.DueIffOlderRecord | src/linked_roles/background_updater.rs:65-66 | a step has work exactly when some cached record was written before today's start time |
| BackgroundUpdater.UpdateNextMetadata | src/linked_roles/background_updater.rs:61-78 | nothing to do (empty table, or oldest record written today or later) gives `Ok(None)`; otherwise the oldest record's user is updated, giving `Ok(Some(()))` or that update's error |
| BackgroundUpdater.DailyPass | src/linked_roles/background_updater.rs:36-53 | the counters add up to the steps taken; when a record is due, `successful` is the number of steps whose update of the oldest record's user succeeded, no counted step's update panicked (so `failed` counts the errors that did not), and a panic ending the pass is that step's own update error; the pass finishes exactly when nothing is due, and then at once; it ends early only on a panic |
| ScratchSite.NatToString | src/scratch/site/mod.rs:2 | the display of a number is a non-empty digit string without leading zeros |
| ScratchSite.IntToString | src/scratch/site/mod.rs:2 | the display of an integer is a numeral, with `-` exactly when it is negative and never `+`, whose value is the integer |
| ScratchSite.ParseI64 | src/scratch/site/mod.rs:15 | parses exactly the numerals (an optional sign, then digits) whose value fits 64 bits, to that value |
| ScratchSite.FoldAtLeast | src/scratch/site/mod.rs:15 | reading further digits never lowers the value |
| ScratchSite.FoldSnoc | src/scratch/site/mod.rs:15 | one more digit multiplies the value by ten and adds the digit |
| ScratchSite.AccumulateMeansValue | src/scratch/site/mod.rs:15 | the checked digit loop gives the numeral's value when the value fits 64 bits, and fails otherwise |
| ScratchSite.NatToStringValue | src/scratch/site/mod.rs:2 | the displayed digits of a number read back as that number |
| ScratchSite.ParseDisplayedInteger | src/scratch/site/mod.rs:15 | a displayed 64-bit integer parses back to itself |
| ScratchSite.ParseRejectsOutOfRange | src/scratch/site/mod.rs:15 | a displayed integer outside the 64-bit range does not parse |
| ScratchSite.ParseEdgeCases | src/scratch/site/mod.rs:15 | nothing, a lone sign or a stray character does not parse; a plus sign and leading zeros do |
| ScratchSite.StripFirstPrefix | src/scratch/site/mod.rs:35-37 | the remainder after the first path, in array order, that starts the value; none exactly when no path does |
| ScratchSite.CutAtDelimiter | src/scratch/site/mod.rs:34-38 | the longest prefix without `/`, `?` or `#` |
| ScratchSite.Extract | src/scratch/site/mod.rs:33-40 | the value itself when no path starts it; otherwise the longest delimiter-free prefix of what follows the first matching path |
| ScratchSite.ExtractProjectId | src/scratch/site/mod.rs:9-16 | an id exactly when the extracted text is a numeral whose value fits 64 bits, and it is that value |
| ScratchSite.ExtractUsername | src/scratch/site/mod.rs:18-31 | a username is returned exactly when the extracted text is valid, and it is that text |
| ScratchSite.UsernameIsValid | src/scratch/site/mod.rs:42-47 | a valid username has at most 20 characters, all of them ASCII |
| ScratchSite.Utf8LenOfAscii | src/scratch/site/mod.rs:43 | an ASCII string has as many bytes as characters |
| ScratchSite.Utf8LenAtLeastLength | src/scratch/site/mod.rs:43 | a string has at least as many bytes as characters |
| ScratchSite.UsernameIsValidIff | src/scratch/site/mod.rs:42-47 | a username is valid exactly when it has at most 20 characters, each an ASCII letter, digit, `-` or `_` |
| ScratchSite.UsernameValidationCases | src/scratch/site/mod.rs:55-70 | the seven username validation tests |
| ScratchSite.ExtractPassesThrough | src/scratch/site/mod.rs:39 | a value starting with no known path is returned whole |
| ScratchSite.NotPrefixWhereDiffering | src/scratch/site/mod.rs:37 | a path differing from another at some position is no prefix of a link built on the other |
| ScratchSite.ExtractAfterPath | src/scratch/site/mod.rs:33-40 | a path, text without delimiters and a link suffix: when no earlier path matches, the text is what is extracted |
| ScratchSite.CutBeforeSuffix | src/scratch/site/mod.rs:38 | text without delimiters before a suffix that starts with one, or is empty, is cut exactly at its end |
| ScratchSite.ProjectPathsDistinct | src/scratch/site/mod.rs:10-14 | no project path is a prefix of a link built on a later one |
| ScratchSite.UserPathsDistinct | src/scratch/site/mod.rs:19-24 | no user path is a prefix of a link built on a later one |
| ScratchSite.ExtractProjectIdFromLink | src/scratch/site/mod.rs:9-16 | any 64-bit id is extracted from a link to it on each known project site, whatever sub-path, query or fragment follows |
| ScratchSite.ExtractUsernameFromLink | src/scratch/site/mod.rs:18-31 | any valid username is extracted from a link to it on each known user site, whatever sub-path, query or fragment follows |
| ScratchSite.TestSuffixIsLinkSuffix | src/scratch/site/mod.rs:85-87 | every test suffix is empty or starts with a delimiter |
| ScratchSite.ColonInEveryPath | src/scratch/site/mod.rs:10-24 | every known path has its colon at index 5 |
| ScratchSite.NoColonNoPath | src/scratch/site/mod.rs:33-39 | a value without a colon starts with none of the paths |
| ScratchSite.ExtractDisplayedId | src/scratch/site/mod.rs:72-75 | a bare displayed id is extracted as itself |
| ScratchSite.ExtractBareUsername | src/scratch/site/mod.rs:114-117 | a bare valid username is extracted as itself |
| ScratchSite.ProjectIdTestCase | src/scratch/site/mod.rs:77-112 | the id 499038694 is extracted after every project path with each sub-path, query and fragment the test lists |
| ScratchSite.UsernameTestCase | src/scratch/site/mod.rs:119-155 | `PMJ_Studio` is extracted after every user path with each sub-path, query and fragment the test lists |
| ScratchSite.PassthroughCases | src/scratch/site/mod.rs:72-117 | the two passthrough tests: the bare id and the bare username |
| ScratchSite.EmptyIdDoesNotParse | src/scratch/site/mod.rs:15 | a project link with nothing between path and suffix yields no id |
| ScratchSite.ProjectLink | src/scratch/site/mod.rs:1-3 | the Markdown link shows the id as text and targets its project page; for a 64-bit id the text and the target both lead back to the id |
| ScratchSite.UserLink | src/scratch/site/mod.rs:5-7 | the Markdown link shows the username as text and targets its profile page; for a valid username the text and the target both lead back to it |
| CommandOptions.FirstNamed | src/interactions/context.rs:75 | the index of the first option with the name; none exactly when no option has it |
| CommandOptions.GetString | src/interactions/context.rs:73-83 | `NotFound` exactly when no option has the name; success exactly when the first such option is a string, and the text returned is that option's; otherwise `WrongType(name, "String")` |
| CommandOptions.GetUser | src/interactions/context.rs:85-95 | the same for a user option, returning the first such option's user; its type mismatch also names `"String"` |
| CommandOptions.GetSubcommand | src/interactions/context.rs:106-120 | `NotFound("subcommand")` exactly on an empty list; success exactly when the first option is a sub-command, whose name and options are returned; otherwise `WrongType("subcommand", "SubCommand")` |
| CommandOptions.GetSubcommandGroup | src/interactions/context.rs:122-135 | the same for a sub-command group, with its own error texts |
| CommandOptions.LookupSeesOnlyFirstNamed | src/interactions/context.rs:75-81 | options before the first with the name, and all options after it, do not affect the lookup |
| CommandOptions.FirstNamedIs | src/interactions/context.rs:75 | an option with the name and no earlier one with it is the one found |
| CommandOptions.ShadowedMatch | src/interactions/context.rs:75-78 | a first option of another type hides a later option of the right type with the same name |
| CommandOptions.LookupsExclusive | src/interactions/context.rs:73-95 | the string and the user lookup of a name never both succeed, and they agree on `NotFound` |
| CommandOptions.SubcommandSeesOnlyHead | src/interactions/context.rs:110-125 | only the first option matters to either sub-command lookup |
| CommandOptions.SubcommandKindsExclusive | src/interactions/context.rs:106-135 | the sub-command and sub-command group lookups never both succeed |
| Embeds.NonEmpty | src/embeds/project.rs:64-65 | an empty text counts as absent; any other text is kept |
| Embeds.GetOrInsert | src/embeds/project.rs:71-75 | the value present, or the default when there is none |
| ProjectEmbed.MergeRemix | src/embeds/project.rs:89-91 | the remix is replaced only when both ids are known, and is otherwise kept |
| ProjectEmbed.ApiMergeAuthor | src/embeds/project.rs:71-77 | the author's id and picture are always replaced; an existing author keeps its username, a new one takes the API's |
| ProjectEmbed.ApiMergeStatistics | src/embeds/project.rs:83-87 | views, loves, favorites and remixes come from the API; comments and ranks stay |
| ProjectEmbed.DbMergeStatistics | src/embeds/project.rs:123-128 | views, loves, favorites, comments and ranks come from ScratchDB; remixes stay |
| ProjectEmbed.ApplyApi | src/embeds/project.rs:60-95 | the API merge: what it overwrites, the empty-text rule, and the author, statistics and remix merges |
| ProjectEmbed.ApplyDb | src/embeds/project.rs:97-132 | the ScratchDB merge: history from its times, an author created only when absent, visibility, publication and image left alone |
| ProjectEmbed.Project.constructor | src/embeds/project.rs:54-58 | a new record has every field absent |
| ProjectEmbed.Project.ExtendApi | src/embeds/project.rs:60-95 | the in-place merge leaves the record as the API merge of its old value |
| ProjectEmbed.Project.ExtendDb | src/embeds/project.rs:97-132 | the in-place merge leaves the record as the ScratchDB merge of its old value |
| ProjectEmbed.MergesAreIdempotent | src/embeds/project.rs:60-132 | merging the same record twice gives the same as merging it once |
| ProjectEmbed.MergedFromBothSources | src/embeds/project.rs:71-128 | after both merges, in either order, the author's username is that of the source merged first; the statistics hold the API's remixes and ScratchDB's comments and ranks |
| ProjectEmbed.DbKeepsWhatOnlyApiReports | src/embeds/project.rs:97-131 | the ScratchDB merge after the API merge keeps visibility, publication, the image and the API's author |
| ProjectEmbed.IncompleteRemixIsIgnored | src/embeds/project.rs:89-91 | a remix lacking either id leaves the record's remix as it was |
| UserEmbed.ApplyApi | src/embeds/user.rs:37-47 | username, picture and join time are set, the country is copied even when absent, an empty bio or working-on text is absent; status, school and statistics are untouched |
| UserEmbed.ApplyDb | src/embeds/user.rs:49-56 | exactly status, school and statistics are copied, absent ones included |
| UserEmbed.User.constructor | src/embeds/user.rs:31-35 | a new record has every field absent |
| UserEmbed.User.ExtendApi | src/embeds/user.rs:37-47 | the in-place merge leaves the record as the API merge of its old value |
| UserEmbed.User.ExtendDb | src/embeds/user.rs:49-56 | the in-place merge leaves the record as the ScratchDB merge of its old value |
| UserEmbed.MergesCommute | src/embeds/user.rs:37-56 | the two merges write disjoint fields, so either order gives the same record |
| UserEmbed.MergesOverwrite | src/embeds/user.rs:37-56 | each merge is idempotent and does not depend on the previous values of the fields it writes |
| UserEmbed.MergedFromBothSources | src/embeds/user.rs:37-56 | after both merges, a field is absent exactly when its source lacks it |

## Left out

- SQL execution, connection errors and isolation between concurrent transactions. Reads always succeed. Writes fail only on a key violation or a missing row.
- The schema is not part of this model. The model assumes that the exact username is the key of `scratch_accounts` and the id the key of `discord_accounts`.
- Postgres `lower` folds all of Unicode; the model folds only ASCII letters.
- SQL leaves the order of rows and ties unspecified; the model uses table order and keeps the first of equally old metadata rows.
- The test fixture files are not part of this model. `database_tests.dfy` rebuilds the rows the tests' expectations name: two Scratch accounts of one Discord account, a second Discord account, and one metadata row.
- The `src/database/tests/discord_scratch.rs` test module is not part of this model. `DatabaseScenarios.LinkTwice` states the linking behaviour in its place.
- Concurrency: the lookups of `fetch_scratch_data` run one by one, in a completion order that is a parameter.
- HTTP and OAuth clients, ScratchDB and the publishing endpoint: these are parameters. The same goes for `put_role_connection` in `client.rs` and `register.rs`.
- The panics of unwrapping an incomplete token response and of aggregating an empty account list are error variants that end the operation.
- The clock: time is a parameter in whole seconds. Sub-second precision and ISO 8601 formatting are left out.
- Timers: the daily `interval`, the ten-second pacing and the outer daily loop are left out.
- BackgroundUpdater.DailyPass: the inner loop never ends once a record is due. The model observes it for a fuel-bounded number of steps and does not model the steps after that. What each step's update returns is named by the ghost parameter `outcomes`; the precondition ties `outcomes(i)` to `RoleConnectionUpdate` of the oldest record's user in `envs(i)`, so it rules out no pass.
- Embed rendering, localisation, `timestamp` and `Color`.
- The OAuth callback router, `state.rs`, `main.rs`, the interaction handlers, the custom-id codec and webhook signature checks.
- Snowflake ids in command options are plain integers, and a number option holds a real, not a 64-bit float.
- ProjectEmbed.Project: the record's fields are held together as one value in one field, which each merge updates field by field. Updating separate fields in place is not modelled.
- UserEmbed.User: the same as for ProjectEmbed.Project.
- Some source types disagree with how the code uses them; the model follows the code's usage:
  - The ScratchDB user record declares `status` and `joined` as strings (src/scratch/db/user.rs:8-12). The update and the user embed use `status` as an enum with a `Scratcher` case, and compare `joined` as a point in time.
  - The API user's `joined` is declared a string, but the user embed stores it as a date.
  - The model makes status an enum and join times integers.
- Behaviour of the code that the model keeps:
  - A failed refresh grant returns its error before the new token is written, so the stored token stays (src/linked_roles/token_client.rs:46-58).
  - The update's transaction is never committed, so its renewed token is discarded, and the update writes no metadata row (src/linked_roles/update.rs:55-96).
  - The ScratchDB user lookup goes through `get_url`, which makes every error status, a 404 included, an error (src/scratch/db/mod.rs:25-29, src/scratch/mod.rs:32-43); any failed lookup fails the whole update (src/linked_roles/update.rs:113-115).
  - The transfer `UPDATE` moves every row of the previous owner (src/database/mod.rs:194-199).
  - On a follower tie, `max_by_key` keeps the last account (src/linked_roles/update.rs:132-141).
  - The user-option lookup names `"String"` as the expected type (src/interactions/context.rs:85-95).
- The component handler `done::run`, which src/interactions/components/mod.rs:37-38 dispatches to, is not part of this model.
