# Quest bot core, modelled in Dafny

The bot lets Discord guild staff post quests and members take them on. A
member **accepts** a quest, **completes** it with proof, and the quest's
creator (or a manager) **approves** or **rejects** the attempt. After a
rejection the member may try again once 24 hours have passed since they
accepted. Alongside the quests the bot keeps per-member statistics, a
per-guild leaderboard and a per-guild routing of five channels.

The model covers:

- the lifecycle engine `QuestManager` (`botv1/bot/quest_manager.py`);
- the store the running bot uses, `JSONDatabase` (`botv1/bot/json_database.py`), as four insertion-ordered dictionaries without any file or git I/O;
- `UserStatsManager` (`botv1/bot/user_stats.py`);
- the channel routing `ChannelConfig` (`botv1/bot/config.py`);
- the permission predicates (`botv1/bot/permissions.py`);
- the records and constants of `botv1/bot/models.py`;
- the text helpers of `botv1/bot/utils.py` that do not build embeds.

Modules, one per source file plus shared foundations:

- `Common` is options, Python slicing, filter, map and sum.
- `Text` is decimal rendering of ints, `join` and `split`, `str.title()`, `str.isalnum()` and `str.replace`.
- `Dicts` is an insertion-ordered dictionary: a map plus its key order, so listings follow Python's dict order.
- `Sorting` is a stable descending insertion sort, i.e. `sorted(..., reverse=True)`.
- `Models` holds the records, their constructors with defaults, and the rank, category and status constants.
- `Database` is `JSONDatabase`. A `Store` is a subset type: every entry sits under the key its save derives from the record (`"{user}_{quest}"`, `"{user}_{guild}"`, `str(guild)`), built from the actual key strings, with key injectivity proved.
- `QuestManager`, `UserStatsManager`, `GuildChannels` (config.py), `Permissions` and `Utils` model their files.
- `Lifecycle` drives `QuestManager` with a sequence of timed commands. It proves an invariant that holds of every store the engine reaches, and how one member's record for one quest may change in one step.

The clock and the fresh quest id are parameters: `now` is integer seconds and `uuid` is the text of `uuid.uuid4()`. Every operation is a pure function from a store to a result and a new store. QuestManager's pass-through getters (`get_quest`, `get_guild_quests`, `get_user_quests`, `get_pending_approvals`) and UserStatsManager's `get_guild_leaderboard` and `get_total_guild_stats` are the `Database` members themselves.

## Model

| member | source | states |
|---|---|---|
| Common.SliceTo | botv1/bot/utils.py:102 | Python's `s[:n]`: the first `n` elements, or all but the last `-n` for negative `n`, clamped to the sequence; always a prefix |
| Text.IntToString | botv1/bot/json_database.py:166 | the decimal text of an int is never empty |
| Text.IntToStringShape | botv1/bot/json_database.py:166 | a rendered int is an optional minus sign followed by digits, so it contains no `_` |
| Text.IntToStringInjective | botv1/bot/json_database.py:330 | distinct ints render to distinct texts, so `str(guild_id)` keys never collide |
| Text.DigitsValueOfNatToString | botv1/bot/utils.py:144 | reading back the digits of a non-negative int gives the int |
| Text.SplitJoin | botv1/bot/utils.py:134 | splitting a `"\n".join` of newline-free lines at newlines gives the lines back |
| Text.RemoveChar | botv1/bot/utils.py:139 | `s.replace(c, "")` holds exactly the characters of `s` other than `c` |
| Text.TitleCase | botv1/bot/utils.py:129 | `str.title()` keeps length and every non-letter; a letter after a letter is lower-cased, any other letter upper-cased |
| Text.TitleCaseOfLowerWord | botv1/bot/utils.py:129 | a lower-case word such as a rank name comes out with only its first letter capitalised |
| Dicts.Put | botv1/bot/json_database.py:102 | assigning a key stores the value under it, appends a new key at the end of the order and keeps the order of an existing key |
| Dicts.Remove | botv1/bot/json_database.py:150-151 | `del` of a present key drops that key and its value; the other keys keep their values and their order |
| Dicts.Values | botv1/bot/json_database.py:128 | `.values()` lists one value per key in insertion order |
| Dicts.CountValues | botv1/bot/json_database.py:307-311 | the number of listed values passing a test equals the number of keys whose value passes it |
| Sorting.SortDesc | botv1/bot/json_database.py:298 | `sort(reverse=True)` gives a permutation of its input, ordered non-increasingly by the key |
| Sorting.SortDescStable | botv1/bot/json_database.py:225 | entries with equal keys keep their input order |
| Models.ConstantSets | botv1/bot/models.py:6-38 | five distinct ranks, twelve distinct categories and six statuses with distinct stored names |
| Models.Defaults | botv1/bot/models.py:41-110 | defaults: rank `normal`, category `other`, status `available`; empty requirements and reward; progress `accepted` with empty tag and proof; zero counters; no channels |
| Models.NoneListsNormalise | botv1/bot/models.py:57-59 | a role list or image list of `None` becomes `[]` |
| Database.ProgressKeyInjective | botv1/bot/json_database.py:166 | two (user, quest) pairs share a progress key only if they are the same pair |
| Database.StatsKeyInjective | botv1/bot/json_database.py:248 | two (user, guild) pairs share a stats key only if they are the same pair |
| Database.EmptyStore | botv1/bot/json_database.py:13-24 | the initial store holds no entries |
| Database.GetQuest | botv1/bot/json_database.py:105-123 | a quest is found exactly when its id is stored, and it carries that id |
| Database.SaveQuest | botv1/bot/json_database.py:85-103 | a saved quest is found under its id, every other id reads as before, and the other tables are untouched |
| Database.GetGuildQuests | botv1/bot/json_database.py:125-146 | exactly the stored quests of the guild, with the given status when one is given, each once |
| Database.DeleteQuest | botv1/bot/json_database.py:148-162 | the quest and every progress record for it go, everything else stays; an absent id changes nothing |
| Database.GetProgress | botv1/bot/json_database.py:184-202 | a record is found exactly when its pair's key is stored, and it belongs to that pair |
| Database.SaveProgress | botv1/bot/json_database.py:164-182 | a saved record is found under its pair and the other tables are untouched |
| Database.SaveProgressFrame | botv1/bot/json_database.py:166-181 | saving one pair's record leaves every other pair's record as it was |
| Database.AtMostOneProgressPerPair | botv1/bot/json_database.py:166 | two stored records for the same (user, quest) pair are the same entry |
| Database.GetUserQuests | botv1/bot/json_database.py:204-225 | a permutation of the user's records (in the guild, when one is given), newest acceptance first |
| Database.UserQuestsMember | botv1/bot/json_database.py:208-210 | a record is listed exactly when it is stored, is the user's, and is in the guild when one is given |
| Database.UserQuestsTiesKeepOrder | botv1/bot/json_database.py:225 | records accepted at the same time keep their storage order |
| Database.AwaitingRecords | botv1/bot/json_database.py:231-234 | every selected record is completed, in the guild, and for a stored quest by the creator |
| Database.GetPendingApprovals | botv1/bot/json_database.py:227-244 | one (quest id, user, proof text, proof urls, quest title) row per awaiting record, in storage order |
| Database.AwaitingRecordsMember | botv1/bot/json_database.py:231-234 | a record is selected exactly when it is stored and awaits this creator's decision in this guild |
| Database.PendingApprovalsComplete | botv1/bot/json_database.py:231-242 | every stored record awaiting the creator's decision appears in the list |
| Database.GetStats | botv1/bot/json_database.py:263-278 | a stats record is found exactly when its pair's key is stored, and it belongs to that pair |
| Database.SaveStats | botv1/bot/json_database.py:246-261 | a saved stats record is found under its pair and the other tables are untouched |
| Database.SaveStatsFrame | botv1/bot/json_database.py:248-260 | saving one member's stats leaves every other member's stats as they were |
| Database.GuildKeys | botv1/bot/json_database.py:307-308 | the keys of the stats records that belong to the guild |
| Database.CountGuild | botv1/bot/json_database.py:307-311 | the guild's listed records number as many as its keys |
| Database.GetGuildLeaderboard | botv1/bot/json_database.py:280-299 | a prefix of the guild's ranking, non-increasing by (completed, accepted), of length `min(limit, guild size)` (Python slicing for a negative limit) |
| Database.LeaderboardFromGuild | botv1/bot/json_database.py:284-285 | every leaderboard entry is a stored record of the guild |
| Database.LeaderboardTop | botv1/bot/json_database.py:298-299 | every listed entry ranks at least as high as every entry cut off |
| Database.RankingCoversGuild | botv1/bot/json_database.py:284-298 | the ranking holds exactly the guild's stored records, one per key |
| Database.SaveStatsGuildSum | botv1/bot/json_database.py:301-311 | saving a record moves a guild sum by the new value minus the replaced one, and the count by one only for a new member |
| Database.SaveStatsOtherGuild | botv1/bot/json_database.py:307-308 | saving a record leaves another guild's listing unchanged |
| Database.GetTotalGuildStats | botv1/bot/json_database.py:301-317 | sums of completed and of accepted over the guild's records, and the number of its records |
| Database.GetChannelConfig | botv1/bot/json_database.py:333-345 | a config is found exactly when the guild's key is stored, and it is that guild's |
| Database.SaveChannelConfig | botv1/bot/json_database.py:319-331 | a saved config is found for its guild, other guilds read as before, the other tables are untouched |
| Permissions.HoldsCreatorRole | botv1/bot/permissions.py:24-27 | true exactly when some role carries a quest-creator name |
| Permissions.HasQuestCreationPermission | botv1/bot/permissions.py:5-27 | owner, administrator, manage-guild, manage-channels, or a role named Quest Master, Moderator, Admin or Staff |
| Permissions.CanManageQuest | botv1/bot/permissions.py:30-48 | owner, quest creator, administrator or manage-guild, and nobody else |
| Permissions.CanUseQuestCommands | botv1/bot/permissions.py:51-54 | every member may use the basic commands |
| Permissions.ManageChannelsCreatesButCannotManage | botv1/bot/permissions.py:19-21 | manage-channels alone grants creation but not management |
| Permissions.ManagersMayCreate | botv1/bot/permissions.py:30-48 | whoever may manage every quest may also create quests |
| Permissions.GetRequiredRolesForQuest | botv1/bot/permissions.py:57-64 | never more roles than ids |
| Permissions.RequiredRolesInOrder | botv1/bot/permissions.py:57-64 | the guild's roles under the known ids, in the listed order, unknown ids dropped |
| Permissions.RequiredRolesMember | botv1/bot/permissions.py:60-63 | a role is returned exactly when one of the listed ids names it in the guild |
| Permissions.UserHasRequiredRoles | botv1/bot/permissions.py:67-73 | no requirement passes; otherwise true exactly when some required id is held (any, not all) |
| Permissions.AnyHeld | botv1/bot/permissions.py:73 | `any(...)` is true exactly when some wanted id is held |
| Permissions.AnyRoleSuffices | botv1/bot/permissions.py:73 | holding one required role is enough |
| QuestManager.CreateQuest | botv1/bot/quest_manager.py:14-37 | the quest has the uuid's first eight characters as id, the given fields, status `available`, creation time now, `[]` for no roles, and is stored under its id with nothing else changed |
| QuestManager.UuidPrefixIsHex | botv1/bot/quest_manager.py:19 | the id taken from a uuid is eight hexadecimal digits |
| QuestManager.HoursRemaining | botv1/bot/quest_manager.py:71-74 | the whole hours left until the cooldown ends, rounded down |
| QuestManager.AcceptQuest | botv1/bot/quest_manager.py:51-94 | refusals in order (unknown quest, not available, attempt in flight, cooldown with hours, missing roles) change nothing; otherwise a fresh `accepted` record dated now, in the quest's guild, is stored |
| QuestManager.AcceptErrorMessage | botv1/bot/quest_manager.py:56-81 | every refusal text is a non-empty sentence ending in "!" |
| QuestManager.AcceptMessage | botv1/bot/quest_manager.py:56-94 | the message is empty exactly on success, so the caller can tell a refusal by it |
| QuestManager.AcceptErrorMessagesDistinct | botv1/bot/quest_manager.py:56-81 | distinct refusals give distinct texts; in particular the cooldown text determines its hours |
| QuestManager.AcceptMessageTexts | botv1/bot/quest_manager.py:54-81 | the exact text for each refusal in the order the source checks: unknown quest, not available, already accepted, the cooldown with its hours, missing roles |
| QuestManager.CooldownHoursBound | botv1/bot/quest_manager.py:71-74 | between acceptance and the end of the cooldown at most 24 hours remain, and at most 23 once any time has passed |
| QuestManager.AcceptTwiceFails | botv1/bot/quest_manager.py:62-66 | a second acceptance right after a successful one is refused as already accepted |
| QuestManager.ApprovedDoesNotBlock | botv1/bot/quest_manager.py:62-81 | for any quest and any roles an approved attempt is never refused as already accepted or as cooling down, so an available quest whose role check passes is granted |
| QuestManager.RoleCheckScope | botv1/bot/quest_manager.py:78-81 | roles are checked only when both lists are non-empty, and then block exactly when no required id is held |
| QuestManager.CompleteQuest | botv1/bot/quest_manager.py:96-114 | succeeds exactly from `accepted`, recording proof, completion time and the `pending` tag; otherwise nothing changes |
| QuestManager.ApproveQuest | botv1/bot/quest_manager.py:116-133 | succeeds exactly from `completed`, changing only status and tag to `approved` or `rejected`; otherwise nothing changes |
| QuestManager.TransitionFrame | botv1/bot/quest_manager.py:93 | accept, complete and approve touch only their own (user, quest) record |
| QuestManager.DeleteQuest | botv1/bot/quest_manager.py:143-148 | always reports success; the quest and its progress go and everything else stays |
| QuestManager.GetAvailableQuests | botv1/bot/quest_manager.py:47-49 | exactly the guild's stored quests whose status is `available` |
| UserStatsManager.GetUserStats | botv1/bot/user_stats.py:18-33 | the stored record unchanged, or a new zero-counter record dated now that is saved |
| UserStatsManager.UpdateCounter | botv1/bot/user_stats.py:35-54 | one counter rises by one, the others and the first date stay, the last date becomes now |
| UserStatsManager.Bump | botv1/bot/user_stats.py:38-39 | the increment touches one counter and the last date only |
| UserStatsManager.UpdateQuestAccepted | botv1/bot/user_stats.py:35-40 | accepted rises by one; completed and rejected stay |
| UserStatsManager.UpdateQuestCompleted | botv1/bot/user_stats.py:42-47 | completed rises by one; accepted and rejected stay |
| UserStatsManager.UpdateQuestRejected | botv1/bot/user_stats.py:49-54 | rejected rises by one; accepted and completed stay |
| UserStatsManager.UpdateFrame | botv1/bot/user_stats.py:35-54 | an update touches no other member's record in any guild |
| UserStatsManager.CountersNeverDecrease | botv1/bot/user_stats.py:35-54 | no counter of any record ever goes down |
| UserStatsManager.TwoUpdatesCountTwice | botv1/bot/user_stats.py:35-54 | there is no idempotence guard: two updates raise a counter by two |
| UserStatsManager.UpdateGuildTotals | botv1/bot/user_stats.py:35-62 | guild totals rise by one on the raised counter, and the member count by one only for a new member |
| UserStatsManager.UpdateOtherGuildTotals | botv1/bot/user_stats.py:35-62 | an update leaves every other guild's totals alone |
| GuildChannels.SetGuildChannels | botv1/bot/config.py:17-29 | the guild's record is replaced by exactly the given channels, other guilds and tables untouched |
| GuildChannels.GetChannel | botv1/bot/config.py:44-66 | the stored config's channel, or none without a config |
| GuildChannels.GetQuestListChannel | botv1/bot/config.py:44-47 | the stored config's list channel, or none when the guild has no config |
| GuildChannels.GetQuestAcceptChannel | botv1/bot/config.py:49-52 | the stored config's accept channel, or none when the guild has no config |
| GuildChannels.GetQuestSubmitChannel | botv1/bot/config.py:54-57 | the stored config's submit channel, or none when the guild has no config |
| GuildChannels.GetQuestApprovalChannel | botv1/bot/config.py:59-62 | the stored config's approval channel, or none when the guild has no config |
| GuildChannels.GetNotificationChannel | botv1/bot/config.py:64-66 | the stored config's notification channel, or none when the guild has no config |
| GuildChannels.GetGuildConfig | botv1/bot/config.py:31-42 | empty without a config; otherwise exactly the five channel names, each mapped to its channel |
| GuildChannels.GuildConfigKeys | botv1/bot/config.py:35-41 | a key is present exactly when it names one of the channels |
| GuildChannels.GuildConfigHasFiveKeys | botv1/bot/config.py:35-41 | a configured guild's dictionary has five entries |
| GuildChannels.SetThenGet | botv1/bot/config.py:17-66 | reading right after setting returns the value set; other guilds read as before |
| GuildChannels.SetClearsOmitted | botv1/bot/config.py:17-29 | a channel not passed reads as none afterwards |
| Utils.ValidateQuestData | botv1/bot/utils.py:105-119 | none exactly when all four lengths are in range; otherwise the first failing check's message, in the order title, description, requirements, reward |
| Utils.TruncateText | botv1/bot/utils.py:98-102 | fitting text is kept; longer text becomes a prefix plus "...", of exactly the limit when the limit is at least 3 |
| Utils.TruncateFits | botv1/bot/utils.py:98-102 | with a limit of at least 3 the result fits, and truncating again changes nothing |
| Utils.TruncateFitsIffRoom | botv1/bot/utils.py:98-102 | the result fits the limit exactly when the text already fitted or the limit leaves room for "..." |
| Utils.IsValidQuestId | botv1/bot/utils.py:137-139 | eight characters, not all dashes, each a dash, ASCII letter or digit |
| Utils.CreatedIdsAreValid | botv1/bot/quest_manager.py:19 | every id `create_quest` hands out passes the id check |
| Utils.DashesAreNotAnId | botv1/bot/utils.py:139 | a text of dashes alone is never a quest id: nothing alphanumeric is left |
| Utils.QuestLine | botv1/bot/utils.py:129 | a quest's line opens with its bold title, ends with its title-cased rank, and holds no newline when its title, id and rank hold none |
| Utils.MoreLine | botv1/bot/utils.py:132 | the overflow line holds no newline and the hidden count reads back from it |
| Utils.ListLines | botv1/bot/utils.py:127-132 | the first `max_quests` quests' lines (Python slicing), then the count of the rest when there are more |
| Utils.FormatQuestList | botv1/bot/utils.py:122-134 | the fixed text exactly for no quests; otherwise the lines joined by newlines |
| Utils.FormatQuestListLines | botv1/bot/utils.py:122-134 | with newline-free titles, ids and ranks, splitting the text gives one line per shown quest in order, then "... and k more" |
| Utils.GetUserMention | botv1/bot/utils.py:142-144 | `<@`, the id's decimal text, `>` |
| Utils.GetRoleMention | botv1/bot/utils.py:147-149 | `<@&`, the id's decimal text, `>` |
| Utils.MentionsAreUnambiguous | botv1/bot/utils.py:142-149 | distinct ids give distinct mentions, and no user mention is a role mention |
| Utils.UserMentionParsesBack | botv1/bot/utils.py:142-144 | a non-negative id is read back from its mention |
| Lifecycle.EmptyIsCoherent | botv1/bot/json_database.py:13-24 | the empty store satisfies the engine invariant |
| Lifecycle.CreateKeepsCoherent | botv1/bot/quest_manager.py:14-37 | creating a quest keeps every quest available and every record tagged and attached to a stored quest |
| Lifecycle.AcceptKeepsCoherent | botv1/bot/quest_manager.py:51-94 | accepting keeps the invariant |
| Lifecycle.CompleteKeepsCoherent | botv1/bot/quest_manager.py:96-114 | completing keeps the invariant |
| Lifecycle.DecideKeepsCoherent | botv1/bot/quest_manager.py:116-133 | approving or rejecting keeps the invariant |
| Lifecycle.DeleteKeepsCoherent | botv1/bot/quest_manager.py:143-148 | deleting keeps the invariant: no record outlives its quest |
| Lifecycle.StepKeepsCoherent | botv1/bot/quest_manager.py:14-148 | every engine call keeps the invariant |
| Lifecycle.RunKeepsCoherent | botv1/bot/quest_manager.py:14-148 | every run of engine calls keeps the invariant, so `cancelled` never appears and a status always carries its tag |
| Lifecycle.StepMoves | botv1/bot/quest_manager.py:51-148 | a record only moves accepted → completed → approved or rejected, or is replaced by a new attempt over a decided one; it disappears only when the step deletes its quest |
| Lifecycle.AcceptMoves | botv1/bot/quest_manager.py:51-94 | accepting only starts a new attempt where there was none or a decided one |
| Lifecycle.CompleteMoves | botv1/bot/quest_manager.py:96-114 | completing only moves an accepted attempt to completed, keeping its acceptance time |
| Lifecycle.DecideMoves | botv1/bot/quest_manager.py:116-133 | deciding only moves a completed attempt to approved or rejected, keeping both times |
| Lifecycle.DeleteMoves | botv1/bot/quest_manager.py:143-148 | deleting a quest removes only records of that quest |
| Lifecycle.AcceptCompleteDecide | botv1/bot/quest_manager.py:51-133 | accept at t0, complete at t1, decide: the final record keeps both times and the proof and carries the decision |
| Lifecycle.RetryAfterRejection | botv1/bot/quest_manager.py:67-94 | after a rejection a retry is refused with the hours left until 86400 seconds after acceptance (the cooldown counts from acceptance, not from the rejection), and granted from then on |

## Left out

- File persistence, JSON serialisation and the git commits of `JSONDatabase` (`_load_data`, `_save_data`, `_git_commit`, `initialize`, `close`) are not modelled: they are I/O. The store is assumed to hold only records the save operations wrote. The loader's fallbacks for missing fields are therefore not modelled.
- `botv1/bot/database.py` (the PostgreSQL backend), `botv1/bot/commands.py` (slash commands and embeds), `botv1/main.py` and `botv1/setup_git.py` are not part of this model. They are presentation, startup or foreign SQL, and the running bot wires the JSON store.
- The commands-layer fragments are not modelled: the leaderboard clamp to 25, quest-list paging, and the completion-rate float, which is floating point.
- The embed builders, `get_rank_color` and `format_timestamp` in `utils.py` are left out. They produce Discord objects or datetime display strings.
- `async`/`await`, and any interleaving between handlers, are left out: every operation runs to completion on one store.
- Time is one integer `now` in seconds per call. The source reads the clock separately for the cooldown test and for the hours left, and keeps microseconds. The hours are truncated from a float division; for the positive remainders that reach it this is the floor the model takes.
- QuestManager.AcceptQuest: a stored record without an acceptance time is not modelled; every record in the model has one, as the engine always sets it (`botv1/bot/quest_manager.py:89`) and only a hand-edited data file could lack it. In the source such a record is rebuilt on every lookup (`botv1/bot/json_database.py:184-201`) and `QuestProgress.__post_init__` (`botv1/bot/models.py:81-82`) stamps it with the current time, so once rejected it is refused with a fresh 24-hour cooldown (23 hours shown) on every attempt and the member stays blocked.
- QuestManager.CooldownHoursBound: the bound is 0..24, not 0..23. Exactly at the moment of acceptance 24 whole hours remain.
- The uuid and its randomness are an input. `create_quest` does not check for an id clash and overwrites an existing quest with the same id; the model does the same.
- `str.title()` and `str.isalnum()` are modelled over ASCII letters and digits only; other Unicode letters are treated as non-letters.
- `delete_quest`'s exception branch (returning `False`) is unreachable in memory, and is not modelled.
- Permissions: Discord members, guilds and roles are plain records. Guild-wide permission flags are fields, and `guild.get_role` is a map lookup.
