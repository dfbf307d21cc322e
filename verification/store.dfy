/** The in-memory JSON store the bot runs on (botv1/bot/json_database.py,
    class JSONDatabase): four dictionaries, keyed by the quest id, by
    `"{user_id}_{quest_id}"`, by `"{user_id}_{guild_id}"` and by `str(guild_id)`.
    Writing the files and committing them to git after each save is not part
    of this model; every save here is just the dictionary update.
 */
module Database {
  import opened Common
  import opened Text
  import opened Dicts
  import opened Models
  import opened Sorting

  /** The progress key `f"{user_id}_{quest_id}"`. */
  function ProgressKey(userId: int, questId: string): string {
    IntToString(userId) + "_" + questId
  }

  /** The statistics key `f"{user_id}_{guild_id}"`. */
  function StatsKey(userId: int, guildId: int): string {
    IntToString(userId) + "_" + IntToString(guildId)
  }

  /** The channel configuration key `str(guild_id)`. */
  function ConfigKey(guildId: int): string {
    IntToString(guildId)
  }

  /** An integer's numeral has no underscore, so a key `"{n}_{rest}"` splits
      back into `n` and `rest` at its first underscore. */
  lemma UnderscoreKeyInjective(a: int, s: string, b: int, t: string)
    requires IntToString(a) + "_" + s == IntToString(b) + "_" + t
    ensures a == b && s == t
  {
    var x := IntToString(a);
    var y := IntToString(b);
    var key := x + "_" + s;
    IntToStringShape(a);
    IntToStringShape(b);
    assert key[|x|] == '_';
    assert key == y + "_" + t;
    assert key[|y|] == '_';
    assert forall i :: 0 <= i < |y| ==> key[i] == y[i] && key[i] != '_';
    assert forall i :: 0 <= i < |x| ==> key[i] == x[i] && key[i] != '_';
    assert |x| == |y|;
    assert x == key[..|x|] == y;
    assert s == key[|x| + 1..] == t;
    IntToStringInjective(a, b);
  }

  /** Distinct (user, quest) pairs have distinct progress keys. */
  lemma ProgressKeyInjective(u1: int, q1: string, u2: int, q2: string)
    requires ProgressKey(u1, q1) == ProgressKey(u2, q2)
    ensures u1 == u2 && q1 == q2
  {
    UnderscoreKeyInjective(u1, q1, u2, q2);
  }

  /** Distinct (user, guild) pairs have distinct statistics keys. */
  lemma StatsKeyInjective(u1: int, g1: int, u2: int, g2: int)
    requires StatsKey(u1, g1) == StatsKey(u2, g2)
    ensures u1 == u2 && g1 == g2
  {
    UnderscoreKeyInjective(u1, IntToString(g1), u2, IntToString(g2));
    IntToStringInjective(g1, g2);
  }

  datatype Db = Db(
    quests: Dict<Quest>,
    progress: Dict<Progress>,
    stats: Dict<UserStats>,
    config: Dict<ChannelConfig>)

  /** Every record sits under the key its save operation derives from it. */
  predicate KeysConsistent(db: Db) {
    && (forall k :: k in db.quests.entries ==> k == db.quests.entries[k].questId)
    && (forall k :: k in db.progress.entries ==>
          k == ProgressKey(db.progress.entries[k].userId, db.progress.entries[k].questId))
    && (forall k :: k in db.stats.entries ==>
          k == StatsKey(db.stats.entries[k].userId, db.stats.entries[k].guildId))
    && (forall k :: k in db.config.entries ==> k == ConfigKey(db.config.entries[k].guildId))
  }

  /** A store whose entries are all keyed as the save operations key them. */
  type Store = db: Db | KeysConsistent(db) witness Db(Empty(), Empty(), Empty(), Empty())

  /** A freshly constructed `JSONDatabase` with no data files. */
  function EmptyStore(): (db: Store)
    ensures db.quests.entries == map[] && db.progress.entries == map[]
    ensures db.stats.entries == map[] && db.config.entries == map[]
  {
    Db(Empty(), Empty(), Empty(), Empty())
  }

  // ---------------------------------------------------------------- quests

  /** `get_quest`. */
  function GetQuest(db: Store, questId: string): (r: Option<Quest>)
    ensures r.Some? <==> questId in db.quests.entries
    ensures r.Some? ==> r.value == db.quests.entries[questId] && r.value.questId == questId
  {
    Get(db.quests, questId)
  }

  /** `save_quest`: insert or overwrite the quest under its own id. */
  function SaveQuest(db: Store, q: Quest): (r: Store)
    ensures GetQuest(r, q.questId) == Some(q)
    ensures forall id :: id != q.questId ==> GetQuest(r, id) == GetQuest(db, id)
    ensures r.progress == db.progress && r.stats == db.stats && r.config == db.config
  {
    PutQuestConsistent(db, q);
    db.(quests := Put(db.quests, q.questId, q))
  }

  lemma PutQuestConsistent(db: Store, q: Quest)
    ensures KeysConsistent(db.(quests := Put(db.quests, q.questId, q)))
  {
  }

  /** Whether a quest belongs to `guildId` and, when a status is given, has it. */
  function QuestFilter(guildId: int, status: Option<Status>): Quest -> bool {
    (q: Quest) => q.guildId == guildId && (status.None? || q.status == status.value)
  }

  /** `get_guild_quests`: the guild's quests (of the given status), in insertion order. */
  function GetGuildQuests(db: Store, guildId: int, status: Option<Status> := None): (r: seq<Quest>)
    ensures forall q :: q in r <==>
      q in db.quests.entries.Values && q.guildId == guildId && (status.None? || q.status == status.value)
    ensures Distinct(r)
  {
    ListedByFilter(db.quests, QuestFilter(guildId, status));
    ValuesDistinct(db.quests, (q: Quest) => q.questId);
    FilterDistinct(Values(db.quests), QuestFilter(guildId, status));
    Filter(Values(db.quests), QuestFilter(guildId, status))
  }

  /** Filtering the listing of a dictionary selects exactly the stored values passing the filter. */
  lemma ListedByFilter<V>(d: Dict<V>, p: V -> bool)
    ensures forall v :: v in Filter(Values(d), p) <==> v in d.entries.Values && p(v)
  {
    ValuesAreStored(d);
    forall v
      ensures v in Filter(Values(d), p) <==> v in Values(d) && p(v)
    {
      FilterMember(Values(d), p, v);
    }
  }

  /** `delete_quest`: when the quest exists, remove it and every progress
      record whose `quest_id` names it; otherwise change nothing. */
  function DeleteQuest(db: Store, questId: string): (r: Store)
    ensures GetQuest(r, questId) == None
    ensures forall id :: id != questId ==> GetQuest(r, id) == GetQuest(db, id)
    ensures questId in db.quests.entries ==> forall u, q ::
      GetProgress(r, u, q) ==
        (if GetProgress(db, u, q).Some? && GetProgress(db, u, q).value.questId == questId
         then None else GetProgress(db, u, q))
    ensures questId !in db.quests.entries ==> r == db
    ensures r.stats == db.stats && r.config == db.config
  {
    if questId in db.quests.entries then
      DropQuestConsistent(db, questId);
      db.(quests := Remove(db.quests, questId), progress := Restrict(db.progress, NotForQuest(db, questId)))
    else db
  }

  /** Whether the progress key does not hold a record for `questId`. */
  function NotForQuest(db: Store, questId: string): string -> bool {
    k => !(k in db.progress.entries && db.progress.entries[k].questId == questId)
  }

  lemma DropQuestConsistent(db: Store, questId: string)
    requires questId in db.quests.entries
    ensures KeysConsistent(db.(quests := Remove(db.quests, questId),
                               progress := Restrict(db.progress, NotForQuest(db, questId))))
  {
  }

  // -------------------------------------------------------------- progress

  /** `get_user_quest_progress`: the one record kept for (user, quest). */
  function GetProgress(db: Store, userId: int, questId: string): (r: Option<Progress>)
    ensures r.Some? <==> ProgressKey(userId, questId) in db.progress.entries
    ensures r.Some? ==> r.value.userId == userId && r.value.questId == questId
    ensures r.Some? ==> r.value == db.progress.entries[ProgressKey(userId, questId)]
  {
    StoredProgressMatchesKey(db, userId, questId);
    Get(db.progress, ProgressKey(userId, questId))
  }

  lemma StoredProgressMatchesKey(db: Store, userId: int, questId: string)
    ensures var k := ProgressKey(userId, questId);
      k in db.progress.entries ==>
        db.progress.entries[k].userId == userId && db.progress.entries[k].questId == questId
  {
    var k := ProgressKey(userId, questId);
    if k in db.progress.entries {
      var p := db.progress.entries[k];
      ProgressKeyInjective(userId, questId, p.userId, p.questId);
    }
  }

  /** `save_quest_progress`: insert or overwrite the record for its (user, quest). */
  function SaveProgress(db: Store, p: Progress): (r: Store)
    ensures GetProgress(r, p.userId, p.questId) == Some(p)
    ensures r.quests == db.quests && r.stats == db.stats && r.config == db.config
  {
    PutProgressConsistent(db, p);
    db.(progress := Put(db.progress, ProgressKey(p.userId, p.questId), p))
  }

  /** Saving one (user, quest) record leaves every other pair's record as it was. */
  lemma SaveProgressFrame(db: Store, p: Progress, userId: int, questId: string)
    requires userId != p.userId || questId != p.questId
    ensures GetProgress(SaveProgress(db, p), userId, questId) == GetProgress(db, userId, questId)
  {
    OtherProgressKeys(p.userId, p.questId);
  }

  lemma PutProgressConsistent(db: Store, p: Progress)
    ensures KeysConsistent(db.(progress := Put(db.progress, ProgressKey(p.userId, p.questId), p)))
  {
    var key := ProgressKey(p.userId, p.questId);
    var m := db.progress.entries[key := p];
    assert Put(db.progress, key, p).entries == m;
    forall k | k in m
      ensures k == ProgressKey(m[k].userId, m[k].questId)
    {
      if k != key {
        assert m[k] == db.progress.entries[k];
      }
    }
  }

  lemma OtherProgressKeys(userId: int, questId: string)
    ensures forall u, q :: (u != userId || q != questId) ==> ProgressKey(u, q) != ProgressKey(userId, questId)
  {
    forall u, q | u != userId || q != questId
      ensures ProgressKey(u, q) != ProgressKey(userId, questId)
    {
      if ProgressKey(u, q) == ProgressKey(userId, questId) {
        ProgressKeyInjective(u, q, userId, questId);
      }
    }
  }

  /** There is at most one progress record per (user, quest) pair. */
  lemma AtMostOneProgressPerPair(db: Store, k1: string, k2: string)
    requires k1 in db.progress.entries && k2 in db.progress.entries
    requires db.progress.entries[k1].userId == db.progress.entries[k2].userId
    requires db.progress.entries[k1].questId == db.progress.entries[k2].questId
    ensures k1 == k2
  {
  }

  /** Whether a progress record is the user's (in the guild, when one is given). */
  function UserFilter(userId: int, guildId: Option<int>): Progress -> bool {
    (p: Progress) => p.userId == userId && (guildId.None? || p.guildId == guildId.value)
  }

  /** The sort key of `get_user_quests`. */
  function AcceptedKey(p: Progress): Key {
    (p.acceptedAt, 0)
  }

  /** The user's records (in the guild, when one is given) in insertion order. */
  function UserRecords(db: Store, userId: int, guildId: Option<int>): seq<Progress> {
    Filter(Values(db.progress), UserFilter(userId, guildId))
  }

  /** `get_user_quests`: the user's records, most recently accepted first. */
  function GetUserQuests(db: Store, userId: int, guildId: Option<int> := None): (r: seq<Progress>)
    ensures multiset(r) == multiset(UserRecords(db, userId, guildId))
    ensures forall i, j :: 0 <= i < j < |r| ==> r[i].acceptedAt >= r[j].acceptedAt
  {
    var r := SortDesc(UserRecords(db, userId, guildId), AcceptedKey);
    assert forall i, j :: 0 <= i < j < |r| ==> KeyGe(AcceptedKey(r[i]), AcceptedKey(r[j]));
    r
  }

  /** `get_user_quests` lists exactly the user's stored records (of the guild, when one is given). */
  lemma UserQuestsMember(db: Store, userId: int, guildId: Option<int>, p: Progress)
    ensures p in GetUserQuests(db, userId, guildId) <==>
      p in db.progress.entries.Values && p.userId == userId && (guildId.None? || p.guildId == guildId.value)
  {
    ListedByFilter(db.progress, UserFilter(userId, guildId));
    SortedMembers(UserRecords(db, userId, guildId), AcceptedKey);
  }

  /** Records accepted at the same moment keep their insertion order. */
  lemma UserQuestsTiesKeepOrder(db: Store, userId: int, guildId: Option<int>, acceptedAt: int)
    ensures Filter(GetUserQuests(db, userId, guildId), HasKey(AcceptedKey, (acceptedAt, 0)))
         == Filter(UserRecords(db, userId, guildId), HasKey(AcceptedKey, (acceptedAt, 0)))
  {
    SortDescStable(UserRecords(db, userId, guildId), AcceptedKey, (acceptedAt, 0));
  }

  /** Sorting keeps exactly the members of its input. */
  lemma SortedMembers<T>(s: seq<T>, key: T -> Key)
    ensures forall x :: x in SortDesc(s, key) <==> x in s
  {
    forall x
      ensures x in SortDesc(s, key) <==> x in s
    {
      assert x in SortDesc(s, key) <==> x in multiset(SortDesc(s, key));
      assert x in s <==> x in multiset(s);
    }
  }

  /** One row of `get_pending_approvals`. */
  datatype Pending = Pending(questId: string, userId: int, proofText: string,
                             proofImageUrls: seq<string>, questTitle: string)

  /** A completed record in the guild whose quest still exists and was created by `creatorId`. */
  predicate AwaitsApproval(db: Store, creatorId: int, guildId: int, p: Progress) {
    && p.guildId == guildId
    && p.status == Completed
    && p.questId in db.quests.entries
    && db.quests.entries[p.questId].creatorId == creatorId
  }

  function PendingOf(db: Store, p: Progress): Pending
    requires p.questId in db.quests.entries
  {
    Pending(p.questId, p.userId, p.proofText, p.proofImageUrls, db.quests.entries[p.questId].title)
  }

  /** The records awaiting the creator's decision, in insertion order. */
  function AwaitingRecords(db: Store, creatorId: int, guildId: int): (r: seq<Progress>)
    ensures forall i :: 0 <= i < |r| ==> AwaitsApproval(db, creatorId, guildId, r[i])
  {
    Filter(Values(db.progress), (p: Progress) => AwaitsApproval(db, creatorId, guildId, p))
  }

  /** `get_pending_approvals`: one row per record awaiting the creator's
      decision, carrying the record's proof and its quest's title. */
  function GetPendingApprovals(db: Store, creatorId: int, guildId: int): (r: seq<Pending>)
    ensures |r| == |AwaitingRecords(db, creatorId, guildId)|
    ensures forall i :: 0 <= i < |r| ==> r[i] == PendingOf(db, AwaitingRecords(db, creatorId, guildId)[i])
  {
    MapSeq(AwaitingRecords(db, creatorId, guildId), PendingRow(db))
  }

  /** The row shown for a record; every record passed to it has its quest. */
  function PendingRow(db: Store): Progress -> Pending {
    (p: Progress) => if p.questId in db.quests.entries then PendingOf(db, p)
         else Pending(p.questId, p.userId, p.proofText, p.proofImageUrls, "")
  }

  /** A stored record is among those awaiting approval exactly when it awaits approval. */
  lemma AwaitingRecordsMember(db: Store, creatorId: int, guildId: int, p: Progress)
    ensures p in AwaitingRecords(db, creatorId, guildId) <==>
      p in db.progress.entries.Values && AwaitsApproval(db, creatorId, guildId, p)
  {
    ListedByFilter(db.progress, (p: Progress) => AwaitsApproval(db, creatorId, guildId, p));
  }

  /** Every stored record awaiting the creator's decision gets its row. */
  lemma PendingApprovalsComplete(db: Store, creatorId: int, guildId: int, p: Progress)
    requires p in db.progress.entries.Values && AwaitsApproval(db, creatorId, guildId, p)
    ensures PendingOf(db, p) in GetPendingApprovals(db, creatorId, guildId)
  {
    var w := AwaitingRecords(db, creatorId, guildId);
    AwaitingRecordsMember(db, creatorId, guildId, p);
    var i :| 0 <= i < |w| && w[i] == p;
    assert GetPendingApprovals(db, creatorId, guildId)[i] == PendingOf(db, p);
  }

  // ------------------------------------------------------------ statistics

  /** `get_user_stats` of the store: the record for (user, guild), if any. */
  function GetStats(db: Store, userId: int, guildId: int): (r: Option<UserStats>)
    ensures r.Some? <==> StatsKey(userId, guildId) in db.stats.entries
    ensures r.Some? ==> r.value.userId == userId && r.value.guildId == guildId
    ensures r.Some? ==> r.value == db.stats.entries[StatsKey(userId, guildId)]
  {
    StoredStatsMatchKey(db, userId, guildId);
    Get(db.stats, StatsKey(userId, guildId))
  }

  lemma StoredStatsMatchKey(db: Store, userId: int, guildId: int)
    ensures var k := StatsKey(userId, guildId);
      k in db.stats.entries ==>
        db.stats.entries[k].userId == userId && db.stats.entries[k].guildId == guildId
  {
    var k := StatsKey(userId, guildId);
    if k in db.stats.entries {
      var s := db.stats.entries[k];
      StatsKeyInjective(userId, guildId, s.userId, s.guildId);
    }
  }

  /** `save_user_stats`: insert or overwrite the record for its (user, guild). */
  function SaveStats(db: Store, s: UserStats): (r: Store)
    ensures GetStats(r, s.userId, s.guildId) == Some(s)
    ensures r.quests == db.quests && r.progress == db.progress && r.config == db.config
  {
    PutStatsConsistent(db, s);
    db.(stats := Put(db.stats, StatsKey(s.userId, s.guildId), s))
  }

  /** Saving one (user, guild) record leaves every other pair's record as it was. */
  lemma SaveStatsFrame(db: Store, s: UserStats, userId: int, guildId: int)
    requires userId != s.userId || guildId != s.guildId
    ensures GetStats(SaveStats(db, s), userId, guildId) == GetStats(db, userId, guildId)
  {
    OtherStatsKeys(s.userId, s.guildId);
  }

  lemma PutStatsConsistent(db: Store, s: UserStats)
    ensures KeysConsistent(db.(stats := Put(db.stats, StatsKey(s.userId, s.guildId), s)))
  {
    var key := StatsKey(s.userId, s.guildId);
    var m := db.stats.entries[key := s];
    assert Put(db.stats, key, s).entries == m;
    forall k | k in m
      ensures k == StatsKey(m[k].userId, m[k].guildId)
    {
      if k != key {
        assert m[k] == db.stats.entries[k];
      }
    }
  }

  lemma OtherStatsKeys(userId: int, guildId: int)
    ensures forall u, g :: (u != userId || g != guildId) ==> StatsKey(u, g) != StatsKey(userId, guildId)
  {
    forall u, g | u != userId || g != guildId
      ensures StatsKey(u, g) != StatsKey(userId, guildId)
    {
      if StatsKey(u, g) == StatsKey(userId, guildId) {
        StatsKeyInjective(u, g, userId, guildId);
      }
    }
  }

  function InGuild(guildId: int): UserStats -> bool {
    (s: UserStats) => s.guildId == guildId
  }

  /** The guild's statistics records in insertion order. */
  function GuildStats(db: Store, guildId: int): seq<UserStats> {
    Filter(Values(db.stats), InGuild(guildId))
  }

  /** The keys of the guild's statistics records, one per member with a record. */
  function GuildKeys(db: Store, guildId: int): (r: set<string>)
    ensures forall k :: k in r <==> k in db.stats.entries && db.stats.entries[k].guildId == guildId
  {
    KeysWhere(db.stats, InGuild(guildId))
  }

  /** The guild's listing has one entry per guild key. */
  lemma CountGuild(db: Store, guildId: int)
    ensures |GuildStats(db, guildId)| == |GuildKeys(db, guildId)|
  {
    CountValues(db.stats, InGuild(guildId));
  }

  /** The leaderboard sort key: completed quests, then accepted quests. */
  function RankKey(s: UserStats): Key {
    (s.questsCompleted, s.questsAccepted)
  }

  /** The whole guild ranked, ties in insertion order. */
  function GuildRanking(db: Store, guildId: int): seq<UserStats> {
    SortDesc(GuildStats(db, guildId), RankKey)
  }

  /** `get_guild_leaderboard`: the first `limit` entries of the ranking
      (Python's `[:limit]`, so a negative limit drops entries from the end). */
  function GetGuildLeaderboard(db: Store, guildId: int, limit: int := 10): (r: seq<UserStats>)
    ensures |r| <= |GuildRanking(db, guildId)| && r == GuildRanking(db, guildId)[..|r|]
    ensures forall i, j :: 0 <= i < j < |r| ==> KeyGe(RankKey(r[i]), RankKey(r[j]))
    ensures var n := |GuildKeys(db, guildId)|;
      && (limit >= 0 ==> |r| == (if limit <= n then limit else n))
      && (limit < 0 ==> |r| == (if n + limit >= 0 then n + limit else 0))
  {
    CountGuild(db, guildId);
    var ranking := GuildRanking(db, guildId);
    var r := SliceTo(ranking, limit);
    assert r == ranking[..|r|];
    r
  }

  /** Every leaderboard entry is a stored record of the guild. */
  lemma LeaderboardFromGuild(db: Store, guildId: int, limit: int, s: UserStats)
    requires s in GetGuildLeaderboard(db, guildId, limit)
    ensures s in db.stats.entries.Values && s.guildId == guildId
  {
    ListedByFilter(db.stats, InGuild(guildId));
    SortedMembers(GuildStats(db, guildId), RankKey);
    assert s in GuildRanking(db, guildId);
  }

  /** Nobody left off the leaderboard ranks above anybody on it. */
  lemma LeaderboardTop(db: Store, guildId: int, limit: int, i: int, j: int)
    requires 0 <= i < |GetGuildLeaderboard(db, guildId, limit)| <= j < |GuildRanking(db, guildId)|
    ensures KeyGe(RankKey(GetGuildLeaderboard(db, guildId, limit)[i]), RankKey(GuildRanking(db, guildId)[j]))
  {
    assert GetGuildLeaderboard(db, guildId, limit)[i] == GuildRanking(db, guildId)[i];
  }

  /** Every member of the guild with a record is ranked exactly once. */
  lemma RankingCoversGuild(db: Store, guildId: int, s: UserStats)
    ensures s in GuildRanking(db, guildId) <==> s in db.stats.entries.Values && s.guildId == guildId
    ensures |GuildRanking(db, guildId)| == |GuildKeys(db, guildId)|
  {
    ListedByFilter(db.stats, InGuild(guildId));
    SortedMembers(GuildStats(db, guildId), RankKey);
    CountGuild(db, guildId);
  }

  /** Saving a record of guild `g` changes the guild's sum of `f` by the new
      record's value less the replaced record's, and adds one entry to the
      guild's listing exactly when the (user, guild) pair had no record. */
  lemma SaveStatsGuildSum(db: Store, s: UserStats, f: UserStats -> int)
    ensures var prev := GetStats(db, s.userId, s.guildId);
      Sum(GuildStats(SaveStats(db, s), s.guildId), f)
        == Sum(GuildStats(db, s.guildId), f) + f(s) - (if prev.Some? then f(prev.value) else 0)
    ensures var prev := GetStats(db, s.userId, s.guildId);
      |GuildStats(SaveStats(db, s), s.guildId)| == |GuildStats(db, s.guildId)| + (if prev.Some? then 0 else 1)
  {
    var key := StatsKey(s.userId, s.guildId);
    var p := InGuild(s.guildId);
    var before := Values(db.stats);
    if key in db.stats.entries {
      var i := IndexOf(db.stats, key);
      ValuesPutExisting(db.stats, key, s);
      assert before[i] == db.stats.entries[key] == GetStats(db, s.userId, s.guildId).value;
      SumFilterUpdate(before, i, s, p, f);
    } else {
      ValuesPutNew(db.stats, key, s);
      FilterConcat(before, [s], p);
      assert Filter([s], p) == [s] by { assert [s][1..] == []; }
      SumConcat(Filter(before, p), [s], f);
      assert Sum([s], f) == f(s) by { assert [s][1..] == []; }
    }
  }

  /** Saving a record of one guild leaves every other guild's listing as it was. */
  lemma SaveStatsOtherGuild(db: Store, s: UserStats, guildId: int)
    requires guildId != s.guildId
    ensures GuildStats(SaveStats(db, s), guildId) == GuildStats(db, guildId)
  {
    var key := StatsKey(s.userId, s.guildId);
    var p := InGuild(guildId);
    var before := Values(db.stats);
    if key in db.stats.entries {
      var i := IndexOf(db.stats, key);
      ValuesPutExisting(db.stats, key, s);
      StoredStatsMatchKey(db, s.userId, s.guildId);
      FilterUpdateOutside(before, i, s, p);
    } else {
      ValuesPutNew(db.stats, key, s);
      FilterConcat(before, [s], p);
      assert Filter([s], p) == [] by { assert [s][1..] == []; }
      assert Filter(before, p) + [] == Filter(before, p);
    }
  }

  /** The result of `get_total_guild_stats`. */
  datatype GuildTotals = GuildTotals(totalCompleted: int, totalAccepted: int, activeUsers: nat)

  function CompletedCount(s: UserStats): int { s.questsCompleted }
  function AcceptedCount(s: UserStats): int { s.questsAccepted }

  /** `get_total_guild_stats`: sums over the guild's records and their number. */
  function GetTotalGuildStats(db: Store, guildId: int): (r: GuildTotals)
    ensures r.activeUsers == |GuildKeys(db, guildId)|
    ensures r.totalCompleted == Sum(GuildStats(db, guildId), CompletedCount)
    ensures r.totalAccepted == Sum(GuildStats(db, guildId), AcceptedCount)
  {
    var mine := GuildStats(db, guildId);
    CountGuild(db, guildId);
    GuildTotals(Sum(mine, CompletedCount), Sum(mine, AcceptedCount), |mine|)
  }

  // -------------------------------------------------------- channel config

  /** `get_channel_config`. */
  function GetChannelConfig(db: Store, guildId: int): (r: Option<ChannelConfig>)
    ensures r.Some? <==> ConfigKey(guildId) in db.config.entries
    ensures r.Some? ==> r.value.guildId == guildId
    ensures r.Some? ==> r.value == db.config.entries[ConfigKey(guildId)]
  {
    StoredConfigMatchesKey(db, guildId);
    Get(db.config, ConfigKey(guildId))
  }

  lemma StoredConfigMatchesKey(db: Store, guildId: int)
    ensures ConfigKey(guildId) in db.config.entries ==>
      db.config.entries[ConfigKey(guildId)].guildId == guildId
  {
    var k := ConfigKey(guildId);
    if k in db.config.entries {
      IntToStringInjective(guildId, db.config.entries[k].guildId);
    }
  }

  /** `save_channel_config`: insert or overwrite the guild's configuration. */
  function SaveChannelConfig(db: Store, c: ChannelConfig): (r: Store)
    ensures GetChannelConfig(r, c.guildId) == Some(c)
    ensures forall g :: g != c.guildId ==> GetChannelConfig(r, g) == GetChannelConfig(db, g)
    ensures r.quests == db.quests && r.progress == db.progress && r.stats == db.stats
  {
    OtherConfigKeys(c.guildId);
    PutConfigConsistent(db, c);
    db.(config := Put(db.config, ConfigKey(c.guildId), c))
  }

  lemma PutConfigConsistent(db: Store, c: ChannelConfig)
    ensures KeysConsistent(db.(config := Put(db.config, ConfigKey(c.guildId), c)))
  {
  }

  lemma OtherConfigKeys(guildId: int)
    ensures forall g :: g != guildId ==> ConfigKey(g) != ConfigKey(guildId)
  {
    forall g | g != guildId
      ensures ConfigKey(g) != ConfigKey(guildId)
    {
      if ConfigKey(g) == ConfigKey(guildId) {
        IntToStringInjective(g, guildId);
      }
    }
  }
}
