/** Per-member statistics (botv1/bot/user_stats.py, class UserStatsManager):
    a record is created with zero counters the first time it is asked for,
    and each quest event raises exactly one counter by one.
 */
module UserStatsManager {
  import opened Common
  import opened Models
  import opened Database

  /** `get_user_stats`: the stored record, or a new one with zero counters
      dated now, which is saved before it is returned. */
  function GetUserStats(db: Store, userId: int, guildId: int, now: int): (r: (UserStats, Store))
    ensures r.0.userId == userId && r.0.guildId == guildId
    ensures GetStats(db, userId, guildId).Some? ==> r == (GetStats(db, userId, guildId).value, db)
    ensures GetStats(db, userId, guildId).None? ==>
      && r.0.questsCompleted == 0 && r.0.questsAccepted == 0 && r.0.questsRejected == 0
      && r.0.firstQuestDate == now && r.0.lastQuestDate == now
    ensures GetStats(r.1, userId, guildId) == Some(r.0)
    ensures r.1.quests == db.quests && r.1.progress == db.progress && r.1.config == db.config
  {
    match GetStats(db, userId, guildId)
    case Some(s) => (s, db)
    case None =>
      var s := NewUserStats(userId, guildId, now, questsCompleted := 0, questsAccepted := 0,
                            questsRejected := 0);
      (s, SaveStats(db, s))
  }

  /** The three counters a quest event can raise. */
  datatype Counter = AcceptedCounter | CompletedCounter | RejectedCounter

  /** The value of one counter. */
  function CounterOf(s: UserStats, c: Counter): int {
    match c
    case AcceptedCounter => s.questsAccepted
    case CompletedCounter => s.questsCompleted
    case RejectedCounter => s.questsRejected
  }

  /** The shared shape of the three `update_quest_*` methods: fetch (or
      create) the record, raise one counter, stamp the time, save. */
  function UpdateCounter(db: Store, userId: int, guildId: int, now: int, c: Counter): (r: Store)
    ensures var before := GetUserStats(db, userId, guildId, now).0;
      && GetStats(r, userId, guildId).Some?
      && var after := GetStats(r, userId, guildId).value;
      && CounterOf(after, c) == CounterOf(before, c) + 1
      && (forall c' :: c' != c ==> CounterOf(after, c') == CounterOf(before, c'))
      && after.firstQuestDate == before.firstQuestDate
      && after.lastQuestDate == now
    ensures r.quests == db.quests && r.progress == db.progress && r.config == db.config
  {
    var (s, db1) := GetUserStats(db, userId, guildId, now);
    SaveStats(db1, Bump(s, c, now))
  }

  /** The record with counter `c` raised by one and the last quest date now. */
  function Bump(s: UserStats, c: Counter, now: int): (t: UserStats)
    ensures CounterOf(t, c) == CounterOf(s, c) + 1
    ensures forall c' :: c' != c ==> CounterOf(t, c') == CounterOf(s, c')
    ensures t.userId == s.userId && t.guildId == s.guildId
    ensures t.firstQuestDate == s.firstQuestDate && t.lastQuestDate == now
  {
    match c
    case AcceptedCounter => s.(questsAccepted := s.questsAccepted + 1, lastQuestDate := now)
    case CompletedCounter => s.(questsCompleted := s.questsCompleted + 1, lastQuestDate := now)
    case RejectedCounter => s.(questsRejected := s.questsRejected + 1, lastQuestDate := now)
  }

  /** `update_quest_accepted`. */
  function UpdateQuestAccepted(db: Store, userId: int, guildId: int, now: int): (r: Store)
    ensures var before := GetUserStats(db, userId, guildId, now).0;
      && GetStats(r, userId, guildId).Some?
      && var after := GetStats(r, userId, guildId).value;
      && after.questsAccepted == before.questsAccepted + 1
      && after.questsCompleted == before.questsCompleted
      && after.questsRejected == before.questsRejected
      && after.lastQuestDate == now
  {
    var r := UpdateCounter(db, userId, guildId, now, AcceptedCounter);
    assert CounterOf(GetStats(r, userId, guildId).value, CompletedCounter)
        == CounterOf(GetUserStats(db, userId, guildId, now).0, CompletedCounter);
    assert CounterOf(GetStats(r, userId, guildId).value, RejectedCounter)
        == CounterOf(GetUserStats(db, userId, guildId, now).0, RejectedCounter);
    r
  }

  /** `update_quest_completed`. */
  function UpdateQuestCompleted(db: Store, userId: int, guildId: int, now: int): (r: Store)
    ensures var before := GetUserStats(db, userId, guildId, now).0;
      && GetStats(r, userId, guildId).Some?
      && var after := GetStats(r, userId, guildId).value;
      && after.questsCompleted == before.questsCompleted + 1
      && after.questsAccepted == before.questsAccepted
      && after.questsRejected == before.questsRejected
      && after.lastQuestDate == now
  {
    var r := UpdateCounter(db, userId, guildId, now, CompletedCounter);
    assert CounterOf(GetStats(r, userId, guildId).value, AcceptedCounter)
        == CounterOf(GetUserStats(db, userId, guildId, now).0, AcceptedCounter);
    assert CounterOf(GetStats(r, userId, guildId).value, RejectedCounter)
        == CounterOf(GetUserStats(db, userId, guildId, now).0, RejectedCounter);
    r
  }

  /** `update_quest_rejected`. */
  function UpdateQuestRejected(db: Store, userId: int, guildId: int, now: int): (r: Store)
    ensures var before := GetUserStats(db, userId, guildId, now).0;
      && GetStats(r, userId, guildId).Some?
      && var after := GetStats(r, userId, guildId).value;
      && after.questsRejected == before.questsRejected + 1
      && after.questsAccepted == before.questsAccepted
      && after.questsCompleted == before.questsCompleted
      && after.lastQuestDate == now
  {
    var r := UpdateCounter(db, userId, guildId, now, RejectedCounter);
    assert CounterOf(GetStats(r, userId, guildId).value, AcceptedCounter)
        == CounterOf(GetUserStats(db, userId, guildId, now).0, AcceptedCounter);
    assert CounterOf(GetStats(r, userId, guildId).value, CompletedCounter)
        == CounterOf(GetUserStats(db, userId, guildId, now).0, CompletedCounter);
    r
  }

  /** An update touches no other member's record, in any guild. */
  lemma UpdateFrame(db: Store, userId: int, guildId: int, now: int, c: Counter, u: int, g: int)
    requires u != userId || g != guildId
    ensures GetStats(UpdateCounter(db, userId, guildId, now, c), u, g) == GetStats(db, u, g)
  {
    var (s, db1) := GetUserStats(db, userId, guildId, now);
    if GetStats(db, userId, guildId).None? {
      SaveStatsFrame(db, s, u, g);
    }
    var s' := Bump(s, c, now);
    SaveStatsFrame(db1, s', u, g);
  }

  /** No counter of any record ever goes down. */
  lemma CountersNeverDecrease(db: Store, userId: int, guildId: int, now: int, c: Counter,
                              u: int, g: int, c': Counter)
    requires GetStats(db, u, g).Some?
    ensures GetStats(UpdateCounter(db, userId, guildId, now, c), u, g).Some?
    ensures CounterOf(GetStats(UpdateCounter(db, userId, guildId, now, c), u, g).value, c')
         >= CounterOf(GetStats(db, u, g).value, c')
  {
    if u != userId || g != guildId {
      UpdateFrame(db, userId, guildId, now, c, u, g);
    }
  }

  /** There is no idempotence guard: two updates count twice. */
  lemma TwoUpdatesCountTwice(db: Store, userId: int, guildId: int, t1: int, t2: int, c: Counter)
    ensures var once := UpdateCounter(db, userId, guildId, t1, c);
      var twice := UpdateCounter(once, userId, guildId, t2, c);
      CounterOf(GetStats(twice, userId, guildId).value, c)
        == CounterOf(GetUserStats(db, userId, guildId, t1).0, c) + 2
  {
  }

  /** The guild totals move with each update: the raised counter's sum by one,
      the other sums not at all, and the member count by one exactly when the
      member had no record in the guild. */
  lemma UpdateGuildTotals(db: Store, userId: int, guildId: int, now: int, c: Counter)
    ensures var before := GetTotalGuildStats(db, guildId);
      var after := GetTotalGuildStats(UpdateCounter(db, userId, guildId, now, c), guildId);
      && after.totalAccepted == before.totalAccepted + (if c == AcceptedCounter then 1 else 0)
      && after.totalCompleted == before.totalCompleted + (if c == CompletedCounter then 1 else 0)
      && after.activeUsers == before.activeUsers + (if GetStats(db, userId, guildId).Some? then 0 else 1)
  {
    var (s, db1) := GetUserStats(db, userId, guildId, now);
    var s' := Bump(s, c, now);
    var r := SaveStats(db1, s');
    var isNew := GetStats(db, userId, guildId).None?;
    GuildSumsStep(db, db1, s, s', isNew, AcceptedCount);
    GuildSumsStep(db, db1, s, s', isNew, CompletedCount);
    assert AcceptedCount(s') - AcceptedCount(s) == (if c == AcceptedCounter then 1 else 0);
    assert CompletedCount(s') - CompletedCount(s) == (if c == CompletedCounter then 1 else 0);
    CountGuild(db, guildId);
    CountGuild(r, guildId);
  }

  /** Getting (or creating) the record `s` and then saving `s'` over it moves
      the guild's sum of `f` by `f(s') - f(s)`, or by `f(s')` for a new member. */
  lemma GuildSumsStep(db: Store, db1: Store, s: UserStats, s': UserStats, isNew: bool, f: UserStats -> int)
    requires isNew <==> GetStats(db, s.userId, s.guildId).None?
    requires isNew ==> db1 == SaveStats(db, s)
    requires !isNew ==> db1 == db && s == GetStats(db, s.userId, s.guildId).value
    requires s'.userId == s.userId && s'.guildId == s.guildId
    ensures Sum(GuildStats(SaveStats(db1, s'), s.guildId), f)
         == Sum(GuildStats(db, s.guildId), f) + f(s') - (if isNew then 0 else f(s))
    ensures |GuildStats(SaveStats(db1, s'), s.guildId)| == |GuildStats(db, s.guildId)| + (if isNew then 1 else 0)
  {
    if isNew {
      SaveStatsGuildSum(db, s, f);
      assert GetStats(db1, s.userId, s.guildId) == Some(s);
    }
    SaveStatsGuildSum(db1, s', f);
  }

  /** An update in one guild leaves every other guild's totals as they were. */
  lemma UpdateOtherGuildTotals(db: Store, userId: int, guildId: int, now: int, c: Counter, g: int)
    requires g != guildId
    ensures GetTotalGuildStats(UpdateCounter(db, userId, guildId, now, c), g) == GetTotalGuildStats(db, g)
  {
    var (s, db1) := GetUserStats(db, userId, guildId, now);
    var r := SaveStats(db1, Bump(s, c, now));
    if GetStats(db, userId, guildId).None? {
      SaveStatsOtherGuild(db, s, g);
    }
    SaveStatsOtherGuild(db1, Bump(s, c, now), g);
    assert GuildStats(r, g) == GuildStats(db, g);
    CountGuild(db, g);
    CountGuild(r, g);
  }
}
