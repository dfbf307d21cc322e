/** The quest lifecycle driven through QuestManager (botv1/bot/quest_manager.py)
    one command at a time: what every reachable store looks like, how one
    member's record for one quest may move, and the cooldown after a
    rejection as the bot's users meet it.
 */
module Lifecycle {
  import opened Common
  import opened Models
  import opened Database
  import opened QuestManager

  /** The approval tag and completion time that go with each progress status. */
  predicate Tagged(p: Progress) {
    match p.status
    case Accepted => p.approvalStatus == "" && p.completedAt.None?
    case Completed => p.approvalStatus == "pending" && p.completedAt.Some?
    case Approved => p.approvalStatus == "approved" && p.completedAt.Some?
    case Rejected => p.approvalStatus == "rejected" && p.completedAt.Some?
    case _ => false
  }

  /** What QuestManager's operations keep true of the store: every quest is
      available, and every progress record is tagged to match its status and
      belongs to a quest that still exists. */
  ghost predicate Coherent(db: Store) {
    && (forall id :: GetQuest(db, id).Some? ==> GetQuest(db, id).value.status == Available)
    && (forall u, q :: GetProgress(db, u, q).Some? ==>
          Tagged(GetProgress(db, u, q).value) && GetQuest(db, q).Some?)
  }

  /** One QuestManager call, with the time it happens at. */
  datatype Command =
    | Create(uuid: string, title: string, description: string, creatorId: int, guildId: int,
             requirements: string, reward: string, rank: string,
             requiredRoleIds: Option<seq<int>>, category: string)
    | Accept(questId: string, userId: int, userRoleIds: seq<int>, channel: Option<int>)
    | Complete(questId: string, userId: int, proofText: string, proofImageUrls: Option<seq<string>>)
    | Decide(questId: string, userId: int, approved: bool)
    | Delete(questId: string)

  function Step(db: Store, c: Command, now: int): Store {
    match c
    case Create(uuid, title, description, creatorId, guildId, req, rew, rk, roles, cat) =>
      CreateQuest(db, uuid, title, description, creatorId, guildId, now, req, rew, rk, roles, cat).1
    case Accept(questId, userId, roles, channel) => AcceptQuest(db, questId, userId, now, roles, channel).db
    case Complete(questId, userId, text, urls) => CompleteQuest(db, questId, userId, now, text, urls).1
    case Decide(questId, userId, approved) => ApproveQuest(db, questId, userId, approved).1
    case Delete(questId) => QuestManager.DeleteQuest(db, questId).1
  }

  /** A run of timed commands from a starting store. */
  function Run(db: Store, cmds: seq<(Command, int)>): Store
    decreases |cmds|
  {
    if cmds == [] then db else Run(Step(db, cmds[0].0, cmds[0].1), cmds[1..])
  }

  /** The empty store is coherent. */
  lemma EmptyIsCoherent()
    ensures Coherent(EmptyStore())
  {
  }

  /** How one member's record for one quest may change in one step: not at
      all; a new attempt over none or a decided one; an attempt completed; a
      completed attempt decided; or, when `questDeleted` says the step deleted
      the record's quest, the record removed. */
  predicate Moves(before: Option<Progress>, after: Option<Progress>, questDeleted: bool) {
    || before == after
    || (after.Some? && after.value.status == Accepted
        && (before.None? || before.value.status == Approved || before.value.status == Rejected))
    || (before.Some? && after.Some? && before.value.status == Accepted && after.value.status == Completed
        && after.value.acceptedAt == before.value.acceptedAt)
    || (before.Some? && after.Some? && before.value.status == Completed
        && (after.value.status == Approved || after.value.status == Rejected)
        && after.value.acceptedAt == before.value.acceptedAt && after.value.completedAt == before.value.completedAt)
    || (after.None? && questDeleted)
  }

  /** Creating a quest keeps the store coherent. */
  lemma CreateKeepsCoherent(db: Store, uuid: string, title: string, description: string,
                            creatorId: int, guildId: int, now: int, req: string, rew: string,
                            rk: string, roles: Option<seq<int>>, cat: string)
    requires Coherent(db)
    ensures Coherent(CreateQuest(db, uuid, title, description, creatorId, guildId, now, req, rew, rk, roles, cat).1)
  {
    var (quest, r) := CreateQuest(db, uuid, title, description, creatorId, guildId, now, req, rew, rk, roles, cat);
    forall u, q | GetProgress(r, u, q).Some?
      ensures Tagged(GetProgress(r, u, q).value) && GetQuest(r, q).Some?
    {
      assert GetProgress(r, u, q) == GetProgress(db, u, q);
      if q != quest.questId {
        assert GetQuest(r, q) == GetQuest(db, q);
      }
    }
    forall id | GetQuest(r, id).Some?
      ensures GetQuest(r, id).value.status == Available
    {
      if id != quest.questId {
        assert GetQuest(r, id) == GetQuest(db, id);
      }
    }
  }

  /** Stores with the same quest table hold the same quests. */
  lemma SameQuests(a: Store, b: Store)
    requires a.quests == b.quests
    ensures forall id :: GetQuest(a, id) == GetQuest(b, id)
  {
  }

  /** Accepting a quest keeps the store coherent. */
  lemma AcceptKeepsCoherent(db: Store, questId: string, userId: int, now: int, roles: seq<int>,
                            channel: Option<int>)
    requires Coherent(db)
    ensures Coherent(AcceptQuest(db, questId, userId, now, roles, channel).db)
  {
    var r := AcceptQuest(db, questId, userId, now, roles, channel).db;
    SameQuests(r, db);
    forall u, q | GetProgress(r, u, q).Some?
      ensures Tagged(GetProgress(r, u, q).value) && GetQuest(r, q).Some?
    {
      if u != userId || q != questId {
        TransitionFrame(db, questId, userId, now, roles, channel, "", None, false, u, q);
      }
    }
  }

  /** Completing an attempt keeps the store coherent. */
  lemma CompleteKeepsCoherent(db: Store, questId: string, userId: int, now: int, proofText: string,
                              urls: Option<seq<string>>)
    requires Coherent(db)
    ensures Coherent(CompleteQuest(db, questId, userId, now, proofText, urls).1)
  {
    var r := CompleteQuest(db, questId, userId, now, proofText, urls).1;
    SameQuests(r, db);
    forall u, q | GetProgress(r, u, q).Some?
      ensures Tagged(GetProgress(r, u, q).value) && GetQuest(r, q).Some?
    {
      if u != userId || q != questId {
        TransitionFrame(db, questId, userId, now, [], None, proofText, urls, false, u, q);
      }
    }
  }

  /** Deciding an attempt keeps the store coherent. */
  lemma DecideKeepsCoherent(db: Store, questId: string, userId: int, approved: bool)
    requires Coherent(db)
    ensures Coherent(ApproveQuest(db, questId, userId, approved).1)
  {
    var r := ApproveQuest(db, questId, userId, approved).1;
    SameQuests(r, db);
    forall u, q | GetProgress(r, u, q).Some?
      ensures Tagged(GetProgress(r, u, q).value) && GetQuest(r, q).Some?
    {
      if u != userId || q != questId {
        TransitionFrame(db, questId, userId, 0, [], None, "", None, approved, u, q);
      }
    }
  }

  /** Deleting a quest keeps the store coherent. */
  lemma DeleteKeepsCoherent(db: Store, questId: string)
    requires Coherent(db)
    ensures Coherent(QuestManager.DeleteQuest(db, questId).1)
  {
    var r := QuestManager.DeleteQuest(db, questId).1;
    if GetQuest(db, questId).Some? {
      forall u, q | GetProgress(r, u, q).Some?
        ensures Tagged(GetProgress(r, u, q).value) && GetQuest(r, q).Some?
      {
        assert q != questId;
      }
    }
  }

  /** Every step keeps the store coherent. */
  lemma StepKeepsCoherent(db: Store, c: Command, now: int)
    requires Coherent(db)
    ensures Coherent(Step(db, c, now))
  {
    match c
    case Create(uuid, title, description, creatorId, guildId, req, rew, rk, roles, cat) =>
      CreateKeepsCoherent(db, uuid, title, description, creatorId, guildId, now, req, rew, rk, roles, cat);
    case Accept(questId, userId, roles, channel) =>
      AcceptKeepsCoherent(db, questId, userId, now, roles, channel);
    case Complete(questId, userId, text, urls) =>
      CompleteKeepsCoherent(db, questId, userId, now, text, urls);
    case Decide(questId, userId, approved) =>
      DecideKeepsCoherent(db, questId, userId, approved);
    case Delete(questId) =>
      DeleteKeepsCoherent(db, questId);
  }

  /** Every run from a coherent store ends in a coherent store; in particular
      every store the bot reaches from an empty one is coherent. */
  lemma {:induction false} RunKeepsCoherent(db: Store, cmds: seq<(Command, int)>)
    requires Coherent(db)
    ensures Coherent(Run(db, cmds))
    decreases |cmds|
  {
    if cmds != [] {
      StepKeepsCoherent(db, cmds[0].0, cmds[0].1);
      RunKeepsCoherent(Step(db, cmds[0].0, cmds[0].1), cmds[1..]);
    }
  }

  /** Accepting moves a record only to a new attempt over none or a decided one. */
  lemma AcceptMoves(db: Store, questId: string, userId: int, now: int, roles: seq<int>,
                    channel: Option<int>, u: int, q: string)
    requires Coherent(db)
    ensures Moves(GetProgress(db, u, q), GetProgress(AcceptQuest(db, questId, userId, now, roles, channel).db, u, q), false)
  {
    var r := AcceptQuest(db, questId, userId, now, roles, channel);
    var before := GetProgress(db, u, q);
    if u != userId || q != questId {
      TransitionFrame(db, questId, userId, now, roles, channel, "", None, false, u, q);
    } else if r.Granted? {
      assert GetProgress(r.db, u, q) == Some(r.progress) && r.progress.status == Accepted;
      assert before.Some? ==> Tagged(before.value) && !InFlight(before.value);
    }
  }

  /** Completing moves a record only from accepted to completed, keeping its
      acceptance time. */
  lemma CompleteMoves(db: Store, questId: string, userId: int, now: int, proofText: string,
                      urls: Option<seq<string>>, u: int, q: string)
    ensures Moves(GetProgress(db, u, q), GetProgress(CompleteQuest(db, questId, userId, now, proofText, urls).1, u, q), false)
  {
    if u != userId || q != questId {
      TransitionFrame(db, questId, userId, now, [], None, proofText, urls, false, u, q);
    }
  }

  /** Deciding moves a record only from completed to approved or rejected,
      keeping both times. */
  lemma DecideMoves(db: Store, questId: string, userId: int, approved: bool, u: int, q: string)
    ensures Moves(GetProgress(db, u, q), GetProgress(ApproveQuest(db, questId, userId, approved).1, u, q), false)
  {
    if u != userId || q != questId {
      TransitionFrame(db, questId, userId, 0, [], None, "", None, approved, u, q);
    }
  }

  /** Deleting a quest removes only records of that quest. */
  lemma DeleteMoves(db: Store, questId: string, u: int, q: string)
    ensures Moves(GetProgress(db, u, q), GetProgress(QuestManager.DeleteQuest(db, questId).1, u, q), q == questId)
  {
  }

  /** In a coherent store every step moves each record only as `Moves` allows;
      in particular a record disappears only when the step deletes its quest. */
  lemma StepMoves(db: Store, c: Command, now: int, u: int, q: string)
    requires Coherent(db)
    ensures Moves(GetProgress(db, u, q), GetProgress(Step(db, c, now), u, q), c.Delete? && c.questId == q)
    ensures GetProgress(db, u, q).Some? && GetProgress(Step(db, c, now), u, q).None? ==>
      c.Delete? && c.questId == q
  {
    match c
    case Create(uuid, title, description, creatorId, guildId, req, rew, rk, roles, cat) =>
      var r := Step(db, c, now);
      assert r.progress == db.progress;
      assert GetProgress(r, u, q) == GetProgress(db, u, q);
    case Accept(questId, userId, roles, channel) =>
      AcceptMoves(db, questId, userId, now, roles, channel, u, q);
    case Complete(questId, userId, text, urls) =>
      CompleteMoves(db, questId, userId, now, text, urls, u, q);
    case Decide(questId, userId, approved) =>
      DecideMoves(db, questId, userId, approved, u, q);
    case Delete(questId) =>
      DeleteMoves(db, questId, u, q);
  }

  /** A member's whole path through one quest: accepted at `t0`, completed at
      `t1`, then decided. The final record keeps both times and carries the
      decision's status and tag. */
  lemma AcceptCompleteDecide(db: Store, questId: string, userId: int, t0: int, t1: int,
                             proofText: string, approved: bool)
    requires GetQuest(db, questId).Some? && GetQuest(db, questId).value.status == Available
    requires GetProgress(db, userId, questId).None?
    ensures var a := AcceptQuest(db, questId, userId, t0);
      && a.Granted?
      && var c := CompleteQuest(a.db, questId, userId, t1, proofText);
      && c.0.Some?
      && var d := ApproveQuest(c.1, questId, userId, approved);
      && d.0.Some?
      && var p := GetProgress(d.1, userId, questId).value;
      && p.status == (if approved then Approved else Rejected)
      && p.approvalStatus == (if approved then "approved" else "rejected")
      && p.acceptedAt == t0 && p.completedAt == Some(t1) && p.proofText == proofText
  {
  }

  /** After a rejection the member may try again only once a full day has
      passed since they accepted the quest; before that they are told how
      many whole hours remain. */
  lemma RetryAfterRejection(db: Store, questId: string, userId: int, now: int)
    requires GetQuest(db, questId).Some? && GetQuest(db, questId).value.status == Available
    requires GetProgress(db, userId, questId).Some? && GetProgress(db, userId, questId).value.status == Rejected
    ensures var t0 := GetProgress(db, userId, questId).value.acceptedAt;
      && (now < t0 + 86400 ==> AcceptQuest(db, questId, userId, now) == Refused(Cooldown(HoursRemaining(t0, now)), db))
      && (now >= t0 + 86400 ==> AcceptQuest(db, questId, userId, now).Granted?)
  {
    var p := GetProgress(db, userId, questId).value;
    assert !InFlight(p) && !RolesBlock(GetQuest(db, questId).value, []);
    assert CoolingDown(p, now) <==> now < p.acceptedAt + 86400;
  }
}
