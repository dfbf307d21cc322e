/** The quest lifecycle (botv1/bot/quest_manager.py, class QuestManager).
    Each operation takes the store and returns its answer together with the
    store after the operation. For one (user, quest) pair the progress moves
    accepted -> completed -> approved | rejected, and a rejected attempt may
    be accepted again once 24 hours have passed since it was accepted.
    The clock is the parameter `now` in seconds and the random uuid text is
    the parameter `uuid`.
 */
module QuestManager {
  import opened Common
  import opened Text
  import opened Models
  import opened Database
  import opened Permissions

  /** `timedelta(hours=24)` in seconds. */
  const CooldownSeconds: int := 24 * 3600

  // ---------------------------------------------------------------- create

  /** `create_quest`: the id is the first eight characters of the uuid text;
      the new quest is `available`, created now, and stored under its id
      (overwriting a quest that happens to carry the same id). */
  function CreateQuest(db: Store, uuid: string, title: string, description: string,
                       creatorId: int, guildId: int, now: int,
                       requirements: string := "", reward: string := "",
                       rank: string := RankNormal, requiredRoleIds: Option<seq<int>> := None,
                       category: string := CategoryOther): (r: (Quest, Store))
    ensures var (q, db') := r;
      && q.questId == SliceTo(uuid, 8)
      && q.title == title && q.description == description
      && q.creatorId == creatorId && q.guildId == guildId
      && q.requirements == requirements && q.reward == reward
      && q.rank == rank && q.category == category
      && q.status == Available && q.createdAt == now
      && q.requiredRoleIds == (if requiredRoleIds.Some? then requiredRoleIds.value else [])
    ensures GetQuest(r.1, r.0.questId) == Some(r.0)
    ensures forall id :: id != r.0.questId ==> GetQuest(r.1, id) == GetQuest(db, id)
    ensures r.1.progress == db.progress && r.1.stats == db.stats && r.1.config == db.config
  {
    var q := NewQuest(SliceTo(uuid, 8), title, description, creatorId, guildId, now,
                      requirements := requirements, reward := reward, rank := rank,
                      category := category, status := Available,
                      requiredRoleIds := requiredRoleIds);
    (q, SaveQuest(db, q))
  }

  predicate IsLowerHex(c: char) {
    IsDigitChar(c) || 'a' <= c <= 'f'
  }

  /** The text of `uuid.uuid4()`: 36 characters, dashes at positions 8, 13,
      18 and 23, lower-case hexadecimal digits elsewhere. */
  predicate UuidText(u: string) {
    && |u| == 36
    && forall i :: 0 <= i < 36 ==>
         (if i == 8 || i == 13 || i == 18 || i == 23 then u[i] == '-' else IsLowerHex(u[i]))
  }

  /** A uuid's first eight characters are eight hexadecimal digits. */
  lemma UuidPrefixIsHex(uuid: string)
    requires UuidText(uuid)
    ensures |SliceTo(uuid, 8)| == 8
    ensures forall i :: 0 <= i < 8 ==> IsLowerHex(SliceTo(uuid, 8)[i])
  {
    assert SliceTo(uuid, 8) == uuid[..8];
  }

  // ---------------------------------------------------------------- accept

  /** Why `accept_quest` refused. */
  datatype AcceptError = QuestNotFound | NotAvailable | AlreadyAccepted | Cooldown(hours: int) | MissingRoles

  /** The message `accept_quest` returns for each refusal; every one is a
      non-empty sentence ending in '!'. */
  function AcceptErrorMessage(e: AcceptError): (m: string)
    ensures |m| > 0 && m[|m| - 1] == '!'
  {
    match e
    case QuestNotFound => "Quest not found!"
    case NotAvailable => "Quest is not available for acceptance!"
    case AlreadyAccepted => "You have already accepted this quest!"
    case Cooldown(h) => "You must wait " + IntToString(h) + " hours before attempting this quest again!"
    case MissingRoles => "You don't have the required roles for this quest!"
  }

  /** The pair `(progress, error_message)` with the store after the call. */
  datatype AcceptOutcome = Granted(progress: Progress, db: Store) | Refused(error: AcceptError, db: Store)

  /** An attempt still in flight blocks a new one. */
  predicate InFlight(p: Progress) {
    p.status == Accepted || p.status == Completed
  }

  /** A rejected attempt blocks a new one until 24 hours after it was accepted. */
  predicate CoolingDown(p: Progress, now: int) {
    p.status == Rejected && now < p.acceptedAt + CooldownSeconds
  }

  /** `int(remaining.total_seconds() / 3600)` for a positive remaining time. */
  function HoursRemaining(acceptedAt: int, now: int): (h: int)
    requires now < acceptedAt + CooldownSeconds
    ensures h >= 0
    ensures h * 3600 <= acceptedAt + CooldownSeconds - now < (h + 1) * 3600
  {
    (acceptedAt + CooldownSeconds - now) / 3600
  }

  /** The role check runs only when the quest lists roles and the caller
      passed some; it then needs any one of them. */
  predicate RolesBlock(q: Quest, userRoleIds: seq<int>) {
    q.requiredRoleIds != [] && userRoleIds != [] && !UserHasRequiredRoles(userRoleIds, q.requiredRoleIds)
  }

  /** `accept_quest`. */
  function AcceptQuest(db: Store, questId: string, userId: int, now: int,
                       userRoleIds: seq<int> := [], acceptedChannelId: Option<int> := None): (r: AcceptOutcome)
    ensures r.Refused? ==> r.db == db
    ensures r.Granted? ==>
      && GetQuest(db, questId).Some?
      && r.progress == NewProgress(questId, userId, GetQuest(db, questId).value.guildId, now,
                                   acceptedChannelId := acceptedChannelId)
      && GetProgress(r.db, userId, questId) == Some(r.progress)
      && r.db.quests == db.quests && r.db.stats == db.stats && r.db.config == db.config
    ensures r == Refused(QuestNotFound, db) <==> GetQuest(db, questId).None?
    ensures r == Refused(NotAvailable, db) <==>
      GetQuest(db, questId).Some? && GetQuest(db, questId).value.status != Available
    ensures r == Refused(AlreadyAccepted, db) <==>
      && GetQuest(db, questId).Some? && GetQuest(db, questId).value.status == Available
      && GetProgress(db, userId, questId).Some? && InFlight(GetProgress(db, userId, questId).value)
    ensures r.Refused? && r.error.Cooldown? <==>
      && GetQuest(db, questId).Some? && GetQuest(db, questId).value.status == Available
      && GetProgress(db, userId, questId).Some? && CoolingDown(GetProgress(db, userId, questId).value, now)
    ensures r.Refused? && r.error.Cooldown? ==>
      r.error.hours == HoursRemaining(GetProgress(db, userId, questId).value.acceptedAt, now)
    ensures r == Refused(MissingRoles, db) <==>
      && GetQuest(db, questId).Some? && GetQuest(db, questId).value.status == Available
      && !(GetProgress(db, userId, questId).Some? && InFlight(GetProgress(db, userId, questId).value))
      && !(GetProgress(db, userId, questId).Some? && CoolingDown(GetProgress(db, userId, questId).value, now))
      && RolesBlock(GetQuest(db, questId).value, userRoleIds)
  {
    match GetQuest(db, questId)
    case None => Refused(QuestNotFound, db)
    case Some(q) =>
      if q.status != Available then Refused(NotAvailable, db)
      else
        var existing := GetProgress(db, userId, questId);
        if existing.Some? && InFlight(existing.value) then Refused(AlreadyAccepted, db)
        else if existing.Some? && CoolingDown(existing.value, now) then
          Refused(Cooldown(HoursRemaining(existing.value.acceptedAt, now)), db)
        else if RolesBlock(q, userRoleIds) then Refused(MissingRoles, db)
        else
          var p := NewProgress(questId, userId, q.guildId, now, acceptedChannelId := acceptedChannelId);
          Granted(p, SaveProgress(db, p))
  }

  /** The refusal message the caller sees, or `""` on success. */
  function AcceptMessage(r: AcceptOutcome): (m: string)
    ensures r.Granted? <==> m == ""
  {
    if r.Granted? then "" else AcceptErrorMessage(r.error)
  }

  /** Distinct refusals give distinct messages, so the caller can tell them
      apart and read the hours back from a cooldown message. */
  lemma AcceptErrorMessagesDistinct(e1: AcceptError, e2: AcceptError)
    ensures AcceptErrorMessage(e1) == AcceptErrorMessage(e2) ==> e1 == e2
  {
    var m1, m2 := AcceptErrorMessage(e1), AcceptErrorMessage(e2);
    if m1 == m2 {
      assert m1[0] == m2[0] && m1[4] == m2[4] && m1[6] == m2[6];
      if e1.Cooldown? && e2.Cooldown? {
        var tail := " hours before attempting this quest again!";
        assert m1 == "You must wait " + IntToString(e1.hours) + tail;
        assert m2 == "You must wait " + IntToString(e2.hours) + tail;
        assert m1[14..|m1| - |tail|] == IntToString(e1.hours);
        assert m2[14..|m2| - |tail|] == IntToString(e2.hours);
        IntToStringInjective(e1.hours, e2.hours);
      }
    }
  }

  /** The exact text the caller sees for each way `accept_quest` can go, in
      the order the source checks them. */
  lemma AcceptMessageTexts(db: Store, questId: string, userId: int, now: int,
                           userRoleIds: seq<int>, channel: Option<int>)
    ensures var m := AcceptMessage(AcceptQuest(db, questId, userId, now, userRoleIds, channel));
      var q := GetQuest(db, questId);
      var p := GetProgress(db, userId, questId);
      && (q.None? ==> m == "Quest not found!")
      && (q.Some? && q.value.status != Available ==> m == "Quest is not available for acceptance!")
      && (q.Some? && q.value.status == Available && p.Some? && InFlight(p.value) ==>
            m == "You have already accepted this quest!")
      && (q.Some? && q.value.status == Available && p.Some? && CoolingDown(p.value, now) ==>
            m == "You must wait " + IntToString(HoursRemaining(p.value.acceptedAt, now))
                 + " hours before attempting this quest again!")
      && (q.Some? && q.value.status == Available && !(p.Some? && InFlight(p.value))
          && !(p.Some? && CoolingDown(p.value, now)) && RolesBlock(q.value, userRoleIds) ==>
            m == "You don't have the required roles for this quest!")
  {
    var r := AcceptQuest(db, questId, userId, now, userRoleIds, channel);
    if r.Refused? {
      assert AcceptMessage(r) == AcceptErrorMessage(r.error);
    }
  }

  /** The cooldown message reports at most 24 hours, and at most 23 once the
      attempt lies at least a second in the past. */
  lemma CooldownHoursBound(acceptedAt: int, now: int)
    requires acceptedAt <= now < acceptedAt + CooldownSeconds
    ensures 0 <= HoursRemaining(acceptedAt, now) <= 24
    ensures acceptedAt < now ==> HoursRemaining(acceptedAt, now) <= 23
  {
  }

  /** Accepting the same quest twice in a row fails the second time. */
  lemma AcceptTwiceFails(db: Store, questId: string, userId: int, now: int, later: int,
                         roles: seq<int>, channel: Option<int>)
    requires AcceptQuest(db, questId, userId, now, roles, channel).Granted?
    ensures AcceptQuest(AcceptQuest(db, questId, userId, now, roles, channel).db, questId, userId, later)
         == Refused(AlreadyAccepted, AcceptQuest(db, questId, userId, now, roles, channel).db)
  {
  }

  /** An approved attempt does not block taking the quest again: it is never
      the reason for a refusal, so an available quest whose role check passes
      is granted. */
  lemma ApprovedDoesNotBlock(db: Store, questId: string, userId: int, now: int,
                             userRoleIds: seq<int>, channel: Option<int>)
    requires GetProgress(db, userId, questId).Some? && GetProgress(db, userId, questId).value.status == Approved
    ensures var r := AcceptQuest(db, questId, userId, now, userRoleIds, channel);
      !(r.Refused? && (r.error == AlreadyAccepted || r.error.Cooldown?))
    ensures (GetQuest(db, questId).Some? && GetQuest(db, questId).value.status == Available
             && !RolesBlock(GetQuest(db, questId).value, userRoleIds)) ==>
      AcceptQuest(db, questId, userId, now, userRoleIds, channel).Granted?
  {
  }

  /** A caller who holds one of the required roles passes the role check; a
      caller who passes no roles is not checked at all. */
  lemma RoleCheckScope(q: Quest, userRoleIds: seq<int>)
    ensures userRoleIds == [] ==> !RolesBlock(q, userRoleIds)
    ensures q.requiredRoleIds == [] ==> !RolesBlock(q, userRoleIds)
    ensures q.requiredRoleIds != [] && userRoleIds != [] ==>
      (RolesBlock(q, userRoleIds) <==> !exists i :: 0 <= i < |q.requiredRoleIds| && q.requiredRoleIds[i] in userRoleIds)
  {
  }

  // -------------------------------------------------------------- complete

  /** `complete_quest`: only an accepted attempt can be completed; it then
      carries the proof, the completion time and the `pending` tag. */
  function CompleteQuest(db: Store, questId: string, userId: int, now: int,
                         proofText: string := "", proofImageUrls: Option<seq<string>> := None): (r: (Option<Progress>, Store))
    ensures var prev := GetProgress(db, userId, questId);
      r.0.Some? <==> prev.Some? && prev.value.status == Accepted
    ensures r.0.None? ==> r.1 == db
    ensures r.0.Some? ==> var prev := GetProgress(db, userId, questId).value; var p := r.0.value;
      && p.status == Completed && p.completedAt == Some(now)
      && p.proofText == proofText
      && p.proofImageUrls == (if proofImageUrls.Some? then proofImageUrls.value else [])
      && p.approvalStatus == "pending"
      && p.questId == prev.questId && p.userId == prev.userId && p.guildId == prev.guildId
      && p.acceptedAt == prev.acceptedAt && p.acceptedChannelId == prev.acceptedChannelId
    ensures r.0.Some? ==> GetProgress(r.1, userId, questId) == r.0
    ensures r.1.quests == db.quests && r.1.stats == db.stats && r.1.config == db.config
  {
    match GetProgress(db, userId, questId)
    case None => (None, db)
    case Some(prev) =>
      if prev.status != Accepted then (None, db)
      else
        var p := prev.(status := Completed, completedAt := Some(now), proofText := proofText,
                      proofImageUrls := OrElse(proofImageUrls, []), approvalStatus := "pending");
        (Some(p), SaveProgress(db, p))
  }

  // --------------------------------------------------------------- approve

  /** `approve_quest`: only a completed attempt can be decided; approval gives
      status and tag `approved`, refusal gives `rejected`. */
  function ApproveQuest(db: Store, questId: string, userId: int, approved: bool): (r: (Option<Progress>, Store))
    ensures var prev := GetProgress(db, userId, questId);
      r.0.Some? <==> prev.Some? && prev.value.status == Completed
    ensures r.0.None? ==> r.1 == db
    ensures r.0.Some? ==> var prev := GetProgress(db, userId, questId).value; var p := r.0.value;
      && p.status == (if approved then Approved else Rejected)
      && p.approvalStatus == (if approved then "approved" else "rejected")
      && p == prev.(status := p.status, approvalStatus := p.approvalStatus)
    ensures r.0.Some? ==> GetProgress(r.1, userId, questId) == r.0
    ensures r.1.quests == db.quests && r.1.stats == db.stats && r.1.config == db.config
  {
    match GetProgress(db, userId, questId)
    case None => (None, db)
    case Some(prev) =>
      if prev.status != Completed then (None, db)
      else
        var p := if approved then prev.(status := Approved, approvalStatus := "approved")
                 else prev.(status := Rejected, approvalStatus := "rejected");
        (Some(p), SaveProgress(db, p))
  }

  /** Accepting, completing or deciding one member's attempt at one quest
      leaves every other (member, quest) record as it was. */
  lemma TransitionFrame(db: Store, questId: string, userId: int, now: int, roles: seq<int>,
                        channel: Option<int>, proofText: string, urls: Option<seq<string>>,
                        approved: bool, u: int, q: string)
    requires u != userId || q != questId
    ensures GetProgress(AcceptQuest(db, questId, userId, now, roles, channel).db, u, q) == GetProgress(db, u, q)
    ensures GetProgress(CompleteQuest(db, questId, userId, now, proofText, urls).1, u, q) == GetProgress(db, u, q)
    ensures GetProgress(ApproveQuest(db, questId, userId, approved).1, u, q) == GetProgress(db, u, q)
  {
    var a := AcceptQuest(db, questId, userId, now, roles, channel);
    if a.Granted? {
      SaveProgressFrame(db, a.progress, u, q);
    }
    var c := CompleteQuest(db, questId, userId, now, proofText, urls);
    if c.0.Some? {
      SaveProgressFrame(db, c.0.value, u, q);
    }
    var d := ApproveQuest(db, questId, userId, approved);
    if d.0.Some? {
      SaveProgressFrame(db, d.0.value, u, q);
    }
  }

  // ---------------------------------------------------------------- delete

  /** `delete_quest`: the store's cascading delete; the in-memory delete
      cannot fail, so the answer is always `True`. */
  function DeleteQuest(db: Store, questId: string): (r: (bool, Store))
    ensures r.0
    ensures GetQuest(r.1, questId) == None
    ensures forall id :: id != questId ==> GetQuest(r.1, id) == GetQuest(db, id)
    ensures GetQuest(db, questId).Some? ==>
      forall u, q :: GetProgress(r.1, u, q) == (if q == questId then None else GetProgress(db, u, q))
    ensures GetQuest(db, questId).None? ==> r.1 == db
    ensures r.1.stats == db.stats && r.1.config == db.config
  {
    (true, Database.DeleteQuest(db, questId))
  }

  // --------------------------------------------------------------- getters

  /** `get_available_quests`: the guild's quests whose status is `available`. */
  function GetAvailableQuests(db: Store, guildId: int): (r: seq<Quest>)
    ensures forall q :: q in r <==> q in db.quests.entries.Values && q.guildId == guildId && q.status == Available
  {
    GetGuildQuests(db, guildId, Some(Available))
  }
}
