/** The four records of the quest bot and its constant sets (botv1/bot/models.py).
    Timestamps are integer seconds; a constructor function takes the current
    time `now` where the dataclass would call `datetime.now()`.
 */
module Models {
  import opened Common

  /** Quest difficulty names. */
  const RankEasy: string := "easy"
  const RankNormal: string := "normal"
  const RankMedium: string := "medium"
  const RankHard: string := "hard"
  const RankImpossible: string := "impossible"

  const Ranks: seq<string> := [RankEasy, RankNormal, RankMedium, RankHard, RankImpossible]

  const CategoryOther: string := "other"

  const Categories: seq<string> :=
    ["hunting", "gathering", "collecting", "crafting", "exploration", "combat",
     "social", "building", "trading", "puzzle", "survival", CategoryOther]

  /** The lifecycle status shared by quests and progress records. */
  datatype Status = Available | Accepted | Completed | Approved | Rejected | Cancelled

  /** The string each status is stored as. */
  function StatusName(s: Status): string {
    match s
    case Available => "available"
    case Accepted => "accepted"
    case Completed => "completed"
    case Approved => "approved"
    case Rejected => "rejected"
    case Cancelled => "cancelled"
  }

  const Statuses: seq<Status> := [Available, Accepted, Completed, Approved, Rejected, Cancelled]

  /** There are five ranks, twelve categories and six statuses, each named once. */
  lemma ConstantSets()
    ensures |Ranks| == 5 && Distinct(Ranks)
    ensures |Categories| == 12 && Distinct(Categories)
    ensures |Statuses| == 6 && forall s: Status :: s in Statuses
    ensures forall i, j :: 0 <= i < j < |Statuses| ==> StatusName(Statuses[i]) != StatusName(Statuses[j])
  {
    forall s: Status
      ensures s in Statuses
    {
      match s
      case Available => assert Statuses[0] == s;
      case Accepted => assert Statuses[1] == s;
      case Completed => assert Statuses[2] == s;
      case Approved => assert Statuses[3] == s;
      case Rejected => assert Statuses[4] == s;
      case Cancelled => assert Statuses[5] == s;
    }
  }

  datatype Quest = Quest(
    questId: string,
    title: string,
    description: string,
    creatorId: int,
    guildId: int,
    requirements: string,
    reward: string,
    rank: string,
    category: string,
    status: Status,
    createdAt: int,
    requiredRoleIds: seq<int>)

  /** The `Quest` dataclass constructor with its defaults; a missing creation
      time becomes `now` and a missing role list becomes `[]`. */
  function NewQuest(questId: string, title: string, description: string,
                    creatorId: int, guildId: int, now: int,
                    requirements: string := "", reward: string := "",
                    rank: string := RankNormal, category: string := CategoryOther,
                    status: Status := Available, createdAt: Option<int> := None,
                    requiredRoleIds: Option<seq<int>> := None): Quest
  {
    Quest(questId, title, description, creatorId, guildId, requirements, reward,
          rank, category, status, OrElse(createdAt, now), OrElse(requiredRoleIds, []))
  }

  datatype Progress = Progress(
    questId: string,
    userId: int,
    guildId: int,
    status: Status,
    acceptedAt: int,
    completedAt: Option<int>,
    proofText: string,
    proofImageUrls: seq<string>,
    approvalStatus: string,
    acceptedChannelId: Option<int>)

  /** The `QuestProgress` dataclass constructor with its defaults. */
  function NewProgress(questId: string, userId: int, guildId: int, now: int,
                       status: Status := Accepted, acceptedAt: Option<int> := None,
                       completedAt: Option<int> := None, proofText: string := "",
                       proofImageUrls: Option<seq<string>> := None,
                       approvalStatus: string := "",
                       acceptedChannelId: Option<int> := None): Progress
  {
    Progress(questId, userId, guildId, status, OrElse(acceptedAt, now), completedAt,
             proofText, OrElse(proofImageUrls, []), approvalStatus, acceptedChannelId)
  }

  datatype UserStats = UserStats(
    userId: int,
    guildId: int,
    questsCompleted: int,
    questsAccepted: int,
    questsRejected: int,
    firstQuestDate: int,
    lastQuestDate: int)

  /** The `UserStats` dataclass constructor: counters default to 0, dates to `now`. */
  function NewUserStats(userId: int, guildId: int, now: int,
                        questsCompleted: int := 0, questsAccepted: int := 0,
                        questsRejected: int := 0, firstQuestDate: Option<int> := None,
                        lastQuestDate: Option<int> := None): UserStats
  {
    UserStats(userId, guildId, questsCompleted, questsAccepted, questsRejected,
              OrElse(firstQuestDate, now), OrElse(lastQuestDate, now))
  }

  datatype ChannelConfig = ChannelConfig(
    guildId: int,
    questListChannel: Option<int>,
    questAcceptChannel: Option<int>,
    questSubmitChannel: Option<int>,
    questApprovalChannel: Option<int>,
    notificationChannel: Option<int>)

  /** The `ChannelConfig` dataclass constructor: every channel defaults to unset. */
  function NewChannelConfig(guildId: int, questListChannel: Option<int> := None,
                            questAcceptChannel: Option<int> := None,
                            questSubmitChannel: Option<int> := None,
                            questApprovalChannel: Option<int> := None,
                            notificationChannel: Option<int> := None): ChannelConfig
  {
    ChannelConfig(guildId, questListChannel, questAcceptChannel, questSubmitChannel,
                  questApprovalChannel, notificationChannel)
  }

  /** What the constructors produce when only the mandatory fields are given. */
  lemma Defaults(questId: string, title: string, description: string, creatorId: int,
                 userId: int, guildId: int, now: int)
    ensures var q := NewQuest(questId, title, description, creatorId, guildId, now);
      && q.rank == RankNormal && q.category == CategoryOther && q.status == Available
      && q.requirements == "" && q.reward == "" && q.requiredRoleIds == [] && q.createdAt == now
    ensures var p := NewProgress(questId, userId, guildId, now);
      && p.status == Accepted && p.acceptedAt == now && p.completedAt == None
      && p.approvalStatus == "" && p.proofText == "" && p.proofImageUrls == []
      && p.acceptedChannelId == None
    ensures var s := NewUserStats(userId, guildId, now);
      && s.questsCompleted == 0 && s.questsAccepted == 0 && s.questsRejected == 0
      && s.firstQuestDate == now && s.lastQuestDate == now
    ensures var c := NewChannelConfig(guildId);
      && c.questListChannel == None && c.questAcceptChannel == None
      && c.questSubmitChannel == None && c.questApprovalChannel == None
      && c.notificationChannel == None
  {
  }

  /** Passing `None` for the role list or the proof images normalises to `[]`,
      exactly as passing `[]` does. */
  lemma NoneListsNormalise(questId: string, title: string, description: string,
                           creatorId: int, userId: int, guildId: int, now: int)
    ensures NewQuest(questId, title, description, creatorId, guildId, now, requiredRoleIds := None)
         == NewQuest(questId, title, description, creatorId, guildId, now, requiredRoleIds := Some([]))
    ensures NewProgress(questId, userId, guildId, now, proofImageUrls := None)
         == NewProgress(questId, userId, guildId, now, proofImageUrls := Some([]))
  {
  }
}
