/** Per-guild channel routing (botv1/bot/config.py, class ChannelConfig):
    setting a guild's channels replaces its whole record, and each getter
    reads one field of the stored record, or nothing when the guild has none.
 */
module GuildChannels {
  import opened Common
  import opened Models
  import opened Database

  /** The five channels a guild can route. */
  datatype Channel = QuestList | QuestAccept | QuestSubmit | QuestApproval | Notification

  const AllChannels: seq<Channel> := [QuestList, QuestAccept, QuestSubmit, QuestApproval, Notification]

  /** The key each channel has in `get_guild_config`'s dictionary. */
  function ChannelName(c: Channel): string {
    match c
    case QuestList => "quest_list_channel"
    case QuestAccept => "quest_accept_channel"
    case QuestSubmit => "quest_submit_channel"
    case QuestApproval => "quest_approval_channel"
    case Notification => "notification_channel"
  }

  /** The configured channel id of one kind. */
  function Field(cfg: ChannelConfig, c: Channel): Option<int> {
    match c
    case QuestList => cfg.questListChannel
    case QuestAccept => cfg.questAcceptChannel
    case QuestSubmit => cfg.questSubmitChannel
    case QuestApproval => cfg.questApprovalChannel
    case Notification => cfg.notificationChannel
  }

  /** `set_guild_channels`: store a new record for the guild built from the
      arguments alone; a channel not passed is unset, whatever was there. */
  function SetGuildChannels(db: Store, guildId: int,
                            questListChannel: Option<int> := None,
                            questAcceptChannel: Option<int> := None,
                            questSubmitChannel: Option<int> := None,
                            questApprovalChannel: Option<int> := None,
                            notificationChannel: Option<int> := None): (r: Store)
    ensures GetChannelConfig(r, guildId).Some?
    ensures var cfg := GetChannelConfig(r, guildId).value;
      && Field(cfg, QuestList) == questListChannel
      && Field(cfg, QuestAccept) == questAcceptChannel
      && Field(cfg, QuestSubmit) == questSubmitChannel
      && Field(cfg, QuestApproval) == questApprovalChannel
      && Field(cfg, Notification) == notificationChannel
    ensures forall g :: g != guildId ==> GetChannelConfig(r, g) == GetChannelConfig(db, g)
    ensures r.quests == db.quests && r.progress == db.progress && r.stats == db.stats
  {
    SaveChannelConfig(db, NewChannelConfig(guildId, questListChannel, questAcceptChannel,
                                           questSubmitChannel, questApprovalChannel,
                                           notificationChannel))
  }

  /** The shared shape of the five `get_*_channel` methods. */
  function GetChannel(db: Store, guildId: int, c: Channel): (r: Option<int>)
    ensures GetChannelConfig(db, guildId).None? ==> r == None
    ensures GetChannelConfig(db, guildId).Some? ==> r == Field(GetChannelConfig(db, guildId).value, c)
  {
    match GetChannelConfig(db, guildId)
    case None => None
    case Some(cfg) => Field(cfg, c)
  }

  /** `get_quest_list_channel`. */
  function GetQuestListChannel(db: Store, guildId: int): (r: Option<int>)
    ensures GetChannelConfig(db, guildId).None? ==> r == None
    ensures GetChannelConfig(db, guildId).Some? ==> r == GetChannelConfig(db, guildId).value.questListChannel
  {
    GetChannel(db, guildId, QuestList)
  }

  /** `get_quest_accept_channel`. */
  function GetQuestAcceptChannel(db: Store, guildId: int): (r: Option<int>)
    ensures GetChannelConfig(db, guildId).None? ==> r == None
    ensures GetChannelConfig(db, guildId).Some? ==> r == GetChannelConfig(db, guildId).value.questAcceptChannel
  {
    GetChannel(db, guildId, QuestAccept)
  }

  /** `get_quest_submit_channel`. */
  function GetQuestSubmitChannel(db: Store, guildId: int): (r: Option<int>)
    ensures GetChannelConfig(db, guildId).None? ==> r == None
    ensures GetChannelConfig(db, guildId).Some? ==> r == GetChannelConfig(db, guildId).value.questSubmitChannel
  {
    GetChannel(db, guildId, QuestSubmit)
  }

  /** `get_quest_approval_channel`. */
  function GetQuestApprovalChannel(db: Store, guildId: int): (r: Option<int>)
    ensures GetChannelConfig(db, guildId).None? ==> r == None
    ensures GetChannelConfig(db, guildId).Some? ==> r == GetChannelConfig(db, guildId).value.questApprovalChannel
  {
    GetChannel(db, guildId, QuestApproval)
  }

  /** `get_notification_channel`. */
  function GetNotificationChannel(db: Store, guildId: int): (r: Option<int>)
    ensures GetChannelConfig(db, guildId).None? ==> r == None
    ensures GetChannelConfig(db, guildId).Some? ==> r == GetChannelConfig(db, guildId).value.notificationChannel
  {
    GetChannel(db, guildId, Notification)
  }

  /** The five dictionary keys of `get_guild_config`. */
  const ChannelNames: set<string> :=
    {"quest_list_channel", "quest_accept_channel", "quest_submit_channel",
     "quest_approval_channel", "notification_channel"}

  /** A key is one of the five exactly when it names a channel. */
  lemma ChannelNamesNameChannels(name: string)
    ensures name in ChannelNames <==> exists c :: ChannelName(c) == name
  {
    if name in ChannelNames {
      if name == "quest_list_channel" { assert ChannelName(QuestList) == name; }
      else if name == "quest_accept_channel" { assert ChannelName(QuestAccept) == name; }
      else if name == "quest_submit_channel" { assert ChannelName(QuestSubmit) == name; }
      else if name == "quest_approval_channel" { assert ChannelName(QuestApproval) == name; }
      else { assert ChannelName(Notification) == name; }
    }
  }

  /** `get_guild_config`: no entry for an unconfigured guild, otherwise
      exactly the five channel names, each mapped to its channel. */
  function GetGuildConfig(db: Store, guildId: int): (r: map<string, Option<int>>)
    ensures GetChannelConfig(db, guildId).None? ==> r == map[]
    ensures GetChannelConfig(db, guildId).Some? ==>
      && r.Keys == ChannelNames
      && (forall c :: ChannelName(c) in r && r[ChannelName(c)] == Field(GetChannelConfig(db, guildId).value, c))
  {
    match GetChannelConfig(db, guildId)
    case None => map[]
    case Some(cfg) =>
      map[
        "quest_list_channel" := cfg.questListChannel,
        "quest_accept_channel" := cfg.questAcceptChannel,
        "quest_submit_channel" := cfg.questSubmitChannel,
        "quest_approval_channel" := cfg.questApprovalChannel,
        "notification_channel" := cfg.notificationChannel]
  }

  /** A configured guild's dictionary has a key exactly for each channel. */
  lemma GuildConfigKeys(db: Store, guildId: int, name: string)
    requires GetChannelConfig(db, guildId).Some?
    ensures name in GetGuildConfig(db, guildId) <==> exists c :: ChannelName(c) == name
  {
    ChannelNamesNameChannels(name);
  }

  /** The five channel names are distinct. */
  lemma ChannelNamesCount()
    ensures |ChannelNames| == 5
  {
    var a, b, c, d, e := "quest_list_channel", "quest_accept_channel", "quest_submit_channel",
                         "quest_approval_channel", "notification_channel";
    assert a[6] == 'l' && b[6] == 'a' && c[6] == 's' && d[6] == 'a' && e[6] == 'c';
    assert b[7] == 'c' && d[7] == 'p';
  }

  /** So a configured guild's dictionary has exactly five entries. */
  lemma GuildConfigHasFiveKeys(db: Store, guildId: int)
    requires GetChannelConfig(db, guildId).Some?
    ensures |GetGuildConfig(db, guildId).Keys| == 5
  {
    ChannelNamesCount();
  }

  /** Reading a channel right after setting the guild's channels gives the
      value just set, and another guild's channels are untouched. */
  lemma SetThenGet(db: Store, guildId: int, list: Option<int>, accept: Option<int>, submit: Option<int>,
                   approval: Option<int>, notify: Option<int>, c: Channel, g: int)
    ensures var r := SetGuildChannels(db, guildId, list, accept, submit, approval, notify);
      GetChannel(r, guildId, c)
        == match c
           case QuestList => list
           case QuestAccept => accept
           case QuestSubmit => submit
           case QuestApproval => approval
           case Notification => notify
    ensures g != guildId ==>
      GetChannel(SetGuildChannels(db, guildId, list, accept, submit, approval, notify), g, c) == GetChannel(db, g, c)
  {
  }

  /** Setting only some channels clears the rest. */
  lemma SetClearsOmitted(db: Store, guildId: int, c: Channel)
    ensures GetChannel(SetGuildChannels(db, guildId), guildId, c) == None
  {
  }
}
