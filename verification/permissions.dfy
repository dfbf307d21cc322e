/** Who may create, manage and take quests (botv1/bot/permissions.py).
    A guild member is a plain record: the guild-wide permission flags the
    checks read and the member's roles; a guild is its owner's id and its
    roles by id.
 */
module Permissions {
  import opened Common

  datatype Role = Role(id: int, name: string)

  datatype Member = Member(
    id: int,
    administrator: bool,
    manageGuild: bool,
    manageChannels: bool,
    roles: seq<Role>)

  datatype Guild = Guild(ownerId: int, roles: map<int, Role>)

  /** Role names that let their holders create quests. */
  const QuestCreatorRoles: seq<string> := ["Quest Master", "Moderator", "Admin", "Staff"]

  /** Whether some role in `roles` carries one of the quest-creator names. */
  function HoldsCreatorRole(roles: seq<Role>): (b: bool)
    ensures b <==> exists i :: 0 <= i < |roles| && roles[i].name in QuestCreatorRoles
  {
    if roles == [] then false
    else if roles[0].name in QuestCreatorRoles then true
    else
      var b := HoldsCreatorRole(roles[1..]);
      assert b ==> exists i :: 0 <= i < |roles| && roles[i].name in QuestCreatorRoles by {
        if b {
          var i :| 0 <= i < |roles[1..]| && roles[1..][i].name in QuestCreatorRoles;
          assert roles[i + 1] == roles[1..][i];
        }
      }
      assert (exists i :: 0 <= i < |roles| && roles[i].name in QuestCreatorRoles) ==> b by {
        if exists i :: 0 <= i < |roles| && roles[i].name in QuestCreatorRoles {
          var i :| 0 <= i < |roles| && roles[i].name in QuestCreatorRoles;
          assert i != 0;
          assert roles[1..][i - 1] == roles[i];
        }
      }
      b
  }

  /** `has_quest_creation_permission`: the owner, an administrator, a member
      who may manage the guild or its channels, or a holder of a
      quest-creator role. */
  function HasQuestCreationPermission(user: Member, guild: Guild): (b: bool)
    ensures b <==>
      || user.id == guild.ownerId
      || user.administrator
      || user.manageGuild
      || user.manageChannels
      || exists r :: r in user.roles && r.name in QuestCreatorRoles
  {
    var b := if user.id == guild.ownerId then true
      else if user.administrator then true
      else if user.manageGuild then true
      else if user.manageChannels then true
      else HoldsCreatorRole(user.roles);
    assert (exists r :: r in user.roles && r.name in QuestCreatorRoles)
       <==> (exists i :: 0 <= i < |user.roles| && user.roles[i].name in QuestCreatorRoles) by {
      if exists r :: r in user.roles && r.name in QuestCreatorRoles {
        var r :| r in user.roles && r.name in QuestCreatorRoles;
        var i :| 0 <= i < |user.roles| && user.roles[i] == r;
      }
    }
    b
  }

  /** `can_manage_quest`: the owner, the quest's creator, an administrator or
      a member who may manage the guild may approve, reject or delete it. */
  function CanManageQuest(user: Member, guild: Guild, questCreatorId: int): (b: bool)
    ensures b <==>
      || user.id == guild.ownerId
      || user.id == questCreatorId
      || user.administrator
      || user.manageGuild
  {
    if user.id == guild.ownerId then true
    else if user.id == questCreatorId then true
    else if user.administrator then true
    else if user.manageGuild then true
    else false
  }

  /** `can_use_quest_commands`: every member may accept, complete and view quests. */
  function CanUseQuestCommands(user: Member, guild: Guild): (b: bool)
    ensures b
  {
    true
  }

  /** Managing channels is enough to create quests but not to manage other
      members' quests. */
  lemma ManageChannelsCreatesButCannotManage(user: Member, guild: Guild, questCreatorId: int)
    requires user.manageChannels && !user.administrator && !user.manageGuild
    requires user.id != guild.ownerId && user.id != questCreatorId
    ensures HasQuestCreationPermission(user, guild)
    ensures !CanManageQuest(user, guild, questCreatorId)
  {
  }

  /** Whoever may manage quests in general may also create them. */
  lemma ManagersMayCreate(user: Member, guild: Guild)
    requires forall c :: CanManageQuest(user, guild, c)
    ensures HasQuestCreationPermission(user, guild)
  {
    assert CanManageQuest(user, guild, user.id + 1);
  }

  /** Whether the guild knows the role id. */
  function Known(guild: Guild): int -> bool {
    id => id in guild.roles
  }

  /** The guild's role under a known id. */
  function Resolve(guild: Guild): int -> Role {
    id => if id in guild.roles then guild.roles[id] else Role(id, "")
  }

  /** `get_required_roles_for_quest`: the roles the guild knows among
      `requiredRoleIds`, in the order listed; unknown ids are skipped. */
  function GetRequiredRolesForQuest(guild: Guild, requiredRoleIds: seq<int>): (r: seq<Role>)
    ensures |r| <= |requiredRoleIds|
  {
    if requiredRoleIds == [] then []
    else
      (if requiredRoleIds[0] in guild.roles then [guild.roles[requiredRoleIds[0]]] else [])
      + GetRequiredRolesForQuest(guild, requiredRoleIds[1..])
  }

  /** The resolved roles are the guild's roles under the known listed ids, in
      the listed order: filter the ids, then look each one up. */
  lemma {:induction false} RequiredRolesInOrder(guild: Guild, requiredRoleIds: seq<int>)
    ensures GetRequiredRolesForQuest(guild, requiredRoleIds)
         == MapSeq(Filter(requiredRoleIds, Known(guild)), Resolve(guild))
  {
    var ids := requiredRoleIds;
    if ids != [] {
      RequiredRolesInOrder(guild, ids[1..]);
      FilterCons(ids[0], ids[1..], Known(guild));
      assert ids == [ids[0]] + ids[1..];
      var tail := Filter(ids[1..], Known(guild));
      var head := if Known(guild)(ids[0]) then [ids[0]] else [];
      MapSeqConcat(head, tail, Resolve(guild));
      assert MapSeq(head, Resolve(guild))
          == (if ids[0] in guild.roles then [guild.roles[ids[0]]] else []);
    }
  }

  /** A listed id resolves exactly when the guild knows it. */
  lemma RequiredRolesMember(guild: Guild, requiredRoleIds: seq<int>, role: Role)
    ensures role in GetRequiredRolesForQuest(guild, requiredRoleIds) <==>
      exists id :: id in requiredRoleIds && id in guild.roles && guild.roles[id] == role
  {
    RequiredRolesInOrder(guild, requiredRoleIds);
    var known := Filter(requiredRoleIds, Known(guild));
    var r := MapSeq(known, Resolve(guild));
    if role in r {
      var i :| 0 <= i < |r| && r[i] == role;
      FilterMember(requiredRoleIds, Known(guild), known[i]);
    }
    if exists id :: id in requiredRoleIds && id in guild.roles && guild.roles[id] == role {
      var id :| id in requiredRoleIds && id in guild.roles && guild.roles[id] == role;
      FilterMember(requiredRoleIds, Known(guild), id);
      var i :| 0 <= i < |known| && known[i] == id;
      assert r[i] == role;
    }
  }

  /** Whether some id of `wanted` occurs in `held`. */
  predicate SharesId(held: seq<int>, wanted: seq<int>) {
    exists i :: 0 <= i < |wanted| && wanted[i] in held
  }

  /** `user_has_required_roles`: no requirement passes; otherwise holding any
      one of the required roles is enough (not all of them). */
  function UserHasRequiredRoles(userRoleIds: seq<int>, requiredRoleIds: seq<int>): (b: bool)
    ensures requiredRoleIds == [] ==> b
    ensures requiredRoleIds != [] ==> (b <==> SharesId(userRoleIds, requiredRoleIds))
  {
    if requiredRoleIds == [] then true else AnyHeld(userRoleIds, requiredRoleIds)
  }

  /** Python's `any(role_id in held for role_id in wanted)`. */
  function AnyHeld(held: seq<int>, wanted: seq<int>): (b: bool)
    ensures b <==> SharesId(held, wanted)
  {
    if wanted == [] then false
    else if wanted[0] in held then true
    else
      var b := AnyHeld(held, wanted[1..]);
      assert SharesId(held, wanted[1..]) ==> SharesId(held, wanted) by {
        if SharesId(held, wanted[1..]) {
          var i :| 0 <= i < |wanted[1..]| && wanted[1..][i] in held;
          assert wanted[i + 1] == wanted[1..][i];
        }
      }
      assert SharesId(held, wanted) ==> SharesId(held, wanted[1..]) by {
        if SharesId(held, wanted) {
          var i :| 0 <= i < |wanted| && wanted[i] in held;
          assert wanted[1..][i - 1] == wanted[i];
        }
      }
      b
  }

  /** Holding a single one of several required roles is enough. */
  lemma AnyRoleSuffices(userRoleIds: seq<int>, requiredRoleIds: seq<int>, id: int)
    requires id in requiredRoleIds && id in userRoleIds
    ensures UserHasRequiredRoles(userRoleIds, requiredRoleIds)
  {
    var i :| 0 <= i < |requiredRoleIds| && requiredRoleIds[i] == id;
  }
}
