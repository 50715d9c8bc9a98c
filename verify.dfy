/**
 * The `verify` command: a chain of guards, then the role change on the
 * target member: the verified role is added and the unverified role is
 * removed when the member had it. A member's roles are a set of role ids.
 */
module VerifyCommand {
  import opened Wrappers
  import opened Records

  /** The role ids read from the environment; an unset or empty variable is missing. */
  datatype RoleConfig = RoleConfig(
    modRoleId: Option<string>,
    verifiedRoleId: Option<string>,
    unverifiedRoleId: Option<string>)

  datatype User = User(id: string, username: string)

  /** A guild member whose roles the platform changes in place. */
  class GuildMember {
    var roles: set<string>

    constructor (roles: set<string>)
      ensures this.roles == roles
    {
      this.roles := roles;
    }
  }

  /** What fetching the target member yields: the member, nothing, or an error. */
  datatype MemberLookup = Found(member: GuildMember) | Missing | LookupFails

  datatype VerifyReply =
    | GuildOnly
    | MissingRoleConfig
    | NotModerator
    | NoTarget
    | MemberNotFound
    | AlreadyVerified(username: string)
    | Verified(username: string)
    | Failed

  predicate Configured(config: RoleConfig)
  {
    Truthy(config.modRoleId) && Truthy(config.verifiedRoleId) && Truthy(config.unverifiedRoleId)
  }

  /** The guild, configuration and permission guards all pass. */
  predicate Authorized(inGuild: bool, config: RoleConfig, invokerRoles: set<string>)
  {
    inGuild && Configured(config) && config.modRoleId.value in invokerRoles
  }

  /**
   * The roles after a successful verification of a member who lacked the
   * verified role: the verified role is held, the unverified role is gone
   * (unless the two are the same role), and every other role is as before.
   * The removal is decided on the roles held before the add.
   */
  function GrantVerified(roles: set<string>, verified: string, unverified: string): (after: set<string>)
    requires verified !in roles
    ensures verified in after
    ensures unverified in after <==> unverified == verified
    ensures forall r :: r != verified && r != unverified ==> (r in after <==> r in roles)
    ensures |after| == |roles| + (if unverified in roles then 0 else 1)
  {
    var added := roles + {verified};
    if unverified in roles then
      assert added == (roles - {unverified}) + {verified} + {unverified};
      added - {unverified}
    else added
  }

  /**
   * Runs the command. `addFails` and `removeFails` say whether the
   * platform rejects the role add or the role removal; either error is
   * caught and answered with the generic failure, and a role already added
   * stays added.
   */
  method Execute(inGuild: bool, config: RoleConfig, invokerRoles: set<string>, target: Option<User>,
                 lookup: MemberLookup, addFails: bool, removeFails: bool)
    returns (reply: VerifyReply)
    modifies if lookup.Found? then {lookup.member} else {}
    ensures !inGuild ==> reply == GuildOnly
    ensures inGuild && !Configured(config) ==> reply == MissingRoleConfig
    ensures inGuild && Configured(config) && config.modRoleId.value !in invokerRoles ==> reply == NotModerator
    ensures Authorized(inGuild, config, invokerRoles) && target.None? ==> reply == NoTarget
    ensures Authorized(inGuild, config, invokerRoles) && target.Some? && lookup.LookupFails? ==> reply == Failed
    ensures Authorized(inGuild, config, invokerRoles) && target.Some? && lookup.Missing? ==> reply == MemberNotFound
    ensures Authorized(inGuild, config, invokerRoles) && target.Some? && lookup.Found? ==>
              var verified, unverified := config.verifiedRoleId.value, config.unverifiedRoleId.value;
              var before := old(lookup.member.roles);
              if verified in before then
                reply == AlreadyVerified(target.value.username) && lookup.member.roles == before
              else if addFails then
                reply == Failed && lookup.member.roles == before
              else if unverified in before && removeFails then
                reply == Failed && lookup.member.roles == before + {verified}
              else
                reply == Verified(target.value.username) && lookup.member.roles == GrantVerified(before, verified, unverified)
    ensures lookup.Found? && !(Authorized(inGuild, config, invokerRoles) && target.Some?) ==>
              lookup.member.roles == old(lookup.member.roles)
  {
    if !inGuild {
      return GuildOnly;
    }
    if !Configured(config) {
      return MissingRoleConfig;
    }
    var modRole, verified, unverified := config.modRoleId.value, config.verifiedRoleId.value, config.unverifiedRoleId.value;
    if modRole !in invokerRoles {
      return NotModerator;
    }
    if target.None? {
      return NoTarget;
    }
    var member: GuildMember;
    match lookup {
      case LookupFails =>
        return Failed;
      case Missing =>
        return MemberNotFound;
      case Found(m) =>
        member := m;
    }
    // The member's cached roles as fetched: the add below does not refresh them.
    var cached := member.roles;
    if verified in cached {
      return AlreadyVerified(target.value.username);
    }
    if addFails {
      return Failed;
    }
    member.roles := member.roles + {verified};
    if unverified in cached {
      if removeFails {
        return Failed;
      }
      member.roles := member.roles - {unverified};
    }
    reply := Verified(target.value.username);
  }

  /**
   * Verifying the same member twice: the second run answers "already
   * verified" and changes nothing.
   */
  method VerifyTwice(config: RoleConfig, invokerRoles: set<string>, user: User, roles: set<string>)
    returns (first: VerifyReply, second: VerifyReply, afterFirst: set<string>, afterSecond: set<string>)
    requires Authorized(true, config, invokerRoles)
    ensures first == Verified(user.username) || first == AlreadyVerified(user.username)
    ensures config.verifiedRoleId.value in afterFirst
    ensures second == AlreadyVerified(user.username)
    ensures afterSecond == afterFirst
  {
    var member := new GuildMember(roles);
    first := Execute(true, config, invokerRoles, Some(user), Found(member), false, false);
    afterFirst := member.roles;
    second := Execute(true, config, invokerRoles, Some(user), Found(member), false, false);
    afterSecond := member.roles;
  }
}
