/** What a user may do in a Discord channel: the role base, the two passes of channel
    overwrites and the Administrator and owner exceptions, as a fold over 64-bit masks. */
module Permissions {

  import opened Wrappers
  import opened Bits

  const VIEW_CHANNEL: bv64 := 0x400
  const SEND_MESSAGES: bv64 := 0x800
  const READ_MESSAGE_HISTORY: bv64 := 0x1_0000
  const ADMINISTRATOR: bv64 := 0x8

  datatype Role = Role(id: string, permissions: bv64)

  datatype Member = Member(roles: seq<string>)

  datatype OverwriteKind = ForRole | ForMember

  datatype Overwrite = Overwrite(kind: OverwriteKind, id: string, allow: bv64, deny: bv64)

  datatype ChannelType = GuildText | Dm | GroupDm

  datatype Channel = Channel(id: string, guildId: string, channelType: ChannelType, overwrites: seq<Overwrite>)

  datatype Guild = Guild(
    id: string,
    ownerId: string,
    roles: seq<Role>,
    members: map<string, Member>,
    channels: map<string, Channel>)

  // ------------------------------------------------------------- the role base

  /** The first role with the id. */
  function FindRole(roles: seq<Role>, id: string): (r: Option<Role>)
    ensures r.Some? ==> r.value in roles && r.value.id == id
    ensures r.None? ==> forall i :: 0 <= i < |roles| ==> roles[i].id != id
  {
    if roles == [] then None
    else if roles[0].id == id then Some(roles[0])
    else FindRole(roles[1..], id)
  }

  function RolePermissions(g: Guild, id: string): bv64 {
    match FindRole(g.roles, id)
    case None => 0
    case Some(role) => role.permissions
  }

  /** The @everyone role (it carries the guild's own id) together with the listed roles. */
  function BasePermissions(g: Guild, roleIds: seq<string>): bv64 {
    if roleIds == [] then RolePermissions(g, g.id)
    else Union(BasePermissions(g, roleIds[..|roleIds| - 1]), RolePermissions(g, roleIds[|roleIds| - 1]))
  }

  predicate BaseGrants(g: Guild, roleIds: seq<string>, m: bv64) {
    || Has(RolePermissions(g, g.id), m)
    || exists id :: id in roleIds && Has(RolePermissions(g, id), m)
  }

  lemma {:induction false} BaseBit(g: Guild, roleIds: seq<string>, m: bv64)
    requires OneBit(m)
    ensures Has(BasePermissions(g, roleIds), m) <==> BaseGrants(g, roleIds, m)
  {
    if roleIds != [] {
      var k := |roleIds| - 1;
      BaseBit(g, roleIds[..k], m);
      UnionBit(BasePermissions(g, roleIds[..k]), RolePermissions(g, roleIds[k]), m);
      assert roleIds == roleIds[..k] + [roleIds[k]];
    }
  }

  // ------------------------------------------------------------- overwrites

  /** The two passes over a channel's overwrites and whom each is for. */
  datatype Pass = RolePass(guildId: string, roles: seq<string>) | MemberPass(userId: string)

  predicate Applies(pass: Pass, o: Overwrite) {
    match pass
    case RolePass(guildId, roles) => o.kind == ForRole && (o.id == guildId || o.id in roles)
    case MemberPass(userId) => o.kind == ForMember && o.id == userId
  }

  /** The overwrites one pass applies, in their order in the channel. */
  function Select(pass: Pass, os: seq<Overwrite>): (r: seq<Overwrite>)
    ensures forall o :: o in r <==> o in os && Applies(pass, o)
  {
    if os == [] then []
    else
      var k := |os| - 1;
      assert os == os[..k] + [os[k]];
      if Applies(pass, os[k]) then Select(pass, os[..k]) + [os[k]] else Select(pass, os[..k])
  }

  function ApplyAll(p: bv64, os: seq<Overwrite>): bv64 {
    if os == [] then p
    else Overwritten(ApplyAll(p, os[..|os| - 1]), os[|os| - 1].deny, os[|os| - 1].allow)
  }

  predicate Names(o: Overwrite, m: bv64) {
    Has(o.allow, m) || Has(o.deny, m)
  }

  /** The place of the last overwrite that names the bit, or -1. */
  function LastNaming(os: seq<Overwrite>, m: bv64): (k: int)
    ensures -1 <= k < |os|
    ensures k >= 0 ==> Names(os[k], m)
    ensures forall i :: k < i < |os| ==> !Names(os[i], m)
  {
    if os == [] then -1
    else if Names(os[|os| - 1], m) then |os| - 1
    else LastNaming(os[..|os| - 1], m)
  }

  /** The last overwrite naming the bit decides it, allowing it if it allows it at all;
      a bit no overwrite names keeps the value it had. */
  predicate Decided(os: seq<Overwrite>, m: bv64, before: bool) {
    var k := LastNaming(os, m);
    if k < 0 then before else Has(os[k].allow, m)
  }

  lemma {:induction false} ApplyAllBit(p: bv64, os: seq<Overwrite>, m: bv64)
    requires OneBit(m)
    ensures Has(ApplyAll(p, os), m) <==> Decided(os, m, Has(p, m))
  {
    if os != [] {
      var k := |os| - 1;
      ApplyAllBit(p, os[..k], m);
      OverwrittenBit(ApplyAll(p, os[..k]), os[k].deny, os[k].allow, m);
    }
  }

  lemma {:induction false} ApplyAllAppend(p: bv64, first: seq<Overwrite>, second: seq<Overwrite>)
    ensures ApplyAll(ApplyAll(p, first), second) == ApplyAll(p, first + second)
  {
    var os := first + second;
    if second == [] {
      assert os == first;
    } else {
      var k := |second| - 1;
      ApplyAllAppend(p, first, second[..k]);
      assert os[..|os| - 1] == first + second[..k];
      assert os[|os| - 1] == second[k];
    }
  }

  // ------------------------------------------------------------- a member's permissions

  /** All overwrites that concern a member: the role pass, then the member pass. */
  function Concerning(g: Guild, c: Channel, userId: string): seq<Overwrite>
    requires userId in g.members
  {
    Select(RolePass(g.id, g.members[userId].roles), c.overwrites) + Select(MemberPass(userId), c.overwrites)
  }

  function PermissionsOf(g: Guild, c: Channel, userId: string): bv64 {
    if g.ownerId == userId then ALL
    else if userId !in g.members then 0
    else
      var base := BasePermissions(g, g.members[userId].roles);
      var final := ApplyAll(base, Concerning(g, c, userId));
      if Has(base, ADMINISTRATOR) || Has(final, ADMINISTRATOR) then ALL else final
  }

  /** The bit as the roles and the last overwrite naming it leave it. */
  predicate Settled(g: Guild, c: Channel, userId: string, m: bv64)
    requires userId in g.members
  {
    Decided(Concerning(g, c, userId), m, BaseGrants(g, g.members[userId].roles, m))
  }

  /** Who has a permission bit in a channel: the owner; and a known member whose roles make
      it Administrator, or whose settled bits include Administrator or the bit itself. */
  predicate Granted(g: Guild, c: Channel, userId: string, m: bv64) {
    || g.ownerId == userId
    || (&& userId in g.members
        && (|| BaseGrants(g, g.members[userId].roles, ADMINISTRATOR)
            || Settled(g, c, userId, ADMINISTRATOR)
            || Settled(g, c, userId, m)))
  }

  lemma PermissionBit(g: Guild, c: Channel, userId: string, m: bv64)
    requires OneBit(m)
    ensures Has(PermissionsOf(g, c, userId), m) <==> Granted(g, c, userId, m)
  {
    AllBits(m);
    if g.ownerId != userId && userId in g.members {
      var roles := g.members[userId].roles;
      var base, os := BasePermissions(g, roles), Concerning(g, c, userId);
      BaseBit(g, roles, m);
      BaseBit(g, roles, ADMINISTRATOR);
      ApplyAllBit(base, os, m);
      ApplyAllBit(base, os, ADMINISTRATOR);
    }
  }

  // ------------------------------------------------------------- the law, by position

  /** The overwrite at `i` is for the user and names the bit. */
  predicate MemberAt(c: Channel, userId: string, m: bv64, i: int) {
    && 0 <= i < |c.overwrites|
    && c.overwrites[i].kind == ForMember && c.overwrites[i].id == userId
    && (Has(c.overwrites[i].allow, m) || Has(c.overwrites[i].deny, m))
  }

  /** The overwrite at `i` is for everyone or for one of the roles, and names the bit. */
  predicate RoleAt(g: Guild, c: Channel, roles: seq<string>, m: bv64, i: int) {
    && 0 <= i < |c.overwrites|
    && c.overwrites[i].kind == ForRole && (c.overwrites[i].id == g.id || c.overwrites[i].id in roles)
    && (Has(c.overwrites[i].allow, m) || Has(c.overwrites[i].deny, m))
  }

  predicate LastMemberAt(c: Channel, userId: string, m: bv64, p: int) {
    MemberAt(c, userId, m, p) && forall i :: p < i < |c.overwrites| ==> !MemberAt(c, userId, m, i)
  }

  predicate LastRoleAt(g: Guild, c: Channel, roles: seq<string>, m: bv64, q: int) {
    RoleAt(g, c, roles, m, q) && forall i :: q < i < |c.overwrites| ==> !RoleAt(g, c, roles, m, i)
  }

  /** The first role with the id has the bit. */
  predicate RoleGives(g: Guild, id: string, m: bv64) {
    exists i :: && 0 <= i < |g.roles| && g.roles[i].id == id && Has(g.roles[i].permissions, m)
                && forall j :: 0 <= j < i ==> g.roles[j].id != id
  }

  /** The @everyone role, or a role of the member, has the bit. */
  predicate RolesGive(g: Guild, roles: seq<string>, m: bv64) {
    RoleGives(g, g.id, m) || exists id :: id in roles && RoleGives(g, id, m)
  }

  /** The bit before the Administrator rule: as the user's last own overwrite naming it says,
      else as the last role overwrite naming it says, else as the roles say. */
  ghost predicate Due(g: Guild, c: Channel, userId: string, m: bv64)
    requires userId in g.members
  {
    var roles := g.members[userId].roles;
    if exists p :: MemberAt(c, userId, m, p) then
      exists p :: LastMemberAt(c, userId, m, p) && Has(c.overwrites[p].allow, m)
    else if exists q :: RoleAt(g, c, roles, m, q) then
      exists q :: LastRoleAt(g, c, roles, m, q) && Has(c.overwrites[q].allow, m)
    else RolesGive(g, roles, m)
  }

  /** The owner has every bit; a member has the bits due to it, and every bit when the
      Administrator bit is given by its roles or due to it; nobody else has any. */
  ghost predicate Entitled(g: Guild, c: Channel, userId: string, m: bv64) {
    || g.ownerId == userId
    || (&& userId in g.members
        && (|| RolesGive(g, g.members[userId].roles, ADMINISTRATOR)
            || Due(g, c, userId, ADMINISTRATOR)
            || Due(g, c, userId, m)))
  }

  lemma {:induction false} FoundRoleGives(roles: seq<Role>, id: string, m: bv64)
    ensures (FindRole(roles, id).Some? && Has(FindRole(roles, id).value.permissions, m)) <==>
      exists i :: && 0 <= i < |roles| && roles[i].id == id && Has(roles[i].permissions, m)
                  && forall j :: 0 <= j < i ==> roles[j].id != id
  {
    if roles != [] && roles[0].id != id {
      var rest := roles[1..];
      FoundRoleGives(rest, id, m);
      if i :| && 0 <= i < |roles| && roles[i].id == id && Has(roles[i].permissions, m)
              && forall j :: 0 <= j < i ==> roles[j].id != id {
        assert rest[i - 1] == roles[i];
        assert forall j :: 0 <= j < i - 1 ==> rest[j].id == roles[j + 1].id;
      }
      if i :| && 0 <= i < |rest| && rest[i].id == id && Has(rest[i].permissions, m)
              && forall j :: 0 <= j < i ==> rest[j].id != id {
        assert roles[i + 1] == rest[i];
        forall j | 0 <= j < i + 1 ensures roles[j].id != id {
          assert j > 0 ==> rest[j - 1] == roles[j];
        }
      }
    }
  }

  lemma RoleGivesIff(g: Guild, id: string, m: bv64)
    requires OneBit(m)
    ensures Has(RolePermissions(g, id), m) <==> RoleGives(g, id, m)
  {
    AllBits(m);
    FoundRoleGives(g.roles, id, m);
  }

  lemma RolesGiveIff(g: Guild, roles: seq<string>, m: bv64)
    requires OneBit(m)
    ensures BaseGrants(g, roles, m) <==> RolesGive(g, roles, m)
  {
    RoleGivesIff(g, g.id, m);
    forall id ensures Has(RolePermissions(g, id), m) <==> RoleGives(g, id, m) {
      RoleGivesIff(g, id, m);
    }
  }

  predicate NamedAt(pass: Pass, os: seq<Overwrite>, m: bv64, i: int) {
    0 <= i < |os| && Applies(pass, os[i]) && Names(os[i], m)
  }

  /** The last overwrite of a pass that names the bit, found in the channel itself. */
  lemma {:induction false} LastInChannel(pass: Pass, os: seq<Overwrite>, m: bv64) returns (p: int)
    ensures -1 <= p < |os| && forall i :: p < i ==> !NamedAt(pass, os, m, i)
    ensures p >= 0 <==> LastNaming(Select(pass, os), m) >= 0
    ensures p >= 0 ==> NamedAt(pass, os, m, p) && Select(pass, os)[LastNaming(Select(pass, os), m)] == os[p]
  {
    var n := |os| - 1;
    if os == [] {
      p := -1;
    } else if NamedAt(pass, os, m, n) {
      p := n;
    } else {
      p := LastInChannel(pass, os[..n], m);
      forall i | p < i ensures !NamedAt(pass, os, m, i) {
        assert !NamedAt(pass, os[..n], m, i);
      }
    }
  }

  /** What the member pass makes of a bit, by position. */
  lemma MemberPassDecides(c: Channel, userId: string, m: bv64, before: bool)
    ensures Decided(OwnOf(c.overwrites, userId), m, before) <==>
      if exists p :: MemberAt(c, userId, m, p) then exists p :: LastMemberAt(c, userId, m, p) && Has(c.overwrites[p].allow, m)
      else before
  {
    var p := LastInChannel(MemberPass(userId), c.overwrites, m);
    forall i ensures MemberAt(c, userId, m, i) <==> NamedAt(MemberPass(userId), c.overwrites, m, i) {
    }
    if p >= 0 {
      assert MemberAt(c, userId, m, p) && LastMemberAt(c, userId, m, p);
      if q :| LastMemberAt(c, userId, m, q) && Has(c.overwrites[q].allow, m) {
        assert q == p;
      }
    }
  }

  /** What the role pass makes of a bit, by position. */
  lemma RolePassDecides(g: Guild, c: Channel, roles: seq<string>, m: bv64, before: bool)
    ensures Decided(Select(RolePass(g.id, roles), c.overwrites), m, before) <==>
      if exists q :: RoleAt(g, c, roles, m, q) then exists q :: LastRoleAt(g, c, roles, m, q) && Has(c.overwrites[q].allow, m)
      else before
  {
    var p := LastInChannel(RolePass(g.id, roles), c.overwrites, m);
    forall i ensures RoleAt(g, c, roles, m, i) <==> NamedAt(RolePass(g.id, roles), c.overwrites, m, i) {
    }
    if p >= 0 {
      assert RoleAt(g, c, roles, m, p) && LastRoleAt(g, c, roles, m, p);
      if q :| LastRoleAt(g, c, roles, m, q) && Has(c.overwrites[q].allow, m) {
        assert q == p;
      }
    }
  }

  lemma SettledIffDue(g: Guild, c: Channel, userId: string, m: bv64)
    requires userId in g.members && OneBit(m)
    ensures Settled(g, c, userId, m) <==> Due(g, c, userId, m)
  {
    var roles := g.members[userId].roles;
    var base := BaseGrants(g, roles, m);
    SettledInPasses(g, c, userId, m);
    RolesGiveIff(g, roles, m);
    RolePassDecides(g, c, roles, m, base);
    MemberPassDecides(c, userId, m, Decided(RolesOf(g, c.overwrites, userId), m, base));
  }

  lemma GrantedIffEntitled(g: Guild, c: Channel, userId: string, m: bv64)
    requires OneBit(m)
    ensures Granted(g, c, userId, m) <==> Entitled(g, c, userId, m)
  {
    if userId in g.members {
      RolesGiveIff(g, g.members[userId].roles, ADMINISTRATOR);
      SettledIffDue(g, c, userId, ADMINISTRATOR);
      SettledIffDue(g, c, userId, m);
    }
  }

  /** The permission bits of a user in a channel, for every user: each bit is set exactly when
      the user is entitled to it. */
  method MemberPermissions(g: Guild, c: Channel, userId: string) returns (permissions: bv64)
    ensures permissions == PermissionsOf(g, c, userId)
    ensures forall m :: OneBit(m) ==> (Has(permissions, m) <==> Entitled(g, c, userId, m))
  {
    forall m | OneBit(m) ensures Has(PermissionsOf(g, c, userId), m) <==> Entitled(g, c, userId, m) {
      PermissionBit(g, c, userId, m);
      GrantedIffEntitled(g, c, userId, m);
    }
    if g.ownerId == userId {
      return ALL;
    }
    if userId !in g.members {
      return 0;
    }
    var roles := g.members[userId].roles;
    permissions := RolePermissions(g, g.id);
    for i := 0 to |roles|
      invariant permissions == BasePermissions(g, roles[..i])
    {
      assert roles[..i + 1][..i] == roles[..i];
      permissions := Union(permissions, RolePermissions(g, roles[i]));
    }
    assert roles[..|roles|] == roles;
    if Has(permissions, ADMINISTRATOR) {
      return ALL;
    }
    permissions := RunPass(RolePass(g.id, roles), c.overwrites, permissions);
    permissions := RunPass(MemberPass(userId), c.overwrites, permissions);
    ApplyAllAppend(BasePermissions(g, roles), Select(RolePass(g.id, roles), c.overwrites),
                   Select(MemberPass(userId), c.overwrites));
    if Has(permissions, ADMINISTRATOR) {
      return ALL;
    }
  }

  /** One pass over the channel's overwrites. */
  method RunPass(pass: Pass, os: seq<Overwrite>, before: bv64) returns (permissions: bv64)
    ensures permissions == ApplyAll(before, Select(pass, os))
  {
    permissions := before;
    for i := 0 to |os|
      invariant permissions == ApplyAll(before, Select(pass, os[..i]))
    {
      PassStep(pass, os, i, before);
      if Applies(pass, os[i]) {
        permissions := Overwritten(permissions, os[i].deny, os[i].allow);
      }
    }
    assert os[..|os|] == os;
  }

  lemma PassStep(pass: Pass, os: seq<Overwrite>, i: nat, before: bv64)
    requires i < |os|
    ensures ApplyAll(before, Select(pass, os[..i + 1])) ==
      if Applies(pass, os[i]) then Overwritten(ApplyAll(before, Select(pass, os[..i])), os[i].deny, os[i].allow)
      else ApplyAll(before, Select(pass, os[..i]))
  {
    assert os[..i + 1][..i] == os[..i];
    var done := Select(pass, os[..i]);
    assert (done + [os[i]])[..|done|] == done;
  }

  // ------------------------------------------------------------- larger roles

  /** `h` is `g` with some roles granting more. */
  predicate RolesEnlarged(g: Guild, h: Guild) {
    && h == g.(roles := h.roles)
    && |h.roles| == |g.roles|
    && forall i :: 0 <= i < |g.roles| ==> RoleEnlarged(g.roles[i], h.roles[i])
  }

  predicate RoleEnlarged(r: Role, s: Role) {
    r.id == s.id && Within(r.permissions, s.permissions)
  }

  lemma {:induction false} FoundRoleEnlarged(rs: seq<Role>, ss: seq<Role>, id: string)
    requires |rs| == |ss| && forall i :: 0 <= i < |rs| ==> RoleEnlarged(rs[i], ss[i])
    ensures FindRole(rs, id).Some? <==> FindRole(ss, id).Some?
    ensures FindRole(rs, id).Some? ==> RoleEnlarged(FindRole(rs, id).value, FindRole(ss, id).value)
  {
    if rs != [] {
      assert RoleEnlarged(rs[0], ss[0]);
      FoundRoleEnlarged(rs[1..], ss[1..], id);
    }
  }

  lemma BaseGrantsMore(g: Guild, h: Guild, roleIds: seq<string>, m: bv64)
    requires OneBit(m) && RolesEnlarged(g, h) && BaseGrants(g, roleIds, m)
    ensures BaseGrants(h, roleIds, m)
  {
    if Has(RolePermissions(g, g.id), m) {
      RolePermissionMore(g, h, g.id, m);
    } else {
      var id :| id in roleIds && Has(RolePermissions(g, id), m);
      RolePermissionMore(g, h, id, m);
    }
  }

  lemma RolePermissionMore(g: Guild, h: Guild, id: string, m: bv64)
    requires OneBit(m) && RolesEnlarged(g, h) && Has(RolePermissions(g, id), m)
    ensures Has(RolePermissions(h, id), m)
  {
    AllBits(m);
    FoundRoleEnlarged(g.roles, h.roles, id);
    WithinByBits(RolePermissions(g, id), RolePermissions(h, id));
  }

  /** Granting more to any role never takes a bit away from anyone. */
  lemma LargerRolesGrantMore(g: Guild, h: Guild, c: Channel, userId: string)
    requires RolesEnlarged(g, h)
    ensures Within(PermissionsOf(g, c, userId), PermissionsOf(h, c, userId))
  {
    forall m | OneBit(m) && Has(PermissionsOf(g, c, userId), m)
      ensures Has(PermissionsOf(h, c, userId), m)
    {
      PermissionBit(g, c, userId, m);
      PermissionBit(h, c, userId, m);
      if userId in g.members {
        var roles := g.members[userId].roles;
        if BaseGrants(g, roles, ADMINISTRATOR) { BaseGrantsMore(g, h, roles, ADMINISTRATOR); }
        if BaseGrants(g, roles, m) { BaseGrantsMore(g, h, roles, m); }
      }
    }
    WithinByBits(PermissionsOf(g, c, userId), PermissionsOf(h, c, userId));
  }

  // ------------------------------------------------------------- the order of overwrites

  predicate Denies(o: Overwrite, m: bv64) {
    Has(o.deny, m)
  }

  predicate Allows(o: Overwrite, m: bv64) {
    Has(o.allow, m)
  }

  predicate OnlyDenies(o: Overwrite, m: bv64) {
    Denies(o, m) && !Allows(o, m)
  }

  predicate SomeDenies(os: seq<Overwrite>, m: bv64) {
    exists o :: o in os && Denies(o, m)
  }

  predicate SomeAllows(os: seq<Overwrite>, m: bv64) {
    exists o :: o in os && Allows(o, m)
  }

  predicate SomeOnlyDenies(os: seq<Overwrite>, m: bv64) {
    exists o :: o in os && OnlyDenies(o, m)
  }

  /** The bit is only denied by one overwrite and allowed by another. */
  predicate ConflictAt(os: seq<Overwrite>, m: bv64) {
    SomeOnlyDenies(os, m) && SomeAllows(os, m)
  }

  ghost predicate Conflict(os: seq<Overwrite>) {
    exists m :: OneBit(m) && ConflictAt(os, m)
  }

  function DenyMasks(os: seq<Overwrite>): seq<bv64> {
    seq(|os|, i requires 0 <= i < |os| => os[i].deny)
  }

  function AllowMasks(os: seq<Overwrite>): seq<bv64> {
    seq(|os|, i requires 0 <= i < |os| => os[i].allow)
  }

  function AllDenied(os: seq<Overwrite>): bv64 {
    UnionAll(DenyMasks(os))
  }

  function AllAllowed(os: seq<Overwrite>): bv64 {
    UnionAll(AllowMasks(os))
  }

  lemma SomeDeniesByMask(os: seq<Overwrite>, m: bv64)
    ensures SomeHas(DenyMasks(os), m) <==> SomeDenies(os, m)
  {
    if i :| 0 <= i < |os| && Has(DenyMasks(os)[i], m) {
      assert os[i] in os && Denies(os[i], m);
    }
    if o :| o in os && Denies(o, m) {
      var i :| 0 <= i < |os| && os[i] == o;
      assert Has(DenyMasks(os)[i], m);
    }
  }

  lemma SomeAllowsByMask(os: seq<Overwrite>, m: bv64)
    ensures SomeHas(AllowMasks(os), m) <==> SomeAllows(os, m)
  {
    if i :| 0 <= i < |os| && Has(AllowMasks(os)[i], m) {
      assert os[i] in os && Allows(os[i], m);
    }
    if o :| o in os && Allows(o, m) {
      var i :| 0 <= i < |os| && os[i] == o;
      assert Has(AllowMasks(os)[i], m);
    }
  }

  lemma AllDeniedBit(os: seq<Overwrite>, m: bv64)
    requires OneBit(m)
    ensures Has(AllDenied(os), m) <==> SomeDenies(os, m)
  {
    UnionAllBit(DenyMasks(os), m);
    SomeDeniesByMask(os, m);
  }

  lemma AllAllowedBit(os: seq<Overwrite>, m: bv64)
    requires OneBit(m)
    ensures Has(AllAllowed(os), m) <==> SomeAllows(os, m)
  {
    UnionAllBit(AllowMasks(os), m);
    SomeAllowsByMask(os, m);
  }

  /** Without a conflict a pass is one mask operation: every deny off, then every allow on. */
  lemma NoConflictClosedForm(p: bv64, os: seq<Overwrite>)
    requires !Conflict(os)
    ensures ApplyAll(p, os) == Overwritten(p, AllDenied(os), AllAllowed(os))
  {
    forall m | OneBit(m)
      ensures Has(ApplyAll(p, os), m) <==> Has(Overwritten(p, AllDenied(os), AllAllowed(os)), m)
    {
      ApplyAllBit(p, os, m);
      DecidedWithoutConflict(os, m, Has(p, m));
      AtOnceBit(p, os, m);
    }
    SameByBits(ApplyAll(p, os), Overwritten(p, AllDenied(os), AllAllowed(os)));
  }

  lemma AtOnceBit(p: bv64, os: seq<Overwrite>, m: bv64)
    requires OneBit(m)
    ensures Has(Overwritten(p, AllDenied(os), AllAllowed(os)), m) <==>
      SomeAllows(os, m) || (Has(p, m) && !SomeDenies(os, m))
  {
    OverwrittenBit(p, AllDenied(os), AllAllowed(os), m);
    AllDeniedBit(os, m);
    AllAllowedBit(os, m);
  }

  /** A bit without a conflict is decided by what the overwrites say, not by their order. */
  lemma DecidedWithoutConflict(os: seq<Overwrite>, m: bv64, before: bool)
    requires !ConflictAt(os, m)
    ensures Decided(os, m, before) <==> SomeAllows(os, m) || (before && !SomeDenies(os, m))
  {
    var k := LastNaming(os, m);
    if k >= 0 {
      assert os[k] in os;
      assert Allows(os[k], m) || OnlyDenies(os[k], m);
    } else {
      forall o | o in os ensures !Names(o, m) {
        var i :| 0 <= i < |os| && os[i] == o;
      }
    }
  }

  predicate SameOverwrites(os: seq<Overwrite>, other: seq<Overwrite>) {
    multiset(os) == multiset(other)
  }

  /** A pass gives the same result in every order of its overwrites, from every start. */
  ghost predicate OrderIrrelevant(os: seq<Overwrite>) {
    forall p, other :: SameOverwrites(os, other) ==> ApplyAll(p, other) == ApplyAll(p, os)
  }

  lemma ConflictShows(os: seq<Overwrite>, m: bv64)
    requires OneBit(m) && ConflictAt(os, m)
    ensures !OrderIrrelevant(os)
  {
    var o :| o in os && OnlyDenies(o, m);
    var q :| q in os && Allows(q, m);
    var deniedLast := MovedLast(os, o);
    var allowedLast := MovedLast(os, q);
    ApplyAllBit(0, deniedLast, m);
    ApplyAllBit(0, allowedLast, m);
    LastDecides(deniedLast, m);
    LastDecides(allowedLast, m);
    assert ApplyAll(0, deniedLast) != ApplyAll(0, allowedLast);
  }

  /** Order is irrelevant exactly when no bit is only denied by one overwrite and allowed by another. */
  lemma OrderIrrelevantIffNoConflict(os: seq<Overwrite>)
    ensures OrderIrrelevant(os) <==> !Conflict(os)
  {
    if Conflict(os) {
      var m :| OneBit(m) && ConflictAt(os, m);
      ConflictShows(os, m);
    } else {
      forall p, other | SameOverwrites(os, other) ensures ApplyAll(p, other) == ApplyAll(p, os) {
        SameClosedForm(os, other);
        NoConflictClosedForm(p, os);
        NoConflictClosedForm(p, other);
      }
    }
  }

  lemma LastDecides(os: seq<Overwrite>, m: bv64)
    requires os != [] && Names(os[|os| - 1], m)
    ensures Decided(os, m, Has(0, m)) <==> Allows(os[|os| - 1], m)
  {
  }

  lemma MovedLast(os: seq<Overwrite>, o: Overwrite) returns (moved: seq<Overwrite>)
    requires o in os
    ensures SameOverwrites(os, moved) && moved != [] && moved[|moved| - 1] == o
  {
    var i :| 0 <= i < |os| && os[i] == o;
    moved := os[..i] + os[i + 1..] + [o];
    assert os == os[..i] + [o] + os[i + 1..];
  }

  lemma SameMembers(os: seq<Overwrite>, other: seq<Overwrite>)
    requires SameOverwrites(os, other)
    ensures forall o :: o in os <==> o in other
  {
    forall o ensures o in os <==> o in other {
      assert o in multiset(os) <==> o in multiset(other);
    }
  }

  lemma SameClosedForm(os: seq<Overwrite>, other: seq<Overwrite>)
    requires SameOverwrites(os, other)
    ensures Conflict(os) <==> Conflict(other)
    ensures AllDenied(os) == AllDenied(other) && AllAllowed(os) == AllAllowed(other)
  {
    SameMembers(os, other);
    forall m | OneBit(m)
      ensures Has(AllDenied(os), m) <==> Has(AllDenied(other), m)
      ensures Has(AllAllowed(os), m) <==> Has(AllAllowed(other), m)
    {
      AllDeniedBit(os, m);
      AllDeniedBit(other, m);
      AllAllowedBit(os, m);
      AllAllowedBit(other, m);
    }
    SameByBits(AllDenied(os), AllDenied(other));
    SameByBits(AllAllowed(os), AllAllowed(other));
  }

  // ------------------------------------------------------------- the order in a channel

  lemma LastNamingIs(os: seq<Overwrite>, m: bv64, k: int)
    requires -1 <= k < |os| && (k >= 0 ==> Names(os[k], m))
    requires forall i :: k < i < |os| ==> !Names(os[i], m)
    ensures LastNaming(os, m) == k
  {
  }

  /** Two passes in a row: the second decides the bits it names, the first the rest. */
  lemma DecidedAppend(first: seq<Overwrite>, second: seq<Overwrite>, m: bv64, before: bool)
    ensures Decided(first + second, m, before) == Decided(second, m, Decided(first, m, before))
  {
    var os, k := first + second, LastNaming(second, m);
    if k >= 0 {
      LastNamingIs(os, m, |first| + k);
    } else {
      LastNamingIs(os, m, LastNaming(first, m));
    }
  }

  function RolesOf(g: Guild, os: seq<Overwrite>, userId: string): seq<Overwrite>
    requires userId in g.members
  {
    Select(RolePass(g.id, g.members[userId].roles), os)
  }

  function OwnOf(os: seq<Overwrite>, userId: string): seq<Overwrite> {
    Select(MemberPass(userId), os)
  }

  lemma SettledInPasses(g: Guild, c: Channel, userId: string, m: bv64)
    requires userId in g.members
    ensures Settled(g, c, userId, m) ==
      Decided(OwnOf(c.overwrites, userId), m,
              Decided(RolesOf(g, c.overwrites, userId), m, BaseGrants(g, g.members[userId].roles, m)))
  {
    DecidedAppend(RolesOf(g, c.overwrites, userId), OwnOf(c.overwrites, userId), m,
                  BaseGrants(g, g.members[userId].roles, m));
  }

  predicate SomeNames(os: seq<Overwrite>, m: bv64) {
    SomeAllows(os, m) || SomeDenies(os, m)
  }

  /** The order can change the bit: there is a conflict in the last pass that names it. */
  predicate BitOrderMatters(g: Guild, c: Channel, userId: string, m: bv64)
    requires userId in g.members
  {
    if SomeNames(OwnOf(c.overwrites, userId), m) then ConflictAt(OwnOf(c.overwrites, userId), m)
    else ConflictAt(RolesOf(g, c.overwrites, userId), m)
  }

  lemma SelectSameSays(pass: Pass, os: seq<Overwrite>, other: seq<Overwrite>, m: bv64)
    requires SameOverwrites(os, other)
    ensures SomeAllows(Select(pass, other), m) == SomeAllows(Select(pass, os), m)
    ensures SomeDenies(Select(pass, other), m) == SomeDenies(Select(pass, os), m)
    ensures SomeOnlyDenies(Select(pass, other), m) == SomeOnlyDenies(Select(pass, os), m)
  {
    SameMembers(os, other);
  }

  /** Where the order does not matter to a bit, it is settled alike in every order. */
  lemma SettledInAnyOrder(g: Guild, c: Channel, other: seq<Overwrite>, userId: string, m: bv64)
    requires userId in g.members && SameOverwrites(c.overwrites, other) && !BitOrderMatters(g, c, userId, m)
    ensures Settled(g, c.(overwrites := other), userId, m) == Settled(g, c, userId, m)
    ensures !BitOrderMatters(g, c.(overwrites := other), userId, m)
  {
    var roles, own := RolePass(g.id, g.members[userId].roles), MemberPass(userId);
    var base := BaseGrants(g, g.members[userId].roles, m);
    SelectSameSays(roles, c.overwrites, other, m);
    SelectSameSays(own, c.overwrites, other, m);
    SettledInPasses(g, c, userId, m);
    SettledInPasses(g, c.(overwrites := other), userId, m);
    if !SomeNames(Select(own, c.overwrites), m) {
      DecidedAlike(Select(roles, c.overwrites), Select(roles, other), m, base, base);
    }
    DecidedAlike(Select(own, c.overwrites), Select(own, other), m,
                 Decided(Select(roles, c.overwrites), m, base), Decided(Select(roles, other), m, base));
  }

  lemma DecidedAlike(os: seq<Overwrite>, other: seq<Overwrite>, m: bv64, before: bool, before': bool)
    requires !ConflictAt(os, m) && (SomeNames(os, m) || before == before')
    requires SomeAllows(os, m) == SomeAllows(other, m) && SomeDenies(os, m) == SomeDenies(other, m)
    requires SomeOnlyDenies(os, m) == SomeOnlyDenies(other, m)
    ensures Decided(os, m, before) == Decided(other, m, before')
  {
    DecidedWithoutConflict(os, m, before);
    DecidedWithoutConflict(other, m, before');
  }

  lemma SelectLast(pass: Pass, os: seq<Overwrite>)
    requires os != [] && Applies(pass, os[|os| - 1])
    ensures var r := Select(pass, os); r != [] && r[|r| - 1] == os[|os| - 1]
  {
  }

  /** An applicable overwrite moved to the end decides the bit it names, unless a member
      overwrite names it too and this is a role overwrite. */
  lemma LastSettles(g: Guild, c: Channel, userId: string, m: bv64, pass: Pass, o: Overwrite) returns (moved: seq<Overwrite>)
    requires userId in g.members && o in c.overwrites && Applies(pass, o) && Names(o, m)
    requires pass == MemberPass(userId)
             || (pass == RolePass(g.id, g.members[userId].roles) && !SomeNames(OwnOf(c.overwrites, userId), m))
    ensures SameOverwrites(c.overwrites, moved)
    ensures Settled(g, c.(overwrites := moved), userId, m) <==> Allows(o, m)
  {
    moved := MovedLast(c.overwrites, o);
    SelectLast(pass, moved);
    SettledInPasses(g, c.(overwrites := moved), userId, m);
    var r := Select(pass, moved);
    LastNamingIs(r, m, |r| - 1);
    if pass != MemberPass(userId) {
      SelectSameSays(MemberPass(userId), c.overwrites, moved, m);
      UnnamedKeeps(OwnOf(moved, userId), m, Decided(r, m, BaseGrants(g, g.members[userId].roles, m)));
    }
  }

  lemma UnnamedKeeps(os: seq<Overwrite>, m: bv64, before: bool)
    requires !SomeNames(os, m)
    ensures Decided(os, m, before) == before
  {
    forall i | 0 <= i < |os| ensures !Names(os[i], m) {
      assert os[i] in os;
      assert !Allows(os[i], m) && !Denies(os[i], m);
    }
    LastNamingIs(os, m, -1);
  }

  /** Where the order matters to a bit, one order grants it and another does not. */
  lemma SettledBothWays(g: Guild, c: Channel, userId: string, m: bv64) returns (yes: seq<Overwrite>, no: seq<Overwrite>)
    requires userId in g.members && BitOrderMatters(g, c, userId, m)
    ensures SameOverwrites(c.overwrites, yes) && SameOverwrites(c.overwrites, no)
    ensures Settled(g, c.(overwrites := yes), userId, m) && !Settled(g, c.(overwrites := no), userId, m)
  {
    var pass := if SomeNames(OwnOf(c.overwrites, userId), m) then MemberPass(userId)
                else RolePass(g.id, g.members[userId].roles);
    var q :| q in Select(pass, c.overwrites) && Allows(q, m);
    var o :| o in Select(pass, c.overwrites) && OnlyDenies(o, m);
    yes := LastSettles(g, c, userId, m, pass, q);
    no := LastSettles(g, c, userId, m, pass, o);
  }

  /** Some other order of the channel's overwrites gives the user other permissions. */
  ghost predicate OrderSensitive(g: Guild, c: Channel, userId: string) {
    exists other :: SameOverwrites(c.overwrites, other)
                 && PermissionsOf(g, c.(overwrites := other), userId) != PermissionsOf(g, c, userId)
  }

  /** A member that is neither owner nor Administrator by role, and for whom the order matters to
      the Administrator bit, or that bit is settled off and the order matters to some other bit. */
  ghost predicate OrderMatters(g: Guild, c: Channel, userId: string) {
    && g.ownerId != userId && userId in g.members
    && !BaseGrants(g, g.members[userId].roles, ADMINISTRATOR)
    && (|| BitOrderMatters(g, c, userId, ADMINISTRATOR)
        || (!Settled(g, c, userId, ADMINISTRATOR) && exists m :: OneBit(m) && BitOrderMatters(g, c, userId, m)))
  }

  lemma DifferentBit(g: Guild, c: Channel, userId: string, m: bv64, yes: seq<Overwrite>, no: seq<Overwrite>)
    requires OneBit(m) && SameOverwrites(c.overwrites, yes) && SameOverwrites(c.overwrites, no)
    requires Granted(g, c.(overwrites := yes), userId, m) && !Granted(g, c.(overwrites := no), userId, m)
    ensures OrderSensitive(g, c, userId)
  {
    PermissionBit(g, c.(overwrites := yes), userId, m);
    PermissionBit(g, c.(overwrites := no), userId, m);
    assert PermissionsOf(g, c.(overwrites := yes), userId) != PermissionsOf(g, c.(overwrites := no), userId);
  }

  lemma MattersIsSensitive(g: Guild, c: Channel, userId: string)
    requires OrderMatters(g, c, userId)
    ensures OrderSensitive(g, c, userId)
  {
    var m := ADMINISTRATOR;
    if !BitOrderMatters(g, c, userId, ADMINISTRATOR) {
      m :| OneBit(m) && BitOrderMatters(g, c, userId, m);
    }
    var yes, no := SettledBothWays(g, c, userId, m);
    if !BitOrderMatters(g, c, userId, ADMINISTRATOR) {
      SettledInAnyOrder(g, c, no, userId, ADMINISTRATOR);
    }
    DifferentBit(g, c, userId, m, yes, no);
  }

  lemma SameGrants(g: Guild, c: Channel, other: seq<Overwrite>, userId: string, m: bv64)
    requires SameOverwrites(c.overwrites, other) && !OrderMatters(g, c, userId) && OneBit(m)
    ensures Granted(g, c.(overwrites := other), userId, m) <==> Granted(g, c, userId, m)
  {
    if g.ownerId != userId && userId in g.members && !BaseGrants(g, g.members[userId].roles, ADMINISTRATOR) {
      SettledInAnyOrder(g, c, other, userId, ADMINISTRATOR);
      if !Settled(g, c, userId, ADMINISTRATOR) {
        SettledInAnyOrder(g, c, other, userId, m);
      }
    }
  }

  lemma SamePermissions(g: Guild, c: Channel, other: seq<Overwrite>, userId: string)
    requires SameOverwrites(c.overwrites, other) && !OrderMatters(g, c, userId)
    ensures PermissionsOf(g, c.(overwrites := other), userId) == PermissionsOf(g, c, userId)
  {
    var p, q := PermissionsOf(g, c.(overwrites := other), userId), PermissionsOf(g, c, userId);
    forall m | OneBit(m) ensures Has(p, m) <==> Has(q, m) {
      PermissionBit(g, c, userId, m);
      PermissionBit(g, c.(overwrites := other), userId, m);
      SameGrants(g, c, other, userId, m);
    }
    SameByBits(p, q);
  }

  /** Reordering a channel's overwrites can change a user's permissions exactly when the order
      matters as above; a role's deny against a member's allow, for one, never does. */
  lemma OrderSensitiveIffMatters(g: Guild, c: Channel, userId: string)
    ensures OrderSensitive(g, c, userId) <==> OrderMatters(g, c, userId)
  {
    if OrderMatters(g, c, userId) {
      MattersIsSensitive(g, c, userId);
    } else {
      forall other | SameOverwrites(c.overwrites, other)
        ensures PermissionsOf(g, c.(overwrites := other), userId) == PermissionsOf(g, c, userId)
      {
        SamePermissions(g, c, other, userId);
      }
    }
  }
}
