/** Checking delivery destinations against the gateway state: which guilds and channels the
    bot can use, and what it lacks in the others. */
module Destinations {

  import opened Wrappers
  import opened Text
  import opened Bits
  import opened Permissions

  type Guilds = map<string, Guild>

  datatype DestinationType = GuildTarget | ChannelTarget | DirectMessage

  datatype ValidationState = Invalid | Valid | MissingPermission | BotNotMember | NotFound

  datatype RedactionStatus = Redacted | Suppressed | RedactionFailed

  datatype Destination = Destination(
    tenantId: string,
    connectorId: string,
    destinationId: string,
    destinationType: DestinationType,
    providerLabel: string,
    selected: bool,
    state: ValidationState,
    reasonCode: string,
    validatedAt: int,
    redactionStatus: RedactionStatus,
    safeEvidence: map<string, string>)

  // ------------------------------------------------------------- permissions in a channel

  datatype Absent = GuildNotFound

  /** Direct messages need no guild; other channels are looked up by their own guild id. */
  function UserChannelPermissions(guilds: Guilds, c: Channel, userId: string): Result<bv64, Absent> {
    if c.channelType != GuildText then Success(ALL)
    else if c.guildId !in guilds then Failure(GuildNotFound)
    else Success(PermissionsOf(guilds[c.guildId], c, userId))
  }

  datatype Required = Required(name: string, bit: bv64)

  const REQUIRED: seq<Required> :=
    [Required("view_channel", VIEW_CHANNEL),
     Required("send_messages", SEND_MESSAGES),
     Required("read_message_history", READ_MESSAGE_HISTORY)]

  /** The names of the required bits that are not set, in the order of the table. */
  function MissingNames(permissions: bv64, required: seq<Required>): seq<string> {
    if required == [] then []
    else (if Has(permissions, required[0].bit) then [] else [required[0].name])
         + MissingNames(permissions, required[1..])
  }

  function MissingChannelPermissions(permissions: bv64): string {
    Join(MissingNames(permissions, REQUIRED), ",")
  }

  lemma {:induction false} MissingNamesExact(permissions: bv64, required: seq<Required>, name: string)
    ensures name in MissingNames(permissions, required) <==>
      exists q :: q in required && q.name == name && !Has(permissions, q.bit)
  {
    if required != [] {
      MissingNamesExact(permissions, required[1..], name);
      assert required == [required[0]] + required[1..];
    }
  }

  predicate SendsAndReads(permissions: bv64) {
    Has(permissions, VIEW_CHANNEL) && Has(permissions, SEND_MESSAGES) && Has(permissions, READ_MESSAGE_HISTORY)
  }

  predicate PlainName(name: string) {
    name != "" && ',' !in name
  }

  lemma RequiredNamesPlain(q: Required)
    requires q in REQUIRED
    ensures PlainName(q.name)
  {
  }

  lemma MissingNamesPlain(permissions: bv64)
    ensures forall name :: name in MissingNames(permissions, REQUIRED) ==> PlainName(name)
  {
    forall name | name in MissingNames(permissions, REQUIRED) ensures PlainName(name) {
      MissingNamesExact(permissions, REQUIRED, name);
      var q :| q in REQUIRED && q.name == name;
      RequiredNamesPlain(q);
    }
  }

  lemma {:induction false} NothingMissing(permissions: bv64, required: seq<Required>)
    ensures MissingNames(permissions, required) == [] <==>
      forall i :: 0 <= i < |required| ==> Has(permissions, required[i].bit)
  {
    if required != [] {
      NothingMissing(permissions, required[1..]);
      assert required == [required[0]] + required[1..];
    }
  }

  lemma JoinOfPlain(names: seq<string>)
    requires forall name :: name in names ==> PlainName(name)
    ensures Join(names, ",") == "" <==> names == []
    ensures names != [] ==> Split(Join(names, ","), ",") == names
  {
    if names != [] {
      assert PlainName(names[0]);
      forall i | 0 <= i < |names| ensures ',' !in names[i] {
        assert PlainName(names[i]);
      }
      SplitOfJoinChar(names, ',');
    }
  }

  lemma NothingMissingIffSet(permissions: bv64)
    ensures MissingNames(permissions, REQUIRED) == [] <==> SendsAndReads(permissions)
  {
    NothingMissing(permissions, REQUIRED);
    assert REQUIRED[0].bit == VIEW_CHANNEL && REQUIRED[1].bit == SEND_MESSAGES && REQUIRED[2].bit == READ_MESSAGE_HISTORY;
  }

  /** The text is empty exactly when all three bits are set; otherwise its comma-separated
      parts are exactly the names of the bits that are not. */
  lemma MissingTextExact(permissions: bv64)
    ensures MissingChannelPermissions(permissions) == "" <==> SendsAndReads(permissions)
    ensures !SendsAndReads(permissions) ==>
      forall name :: name in Split(MissingChannelPermissions(permissions), ",") <==> Missing(permissions, name)
  {
    var names := MissingNames(permissions, REQUIRED);
    MissingNamesPlain(permissions);
    NothingMissingIffSet(permissions);
    JoinOfPlain(names);
    forall name ensures name in names <==> Missing(permissions, name) {
      MissingNamesExact(permissions, REQUIRED, name);
      MissingByTable(permissions, name);
    }
  }

  /** The name is that of a bit the bot needs and does not have. */
  predicate Missing(permissions: bv64, name: string) {
    || (name == "view_channel" && !Has(permissions, VIEW_CHANNEL))
    || (name == "send_messages" && !Has(permissions, SEND_MESSAGES))
    || (name == "read_message_history" && !Has(permissions, READ_MESSAGE_HISTORY))
  }

  lemma MissingByTable(permissions: bv64, name: string)
    ensures Missing(permissions, name) <==>
      exists q :: q in REQUIRED && q.name == name && !Has(permissions, q.bit)
  {
    assert REQUIRED[0] in REQUIRED && REQUIRED[1] in REQUIRED && REQUIRED[2] in REQUIRED;
    if q :| q in REQUIRED && q.name == name && !Has(permissions, q.bit) {
      assert q == REQUIRED[0] || q == REQUIRED[1] || q == REQUIRED[2];
    }
  }

  // ------------------------------------------------------------- one destination

  /** Some guild lists the channel under the id. */
  ghost predicate Listed(guilds: Guilds, id: string, c: Channel) {
    exists g :: g in guilds && id in guilds[g].channels && guilds[g].channels[id] == c
  }

  /** A possible answer of the lookup over all guilds, whose order is not fixed. */
  ghost predicate Found(guilds: Guilds, id: string, found: Option<Channel>) {
    match found
    case Some(c) => Listed(guilds, id, c)
    case None => forall c :: !Listed(guilds, id, c)
  }

  method FindChannel(guilds: Guilds, id: string) returns (found: Option<Channel>)
    ensures Found(guilds, id, found)
  {
    if g :| g in guilds && id in guilds[g].channels {
      found := Some(guilds[g].channels[id]);
    } else {
      found := None;
    }
  }

  /** A label that says only that there is an id. */
  function RedactedLabel(id: string): string {
    if Trim(Rust, id) == "" then "" else "discord_resource_redacted"
  }

  function Verdict(d: Destination, state: ValidationState, reasonCode: string): Destination {
    d.(state := state, reasonCode := reasonCode)
  }

  function ChannelVerdict(guilds: Guilds, bot: string, d: Destination, c: Channel): Destination {
    var labelled := d.(providerLabel := RedactedLabel(c.id));
    match UserChannelPermissions(guilds, c, bot)
    case Success(permissions) =>
      var missing := MissingChannelPermissions(permissions);
      if missing != "" then
        Verdict(labelled, MissingPermission, "permission_missing")
        .(safeEvidence := d.safeEvidence["missingPermissions" := missing])
      else
        Verdict(labelled, Valid, "healthy")
        .(safeEvidence := d.safeEvidence["permissionCheck" := "send_read"])
    case Failure(_) =>
      Verdict(labelled, MissingPermission, "permission_missing")
      .(safeEvidence := d.safeEvidence["permissionCheck" := "failed"]["errorClass" := "network_failed"])
  }

  /** The destination checked at `now`, given what the channel lookup found. */
  function Validated(guilds: Guilds, bot: string, now: int, d: Destination, found: Option<Channel>): Destination {
    var stamped := d.(validatedAt := now, redactionStatus := Redacted,
                     safeEvidence := map["source" := "gateway_state"]);
    match d.destinationType
    case GuildTarget =>
      if d.destinationId in guilds
      then Verdict(stamped, Valid, "healthy").(providerLabel := RedactedLabel(d.destinationId))
      else Verdict(stamped, BotNotMember, "bot_not_member")
    case ChannelTarget =>
      (match found
       case Some(c) => ChannelVerdict(guilds, bot, stamped, c)
       case None => Verdict(stamped, NotFound, "not_found"))
    case DirectMessage => Verdict(stamped, Invalid, "unsupported_destination")
  }

  // ------------------------------------------------------------- what a check means

  /** The bot can view, send and read history in the channel. */
  ghost predicate Usable(guilds: Guilds, bot: string, c: Channel) {
    || c.channelType != GuildText
    || (&& c.guildId in guilds
        && Entitled(guilds[c.guildId], c, bot, VIEW_CHANNEL)
        && Entitled(guilds[c.guildId], c, bot, SEND_MESSAGES)
        && Entitled(guilds[c.guildId], c, bot, READ_MESSAGE_HISTORY))
  }

  lemma UsableIffNothingMissing(guilds: Guilds, bot: string, c: Channel)
    ensures Usable(guilds, bot, c) <==>
      && UserChannelPermissions(guilds, c, bot).Success?
      && MissingChannelPermissions(UserChannelPermissions(guilds, c, bot).value) == ""
  {
    AllBits(VIEW_CHANNEL);
    AllBits(SEND_MESSAGES);
    AllBits(READ_MESSAGE_HISTORY);
    MissingTextExact(ALL);
    if c.channelType == GuildText && c.guildId in guilds {
      var g := guilds[c.guildId];
      PermissionBit(g, c, bot, VIEW_CHANNEL);
      PermissionBit(g, c, bot, SEND_MESSAGES);
      PermissionBit(g, c, bot, READ_MESSAGE_HISTORY);
      GrantedIffEntitled(g, c, bot, VIEW_CHANNEL);
      GrantedIffEntitled(g, c, bot, SEND_MESSAGES);
      GrantedIffEntitled(g, c, bot, READ_MESSAGE_HISTORY);
      MissingTextExact(PermissionsOf(g, c, bot));
    }
  }

  predicate SameTarget(d: Destination, r: Destination) {
    && r.tenantId == d.tenantId && r.connectorId == d.connectorId && r.selected == d.selected
    && r.destinationId == d.destinationId && r.destinationType == d.destinationType
  }

  /** The name is that of a permission the bot needs in the channel and is not entitled to. */
  ghost predicate Lacks(g: Guild, c: Channel, bot: string, name: string) {
    || (name == "view_channel" && !Entitled(g, c, bot, VIEW_CHANNEL))
    || (name == "send_messages" && !Entitled(g, c, bot, SEND_MESSAGES))
    || (name == "read_message_history" && !Entitled(g, c, bot, READ_MESSAGE_HISTORY))
  }

  /** The evidence for a missing permission: the names of what is missing, or that the channel's
      guild is not known. */
  ghost predicate TellsMissing(guilds: Guilds, bot: string, c: Channel, r: Destination) {
    if c.guildId in guilds then
      && "missingPermissions" in r.safeEvidence
      && forall name :: name in Split(r.safeEvidence["missingPermissions"], ",") <==> Lacks(guilds[c.guildId], c, bot, name)
    else
      && "permissionCheck" in r.safeEvidence && r.safeEvidence["permissionCheck"] == "failed"
      && "errorClass" in r.safeEvidence && r.safeEvidence["errorClass"] == "network_failed"
  }

  lemma LacksIff(g: Guild, c: Channel, bot: string, name: string)
    ensures Lacks(g, c, bot, name) <==> Missing(PermissionsOf(g, c, bot), name)
  {
    AllBits(VIEW_CHANNEL);
    PermissionBit(g, c, bot, VIEW_CHANNEL);
    PermissionBit(g, c, bot, SEND_MESSAGES);
    PermissionBit(g, c, bot, READ_MESSAGE_HISTORY);
    GrantedIffEntitled(g, c, bot, VIEW_CHANNEL);
    GrantedIffEntitled(g, c, bot, SEND_MESSAGES);
    GrantedIffEntitled(g, c, bot, READ_MESSAGE_HISTORY);
  }

  lemma VerdictTellsMissing(guilds: Guilds, bot: string, d: Destination, c: Channel)
    requires ChannelVerdict(guilds, bot, d, c).state == MissingPermission
    ensures !Usable(guilds, bot, c) && TellsMissing(guilds, bot, c, ChannelVerdict(guilds, bot, d, c))
  {
    UsableIffNothingMissing(guilds, bot, c);
    MissingTextExact(ALL);
    AllBits(VIEW_CHANNEL);
    AllBits(SEND_MESSAGES);
    AllBits(READ_MESSAGE_HISTORY);
    if c.channelType == GuildText && c.guildId in guilds {
      var p := PermissionsOf(guilds[c.guildId], c, bot);
      MissingTextExact(p);
      forall name ensures Lacks(guilds[c.guildId], c, bot, name) <==> Missing(p, name) {
        LacksIff(guilds[c.guildId], c, bot, name);
      }
    }
  }

  /** What a checked destination says about the state it was checked against. */
  ghost predicate Truthful(guilds: Guilds, bot: string, d: Destination, r: Destination) {
    match d.destinationType
    case GuildTarget => r.state == (if d.destinationId in guilds then Valid else BotNotMember)
    case DirectMessage => r.state == Invalid
    case ChannelTarget =>
      && r.state in {Valid, MissingPermission, NotFound}
      && (r.state == Valid ==> exists c :: Listed(guilds, d.destinationId, c) && Usable(guilds, bot, c))
      && (r.state == MissingPermission ==>
            exists c :: Listed(guilds, d.destinationId, c) && !Usable(guilds, bot, c) && TellsMissing(guilds, bot, c, r))
      && (r.state == NotFound ==> forall c :: !Listed(guilds, d.destinationId, c))
  }

  const REDACTED_LABEL := "discord_resource_redacted"

  /** What goes with a verdict: the time, one reason code per state, a label that is never the
      raw id, and the evidence for it. */
  predicate Explained(now: int, d: Destination, r: Destination) {
    && r.validatedAt == now && r.redactionStatus == Redacted
    && (r.state == Valid <==> r.reasonCode == "healthy")
    && (r.state == MissingPermission <==> r.reasonCode == "permission_missing")
    && (r.state == BotNotMember <==> r.reasonCode == "bot_not_member")
    && (r.state == NotFound <==> r.reasonCode == "not_found")
    && (r.state == Invalid <==> r.reasonCode == "unsupported_destination")
    && (if r.state == Valid || r.state == MissingPermission then r.providerLabel == "" || r.providerLabel == REDACTED_LABEL
        else r.providerLabel == d.providerLabel)
    && "source" in r.safeEvidence && r.safeEvidence["source"] == "gateway_state"
    && ("missingPermissions" in r.safeEvidence || "errorClass" in r.safeEvidence <==> r.state == MissingPermission)
    && ("permissionCheck" in r.safeEvidence && r.safeEvidence["permissionCheck"] == "send_read"
        <==> d.destinationType == ChannelTarget && r.state == Valid)
  }

  lemma ValidatedIsExplained(guilds: Guilds, bot: string, now: int, d: Destination, found: Option<Channel>)
    ensures Explained(now, d, Validated(guilds, bot, now, d, found))
  {
    if d.destinationType == ChannelTarget && found.Some? {
      ChannelIsExplained(guilds, bot, now, d, found.value);
    }
  }

  lemma ChannelIsExplained(guilds: Guilds, bot: string, now: int, d: Destination, c: Channel)
    requires d.destinationType == ChannelTarget
    ensures Explained(now, d, Validated(guilds, bot, now, d, Some(c)))
  {
  }

  /** A label that could be the raw id is one the caller had put there. */
  lemma LabelIsNotTheId(now: int, d: Destination, r: Destination, id: string)
    requires Explained(now, d, r) && id != "" && id != REDACTED_LABEL && d.providerLabel != id
    ensures r.providerLabel != id
  {
  }

  lemma ValidatedIsTruthful(guilds: Guilds, bot: string, now: int, d: Destination, found: Option<Channel>)
    requires Found(guilds, d.destinationId, found)
    ensures SameTarget(d, Validated(guilds, bot, now, d, found))
    ensures Truthful(guilds, bot, d, Validated(guilds, bot, now, d, found))
  {
    if d.destinationType == ChannelTarget && found.Some? {
      var stamped := d.(validatedAt := now, redactionStatus := Redacted, safeEvidence := map["source" := "gateway_state"]);
      UsableIffNothingMissing(guilds, bot, found.value);
      if ChannelVerdict(guilds, bot, stamped, found.value).state == MissingPermission {
        VerdictTellsMissing(guilds, bot, stamped, found.value);
      }
    }
  }

  /** A channel only one guild lists is valid exactly when the bot can use it. */
  lemma ValidIffUsable(guilds: Guilds, bot: string, d: Destination, r: Destination, c: Channel)
    requires d.destinationType == ChannelTarget && Truthful(guilds, bot, d, r)
    requires forall other :: Listed(guilds, d.destinationId, other) <==> other == c
    ensures r.state == Valid <==> Usable(guilds, bot, c)
    ensures r.state == MissingPermission <==> !Usable(guilds, bot, c)
  {
    assert Listed(guilds, d.destinationId, c);
  }

  ghost predicate CheckedAs(guilds: Guilds, bot: string, now: int, d: Destination, r: Destination) {
    exists found :: Found(guilds, d.destinationId, found) && r == Validated(guilds, bot, now, d, found)
  }

  /** Every destination is checked, in order, and every verdict is true of the gateway state. */
  method ValidateDestinations(guilds: Guilds, bot: string, now: int, destinations: seq<Destination>)
    returns (validated: seq<Destination>)
    ensures |validated| == |destinations|
    ensures forall i :: 0 <= i < |destinations| ==>
      && CheckedAs(guilds, bot, now, destinations[i], validated[i])
      && SameTarget(destinations[i], validated[i])
      && Truthful(guilds, bot, destinations[i], validated[i])
      && Explained(now, destinations[i], validated[i])
  {
    validated := [];
    for i := 0 to |destinations|
      invariant |validated| == i
      invariant forall k :: 0 <= k < i ==>
        && CheckedAs(guilds, bot, now, destinations[k], validated[k])
        && SameTarget(destinations[k], validated[k])
        && Truthful(guilds, bot, destinations[k], validated[k])
        && Explained(now, destinations[k], validated[k])
    {
      var r := ValidateOne(guilds, bot, now, destinations[i]);
      validated := validated + [r];
    }
  }

  method ValidateOne(guilds: Guilds, bot: string, now: int, d: Destination) returns (r: Destination)
    ensures CheckedAs(guilds, bot, now, d, r)
    ensures SameTarget(d, r) && Truthful(guilds, bot, d, r) && Explained(now, d, r)
  {
    var found := FindChannel(guilds, d.destinationId);
    ValidatedIsTruthful(guilds, bot, now, d, found);
    ValidatedIsExplained(guilds, bot, now, d, found);
    r := Validated(guilds, bot, now, d, found);
  }
}
