/**
 * The document schemas of the backend: the closed catalog of in-game admin
 * permissions, the weekday enumeration, the ActiveDays validator, and the
 * required fields, optional fields and defaults of each record type.
 *
 * A document arrives with some fields omitted (`Option`), is cast into a
 * record with every default applied, or is refused with a `SchemaError`.
 * `required` follows the document mapper's meaning: a required String must
 * be present and non-empty, a required Boolean or Number must be present,
 * and an array path that is omitted starts out as the empty array.
 */
module Schema {
  import opened Wrappers

  // ---------------------------------------------------------------------
  // Permission catalog
  // ---------------------------------------------------------------------

  /** The in-game admin permissions, in declaration order. */
  datatype Permission =
    | ChangeMap | CanSeeAdminChat | Balance | Pause | Cheat | Private
    | CanUseAdminChat | Kick | Ban | Config | Immune | ManageServer
    | Cameraman | FeatureTest | ForceTeamChange | Reserve | Demos | Debug
    | TeamChange

  /** The identifier stored for each permission. */
  function PermissionId(p: Permission): string {
    match p
    case ChangeMap => "changemap"
    case CanSeeAdminChat => "canseeadminchat"
    case Balance => "balance"
    case Pause => "pause"
    case Cheat => "cheat"
    case Private => "private"
    case CanUseAdminChat => "chat"
    case Kick => "kick"
    case Ban => "ban"
    case Config => "config"
    case Immune => "immune"
    case ManageServer => "manageserver"
    case Cameraman => "cameraman"
    case FeatureTest => "featuretest"
    case ForceTeamChange => "forceteamchange"
    case Reserve => "reserve"
    case Demos => "demos"
    case Debug => "debug"
    case TeamChange => "teamchange"
  }

  /** Every permission once, in declaration order. */
  const AllPermissions: seq<Permission> :=
    [ChangeMap, CanSeeAdminChat, Balance, Pause, Cheat, Private,
     CanUseAdminChat, Kick, Ban, Config, Immune, ManageServer,
     Cameraman, FeatureTest, ForceTeamChange, Reserve, Demos, Debug,
     TeamChange]

  /** Where each permission sits in the declaration order. */
  function Position(p: Permission): (k: nat)
    ensures k < |AllPermissions| && AllPermissions[k] == p
  {
    match p
    case ChangeMap => 0
    case CanSeeAdminChat => 1
    case Balance => 2
    case Pause => 3
    case Cheat => 4
    case Private => 5
    case CanUseAdminChat => 6
    case Kick => 7
    case Ban => 8
    case Config => 9
    case Immune => 10
    case ManageServer => 11
    case Cameraman => 12
    case FeatureTest => 13
    case ForceTeamChange => 14
    case Reserve => 15
    case Demos => 16
    case Debug => 17
    case TeamChange => 18
  }

  /** Reads an identifier back into the catalog; `None` for anything else. */
  function ParsePermission(s: string): (r: Option<Permission>)
    ensures r.Some? ==> PermissionId(r.value) == s
    ensures r.None? <==> forall p: Permission :: PermissionId(p) != s
  {
    if s == "changemap" then Some(ChangeMap)
    else if s == "canseeadminchat" then Some(CanSeeAdminChat)
    else if s == "balance" then Some(Balance)
    else if s == "pause" then Some(Pause)
    else if s == "cheat" then Some(Cheat)
    else if s == "private" then Some(Private)
    else if s == "chat" then Some(CanUseAdminChat)
    else if s == "kick" then Some(Kick)
    else if s == "ban" then Some(Ban)
    else if s == "config" then Some(Config)
    else if s == "immune" then Some(Immune)
    else if s == "manageserver" then Some(ManageServer)
    else if s == "cameraman" then Some(Cameraman)
    else if s == "featuretest" then Some(FeatureTest)
    else if s == "forceteamchange" then Some(ForceTeamChange)
    else if s == "reserve" then Some(Reserve)
    else if s == "demos" then Some(Demos)
    else if s == "debug" then Some(Debug)
    else if s == "teamchange" then Some(TeamChange)
    else None
  }

  /** Every identifier reads back as the permission it came from. */
  lemma PermissionRoundTrip(p: Permission)
    ensures ParsePermission(PermissionId(p)) == Some(p)
  {
    match p
    case ChangeMap =>
    case CanSeeAdminChat =>
    case Balance =>
    case Pause =>
    case Cheat =>
    case Private =>
    case CanUseAdminChat =>
    case Kick =>
    case Ban =>
    case Config =>
    case Immune =>
    case ManageServer =>
    case Cameraman =>
    case FeatureTest =>
    case ForceTeamChange =>
    case Reserve =>
    case Demos =>
    case Debug =>
    case TeamChange =>
  }

  /** No two permissions share an identifier. */
  lemma PermissionIdInjective(p: Permission, q: Permission)
    ensures PermissionId(p) == PermissionId(q) ==> p == q
  {
    PermissionRoundTrip(p);
    PermissionRoundTrip(q);
  }

  /** The identifiers the schema accepts, in declaration order. */
  function CatalogIds(): (ids: seq<string>)
    ensures |ids| == 19
    ensures forall p: Permission :: PermissionId(p) in ids
    ensures forall s :: s in ids <==> ParsePermission(s).Some?
    ensures forall i, j :: 0 <= i < j < |ids| ==> ids[i] != ids[j]
  {
    var ids := seq(|AllPermissions|, i requires 0 <= i < |AllPermissions| => PermissionId(AllPermissions[i]));
    forall p: Permission ensures PermissionId(p) in ids {
      assert ids[Position(p)] == PermissionId(p);
    }
    forall i, j | 0 <= i < j < |ids| ensures ids[i] != ids[j] {
      PermissionIdInjective(AllPermissions[i], AllPermissions[j]);
    }
    ids
  }

  /** The schema's enum check on a Permissions array: every element is in the catalog. */
  predicate ValidPermissions(ids: seq<string>) {
    forall i :: 0 <= i < |ids| ==> ids[i] in CatalogIds()
  }

  // ---------------------------------------------------------------------
  // Weekdays
  // ---------------------------------------------------------------------

  /** Days of the week, numbered as the JavaScript `Date.getDay()` does. */
  datatype WeekDay = Sunday | Monday | Tuesday | Wednesday | Thursday | Friday | Saturday

  function DayNumber(d: WeekDay): int {
    match d
    case Sunday => 0
    case Monday => 1
    case Tuesday => 2
    case Wednesday => 3
    case Thursday => 4
    case Friday => 5
    case Saturday => 6
  }

  /** The numeric values of the enumeration, in declaration order. */
  const WeekDayValues: seq<int> :=
    [DayNumber(Sunday), DayNumber(Monday), DayNumber(Tuesday), DayNumber(Wednesday),
     DayNumber(Thursday), DayNumber(Friday), DayNumber(Saturday)]

  /** The weekday with number `n`, if there is one. */
  function DayOf(n: int): (r: Option<WeekDay>)
    ensures r.Some? <==> 0 <= n <= 6
    ensures r.Some? ==> DayNumber(r.value) == n
  {
    match n
    case 0 => Some(Sunday)
    case 1 => Some(Monday)
    case 2 => Some(Tuesday)
    case 3 => Some(Wednesday)
    case 4 => Some(Thursday)
    case 5 => Some(Friday)
    case 6 => Some(Saturday)
    case _ => None
  }

  /** Weekdays and the numbers 0..6 are in one-to-one correspondence. */
  lemma WeekDayBijection(d: WeekDay, n: int)
    ensures 0 <= DayNumber(d) <= 6
    ensures DayOf(DayNumber(d)) == Some(d)
    ensures DayOf(n).Some? ==> DayNumber(DayOf(n).value) == n
    ensures n in WeekDayValues <==> 0 <= n <= 6
  {
    match d
    case Sunday =>
    case Monday =>
    case Tuesday =>
    case Wednesday =>
    case Thursday =>
    case Friday =>
    case Saturday =>
  }

  /**
   * The ActiveDays validator: every element is one of the enumeration's
   * values (an `every` over the array, so the empty array passes).
   */
  function ActiveDaysValid(days: seq<int>): (ok: bool)
    ensures ok <==> forall i :: 0 <= i < |days| ==> 0 <= days[i] <= 6
    ensures ok <==> forall i :: 0 <= i < |days| ==> DayOf(days[i]).Some?
    ensures days == [] ==> ok
  {
    if days == [] then true
    else
      WeekDayBijection(Sunday, days[0]);
      days[0] in WeekDayValues && ActiveDaysValid(days[1..])
  }

  // ---------------------------------------------------------------------
  // Records and their documents
  // ---------------------------------------------------------------------

  datatype SchemaError =
    | Required(path: string)
    | NotInEnum(path: string, value: string)
    | InvalidDays(path: string)
    | DuplicateKey(path: string)

  datatype WhitelistEntry = WhitelistEntry(steamID: string, name: Option<string>)

  datatype DiscordUser = DiscordUser(
    DiscordID: string,
    DiscordName: string,
    Roles: seq<string>,
    Whitelist64IDs: seq<WhitelistEntry>,
    AdminRole64ID: Option<string>,
    Enabled: bool)

  datatype AdminGroup = AdminGroup(
    GroupName: string,
    Permissions: seq<Permission>,
    Enabled: bool,
    IsWhitelistGroup: bool)

  datatype PrivilegedRole = PrivilegedRole(
    RoleID: string,
    RoleName: string,
    AdminGroup: Option<AdminGroup>,
    ActiveDays: seq<int>,
    WhitelistSlots: int,
    Enabled: Option<bool>)

  datatype ServerRole = ServerRole(RoleID: string, RoleName: string, GuildID: string)

  datatype ListEndpoint = ListEndpoint(
    ListName: string,
    AdminGroups: seq<AdminGroup>,
    AllRolesEnabled: bool,
    Enabled: bool)

  datatype ApiKey = ApiKey(APIKey: string)

  datatype LogEntry = LogEntry(LogMessage: string, MessageType: Option<string>)

  /** Documents as submitted: any field may be omitted. */
  datatype WhitelistEntryDoc = WhitelistEntryDoc(steamID: Option<string>, name: Option<string>)

  datatype DiscordUserDoc = DiscordUserDoc(
    DiscordID: Option<string>,
    DiscordName: Option<string>,
    Roles: Option<seq<string>>,
    Whitelist64IDs: Option<seq<WhitelistEntryDoc>>,
    AdminRole64ID: Option<string>,
    Enabled: Option<bool>)

  datatype AdminGroupDoc = AdminGroupDoc(
    GroupName: Option<string>,
    Permissions: Option<seq<string>>,
    Enabled: Option<bool>,
    IsWhitelistGroup: Option<bool>)

  datatype PrivilegedRoleDoc = PrivilegedRoleDoc(
    RoleID: Option<string>,
    RoleName: Option<string>,
    AdminGroup: Option<AdminGroupDoc>,
    ActiveDays: Option<seq<int>>,
    WhitelistSlots: Option<int>,
    Enabled: Option<bool>)

  datatype ServerRoleDoc = ServerRoleDoc(RoleID: Option<string>, RoleName: Option<string>, GuildID: Option<string>)

  datatype ListEndpointDoc = ListEndpointDoc(
    ListName: Option<string>,
    AdminGroups: Option<seq<AdminGroupDoc>>,
    AllRolesEnabled: Option<bool>,
    Enabled: Option<bool>)

  datatype ApiKeyDoc = ApiKeyDoc(APIKey: Option<string>)

  datatype LogEntryDoc = LogEntryDoc(LogMessage: Option<string>, MessageType: Option<string>)

  /** A required String is present and non-empty. */
  predicate Given(v: Option<string>) {
    v.Some? && v.value != ""
  }

  function RequiredString(path: string, v: Option<string>): (r: Result<string, SchemaError>)
    ensures r.Success? <==> Given(v)
    ensures r.Success? ==> r.value == v.value
    ensures r.Failure? ==> r.error == Required(path)
  {
    if Given(v) then Success(v.value) else Failure(Required(path))
  }

  function RequiredBool(path: string, v: Option<bool>): (r: Result<bool, SchemaError>)
    ensures r.Success? <==> v.Some?
    ensures r.Success? ==> r.value == v.value
    ensures r.Failure? ==> r.error == Required(path)
  {
    if v.Some? then Success(v.value) else Failure(Required(path))
  }

  /**
   * Casts every element of an array path; the first element that fails
   * decides the error.
   */
  function CastAll<D, R>(docs: seq<D>, cast: D -> Result<R, SchemaError>): (r: Result<seq<R>, SchemaError>)
    ensures r.Success? <==> forall i :: 0 <= i < |docs| ==> cast(docs[i]).Success?
    ensures r.Success? ==> |r.value| == |docs| && forall i :: 0 <= i < |docs| ==> r.value[i] == cast(docs[i]).value
    ensures r.Failure? ==> exists i :: 0 <= i < |docs| && cast(docs[i]) == Failure(r.error)
  {
    if docs == [] then Success([])
    else
      match cast(docs[0])
      case Failure(e) => Failure(e)
      case Success(x) =>
        match CastAll(docs[1..], cast)
        case Failure(e) =>
          assert forall i :: 0 <= i < |docs| - 1 ==> docs[1..][i] == docs[i + 1];
          Failure(e)
        case Success(xs) =>
          assert forall i :: 0 <= i < |docs| - 1 ==> docs[1..][i] == docs[i + 1];
          Success([x] + xs)
  }

  function CastPermission(s: string): (r: Result<Permission, SchemaError>)
    ensures r.Success? <==> s in CatalogIds()
    ensures r.Success? ==> PermissionId(r.value) == s
    ensures r.Failure? ==> r.error == NotInEnum("Permissions", s)
  {
    match ParsePermission(s)
    case Some(p) => Success(p)
    case None => Failure(NotInEnum("Permissions", s))
  }

  /** Ids(ps) is the stored form of a permission list. */
  function Ids(ps: seq<Permission>): (ids: seq<string>)
    ensures |ids| == |ps| && forall i :: 0 <= i < |ps| ==> ids[i] == PermissionId(ps[i])
  {
    seq(|ps|, i requires 0 <= i < |ps| => PermissionId(ps[i]))
  }

  /**
   * An admin group: GroupName required, every permission a catalog member,
   * Enabled defaulting to true and IsWhitelistGroup to false.
   */
  function CastAdminGroup(doc: AdminGroupDoc): (r: Result<AdminGroup, SchemaError>)
    ensures r.Success? <==> Given(doc.GroupName) && ValidPermissions(doc.Permissions.GetOr([]))
    ensures !ValidPermissions(doc.Permissions.GetOr([])) ==> r.Failure? && r.error.NotInEnum?
    ensures r.Success? ==> r.value.GroupName == doc.GroupName.value
    ensures r.Success? ==> Ids(r.value.Permissions) == doc.Permissions.GetOr([])
    ensures r.Success? ==> (doc.Enabled.None? ==> r.value.Enabled) && (doc.Enabled.Some? ==> r.value.Enabled == doc.Enabled.value)
    ensures r.Success? ==> (doc.IsWhitelistGroup.None? ==> !r.value.IsWhitelistGroup) && (doc.IsWhitelistGroup.Some? ==> r.value.IsWhitelistGroup == doc.IsWhitelistGroup.value)
  {
    var ids := doc.Permissions.GetOr([]);
    match CastAll(ids, CastPermission)
    case Failure(e) => Failure(e)
    case Success(perms) =>
      match RequiredString("GroupName", doc.GroupName)
      case Failure(e) => Failure(e)
      case Success(name) =>
        Success(AdminGroup(name, perms, doc.Enabled.GetOr(true), doc.IsWhitelistGroup.GetOr(false)))
  }

  /** A whitelist entry: steamID required, name optional. */
  function CastWhitelistEntry(doc: WhitelistEntryDoc): (r: Result<WhitelistEntry, SchemaError>)
    ensures r.Success? <==> Given(doc.steamID)
    ensures r.Success? ==> r.value == WhitelistEntry(doc.steamID.value, doc.name)
  {
    match RequiredString("Whitelist64IDs.steamID", doc.steamID)
    case Failure(e) => Failure(e)
    case Success(id) => Success(WhitelistEntry(id, doc.name))
  }

  function CastDiscordUser(doc: DiscordUserDoc): (r: Result<DiscordUser, SchemaError>)
    ensures r.Success? <==>
      && Given(doc.DiscordID) && Given(doc.DiscordName) && doc.Enabled.Some?
      && forall i :: 0 <= i < |doc.Whitelist64IDs.GetOr([])| ==> Given(doc.Whitelist64IDs.GetOr([])[i].steamID)
    ensures r.Success? ==>
      && r.value.DiscordID == doc.DiscordID.value
      && r.value.DiscordName == doc.DiscordName.value
      && r.value.Roles == doc.Roles.GetOr([])
      && |r.value.Whitelist64IDs| == |doc.Whitelist64IDs.GetOr([])|
      && r.value.AdminRole64ID == doc.AdminRole64ID
      && r.value.Enabled == doc.Enabled.value
    ensures r.Success? ==> forall i :: 0 <= i < |r.value.Whitelist64IDs| ==>
      r.value.Whitelist64IDs[i].steamID == doc.Whitelist64IDs.value[i].steamID.value
      && r.value.Whitelist64IDs[i].name == doc.Whitelist64IDs.value[i].name
  {
    match RequiredString("DiscordID", doc.DiscordID)
    case Failure(e) => Failure(e)
    case Success(id) =>
      match RequiredString("DiscordName", doc.DiscordName)
      case Failure(e) => Failure(e)
      case Success(name) =>
        match CastAll(doc.Whitelist64IDs.GetOr([]), CastWhitelistEntry)
        case Failure(e) => Failure(e)
        case Success(entries) =>
          match RequiredBool("Enabled", doc.Enabled)
          case Failure(e) => Failure(e)
          case Success(enabled) =>
            Success(DiscordUser(id, name, doc.Roles.GetOr([]), entries, doc.AdminRole64ID, enabled))
  }

  /**
   * A privileged role: RoleID and RoleName required, an optional embedded
   * admin group cast by the admin-group rules, ActiveDays checked by the
   * validator, WhitelistSlots defaulting to 0, Enabled optional.
   */
  function CastPrivilegedRole(doc: PrivilegedRoleDoc): (r: Result<PrivilegedRole, SchemaError>)
    ensures r.Success? <==>
      && Given(doc.RoleID) && Given(doc.RoleName)
      && (doc.AdminGroup.Some? ==> CastAdminGroup(doc.AdminGroup.value).Success?)
      && ActiveDaysValid(doc.ActiveDays.GetOr([]))
    ensures !ActiveDaysValid(doc.ActiveDays.GetOr([])) ==> r == Failure(InvalidDays("ActiveDays"))
    ensures r.Success? ==>
      && r.value.RoleID == doc.RoleID.value
      && r.value.RoleName == doc.RoleName.value
      && r.value.AdminGroup.Some? == doc.AdminGroup.Some?
      && (doc.AdminGroup.Some? ==> r.value.AdminGroup == Some(CastAdminGroup(doc.AdminGroup.value).value))
      && r.value.ActiveDays == doc.ActiveDays.GetOr([])
      && (forall i :: 0 <= i < |r.value.ActiveDays| ==> 0 <= r.value.ActiveDays[i] <= 6)
      && (doc.WhitelistSlots.None? ==> r.value.WhitelistSlots == 0)
      && (doc.WhitelistSlots.Some? ==> r.value.WhitelistSlots == doc.WhitelistSlots.value)
      && r.value.Enabled == doc.Enabled
  {
    var days := doc.ActiveDays.GetOr([]);
    if !ActiveDaysValid(days) then Failure(InvalidDays("ActiveDays"))
    else
      match RequiredString("RoleID", doc.RoleID)
      case Failure(e) => Failure(e)
      case Success(id) =>
        match RequiredString("RoleName", doc.RoleName)
        case Failure(e) => Failure(e)
        case Success(name) =>
          if doc.AdminGroup.None? then
            Success(PrivilegedRole(id, name, None, days, doc.WhitelistSlots.GetOr(0), doc.Enabled))
          else
            match CastAdminGroup(doc.AdminGroup.value)
            case Failure(e) => Failure(e)
            case Success(g) =>
              Success(PrivilegedRole(id, name, Some(g), days, doc.WhitelistSlots.GetOr(0), doc.Enabled))
  }

  function CastServerRole(doc: ServerRoleDoc): (r: Result<ServerRole, SchemaError>)
    ensures r.Success? <==> Given(doc.RoleID) && Given(doc.RoleName) && Given(doc.GuildID)
    ensures r.Success? ==> r.value == ServerRole(doc.RoleID.value, doc.RoleName.value, doc.GuildID.value)
  {
    match RequiredString("RoleID", doc.RoleID)
    case Failure(e) => Failure(e)
    case Success(id) =>
      match RequiredString("RoleName", doc.RoleName)
      case Failure(e) => Failure(e)
      case Success(name) =>
        match RequiredString("GuildID", doc.GuildID)
        case Failure(e) => Failure(e)
        case Success(guild) => Success(ServerRole(id, name, guild))
  }

  /**
   * A list endpoint: ListName required; AdminGroups defaulting to the empty
   * array, each cast by the admin-group rules; AllRolesEnabled and Enabled
   * defaulting to true. The schema has no UseWhitelistGroup path, so the
   * record has no such field.
   */
  function CastListEndpoint(doc: ListEndpointDoc): (r: Result<ListEndpoint, SchemaError>)
    ensures r.Success? <==>
      && Given(doc.ListName)
      && forall i :: 0 <= i < |doc.AdminGroups.GetOr([])| ==> CastAdminGroup(doc.AdminGroups.GetOr([])[i]).Success?
    ensures r.Success? ==>
      && r.value.ListName == doc.ListName.value
      && |r.value.AdminGroups| == |doc.AdminGroups.GetOr([])|
      && (forall i :: 0 <= i < |r.value.AdminGroups| ==>
            r.value.AdminGroups[i] == CastAdminGroup(doc.AdminGroups.GetOr([])[i]).value)
      && (doc.AdminGroups.None? ==> r.value.AdminGroups == [])
      && (doc.AllRolesEnabled.None? ==> r.value.AllRolesEnabled)
      && (doc.AllRolesEnabled.Some? ==> r.value.AllRolesEnabled == doc.AllRolesEnabled.value)
      && (doc.Enabled.None? ==> r.value.Enabled)
      && (doc.Enabled.Some? ==> r.value.Enabled == doc.Enabled.value)
  {
    match RequiredString("ListName", doc.ListName)
    case Failure(e) => Failure(e)
    case Success(name) =>
      match CastAll(doc.AdminGroups.GetOr([]), CastAdminGroup)
      case Failure(e) => Failure(e)
      case Success(groups) =>
        Success(ListEndpoint(name, groups, doc.AllRolesEnabled.GetOr(true), doc.Enabled.GetOr(true)))
  }

  function CastApiKey(doc: ApiKeyDoc): (r: Result<ApiKey, SchemaError>)
    ensures r.Success? <==> Given(doc.APIKey)
    ensures r.Success? ==> r.value.APIKey == doc.APIKey.value
  {
    match RequiredString("APIKey", doc.APIKey)
    case Failure(e) => Failure(e)
    case Success(k) => Success(ApiKey(k))
  }

  function CastLogEntry(doc: LogEntryDoc): (r: Result<LogEntry, SchemaError>)
    ensures r.Success? <==> Given(doc.LogMessage)
    ensures r.Success? ==> r.value == LogEntry(doc.LogMessage.value, doc.MessageType)
  {
    match RequiredString("LogMessage", doc.LogMessage)
    case Failure(e) => Failure(e)
    case Success(m) => Success(LogEntry(m, doc.MessageType))
  }

  /** Every permission of a cast group is a catalog member and reads back to itself. */
  lemma {:induction false} CastGroupPermissionsValid(doc: AdminGroupDoc)
    requires CastAdminGroup(doc).Success?
    ensures ValidPermissions(Ids(CastAdminGroup(doc).value.Permissions))
    ensures forall i :: 0 <= i < |CastAdminGroup(doc).value.Permissions| ==>
      ParsePermission(Ids(CastAdminGroup(doc).value.Permissions)[i]) == Some(CastAdminGroup(doc).value.Permissions[i])
  {
    var ps := CastAdminGroup(doc).value.Permissions;
    forall i | 0 <= i < |ps| ensures ParsePermission(Ids(ps)[i]) == Some(ps[i]) {
      PermissionRoundTrip(ps[i]);
    }
  }
}
