/**
 * The seven collections of the backend and their unique keys. An insert
 * whose unique key is already taken is refused and the store is left as it
 * was; every successful insert keeps every uniqueness constraint.
 *
 * The admin-group collection declares two unique paths, GroupName and the
 * boolean IsWhitelistGroup. Read literally, a unique boolean admits at most
 * two groups in all (one `true`, one `false`); `InsertAdminGroupAsWritten`
 * keeps that reading and the lemmas below it exhibit the limit, while the
 * store uses `InsertAdminGroup`, which enforces the evident intent: at most
 * one whitelist group, any number of ordinary ones.
 */
module Store {
  import opened Wrappers
  import opened Schema

  /** No two rows share a key. */
  predicate UniqueBy<R, K(==)>(rows: seq<R>, key: R -> K) {
    forall i, j :: 0 <= i < j < |rows| ==> key(rows[i]) != key(rows[j])
  }

  predicate HasKey<R, K(==)>(rows: seq<R>, key: R -> K, k: K) {
    exists i :: 0 <= i < |rows| && key(rows[i]) == k
  }

  /** Appends `r` unless its key is already present. */
  function Insert<R, K(==)>(rows: seq<R>, r: R, key: R -> K, path: string): (res: Result<seq<R>, SchemaError>)
    ensures res.Failure? <==> HasKey(rows, key, key(r))
    ensures res.Failure? ==> res.error == DuplicateKey(path)
    ensures res.Success? ==> res.value == rows + [r] && HasKey(res.value, key, key(r))
    ensures UniqueBy(rows, key) && res.Success? ==> UniqueBy(res.value, key)
  {
    if exists i :: 0 <= i < |rows| && key(rows[i]) == key(r) then Failure(DuplicateKey(path))
    else
      assert (rows + [r])[|rows|] == r;
      Success(rows + [r])
  }

  function ApiKeyOf(k: ApiKey): string { k.APIKey }
  function DiscordIdOf(u: DiscordUser): string { u.DiscordID }
  function GroupNameOf(g: AdminGroup): string { g.GroupName }
  function WhitelistFlagOf(g: AdminGroup): bool { g.IsWhitelistGroup }
  function RoleIdOf(r: PrivilegedRole): string { r.RoleID }
  function ServerRoleIdOf(r: ServerRole): string { r.RoleID }
  function ListNameOf(l: ListEndpoint): string { l.ListName }

  /** At most one group is the whitelist group. */
  predicate AtMostOneWhitelistGroup(groups: seq<AdminGroup>) {
    forall i, j :: 0 <= i < j < |groups| && groups[i].IsWhitelistGroup ==> !groups[j].IsWhitelistGroup
  }

  datatype Store = Store(
    apiKeys: seq<ApiKey>,
    users: seq<DiscordUser>,
    groups: seq<AdminGroup>,
    roles: seq<PrivilegedRole>,
    serverRoles: seq<ServerRole>,
    lists: seq<ListEndpoint>,
    logs: seq<LogEntry>)
  {
    /** Every unique key is unique in its collection. */
    predicate Valid() {
      && UniqueBy(apiKeys, ApiKeyOf)
      && UniqueBy(users, DiscordIdOf)
      && UniqueBy(groups, GroupNameOf)
      && AtMostOneWhitelistGroup(groups)
      && UniqueBy(roles, RoleIdOf)
      && UniqueBy(serverRoles, ServerRoleIdOf)
      && UniqueBy(lists, ListNameOf)
    }
  }

  /** The store after an insert, and the error that refused it, if any. */
  datatype Saved = Saved(store: Store, error: Option<SchemaError>)

  function InsertApiKey(s: Store, k: ApiKey): (r: Saved)
    ensures r.error.Some? <==> exists i :: 0 <= i < |s.apiKeys| && s.apiKeys[i].APIKey == k.APIKey
    ensures r.error.Some? ==> r.error.value == DuplicateKey("APIKey") && r.store == s
    ensures r.error.None? ==> r.store == s.(apiKeys := s.apiKeys + [k])
    ensures s.Valid() ==> r.store.Valid()
  {
    match Insert(s.apiKeys, k, ApiKeyOf, "APIKey")
    case Failure(e) => Saved(s, Some(e))
    case Success(ks) => Saved(s.(apiKeys := ks), None)
  }

  function InsertUser(s: Store, u: DiscordUser): (r: Saved)
    ensures r.error.Some? <==> exists i :: 0 <= i < |s.users| && s.users[i].DiscordID == u.DiscordID
    ensures r.error.Some? ==> r.error.value == DuplicateKey("DiscordID") && r.store == s
    ensures r.error.None? ==> r.store == s.(users := s.users + [u])
    ensures s.Valid() ==> r.store.Valid()
  {
    match Insert(s.users, u, DiscordIdOf, "DiscordID")
    case Failure(e) => Saved(s, Some(e))
    case Success(us) => Saved(s.(users := us), None)
  }

  function InsertPrivilegedRole(s: Store, role: PrivilegedRole): (r: Saved)
    ensures r.error.Some? <==> exists i :: 0 <= i < |s.roles| && s.roles[i].RoleID == role.RoleID
    ensures r.error.Some? ==> r.error.value == DuplicateKey("RoleID") && r.store == s
    ensures r.error.None? ==> r.store == s.(roles := s.roles + [role])
    ensures s.Valid() ==> r.store.Valid()
  {
    match Insert(s.roles, role, RoleIdOf, "RoleID")
    case Failure(e) => Saved(s, Some(e))
    case Success(rs) => Saved(s.(roles := rs), None)
  }

  function InsertServerRole(s: Store, role: ServerRole): (r: Saved)
    ensures r.error.Some? <==> exists i :: 0 <= i < |s.serverRoles| && s.serverRoles[i].RoleID == role.RoleID
    ensures r.error.Some? ==> r.error.value == DuplicateKey("RoleID") && r.store == s
    ensures r.error.None? ==> r.store == s.(serverRoles := s.serverRoles + [role])
    ensures s.Valid() ==> r.store.Valid()
  {
    match Insert(s.serverRoles, role, ServerRoleIdOf, "RoleID")
    case Failure(e) => Saved(s, Some(e))
    case Success(rs) => Saved(s.(serverRoles := rs), None)
  }

  function InsertListEndpoint(s: Store, l: ListEndpoint): (r: Saved)
    ensures r.error.Some? <==> exists i :: 0 <= i < |s.lists| && s.lists[i].ListName == l.ListName
    ensures r.error.Some? ==> r.error.value == DuplicateKey("ListName") && r.store == s
    ensures r.error.None? ==> r.store == s.(lists := s.lists + [l])
    ensures s.Valid() ==> r.store.Valid()
  {
    match Insert(s.lists, l, ListNameOf, "ListName")
    case Failure(e) => Saved(s, Some(e))
    case Success(ls) => Saved(s.(lists := ls), None)
  }

  /** Log entries have no unique path: every insert is accepted. */
  function InsertLog(s: Store, entry: LogEntry): (r: Saved)
    ensures r.error.None? && r.store == s.(logs := s.logs + [entry])
    ensures s.Valid() ==> r.store.Valid()
  {
    Saved(s.(logs := s.logs + [entry]), None)
  }

  /**
   * Inserting an admin group: refused when its GroupName is taken, or when
   * it is a whitelist group and the store already has one.
   */
  function InsertAdminGroup(s: Store, g: AdminGroup): (r: Saved)
    ensures r.error.Some? <==>
      || (exists i :: 0 <= i < |s.groups| && s.groups[i].GroupName == g.GroupName)
      || (g.IsWhitelistGroup && exists i :: 0 <= i < |s.groups| && s.groups[i].IsWhitelistGroup)
    ensures r.error.Some? ==> r.error.value.DuplicateKey? && r.store == s
    ensures r.error.None? ==> r.store == s.(groups := s.groups + [g])
    ensures s.Valid() ==> r.store.Valid()
  {
    match Insert(s.groups, g, GroupNameOf, "GroupName")
    case Failure(e) => Saved(s, Some(e))
    case Success(gs) =>
      if g.IsWhitelistGroup && exists i :: 0 <= i < |s.groups| && s.groups[i].IsWhitelistGroup then
        Saved(s, Some(DuplicateKey("IsWhitelistGroup")))
      else
        assert gs[|s.groups|] == g;
        Saved(s.(groups := gs), None)
  }

  // ---------------------------------------------------------------------
  // The admin-group indexes as declared
  // ---------------------------------------------------------------------

  /** Both unique paths of the admin-group schema, read literally. */
  function InsertAdminGroupAsWritten(groups: seq<AdminGroup>, g: AdminGroup): (r: Result<seq<AdminGroup>, SchemaError>)
    ensures r.Failure? <==>
      || (exists i :: 0 <= i < |groups| && groups[i].GroupName == g.GroupName)
      || (exists i :: 0 <= i < |groups| && groups[i].IsWhitelistGroup == g.IsWhitelistGroup)
    ensures r.Success? ==> r.value == groups + [g]
    ensures UniqueBy(groups, GroupNameOf) && UniqueBy(groups, WhitelistFlagOf) && r.Success? ==>
      UniqueBy(r.value, GroupNameOf) && UniqueBy(r.value, WhitelistFlagOf)
  {
    match Insert(groups, g, GroupNameOf, "GroupName")
    case Failure(e) => Failure(e)
    case Success(_) => Insert(groups, g, WhitelistFlagOf, "IsWhitelistGroup")
  }

  lemma FlagsDiffer(groups: seq<AdminGroup>, i: int, j: int)
    requires UniqueBy(groups, WhitelistFlagOf)
    requires 0 <= i < j < |groups|
    ensures groups[i].IsWhitelistGroup != groups[j].IsWhitelistGroup
  {
    assert WhitelistFlagOf(groups[i]) != WhitelistFlagOf(groups[j]);
  }

  /** A collection with a unique boolean path never holds more than two groups. */
  lemma AsWrittenAtMostTwoGroups(groups: seq<AdminGroup>)
    requires UniqueBy(groups, WhitelistFlagOf)
    ensures |groups| <= 2
    ensures AtMostOneWhitelistGroup(groups)
  {
    if |groups| > 2 {
      FlagsDiffer(groups, 0, 1);
      FlagsDiffer(groups, 0, 2);
      FlagsDiffer(groups, 1, 2);
    }
    forall i, j | 0 <= i < j < |groups| && groups[i].IsWhitelistGroup
      ensures !groups[j].IsWhitelistGroup
    {
      assert WhitelistFlagOf(groups[i]) != WhitelistFlagOf(groups[j]);
    }
  }

  /**
   * The literal reading refuses a second ordinary group even though its name
   * is new, where the intended rule accepts it.
   */
  lemma AsWrittenRefusesSecondOrdinaryGroup()
    ensures
      var admins := AdminGroup("Admins", [Kick, Ban], true, false);
      var whitelist := AdminGroup("Whitelist", [Reserve], true, true);
      var moderators := AdminGroup("Moderators", [Kick], true, false);
      var s := Store([], [], [admins, whitelist], [], [], [], []);
      && s.Valid()
      && InsertAdminGroupAsWritten(s.groups, moderators).Failure?
      && InsertAdminGroup(s, moderators).error.None?
  {
    var admins := AdminGroup("Admins", [Kick, Ban], true, false);
    var whitelist := AdminGroup("Whitelist", [Reserve], true, true);
    var moderators := AdminGroup("Moderators", [Kick], true, false);
    var s := Store([], [], [admins, whitelist], [], [], [], []);
    assert s.groups[0].IsWhitelistGroup == moderators.IsWhitelistGroup;
    assert forall i :: 0 <= i < |s.groups| ==> s.groups[i].GroupName != moderators.GroupName;
  }

  /** Under the intended rule an ordinary group with a new name is always accepted. */
  lemma {:induction false} OrdinaryGroupAccepted(s: Store, g: AdminGroup)
    requires s.Valid()
    requires !g.IsWhitelistGroup
    requires forall i :: 0 <= i < |s.groups| ==> s.groups[i].GroupName != g.GroupName
    ensures InsertAdminGroup(s, g).error.None?
    ensures InsertAdminGroup(s, g).store.Valid()
    ensures |InsertAdminGroup(s, g).store.groups| == |s.groups| + 1
  {
  }
}
