/**
 * The admin-group table: moving a permission between a group's current
 * list and the computed available list, renaming a group, toggling its
 * Enabled flag, deleting a group, and the page's own permission map.
 *
 * The table's state (the `adminGroupRows` state hook) is the `rows` field of
 * `AdminGroupForm`; each handler assigns it a new sequence.
 */
module AdminGroupsPage {
  import opened Wrappers
  import Schema

  /** A row of the table (the optional `_id`, used only as a render key, is left out). */
  datatype GroupRow = GroupRow(GroupName: string, Permissions: seq<string>, Enabled: bool, IsWhitelistGroup: bool)

  // ---------------------------------------------------------------------
  // The page's permission map
  // ---------------------------------------------------------------------

  /** Identifier and description of each permission the page offers, in insertion order. */
  const PermissionDescriptions: seq<(string, string)> := [
    ("changemap", "Allows a user to use map commands such as adminSetNextLayer or adminChangeMap."),
    ("canseeadminchat", "Allows a user to *see* the in game admin chat as well as teamkills."),
    ("balance", "Allows a user to switch teams regardless of current balance."),
    ("pause", "Allows a user to pause the game. Does not work on licensed servers."),
    ("cheat", "Allows a user to gain access to some cheat commands. Does not work on licensed servers."),
    ("private", "Allows a user to set a server to private, does not work for licensed servers?"),
    ("chat", "Allows a user to *write* in admin chat, or use server broadcasts."),
    ("kick", "Allows a user to use in game kick commands."),
    ("ban", "Allows a user to use in game ban commands."),
    ("config", "Allows a user to set server configuration. Does not work for licensed servers."),
    ("immune", "Users with this permission cannot be kicked or banned."),
    ("manageserver", "Allows a user to use various management commands, including to kill the server."),
    ("cameraman", "Allows a user to use the in-game spectator camera."),
    ("featuretest", "Allows a user to use debug commands, such as spawning vehicles."),
    ("forceteamchange", "Allows a user to force team swap other players."),
    ("reserve", "Allows a user to use the priority/whitelist queue."),
    ("debug", "Allows a user to use debug commands."),
    ("teamchange", "Allows a user to change teams without penalty.")
  ]

  /** The schema permissions the map lists, in the map's order. */
  const UiPermissions: seq<Schema.Permission> :=
    [Schema.ChangeMap, Schema.CanSeeAdminChat, Schema.Balance, Schema.Pause, Schema.Cheat,
     Schema.Private, Schema.CanUseAdminChat, Schema.Kick, Schema.Ban, Schema.Config,
     Schema.Immune, Schema.ManageServer, Schema.Cameraman, Schema.FeatureTest,
     Schema.ForceTeamChange, Schema.Reserve, Schema.Debug, Schema.TeamChange]

  lemma KeysAreSchemaIds(i: int)
    requires 0 <= i < |PermissionDescriptions|
    ensures |UiPermissions| == |PermissionDescriptions|
    ensures PermissionDescriptions[i].0 == Schema.PermissionId(UiPermissions[i])
  {
  }

  /**
   * The map's keys in order. They are 18 distinct schema permissions: the
   * whole catalog except `demos`.
   */
  function UiPermissionKeys(): (keys: seq<string>)
    ensures |keys| == 18
    ensures forall i :: 0 <= i < |keys| ==> keys[i] in Schema.CatalogIds()
    ensures forall i, j :: 0 <= i < j < |keys| ==> keys[i] != keys[j]
    ensures forall p :: p in Schema.CatalogIds() ==> (p in keys <==> p != "demos")
  {
    var keys := seq(|PermissionDescriptions|, i requires 0 <= i < |PermissionDescriptions| => PermissionDescriptions[i].0);
    forall i | 0 <= i < |keys| ensures keys[i] == Schema.PermissionId(UiPermissions[i]) {
      KeysAreSchemaIds(i);
    }
    forall i, j | 0 <= i < j < |keys| ensures keys[i] != keys[j] {
      Schema.PermissionIdInjective(UiPermissions[i], UiPermissions[j]);
    }
    forall p | p in Schema.CatalogIds() ensures p in keys <==> p != "demos" {
      ListsAllButDemos(keys, Schema.ParsePermission(p).value);
    }
    keys
  }

  lemma ListsAllButDemos(keys: seq<string>, q: Schema.Permission)
    requires |keys| == |UiPermissions|
    requires forall i :: 0 <= i < |keys| ==> keys[i] == Schema.PermissionId(UiPermissions[i])
    ensures Schema.PermissionId(q) in keys <==> q != Schema.Demos
    ensures Schema.PermissionId(Schema.Demos) == "demos"
  {
    if q != Schema.Demos {
      assert keys[UiPosition(q)] == Schema.PermissionId(q);
    } else {
      forall i | 0 <= i < |keys| ensures keys[i] != Schema.PermissionId(q) {
        Schema.PermissionIdInjective(UiPermissions[i], q);
      }
    }
  }

  /** Where a permission other than `demos` sits in the map. */
  function UiPosition(p: Schema.Permission): (k: nat)
    requires p != Schema.Demos
    ensures k < |UiPermissions| && UiPermissions[k] == p
  {
    match p
    case ChangeMap => 0
    case CanSeeAdminChat => 1
    case Balance => 2
    case Pause => 3
    case Cheat => 4
    case Private => 5
    case CanUseAdminChat => 6
    case Kick => 7
    case Ban => 8
    case Config => 9
    case Immune => 10
    case ManageServer => 11
    case Cameraman => 12
    case FeatureTest => 13
    case ForceTeamChange => 14
    case Reserve => 15
    case Debug => 16
    case TeamChange => 17
  }

  /** The description shown as a button's title (`Map.get`). */
  function Description(permission: string): (d: Option<string>)
    ensures d.Some? <==> permission in UiPermissionKeys()
    ensures d.Some? ==> exists i :: 0 <= i < |PermissionDescriptions| && PermissionDescriptions[i] == (permission, d.value)
  {
    DescribedIffKey(permission);
    DescriptionIn(PermissionDescriptions, permission)
  }

  lemma DescribedIffKey(permission: string)
    ensures DescriptionIn(PermissionDescriptions, permission).Some? <==> permission in UiPermissionKeys()
  {
    var keys := UiPermissionKeys();
    KeysAreFirsts(keys);
    if DescriptionIn(PermissionDescriptions, permission).Some? {
      var i :| 0 <= i < |PermissionDescriptions| && PermissionDescriptions[i].0 == permission;
      assert keys[i] == permission;
    }
  }

  /** The map's keys are the first components of its entries, in order. */
  lemma KeysAreFirsts(keys: seq<string>)
    requires keys == UiPermissionKeys()
    ensures |keys| == |PermissionDescriptions|
    ensures forall i :: 0 <= i < |keys| ==> keys[i] == PermissionDescriptions[i].0
  {
  }

  function DescriptionIn(entries: seq<(string, string)>, permission: string): (d: Option<string>)
    ensures d.Some? <==> exists i :: 0 <= i < |entries| && entries[i].0 == permission
    ensures d.Some? ==> exists i :: 0 <= i < |entries| && entries[i] == (permission, d.value)
  {
    if entries == [] then None
    else if entries[0].0 == permission then Some(entries[0].1)
    else
      var d := DescriptionIn(entries[1..], permission);
      assert forall i :: 0 <= i < |entries| - 1 ==> entries[1..][i] == entries[i + 1];
      d
  }

  // ---------------------------------------------------------------------
  // Current and available permissions
  // ---------------------------------------------------------------------

  /** The elements of `keys` not in `perms`, in the order of `keys`. */
  function NotIn(keys: seq<string>, perms: seq<string>): (avail: seq<string>)
    ensures |avail| <= |keys|
    ensures forall p :: p in avail <==> p in keys && p !in perms
    ensures (forall i, j :: 0 <= i < j < |keys| ==> keys[i] != keys[j]) ==>
      forall i, j :: 0 <= i < j < |avail| ==> avail[i] != avail[j]
  {
    if keys == [] then []
    else
      var rest := NotIn(keys[1..], perms);
      assert (forall i, j :: 0 <= i < j < |keys| ==> keys[i] != keys[j]) ==> keys[0] !in keys[1..];
      (if keys[0] !in perms then [keys[0]] else []) + rest
  }

  /** The filter distributes over concatenation of the keys: it keeps their order. */
  lemma {:induction false} NotInAppend(a: seq<string>, b: seq<string>, perms: seq<string>)
    ensures NotIn(a + b, perms) == NotIn(a, perms) + NotIn(b, perms)
  {
    if a == [] {
      assert a + b == b;
    } else {
      assert (a + b)[0] == a[0] && (a + b)[1..] == a[1..] + b;
      NotInAppend(a[1..], b, perms);
    }
  }

  /** A group holding nothing is offered every key, in map order. */
  lemma {:induction false} NotInNothing(keys: seq<string>)
    ensures NotIn(keys, []) == keys
  {
    if keys != [] {
      NotInNothing(keys[1..]);
    }
  }

  /**
   * The available list: the map's keys, in map order, that the group does
   * not hold. It is disjoint from the current list, and every element is a
   * schema permission other than `demos`.
   */
  function Available(perms: seq<string>): (avail: seq<string>)
    ensures forall p :: p in avail <==> p in UiPermissionKeys() && p !in perms
    ensures forall p :: p in avail ==> p !in perms
    ensures forall i, j :: 0 <= i < j < |avail| ==> avail[i] != avail[j]
    ensures forall i :: 0 <= i < |avail| ==> avail[i] in Schema.CatalogIds() && avail[i] != "demos"
  {
    var avail := NotIn(UiPermissionKeys(), perms);
    forall i | 0 <= i < |avail| ensures avail[i] in Schema.CatalogIds() && avail[i] != "demos" {
      assert avail[i] in avail;
    }
    avail
  }

  /** Every occurrence of `permission` removed, the rest in order (`filter(perm => perm !== permission)`). */
  function RemoveAll(perms: seq<string>, permission: string): (r: seq<string>)
    ensures |r| <= |perms|
    ensures permission !in r
    ensures forall q :: q != permission ==> (q in r <==> q in perms)
  {
    if perms == [] then []
    else (if perms[0] != permission then [perms[0]] else []) + RemoveAll(perms[1..], permission)
  }

  /** Removal keeps each other permission as many times as it occurred. */
  lemma {:induction false} RemoveAllCounts(perms: seq<string>, permission: string, q: string)
    ensures multiset(RemoveAll(perms, permission))[q] == if q == permission then 0 else multiset(perms)[q]
  {
    if perms != [] {
      assert perms == [perms[0]] + perms[1..];
      RemoveAllCounts(perms[1..], permission, q);
    }
  }

  /** Removal distributes over concatenation, so the remaining permissions keep their order. */
  lemma {:induction false} RemoveAllAppend(a: seq<string>, b: seq<string>, permission: string)
    ensures RemoveAll(a + b, permission) == RemoveAll(a, permission) + RemoveAll(b, permission)
  {
    if a == [] {
      assert a + b == b;
    } else {
      assert (a + b)[0] == a[0];
      assert (a + b)[1..] == a[1..] + b;
      RemoveAllAppend(a[1..], b, permission);
      var head := if a[0] != permission then [a[0]] else [];
      calc {
        RemoveAll(a + b, permission);
        head + RemoveAll(a[1..] + b, permission);
        head + (RemoveAll(a[1..], permission) + RemoveAll(b, permission));
        (head + RemoveAll(a[1..], permission)) + RemoveAll(b, permission);
      }
    }
  }

  /** Removing a permission the group does not hold changes nothing. */
  lemma {:induction false} RemoveAllAbsent(perms: seq<string>, permission: string)
    requires permission !in perms
    ensures RemoveAll(perms, permission) == perms
  {
    if perms != [] {
      RemoveAllAbsent(perms[1..], permission);
    }
  }

  /** Moving a permission the group lacks to current and back restores its list. */
  lemma TransferRoundTrip(perms: seq<string>, permission: string)
    requires permission !in perms
    ensures RemoveAll(perms + [permission], permission) == perms
  {
    RemoveAllAppend(perms, [permission], permission);
    RemoveAllAbsent(perms, permission);
    assert RemoveAll([permission], permission) == [];
  }

  /** Adding `p` to the group takes exactly `p` out of the available list, the rest keeping its order. */
  lemma {:induction false} NotInAfterAdd(keys: seq<string>, perms: seq<string>, permission: string)
    ensures NotIn(keys, perms + [permission]) == RemoveAll(NotIn(keys, perms), permission)
  {
    if keys != [] {
      NotInAfterAdd(keys[1..], perms, permission);
      var head := if keys[0] !in perms then [keys[0]] else [];
      RemoveAllAppend(head, NotIn(keys[1..], perms), permission);
    }
  }

  lemma AvailableAfterTransferToCurrent(perms: seq<string>, permission: string)
    ensures Available(perms + [permission]) == RemoveAll(Available(perms), permission)
  {
    NotInAfterAdd(UiPermissionKeys(), perms, permission);
  }

  /** Moving an available permission to current keeps the group acceptable to the schema. */
  lemma TransferToCurrentKeepsSchemaValid(perms: seq<string>, permission: string)
    requires Schema.ValidPermissions(perms)
    requires permission in Available(perms)
    ensures Schema.ValidPermissions(perms + [permission])
  {
  }

  /** Moving a permission to available keeps the group acceptable to the schema. */
  lemma TransferToAvailableKeepsSchemaValid(perms: seq<string>, permission: string)
    requires Schema.ValidPermissions(perms)
    ensures Schema.ValidPermissions(RemoveAll(perms, permission))
  {
    var r := RemoveAll(perms, permission);
    forall i | 0 <= i < |r| ensures r[i] in Schema.CatalogIds() {
      assert r[i] in r;
    }
  }

  // ---------------------------------------------------------------------
  // Deleting a row
  // ---------------------------------------------------------------------

  /** Every row except the one at `index` (`filter((_, i) => i !== index)`). */
  function DeleteAt<T>(rows: seq<T>, index: int): (r: seq<T>)
    ensures 0 <= index < |rows| ==> r == rows[..index] + rows[index + 1..]
    ensures !(0 <= index < |rows|) ==> r == rows
  {
    if rows == [] then []
    else
      var rest := DeleteAt(rows[1..], index - 1);
      assert 0 < index < |rows| ==> rows[..index] == [rows[0]] + rows[1..][..index - 1];
      assert rows == [rows[0]] + rows[1..];
      (if index == 0 then [] else [rows[0]]) + rest
  }

  // ---------------------------------------------------------------------
  // The table
  // ---------------------------------------------------------------------

  class AdminGroupForm {
    var rows: seq<GroupRow>

    constructor (adminGroups: seq<GroupRow>)
      ensures rows == adminGroups
    {
      rows := adminGroups;
    }

    /**
     * To current: the permission is appended to the group's list. To
     * available: every occurrence is removed. No other group changes.
     */
    method TransferPermission(groupIndex: int, permission: string, toCurrent: bool)
      requires 0 <= groupIndex < |rows|
      modifies this
      ensures |rows| == |old(rows)|
      ensures forall j :: 0 <= j < |rows| && j != groupIndex ==> rows[j] == old(rows)[j]
      ensures rows[groupIndex].GroupName == old(rows)[groupIndex].GroupName
      ensures rows[groupIndex].Enabled == old(rows)[groupIndex].Enabled
      ensures rows[groupIndex].IsWhitelistGroup == old(rows)[groupIndex].IsWhitelistGroup
      ensures toCurrent ==> rows[groupIndex].Permissions == old(rows)[groupIndex].Permissions + [permission]
      ensures !toCurrent ==> rows[groupIndex].Permissions == RemoveAll(old(rows)[groupIndex].Permissions, permission)
    {
      var group := rows[groupIndex];
      if toCurrent {
        group := group.(Permissions := group.Permissions + [permission]);
      } else {
        group := group.(Permissions := RemoveAll(group.Permissions, permission));
      }
      rows := rows[groupIndex := group];
    }

    /** Sets the name of one group; nothing else changes. */
    method Rename(index: int, newGroupName: string)
      requires 0 <= index < |rows|
      modifies this
      ensures |rows| == |old(rows)|
      ensures rows[index] == old(rows)[index].(GroupName := newGroupName)
      ensures forall j :: 0 <= j < |rows| && j != index ==> rows[j] == old(rows)[j]
    {
      rows := rows[index := rows[index].(GroupName := newGroupName)];
    }

    /** Flips Enabled of one group; nothing else changes. */
    method ToggleEnabled(index: int)
      requires 0 <= index < |rows|
      modifies this
      ensures |rows| == |old(rows)|
      ensures rows[index].Enabled == !old(rows)[index].Enabled
      ensures rows[index].(Enabled := old(rows)[index].Enabled) == old(rows)[index]
      ensures forall j :: 0 <= j < |rows| && j != index ==> rows[j] == old(rows)[j]
    {
      rows := rows[index := rows[index].(Enabled := !rows[index].Enabled)];
    }

    /** Removes the group at `index`; the others keep their order. */
    method Delete(index: int)
      modifies this
      ensures 0 <= index < |old(rows)| ==> |rows| == |old(rows)| - 1
      ensures rows == DeleteAt(old(rows), index)
    {
      rows := DeleteAt(rows, index);
    }
  }

  /** Toggling the same group twice restores the table. */
  method ToggleTwice(form: AdminGroupForm, index: int)
    requires 0 <= index < |form.rows|
    modifies form
    ensures form.rows == old(form.rows)
  {
    form.ToggleEnabled(index);
    form.ToggleEnabled(index);
  }

  /** Moving a permission the group lacks to current and back restores the table. */
  method TransferThereAndBack(form: AdminGroupForm, groupIndex: int, permission: string)
    requires 0 <= groupIndex < |form.rows|
    requires permission !in form.rows[groupIndex].Permissions
    modifies form
    ensures form.rows == old(form.rows)
  {
    form.TransferPermission(groupIndex, permission, true);
    form.TransferPermission(groupIndex, permission, false);
    TransferRoundTrip(old(form.rows)[groupIndex].Permissions, permission);
  }
}
