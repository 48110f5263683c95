# sqms whitelist and admin-group rules in Dafny

sqms is an administrative web application for a game server. Discord users are mapped to
admin groups that carry in-game permissions. Their roles grant whitelist slots, which they
fill with other players' Steam IDs. This project models the rules that the application's
code actually enforces:

- **Schema** (`schema.dfy`, from `src/backend/schema.ts`). It covers the closed catalog of 19
  in-game permissions and the `WeekDays` enumeration (Sunday = 0 … Saturday = 6). It also
  covers the `ActiveDays` validator, and the required fields, optional fields and defaults of
  each record type. A document with omitted fields is cast into a record with its defaults
  applied, or it is refused with a `SchemaError`. `required` is read the way the document
  mapper reads it:
  - a required String must be present and non-empty;
  - a required Boolean or Number must be present;
  - an omitted array path starts out empty.
- **Store** (`store.dfy`). This is the seven collections and their unique keys: APIKey,
  DiscordID, GroupName, RoleID (twice) and ListName. An insert whose key is taken is refused,
  and the store is returned unchanged. Every successful insert keeps every uniqueness
  constraint (`Store.Valid`).
- **Whitelist form** (`whitelist.dfy`, from `Whitelist.tsx`). The form state is the class
  `WhitelistForm`, whose `rows` field each handler reassigns. The handlers are the
  row-building effect, `handleInputChange` and `handleDragEnd`. The module also has the
  submit filter and `validateSteamIDs`, a Steam-ID check that nothing on the page calls (the
  "Validate IDs" button has no click handler). Helper functions specify them: `RowCount`,
  `InitialRow`, `Move` (the remove-then-insert reorder) and `SubmittedRows`.
- **Admin-group table** (`admin_groups.dfy`, from `AdminGroups.tsx`). The table state is the
  class `AdminGroupForm`, with its handlers for permission transfer, rename, the Enabled
  toggle and delete. The module also has the computed available list and the page's own
  permission map.

Some details are modelled exactly as the code behaves:
- The row-building effect sets the state only inside its loop. If the loop runs zero times,
  the previous rows stay (`LoadRows`).
- When a drag ends outside any row, `over` is null, so `handleDragEnd` fails before it sets
  the state. The rows are unchanged.
- The page's permission map lists 18 of the 19 catalog permissions: `demos` is missing.
  Once a `demos` permission is moved out of a group, the page offers no way to add it back
  (`Available` never contains it).

In these places the code does less than its names and comments suggest:
- `WhitelistSlots` is not constrained to be non-negative.
- The list-endpoint schema has no `UseWhitelistGroup` path, so the stored record has no such
  field.
- Malformed Steam IDs are not rejected on submission. `validateSteamIDs` only logs a
  warning, it is never called, and its condition is inverted (see Findings).
- The unique index on `IsWhitelistGroup` limits the collection to two groups in all, not
  just to one whitelist group (see Findings).

## Model

| member | source | states |
|---|---|---|
| `Schema.CatalogIds` | src/backend/schema.ts:9-29 | the catalog has exactly 19 identifiers, pairwise distinct; every permission's identifier is in it, and a string is in it iff it parses as a permission |
| `Schema.ParsePermission` | src/backend/schema.ts:9-29 | a string parses iff it is some permission's identifier, and it parses to a permission with that identifier |
| `Schema.PermissionRoundTrip` | src/backend/schema.ts:9-29 | every permission's identifier parses back to that permission |
| `Schema.PermissionIdInjective` | src/backend/schema.ts:9-29 | no two permissions share an identifier |
| `Schema.DayOf` | src/backend/schema.ts:35-43 | a number names a weekday iff it is in 0..6, and that weekday's number is the input |
| `Schema.WeekDayBijection` | src/backend/schema.ts:35-43 | weekdays and 0..6 are in one-to-one correspondence; the enumeration's values are exactly 0..6 |
| `Schema.ActiveDaysValid` | src/backend/schema.ts:164-170 | an ActiveDays list passes iff every element is a weekday value 0..6; the empty list passes |
| `Schema.CastPermission` | src/backend/schema.ts:150 | an element of Permissions is accepted iff it is a catalog identifier, and otherwise refused with a NotInEnum error |
| `Schema.CastAdminGroup` | src/backend/schema.ts:148-157 | accepted iff GroupName is given and every permission is in the catalog (otherwise NotInEnum); Enabled defaults to true, IsWhitelistGroup to false; given values are kept |
| `Schema.CastGroupPermissionsValid` | src/backend/schema.ts:150 | the permissions of an accepted group are all catalog members and read back to themselves |
| `Schema.CastWhitelistEntry` | src/backend/schema.ts:129-134 | a whitelist entry is accepted iff steamID is given; name is optional and kept as given |
| `Schema.CastDiscordUser` | src/backend/schema.ts:124-146 | accepted iff DiscordID, DiscordName, Enabled and every entry's steamID are given; Roles defaults to empty; entries and AdminRole64ID are kept |
| `Schema.CastPrivilegedRole` | src/backend/schema.ts:160-176 | accepted iff RoleID, RoleName are given, an embedded group (if any) is a valid group and ActiveDays passes the validator (else InvalidDays); the stored group is that group as the admin-group rules cast it, with their defaults; WhitelistSlots defaults to 0; Enabled is optional |
| `Schema.CastServerRole` | src/backend/schema.ts:178-185 | accepted iff RoleID, RoleName and GuildID are all given |
| `Schema.CastListEndpoint` | src/backend/schema.ts:187-196 | accepted iff ListName is given and every embedded group is valid; each stored group is the corresponding embedded group as the admin-group rules cast it, with their defaults; AdminGroups defaults to empty, AllRolesEnabled and Enabled to true |
| `Schema.CastApiKey` | src/backend/schema.ts:113-118 | accepted iff the key is given |
| `Schema.CastLogEntry` | src/backend/schema.ts:199-205 | accepted iff LogMessage is given; MessageType is optional |
| `Store.Insert` | src/backend/schema.ts:114 | an insert fails iff the key is already present; on success the row is appended, and uniqueness of the key is preserved |
| `Store.InsertApiKey` | src/backend/schema.ts:113-118 | refused iff the APIKey is taken, leaving the store unchanged; otherwise only apiKeys grows; Valid is preserved |
| `Store.InsertUser` | src/backend/schema.ts:125 | refused iff the DiscordID is taken, leaving the store unchanged; otherwise only users grows; Valid is preserved |
| `Store.InsertPrivilegedRole` | src/backend/schema.ts:161 | refused iff the RoleID is taken, leaving the store unchanged; otherwise only roles grows; Valid is preserved |
| `Store.InsertServerRole` | src/backend/schema.ts:179 | refused iff the RoleID is taken, leaving the store unchanged; otherwise only serverRoles grows; Valid is preserved |
| `Store.InsertListEndpoint` | src/backend/schema.ts:188 | refused iff the ListName is taken, leaving the store unchanged; otherwise only lists grows; Valid is preserved |
| `Store.InsertLog` | src/backend/schema.ts:199-205 | log entries have no unique key: always appended, Valid preserved |
| `Store.InsertAdminGroup` | src/backend/schema.ts:149-153 | refused iff the GroupName is taken or a second whitelist group is added, leaving the store unchanged; Valid (including at most one whitelist group) is preserved |
| `Store.InsertAdminGroupAsWritten` | src/backend/schema.ts:149-153 | literal reading of both unique paths: refused iff the GroupName or the IsWhitelistGroup value is taken; both uniquenesses are preserved |
| `Store.AsWrittenAtMostTwoGroups` | src/backend/schema.ts:153 | a unique boolean path admits at most two groups in all, and at most one whitelist group |
| `Store.AsWrittenRefusesSecondOrdinaryGroup` | src/backend/schema.ts:153 | with one ordinary and one whitelist group stored, a new ordinary group with a fresh name is refused as written and accepted by the intended rule |
| `Store.OrdinaryGroupAccepted` | src/backend/schema.ts:152-153 | under the intended rule, an ordinary group with a fresh name is always accepted and the store grows by one |
| `WhitelistPage.RowCount` | src/frontend/src/pages/Whitelist.tsx:66 | the form has max(whitelist length, slot count) rows: never fewer than the whitelist, so nothing is truncated |
| `WhitelistPage.RowOf` | src/frontend/src/pages/Whitelist.tsx:67-76 | a stored entry's row keeps its steamID; its name is kept only when the steamID is non-empty, and is '' otherwise or when absent |
| `WhitelistPage.InitialRow` | src/frontend/src/pages/Whitelist.tsx:66-77 | row i has a non-empty steamID iff entry i exists with a non-empty steamID, and then it is that steamID; a non-empty name implies a steamID and comes from the entry |
| `WhitelistPage.WhitelistForm.LoadRows` | src/frontend/src/pages/Whitelist.tsx:64-80 | after the effect the rows are exactly the initial rows for the whitelist and slot count, or the previous rows when that count is zero |
| `WhitelistPage.WithField` | src/frontend/src/pages/Whitelist.tsx:85 | exactly the chosen field is replaced; the other is kept |
| `WhitelistPage.WhitelistForm.HandleInputChange` | src/frontend/src/pages/Whitelist.tsx:83-87 | only the chosen field of row `index` changes; the length and every other row are unchanged |
| `WhitelistPage.FindIndex` | src/frontend/src/pages/Whitelist.tsx:99-100 | the result is the first row with the given steamID, or -1 iff there is none |
| `WhitelistPage.Move` | src/frontend/src/pages/Whitelist.tsx:102 | a reorder keeps the length and the multiset of rows, and puts the moved row at the target index |
| `WhitelistPage.MoveKeepsOthersInOrder` | src/frontend/src/pages/Whitelist.tsx:102 | apart from the moved row, all rows keep their relative order |
| `WhitelistPage.MoveToSelf` | src/frontend/src/pages/Whitelist.tsx:98-102 | moving a row onto its own position changes nothing |
| `WhitelistPage.MoveRoundTrip` | src/frontend/src/pages/Whitelist.tsx:102 | dragging the row back restores the original order |
| `WhitelistPage.WhitelistForm.HandleDragEnd` | src/frontend/src/pages/Whitelist.tsx:95-104 | equal ids or no drop target leave the rows unchanged; otherwise the first row with the dragged id moves to the first row with the target id; length and multiset are always kept |
| `WhitelistPage.SubmittedRows` | src/frontend/src/pages/Whitelist.tsx:230-232 | every submitted row has a non-empty steamID, and no more rows are submitted than the form holds |
| `WhitelistPage.SubmittedRowsMembers` | src/frontend/src/pages/Whitelist.tsx:230-232 | a row is submitted iff it is in the form and has a steamID |
| `WhitelistPage.SubmittedRowsCounts` | src/frontend/src/pages/Whitelist.tsx:230-232 | each row with a steamID is submitted as many times as it occurs; no other row is submitted |
| `WhitelistPage.SubmittedRowsAppend` | src/frontend/src/pages/Whitelist.tsx:230-232 | the filter distributes over concatenation, so kept rows keep their relative order |
| `WhitelistPage.SubmittedRowsKeepsFull` | src/frontend/src/pages/Whitelist.tsx:230-232 | rows that all have a steamID pass unchanged |
| `WhitelistPage.SubmittedRowsIdempotent` | src/frontend/src/pages/Whitelist.tsx:230-232 | filtering twice gives the same result as filtering once |
| `WhitelistPage.SubmittedRowsSatisfySchema` | src/frontend/src/pages/Whitelist.tsx:230-232 | every submitted row satisfies the schema's whitelist-entry rule (steamID required) |
| `WhitelistPage.LoadThenSubmit` | src/frontend/src/pages/Whitelist.tsx:65-79 | building the form and submitting it unedited posts the stored entries that have a steamID, in order; the padding rows are all dropped |
| `WhitelistPage.LoadThenSubmitUnchanged` | src/frontend/src/pages/Whitelist.tsx:65-79 | a whitelist whose entries all have a steamID and a name comes back exactly |
| `WhitelistPage.ValidateSteamIDs` | src/frontend/src/pages/Whitelist.tsx:198-212 | the rows are only read; the warning is logged for exactly the rows whose steamID passes the Steam64 pattern, in row order |
| `WhitelistPage.InvalidSteamIDRows` | src/frontend/src/pages/Whitelist.tsx:198-212 | the intended check warns about exactly the rows whose steamID fails the pattern, in row order |
| `WhitelistPage.ValidateSteamIDsInverted` | src/frontend/src/pages/Whitelist.tsx:204-208 | as written, a row is warned about iff the intended check would not warn about it |
| `WhitelistPage.WhitelistForm.constructor` | src/frontend/src/pages/Whitelist.tsx:62 | the form starts with no rows |
| `AdminGroupsPage.UiPermissionKeys` | src/frontend/src/pages/AdminGroups.tsx:188-207 | the page's map has 18 distinct keys; each is a schema permission, and a schema permission is a key iff it is not `demos` |
| `AdminGroupsPage.ListsAllButDemos` | src/frontend/src/pages/AdminGroups.tsx:188-207 | a permission's identifier is among the map's keys iff the permission is not Demos |
| `AdminGroupsPage.Description` | src/frontend/src/pages/AdminGroups.tsx:188-207 | a permission has a description iff it is a key of the map, and the description returned is the one the map pairs with it |
| `AdminGroupsPage.Available` | src/frontend/src/pages/AdminGroups.tsx:102-103 | the available list holds exactly the map keys the group lacks; it is disjoint from the current list, and every element is a schema permission other than `demos`; no permission is offered twice |
| `AdminGroupsPage.NotInAppend` | src/frontend/src/pages/AdminGroups.tsx:102-103 | the key filter distributes over concatenation, so the available list keeps the map's order |
| `AdminGroupsPage.NotInNothing` | src/frontend/src/pages/AdminGroups.tsx:102-103 | a group holding no permission is offered every key, in map order |
| `AdminGroupsPage.NotInAfterAdd` | src/frontend/src/pages/AdminGroups.tsx:102-103 | adding a permission to the current list removes exactly that permission from the filtered keys, keeping their order |
| `AdminGroupsPage.AvailableAfterTransferToCurrent` | src/frontend/src/pages/AdminGroups.tsx:102-103 | after a transfer to current, the available list is the old one without that permission |
| `AdminGroupsPage.RemoveAll` | src/frontend/src/pages/AdminGroups.tsx:48 | the permission no longer occurs; every other permission occurs iff it did before |
| `AdminGroupsPage.RemoveAllCounts` | src/frontend/src/pages/AdminGroups.tsx:48 | every occurrence is removed, and each other permission keeps its multiplicity |
| `AdminGroupsPage.RemoveAllAppend` | src/frontend/src/pages/AdminGroups.tsx:48 | removal distributes over concatenation, so the rest keeps its order |
| `AdminGroupsPage.RemoveAllAbsent` | src/frontend/src/pages/AdminGroups.tsx:48 | removing a permission the group lacks changes nothing |
| `AdminGroupsPage.TransferRoundTrip` | src/frontend/src/pages/AdminGroups.tsx:45-48 | appending a permission the group lacks and then removing it restores the list |
| `AdminGroupsPage.TransferToCurrentKeepsSchemaValid` | src/frontend/src/pages/AdminGroups.tsx:43-45 | moving an available permission to current keeps a schema-valid permission list valid |
| `AdminGroupsPage.TransferToAvailableKeepsSchemaValid` | src/frontend/src/pages/AdminGroups.tsx:46-48 | moving a permission to available keeps a schema-valid permission list valid |
| `AdminGroupsPage.DeleteAt` | src/frontend/src/pages/AdminGroups.tsx:133-135 | exactly the row at `index` is removed, and the others keep their order; an index outside the table changes nothing |
| `AdminGroupsPage.AdminGroupForm.constructor` | src/frontend/src/pages/AdminGroups.tsx:29-31 | the table starts as a copy of the fetched groups |
| `AdminGroupsPage.AdminGroupForm.TransferPermission` | src/frontend/src/pages/AdminGroups.tsx:34-53 | to current appends the permission at the end of that group's list; to available removes every occurrence; the group's other fields and all other groups are unchanged |
| `AdminGroupsPage.AdminGroupForm.Rename` | src/frontend/src/pages/AdminGroups.tsx:75-81 | only that group's GroupName changes |
| `AdminGroupsPage.AdminGroupForm.ToggleEnabled` | src/frontend/src/pages/AdminGroups.tsx:121-127 | only that group's Enabled flips |
| `AdminGroupsPage.AdminGroupForm.Delete` | src/frontend/src/pages/AdminGroups.tsx:132-136 | the table loses exactly the row at `index`; its length drops by one |
| `AdminGroupsPage.ToggleTwice` | src/frontend/src/pages/AdminGroups.tsx:122-126 | toggling the same group twice restores the table |
| `AdminGroupsPage.TransferThereAndBack` | src/frontend/src/pages/AdminGroups.tsx:43-48 | moving a permission the group lacks to current and back restores the table |

## Findings

| source | as written | input that shows it | evidently intended | confidence | as-written member | corrected member |
|---|---|---|---|---|---|---|
| src/backend/schema.ts:153 | `IsWhitelistGroup` is a unique boolean path, so no two groups may share either value | stored groups Admins (false) and Whitelist (true); inserting Moderators (false, new name) is refused | at most one group has `IsWhitelistGroup` true; any number have it false | medium, not executed | `Store.InsertAdminGroupAsWritten` | `Store.InsertAdminGroup` |
| src/frontend/src/pages/Whitelist.tsx:205-206 | "Invalid steamID detected." is logged when the ID passes `steamID64Regex` | called directly on rows, any row whose steamID matches the pattern is warned about, and one that fails it is not; no page action calls the function, so the defect is latent | warn when the ID fails the pattern | high, not executed | `WhitelistPage.ValidateSteamIDs` | `WhitelistPage.InvalidSteamIDRows` |

## Left out

- Network and UI: the fetches and posts (`getUsersWhitelist`, `postUserWhitelists`, `fetchAdminGroups`), the modal dialogs, query hooks, rendering and dnd-kit's collision detection are not modelled. The daysMap lookup that displays active days is also left out, because it is imported from a file that is not part of this model.
- `steamID64Regex` is imported from a file that is not part of this model. The Steam64 pattern is therefore a parameter of `ValidateSteamIDs` and `InvalidSteamIDRows`: the set of strings it accepts. The final `console.log` of the rows is not modelled.
- Resolving a user's permissions, slots and active days from their roles, and filtering list endpoints, are not implemented by any modelled file, so they are not modelled. `loadRoutes` (filesystem scan) and the drop-down menu component are also left out.
- The empty stubs `onCurrentPermissionClick`, `onAvailablePermissionClick`, `onGroupsSubmit` and `WhitelistGroup` do nothing and are not modelled.
- Document-mapper mechanics are not modelled. Among them: timestamps and `_id`, casting of values of the wrong type, and how and when unique indexes are built. The unique paths of the embedded admin-group schema also create indexes inside the role and list collections; those are left out too.
- `Schema.CastAll`: reports only the first failing element, whereas the document mapper collects every failing path into one validation error.
- Numbers are integers: `WhitelistSlots` and `ActiveDays` elements are `int`. A fractional slot count is not modelled; the form loop would run up to its ceiling.
- Aliasing: rows are values. The source copies the row array shallowly and then assigns a field of a row object. That object is also shared with the previous state, and for admin groups with the fetched data. A re-invoked state updater (React's development double invocation) would push a permission twice on that shared object, and would flip `Enabled` of the shared row back, so a toggle would have no net effect. None of this is modelled.
- `WhitelistPage.WhitelistForm.HandleDragEnd`: requires both ids to be steamIDs of current rows, since the drag library reports only rendered row ids. `findIndex` returning -1 and `arrayMove` with a negative index are not modelled.
- `WhitelistPage.WhitelistForm.HandleInputChange` and the admin-group handlers require the index to be that of an existing row, as the rows are rendered by index.
