/**
 * The whitelist form: the editable rows built from the stored whitelist and
 * the slot count, editing one field of one row, drag reordering, the filter
 * applied on submission, and the Steam-ID check `validateSteamIDs` (which
 * nothing on the page calls: the "Validate IDs" button has no click handler).
 *
 * The form's state (the `whitelistRows` state hook) is the `rows` field of
 * `WhitelistForm`; each handler assigns it a new sequence.
 */
module WhitelistPage {
  import opened Wrappers
  import Schema

  /** A `{steamID, name?}` row: both a stored whitelist entry and a form row. */
  datatype WhitelistRow = WhitelistRow(steamID: string, name: Option<string>)

  /** The two editable inputs of a row. */
  datatype RowField = SteamIDField | NameField

  const BlankRow := WhitelistRow("", Some(""))

  // ---------------------------------------------------------------------
  // Building the rows
  // ---------------------------------------------------------------------

  /** How many rows the form shows: the larger of the whitelist length and the slot count. */
  function RowCount(whitelist: seq<WhitelistRow>, whitelistSlots: int): (n: nat)
    ensures n >= |whitelist| && n >= whitelistSlots
    ensures n == |whitelist| || n == whitelistSlots
  {
    if whitelistSlots > |whitelist| then whitelistSlots else |whitelist|
  }

  /** The form row for a stored entry: its name is kept only when its steamID is non-empty. */
  function RowOf(entry: WhitelistRow): (row: WhitelistRow)
    ensures row.name.Some?
    ensures row.steamID == entry.steamID
    ensures row.steamID == "" ==> row == BlankRow
    ensures row.steamID != "" && entry.name.Some? ==> row.name == entry.name
    ensures entry.name.None? ==> row.name == Some("")
  {
    if entry.steamID != "" then WhitelistRow(entry.steamID, Some(entry.name.GetOr(""))) else BlankRow
  }

  /** Row i of a freshly built form: the entry's row if there is an entry, a blank row otherwise. */
  function InitialRow(whitelist: seq<WhitelistRow>, i: nat): (row: WhitelistRow)
    ensures row.steamID != "" <==> i < |whitelist| && whitelist[i].steamID != ""
    ensures row.steamID != "" ==> row.steamID == whitelist[i].steamID
    ensures row.name.Some? && (row.name.value != "" ==> row.steamID != "" && whitelist[i].name == row.name)
  {
    if i < |whitelist| then RowOf(whitelist[i]) else BlankRow
  }

  /** The first n rows of a freshly built form. */
  function FormRows(whitelist: seq<WhitelistRow>, n: nat): (rows: seq<WhitelistRow>)
    ensures |rows| == n && forall i :: 0 <= i < n ==> rows[i] == InitialRow(whitelist, i)
  {
    seq(n, i requires 0 <= i < n => InitialRow(whitelist, i))
  }

  /** All rows of a freshly built form. */
  function InitialRows(whitelist: seq<WhitelistRow>, whitelistSlots: int): seq<WhitelistRow> {
    FormRows(whitelist, RowCount(whitelist, whitelistSlots))
  }

  // ---------------------------------------------------------------------
  // Editing, reordering
  // ---------------------------------------------------------------------

  /** A row with one field replaced and the other kept. */
  function WithField(row: WhitelistRow, field: RowField, value: string): (r: WhitelistRow)
    ensures field == SteamIDField ==> r.steamID == value && r.name == row.name
    ensures field == NameField ==> r.name == Some(value) && r.steamID == row.steamID
  {
    match field
    case SteamIDField => row.(steamID := value)
    case NameField => row.(name := Some(value))
  }

  predicate HasRow(rows: seq<WhitelistRow>, id: string) {
    exists i :: 0 <= i < |rows| && rows[i].steamID == id
  }

  /** The first row whose steamID is `id`, or -1 (`findIndex`). */
  function FindIndex(rows: seq<WhitelistRow>, id: string): (k: int)
    ensures -1 <= k < |rows|
    ensures k >= 0 ==> rows[k].steamID == id && forall j :: 0 <= j < k ==> rows[j].steamID != id
    ensures k == -1 <==> !HasRow(rows, id)
  {
    if rows == [] then -1
    else if rows[0].steamID == id then 0
    else
      var k := FindIndex(rows[1..], id);
      assert forall j :: 0 <= j < |rows| - 1 ==> rows[1..][j] == rows[j + 1];
      if k == -1 then -1 else k + 1
  }

  function RemoveAt<T>(s: seq<T>, i: int): (r: seq<T>)
    requires 0 <= i < |s|
    ensures |r| == |s| - 1
  {
    s[..i] + s[i + 1..]
  }

  function InsertAt<T>(s: seq<T>, i: int, x: T): (r: seq<T>)
    requires 0 <= i <= |s|
    ensures |r| == |s| + 1 && r[i] == x
  {
    s[..i] + [x] + s[i..]
  }

  /** `arrayMove`: take the element at `from` out and put it back in at `to`. */
  function Move<T>(s: seq<T>, from: int, to: int): (r: seq<T>)
    requires 0 <= from < |s| && 0 <= to < |s|
    ensures |r| == |s|
    ensures r[to] == s[from]
    ensures multiset(r) == multiset(s)
  {
    var rest := RemoveAt(s, from);
    assert s == s[..from] + [s[from]] + s[from + 1..];
    assert multiset(s) == multiset(rest) + multiset{s[from]};
    assert rest[..to] + rest[to..] == rest;
    assert multiset(rest) == multiset(rest[..to]) + multiset(rest[to..]);
    InsertAt(rest, to, s[from])
  }

  lemma RemoveInsertAt<T>(s: seq<T>, i: int, x: T)
    requires 0 <= i <= |s|
    ensures RemoveAt(InsertAt(s, i, x), i) == s
  {
    var t := InsertAt(s, i, x);
    assert t[..i] == s[..i];
    assert t[i + 1..] == s[i..];
  }

  lemma InsertRemoveAt<T>(s: seq<T>, i: int)
    requires 0 <= i < |s|
    ensures InsertAt(RemoveAt(s, i), i, s[i]) == s
  {
    var r := RemoveAt(s, i);
    assert r[..i] == s[..i];
    assert r[i..] == s[i + 1..];
  }

  /** Apart from the moved element, every element keeps its relative order. */
  lemma {:induction false} MoveKeepsOthersInOrder<T>(s: seq<T>, from: int, to: int)
    requires 0 <= from < |s| && 0 <= to < |s|
    ensures RemoveAt(Move(s, from, to), to) == RemoveAt(s, from)
  {
    RemoveInsertAt(RemoveAt(s, from), to, s[from]);
  }

  /** Moving an element onto its own position changes nothing. */
  lemma {:induction false} MoveToSelf<T>(s: seq<T>, i: int)
    requires 0 <= i < |s|
    ensures Move(s, i, i) == s
  {
    InsertRemoveAt(s, i);
  }

  /** Dragging the element back where it came from restores the original order. */
  lemma {:induction false} MoveRoundTrip<T>(s: seq<T>, from: int, to: int)
    requires 0 <= from < |s| && 0 <= to < |s|
    ensures Move(Move(s, from, to), to, from) == s
  {
    var r := Move(s, from, to);
    MoveKeepsOthersInOrder(s, from, to);
    InsertRemoveAt(s, from);
  }

  // ---------------------------------------------------------------------
  // Submission
  // ---------------------------------------------------------------------

  /** The rows `onFormSubmit` posts: those with a non-empty steamID, in order. */
  function SubmittedRows(rows: seq<WhitelistRow>): (kept: seq<WhitelistRow>)
    ensures |kept| <= |rows|
    ensures forall i :: 0 <= i < |kept| ==> kept[i].steamID != ""
  {
    if rows == [] then []
    else
      (if rows[0].steamID != "" then [rows[0]] else []) + SubmittedRows(rows[1..])
  }

  /** A row is posted iff it is in the form and has a steamID. */
  lemma {:induction false} SubmittedRowsMembers(rows: seq<WhitelistRow>, r: WhitelistRow)
    ensures r in SubmittedRows(rows) <==> r in rows && r.steamID != ""
  {
    if rows != [] {
      assert rows == [rows[0]] + rows[1..];
      SubmittedRowsMembers(rows[1..], r);
    }
  }

  /** The filter keeps every row with a steamID as often as it occurs, and no other row. */
  lemma {:induction false} SubmittedRowsCounts(rows: seq<WhitelistRow>, r: WhitelistRow)
    ensures multiset(SubmittedRows(rows))[r] == if r.steamID != "" then multiset(rows)[r] else 0
  {
    if rows != [] {
      assert rows == [rows[0]] + rows[1..];
      SubmittedRowsCounts(rows[1..], r);
    }
  }

  /** The filter distributes over concatenation, so it keeps the relative order of what it keeps. */
  lemma {:induction false} SubmittedRowsAppend(a: seq<WhitelistRow>, b: seq<WhitelistRow>)
    ensures SubmittedRows(a + b) == SubmittedRows(a) + SubmittedRows(b)
  {
    if a == [] {
      assert a + b == b;
    } else {
      var ab := a + b;
      assert ab[0] == a[0] && ab[1..] == a[1..] + b;
      SubmittedRowsUnfold(ab);
      SubmittedRowsUnfold(a);
      SubmittedRowsAppend(a[1..], b);
    }
  }

  /** One step of the filter. */
  lemma SubmittedRowsUnfold(rows: seq<WhitelistRow>)
    requires rows != []
    ensures SubmittedRows(rows) == (if rows[0].steamID != "" then [rows[0]] else []) + SubmittedRows(rows[1..])
  {
  }

  /** Rows that all have a steamID pass the filter unchanged. */
  lemma {:induction false} SubmittedRowsKeepsFull(rows: seq<WhitelistRow>)
    requires forall i :: 0 <= i < |rows| ==> rows[i].steamID != ""
    ensures SubmittedRows(rows) == rows
  {
    if rows != [] {
      SubmittedRowsKeepsFull(rows[1..]);
    }
  }

  /** Filtering twice is filtering once. */
  lemma SubmittedRowsIdempotent(rows: seq<WhitelistRow>)
    ensures SubmittedRows(SubmittedRows(rows)) == SubmittedRows(rows)
  {
    SubmittedRowsKeepsFull(SubmittedRows(rows));
  }

  /** Every posted row satisfies the schema's whitelist-entry rule (steamID required). */
  lemma SubmittedRowsSatisfySchema(rows: seq<WhitelistRow>)
    ensures forall i :: 0 <= i < |SubmittedRows(rows)| ==>
      var r := SubmittedRows(rows)[i];
      Schema.CastWhitelistEntry(Schema.WhitelistEntryDoc(Some(r.steamID), r.name)).Success?
  {
  }

  function Blank(n: nat): (rows: seq<WhitelistRow>)
    ensures |rows| == n && forall i :: 0 <= i < n ==> rows[i] == BlankRow
  {
    seq(n, i => BlankRow)
  }

  lemma {:induction false} SubmittedBlank(n: nat)
    ensures SubmittedRows(Blank(n)) == []
  {
    if n > 0 {
      assert Blank(n)[1..] == Blank(n - 1);
      SubmittedBlank(n - 1);
    }
  }

  /** Each stored entry turned into its form row. */
  function Prepared(whitelist: seq<WhitelistRow>): (rows: seq<WhitelistRow>)
    ensures |rows| == |whitelist| && forall i :: 0 <= i < |whitelist| ==> rows[i] == RowOf(whitelist[i])
  {
    seq(|whitelist|, i requires 0 <= i < |whitelist| => RowOf(whitelist[i]))
  }

  /** A built form is the prepared entries followed by blank padding rows. */
  lemma FormRowsSplit(whitelist: seq<WhitelistRow>, n: nat)
    requires n >= |whitelist|
    ensures FormRows(whitelist, n) == Prepared(whitelist) + Blank(n - |whitelist|)
  {
    var rows := FormRows(whitelist, n);
    var split := Prepared(whitelist) + Blank(n - |whitelist|);
    forall i | 0 <= i < n
      ensures rows[i] == split[i]
    {
      if i >= |whitelist| {
        assert split[i] == Blank(n - |whitelist|)[i - |whitelist|];
      }
    }
  }

  /**
   * Building the form and submitting it untouched posts the stored entries
   * that have a steamID, in their stored order (with an absent name posted
   * as ''); the padding rows the slot count adds are all dropped.
   */
  lemma {:induction false} LoadThenSubmit(whitelist: seq<WhitelistRow>, whitelistSlots: int)
    ensures SubmittedRows(InitialRows(whitelist, whitelistSlots)) == SubmittedRows(Prepared(whitelist))
  {
    var n := RowCount(whitelist, whitelistSlots);
    FormRowsSplit(whitelist, n);
    SubmittedRowsAppend(Prepared(whitelist), Blank(n - |whitelist|));
    SubmittedBlank(n - |whitelist|);
  }

  /** A whitelist whose entries all have a steamID and a name comes back exactly. */
  lemma {:induction false} LoadThenSubmitUnchanged(whitelist: seq<WhitelistRow>, whitelistSlots: int)
    requires forall i :: 0 <= i < |whitelist| ==> whitelist[i].steamID != "" && whitelist[i].name.Some?
    ensures SubmittedRows(InitialRows(whitelist, whitelistSlots)) == whitelist
  {
    LoadThenSubmit(whitelist, whitelistSlots);
    assert Prepared(whitelist) == whitelist;
    SubmittedRowsKeepsFull(whitelist);
  }

  // ---------------------------------------------------------------------
  // Validate IDs
  // ---------------------------------------------------------------------

  /**
   * Indices below n whose steamID passes `pattern` (or, when `passing` is
   * false, fails it), in increasing order. A pattern is the set of strings a
   * regular expression accepts.
   */
  function Matching(rows: seq<WhitelistRow>, pattern: iset<string>, passing: bool, n: nat): (ks: seq<int>)
    requires n <= |rows|
    ensures forall k :: k in ks <==> 0 <= k < n && (rows[k].steamID in pattern) == passing
    ensures forall a, b :: 0 <= a < b < |ks| ==> ks[a] < ks[b]
  {
    if n == 0 then []
    else
      var ks := Matching(rows, pattern, passing, n - 1);
      forall a | 0 <= a < |ks| ensures ks[a] < n - 1 {
        assert ks[a] in ks;
      }
      ks + if (rows[n - 1].steamID in pattern) == passing then [n - 1] else []
  }

  /**
   * `validateSteamIDs` as written: it logs its warning for each row whose
   * steamID PASSES the Steam64 pattern `steamID64`. The result is the indices
   * of the rows warned about; the rows themselves are only read.
   */
  method ValidateSteamIDs(rows: seq<WhitelistRow>, steamID64: iset<string>) returns (warned: seq<int>)
    ensures forall k :: k in warned <==> 0 <= k < |rows| && rows[k].steamID in steamID64
    ensures forall a, b :: 0 <= a < b < |warned| ==> warned[a] < warned[b]
  {
    warned := [];
    var i := 0;
    while i < |rows|
      invariant 0 <= i <= |rows|
      invariant warned == Matching(rows, steamID64, true, i)
    {
      if rows[i].steamID in steamID64 {
        warned := warned + [i];
      }
      i := i + 1;
    }
  }

  /** The rows a check meant to catch malformed IDs would warn about: exactly those that fail the pattern. */
  function InvalidSteamIDRows(rows: seq<WhitelistRow>, steamID64: iset<string>): (ks: seq<int>)
    ensures forall k :: k in ks <==> 0 <= k < |rows| && rows[k].steamID !in steamID64
    ensures forall a, b :: 0 <= a < b < |ks| ==> ks[a] < ks[b]
  {
    Matching(rows, steamID64, false, |rows|)
  }

  /** As written, a row is warned about exactly when the intended check would NOT warn about it. */
  lemma ValidateSteamIDsInverted(rows: seq<WhitelistRow>, steamID64: iset<string>, k: int)
    requires 0 <= k < |rows|
    ensures k in Matching(rows, steamID64, true, |rows|) <==> k !in InvalidSteamIDRows(rows, steamID64)
  {
  }

  // ---------------------------------------------------------------------
  // The form
  // ---------------------------------------------------------------------

  class WhitelistForm {
    var rows: seq<WhitelistRow>

    constructor ()
      ensures rows == []
    {
      rows := [];
    }

    /**
     * The row-building effect. The state is set inside the loop after each
     * push, so when the loop runs zero times the previous rows stay.
     */
    method LoadRows(whitelist: seq<WhitelistRow>, whitelistSlots: int)
      modifies this
      ensures RowCount(whitelist, whitelistSlots) == 0 ==> rows == old(rows)
      ensures RowCount(whitelist, whitelistSlots) > 0 ==> rows == InitialRows(whitelist, whitelistSlots)
    {
      var slots: seq<WhitelistRow> := [];
      var i := 0;
      while i < |whitelist| || i < whitelistSlots
        invariant 0 <= i <= RowCount(whitelist, whitelistSlots)
        invariant slots == FormRows(whitelist, i)
        invariant i == 0 ==> rows == old(rows)
        invariant i > 0 ==> rows == slots
        decreases RowCount(whitelist, whitelistSlots) - i
      {
        var row := BlankRow;
        var steamID := if i < |whitelist| then Some(whitelist[i].steamID) else None;
        var name := if i < |whitelist| then whitelist[i].name else None;
        if steamID.Some? && steamID.value != "" {
          row := row.(steamID := steamID.value);
          if name.Some? && name.value != "" {
            row := row.(name := name);
          }
        }
        slots := slots + [row];
        rows := slots;
        i := i + 1;
      }
    }

    /** Sets one field of one row; every other row and field is unchanged. */
    method HandleInputChange(index: int, field: RowField, value: string)
      requires 0 <= index < |rows|
      modifies this
      ensures |rows| == |old(rows)|
      ensures rows[index] == WithField(old(rows)[index], field, value)
      ensures forall j :: 0 <= j < |rows| && j != index ==> rows[j] == old(rows)[j]
    {
      rows := rows[index := WithField(rows[index], field, value)];
    }

    /**
     * The end of a drag. Rows are identified by steamID. Dropping a row on
     * itself changes nothing; dropping outside any row (`over` absent) fails
     * before the state is set; otherwise the first row with the dragged id
     * is moved to the position of the first row with the target id.
     */
    method HandleDragEnd(activeId: string, overId: Option<string>)
      requires HasRow(rows, activeId)
      requires overId.Some? ==> HasRow(rows, overId.value)
      modifies this
      ensures overId.None? || overId.value == activeId ==> rows == old(rows)
      ensures overId.Some? && overId.value != activeId ==>
        rows == Move(old(rows), FindIndex(old(rows), activeId), FindIndex(old(rows), overId.value))
      ensures |rows| == |old(rows)| && multiset(rows) == multiset(old(rows))
    {
      if overId.Some? && activeId != overId.value {
        var oldIndex := FindIndex(rows, activeId);
        var newIndex := FindIndex(rows, overId.value);
        rows := Move(rows, oldIndex, newIndex);
      }
    }
  }
}
