/** What `batch_update_price` (src/app/processes.py:34-69) sends, as functions
    of the queued rows' field values, and the properties of that grouping.

    The program keeps a dict of dicts, `update_dict[ID_SHEET][SHEET]`, and then
    issues one write per inner entry in the dicts' iteration order, which in
    Python is insertion order. `SheetIds` and `SheetNames` are those two
    insertion orders; `Group` is the payload list of one inner entry;
    `Writes` is the resulting sequence of writes. */
module Grouping {
  import opened Sheet

  /** A row gets a payload only when ID_SHEET, SHEET and CELL are all set. */
  predicate Qualifies(s: RowState) {
    s.idSheet != "" && s.sheet != "" && s.cell != ""
  }

  /** The payload of a row: its cell, and its price or "" when it has none.
      An empty cell is already "" in `RowState`, so the conditional always
      yields `s.price`; it is kept to mirror `PRICE if PRICE else ""`. */
  function PayloadOf(s: RowState): Payload {
    Payload(s.cell, if s.price != "" then s.price else "")
  }

  predicate Distinct<T(==)>(xs: seq<T>) {
    forall i, j :: 0 <= i < j < |xs| ==> xs[i] != xs[j]
  }

  /** The keys of the outer dict, in the order they were first inserted. */
  function SheetIds(ss: seq<RowState>): seq<string>
  {
    if ss == [] then []
    else
      var ids := SheetIds(ss[..|ss| - 1]);
      var s := ss[|ss| - 1];
      if Qualifies(s) && s.idSheet !in ids then ids + [s.idSheet] else ids
  }

  /** The keys of the inner dict of sheet `id`, in the order they were first inserted. */
  function SheetNames(ss: seq<RowState>, id: string): seq<string>
  {
    if ss == [] then []
    else
      var names := SheetNames(ss[..|ss| - 1], id);
      var s := ss[|ss| - 1];
      if Qualifies(s) && s.idSheet == id && s.sheet !in names then names + [s.sheet] else names
  }

  /** The payload list stored under `update_dict[id][name]`. */
  function Group(ss: seq<RowState>, id: string, name: string): seq<Payload>
  {
    if ss == [] then []
    else
      var g := Group(ss[..|ss| - 1], id, name);
      var s := ss[|ss| - 1];
      if Qualifies(s) && s.idSheet == id && s.sheet == name then g + [PayloadOf(s)] else g
  }

  /** The writes for the listed tabs of sheet `id`, one per tab. */
  function NameWrites(ss: seq<RowState>, id: string, names: seq<string>): seq<SheetWrite>
  {
    if names == [] then []
    else
      var name := names[|names| - 1];
      NameWrites(ss, id, names[..|names| - 1]) + [SheetWrite(id, name, Group(ss, id, name))]
  }

  /** The writes for the listed sheets, each sheet's tabs in insertion order. */
  function IdWrites(ss: seq<RowState>, ids: seq<string>): seq<SheetWrite>
  {
    if ids == [] then []
    else
      var id := ids[|ids| - 1];
      IdWrites(ss, ids[..|ids| - 1]) + NameWrites(ss, id, SheetNames(ss, id))
  }

  /** Every write `batch_update_price` issues for the queued rows `ss`, in order. */
  function Writes(ss: seq<RowState>): seq<SheetWrite>
  {
    IdWrites(ss, SheetIds(ss))
  }

  /** All payloads of a sequence of writes, one write after the other. */
  function AllPayloads(ws: seq<SheetWrite>): seq<Payload>
  {
    if ws == [] then [] else AllPayloads(ws[..|ws| - 1]) + ws[|ws| - 1].payloads
  }

  /** The payloads of the qualifying rows, in row order. */
  function QualifyingPayloads(ss: seq<RowState>): seq<Payload>
  {
    if ss == [] then []
    else
      var q := QualifyingPayloads(ss[..|ss| - 1]);
      var s := ss[|ss| - 1];
      if Qualifies(s) then q + [PayloadOf(s)] else q
  }

  /** The payloads of the qualifying rows of sheet `id` whose tab is in `names`. */
  function PickedNames(ss: seq<RowState>, id: string, names: seq<string>): seq<Payload>
  {
    if ss == [] then []
    else
      var q := PickedNames(ss[..|ss| - 1], id, names);
      var s := ss[|ss| - 1];
      if Qualifies(s) && s.idSheet == id && s.sheet in names then q + [PayloadOf(s)] else q
  }

  /** The payloads of the qualifying rows whose sheet id is in `ids`. */
  function PickedIds(ss: seq<RowState>, ids: seq<string>): seq<Payload>
  {
    if ss == [] then []
    else
      var q := PickedIds(ss[..|ss| - 1], ids);
      var s := ss[|ss| - 1];
      if Qualifies(s) && s.idSheet in ids then q + [PayloadOf(s)] else q
  }

  ghost predicate HasSheetId(ss: seq<RowState>, id: string) {
    exists i :: 0 <= i < |ss| && Qualifies(ss[i]) && ss[i].idSheet == id
  }

  ghost predicate HasSheet(ss: seq<RowState>, id: string, name: string) {
    exists i :: 0 <= i < |ss| && Qualifies(ss[i]) && ss[i].idSheet == id && ss[i].sheet == name
  }

  ghost predicate HasKey(ws: seq<SheetWrite>, id: string, name: string) {
    exists k :: 0 <= k < |ws| && ws[k].sheetId == id && ws[k].sheetName == name
  }

  ghost predicate DistinctKeys(ws: seq<SheetWrite>) {
    forall i, j :: 0 <= i < j < |ws| ==> ws[i].sheetId != ws[j].sheetId || ws[i].sheetName != ws[j].sheetName
  }

  /** What one more row does to the two insertion orders and to the groups. */
  lemma SheetIdsSnoc(ss: seq<RowState>, s: RowState)
    ensures SheetIds(ss + [s]) ==
      if Qualifies(s) && s.idSheet !in SheetIds(ss) then SheetIds(ss) + [s.idSheet] else SheetIds(ss)
  {
    assert (ss + [s])[..|ss|] == ss;
  }

  lemma SheetNamesSnoc(ss: seq<RowState>, s: RowState, id: string)
    ensures SheetNames(ss + [s], id) ==
      if Qualifies(s) && s.idSheet == id && s.sheet !in SheetNames(ss, id)
      then SheetNames(ss, id) + [s.sheet] else SheetNames(ss, id)
  {
    assert (ss + [s])[..|ss|] == ss;
  }

  lemma GroupSnoc(ss: seq<RowState>, s: RowState, id: string, name: string)
    ensures Group(ss + [s], id, name) ==
      if Qualifies(s) && s.idSheet == id && s.sheet == name
      then Group(ss, id, name) + [PayloadOf(s)] else Group(ss, id, name)
  {
    assert (ss + [s])[..|ss|] == ss;
  }

  // ---------------------------------------------------------------------------
  // The two insertion orders

  lemma HasSheetIdSnoc(ss: seq<RowState>, id: string)
    requires ss != []
    ensures HasSheetId(ss, id) <==>
      HasSheetId(ss[..|ss| - 1], id) || (Qualifies(ss[|ss| - 1]) && ss[|ss| - 1].idSheet == id)
  {
    var init := ss[..|ss| - 1];
    if HasSheetId(ss, id) {
      var i :| 0 <= i < |ss| && Qualifies(ss[i]) && ss[i].idSheet == id;
      if i < |init| { assert init[i] == ss[i]; }
    }
    if HasSheetId(init, id) {
      var i :| 0 <= i < |init| && Qualifies(init[i]) && init[i].idSheet == id;
      assert ss[i] == init[i];
    }
  }

  lemma HasSheetSnoc(ss: seq<RowState>, id: string, name: string)
    requires ss != []
    ensures HasSheet(ss, id, name) <==>
      HasSheet(ss[..|ss| - 1], id, name) ||
      (Qualifies(ss[|ss| - 1]) && ss[|ss| - 1].idSheet == id && ss[|ss| - 1].sheet == name)
  {
    var init := ss[..|ss| - 1];
    if HasSheet(ss, id, name) {
      var i :| 0 <= i < |ss| && Qualifies(ss[i]) && ss[i].idSheet == id && ss[i].sheet == name;
      if i < |init| { assert init[i] == ss[i]; }
    }
    if HasSheet(init, id, name) {
      var i :| 0 <= i < |init| && Qualifies(init[i]) && init[i].idSheet == id && init[i].sheet == name;
      assert ss[i] == init[i];
    }
  }

  /** The outer dict has one key per sheet id of a qualifying row, and no other. */
  lemma {:induction false} SheetIdsSpec(ss: seq<RowState>)
    ensures Distinct(SheetIds(ss))
    ensures forall id :: id in SheetIds(ss) <==> HasSheetId(ss, id)
  {
    if ss != [] {
      SheetIdsSpec(ss[..|ss| - 1]);
      forall id ensures HasSheetId(ss, id) <==>
        HasSheetId(ss[..|ss| - 1], id) || (Qualifies(ss[|ss| - 1]) && ss[|ss| - 1].idSheet == id)
      {
        HasSheetIdSnoc(ss, id);
      }
    }
  }

  /** The inner dict of sheet `id` has one key per tab of a qualifying row of
      that sheet, and no other. */
  lemma {:induction false} SheetNamesSpec(ss: seq<RowState>, id: string)
    ensures Distinct(SheetNames(ss, id))
    ensures forall name :: name in SheetNames(ss, id) <==> HasSheet(ss, id, name)
  {
    if ss != [] {
      SheetNamesSpec(ss[..|ss| - 1], id);
      forall name ensures HasSheet(ss, id, name) <==>
        HasSheet(ss[..|ss| - 1], id, name) ||
        (Qualifies(ss[|ss| - 1]) && ss[|ss| - 1].idSheet == id && ss[|ss| - 1].sheet == name)
      {
        HasSheetSnoc(ss, id, name);
      }
    }
  }

  /** A sheet id that was never inserted has no tabs. */
  lemma {:induction false} SheetNamesUnseen(ss: seq<RowState>, id: string)
    requires id !in SheetIds(ss)
    ensures SheetNames(ss, id) == []
  {
    if ss != [] {
      SheetNamesUnseen(ss[..|ss| - 1], id);
    }
  }

  /** A tab that was never inserted has no payloads. */
  lemma {:induction false} GroupUnseen(ss: seq<RowState>, id: string, name: string)
    requires name !in SheetNames(ss, id)
    ensures Group(ss, id, name) == []
  {
    if ss != [] {
      GroupUnseen(ss[..|ss| - 1], id, name);
    }
  }

  /** Every (sheet id, tab) pair of a qualifying row has a non-empty group. */
  lemma {:induction false} GroupNonEmpty(ss: seq<RowState>, id: string, name: string)
    requires HasSheet(ss, id, name)
    ensures |Group(ss, id, name)| > 0
  {
    HasSheetSnoc(ss, id, name);
    if !(Qualifies(ss[|ss| - 1]) && ss[|ss| - 1].idSheet == id && ss[|ss| - 1].sheet == name) {
      GroupNonEmpty(ss[..|ss| - 1], id, name);
    }
  }

  /** A qualifying row's payload is in the group of its own (sheet id, tab). */
  lemma {:induction false} GroupContains(ss: seq<RowState>, i: int)
    requires 0 <= i < |ss| && Qualifies(ss[i])
    ensures PayloadOf(ss[i]) in Group(ss, ss[i].idSheet, ss[i].sheet)
  {
    var init := ss[..|ss| - 1];
    if i < |init| {
      assert init[i] == ss[i];
      GroupContains(init, i);
    }
  }

  // ---------------------------------------------------------------------------
  // One write per distinct (sheet id, tab)

  lemma HasKeyAppend(a: seq<SheetWrite>, b: seq<SheetWrite>, id: string, name: string)
    ensures HasKey(a + b, id, name) <==> HasKey(a, id, name) || HasKey(b, id, name)
  {
    var ab := a + b;
    if HasKey(ab, id, name) {
      var k :| 0 <= k < |ab| && ab[k].sheetId == id && ab[k].sheetName == name;
      if k < |a| { assert a[k] == ab[k]; } else { assert b[k - |a|] == ab[k]; }
    }
    if HasKey(a, id, name) {
      var k :| 0 <= k < |a| && a[k].sheetId == id && a[k].sheetName == name;
      assert ab[k] == a[k];
    }
    if HasKey(b, id, name) {
      var k :| 0 <= k < |b| && b[k].sheetId == id && b[k].sheetName == name;
      assert ab[|a| + k] == b[k];
    }
  }

  lemma {:induction false} NameWritesKeys(ss: seq<RowState>, id: string, names: seq<string>)
    requires Distinct(names)
    ensures |NameWrites(ss, id, names)| == |names|
    ensures DistinctKeys(NameWrites(ss, id, names))
    ensures forall k :: 0 <= k < |names| ==>
      NameWrites(ss, id, names)[k] == SheetWrite(id, names[k], Group(ss, id, names[k]))
  {
    if names != [] {
      var init := names[..|names| - 1];
      NameWritesKeys(ss, id, init);
    }
  }

  lemma {:induction false} IdWritesKeys(ss: seq<RowState>, ids: seq<string>)
    requires Distinct(ids)
    ensures DistinctKeys(IdWrites(ss, ids))
    ensures forall id, name :: HasKey(IdWrites(ss, ids), id, name) <==> id in ids && HasSheet(ss, id, name)
    ensures forall k :: 0 <= k < |IdWrites(ss, ids)| ==>
      IdWrites(ss, ids)[k].payloads == Group(ss, IdWrites(ss, ids)[k].sheetId, IdWrites(ss, ids)[k].sheetName)
  {
    if ids != [] {
      var init := ids[..|ids| - 1];
      var id := ids[|ids| - 1];
      var names := SheetNames(ss, id);
      IdWritesKeys(ss, init);
      SheetNamesSpec(ss, id);
      NameWritesKeys(ss, id, names);
      var a, b := IdWrites(ss, init), NameWrites(ss, id, names);
      forall x, n ensures HasKey(a + b, x, n) <==> x in ids && HasSheet(ss, x, n) {
        HasKeyAppend(a, b, x, n);
        if HasKey(b, x, n) {
          var k :| 0 <= k < |b| && b[k].sheetId == x && b[k].sheetName == n;
          assert b[k] == SheetWrite(id, names[k], Group(ss, id, names[k]));
        }
        if x == id && HasSheet(ss, x, n) {
          var k :| 0 <= k < |names| && names[k] == n;
          assert b[k].sheetId == x && b[k].sheetName == n;
        }
      }
      forall i, j | 0 <= i < j < |a + b|
        ensures (a + b)[i].sheetId != (a + b)[j].sheetId || (a + b)[i].sheetName != (a + b)[j].sheetName
      {
        if i < |a| && j >= |a| {
          var x, n := a[i].sheetId, a[i].sheetName;
          assert HasKey(a, x, n);
          assert b[j - |a|].sheetId == id;
          assert x in init;
        }
      }
    }
  }

  /** `batch_update_price` writes each (sheet id, tab) pair of a qualifying row
      exactly once, writes no other pair, and sends under each pair the
      payloads of exactly the rows carrying it, in row order; no write is empty. */
  lemma WritesKeys(ss: seq<RowState>)
    ensures DistinctKeys(Writes(ss))
    ensures forall id, name :: HasKey(Writes(ss), id, name) <==> HasSheet(ss, id, name)
    ensures forall k :: 0 <= k < |Writes(ss)| ==>
      Writes(ss)[k].payloads == Group(ss, Writes(ss)[k].sheetId, Writes(ss)[k].sheetName) &&
      |Writes(ss)[k].payloads| > 0
  {
    SheetIdsSpec(ss);
    IdWritesKeys(ss, SheetIds(ss));
    forall id, name | HasSheet(ss, id, name) ensures HasSheetId(ss, id) {
      var i :| 0 <= i < |ss| && Qualifies(ss[i]) && ss[i].idSheet == id && ss[i].sheet == name;
    }
    forall k | 0 <= k < |Writes(ss)| ensures |Writes(ss)[k].payloads| > 0 {
      var w := Writes(ss)[k];
      assert HasKey(Writes(ss), w.sheetId, w.sheetName);
      GroupNonEmpty(ss, w.sheetId, w.sheetName);
    }
  }

  // ---------------------------------------------------------------------------
  // One payload per qualifying row

  lemma {:induction false} AllPayloadsAppend(a: seq<SheetWrite>, b: seq<SheetWrite>)
    ensures AllPayloads(a + b) == AllPayloads(a) + AllPayloads(b)
  {
    if b != [] {
      var init := b[..|b| - 1];
      AllPayloadsAppend(a, init);
      assert (a + b)[..|a + b| - 1] == a + init;
      assert (a + b)[|a + b| - 1] == b[|b| - 1];
      assert AllPayloads(b) == AllPayloads(init) + b[|b| - 1].payloads;
    } else {
      assert a + b == a;
    }
  }

  lemma {:induction false} SplitNames(ss: seq<RowState>, id: string, names: seq<string>, name: string)
    requires name !in names
    ensures multiset(PickedNames(ss, id, names + [name]))
         == multiset(PickedNames(ss, id, names)) + multiset(Group(ss, id, name))
  {
    if ss != [] {
      SplitNames(ss[..|ss| - 1], id, names, name);
    }
  }

  lemma {:induction false} NameWritesPayloads(ss: seq<RowState>, id: string, names: seq<string>)
    requires Distinct(names)
    ensures multiset(AllPayloads(NameWrites(ss, id, names))) == multiset(PickedNames(ss, id, names))
  {
    if names == [] {
      PickedNamesNone(ss, id);
    } else {
      var init := names[..|names| - 1];
      var name := names[|names| - 1];
      var w := SheetWrite(id, name, Group(ss, id, name));
      NameWritesPayloads(ss, id, init);
      assert (NameWrites(ss, id, init) + [w])[..|NameWrites(ss, id, init)|] == NameWrites(ss, id, init);
      SplitNames(ss, id, init, name);
      assert init + [name] == names;
    }
  }

  lemma {:induction false} PickedNamesNone(ss: seq<RowState>, id: string)
    ensures PickedNames(ss, id, []) == []
  {
    if ss != [] {
      PickedNamesNone(ss[..|ss| - 1], id);
    }
  }

  lemma {:induction false} PickedAllNames(ss: seq<RowState>, id: string, names: seq<string>)
    requires forall i :: 0 <= i < |ss| && Qualifies(ss[i]) && ss[i].idSheet == id ==> ss[i].sheet in names
    ensures PickedNames(ss, id, names) == PickedIds(ss, [id])
  {
    if ss != [] {
      var init := ss[..|ss| - 1];
      forall i | 0 <= i < |init| && Qualifies(init[i]) && init[i].idSheet == id ensures init[i].sheet in names {
        assert init[i] == ss[i];
      }
      PickedAllNames(init, id, names);
    }
  }

  lemma {:induction false} SplitIds(ss: seq<RowState>, ids: seq<string>, id: string)
    requires id !in ids
    ensures multiset(PickedIds(ss, ids + [id])) == multiset(PickedIds(ss, ids)) + multiset(PickedIds(ss, [id]))
  {
    if ss != [] {
      SplitIds(ss[..|ss| - 1], ids, id);
    }
  }

  lemma {:induction false} PickedIdsNone(ss: seq<RowState>)
    ensures PickedIds(ss, []) == []
  {
    if ss != [] {
      PickedIdsNone(ss[..|ss| - 1]);
    }
  }

  lemma {:induction false} IdWritesPayloads(ss: seq<RowState>, ids: seq<string>)
    requires Distinct(ids)
    ensures multiset(AllPayloads(IdWrites(ss, ids))) == multiset(PickedIds(ss, ids))
  {
    if ids == [] {
      PickedIdsNone(ss);
    } else {
      var init := ids[..|ids| - 1];
      var id := ids[|ids| - 1];
      var names := SheetNames(ss, id);
      var a, b := IdWrites(ss, init), NameWrites(ss, id, names);
      assert init + [id] == ids;
      assert Distinct(init) && id !in init;
      assert PickedNames(ss, id, names) == PickedIds(ss, [id]) by {
        SheetNamesSpec(ss, id);
        forall i | 0 <= i < |ss| && Qualifies(ss[i]) && ss[i].idSheet == id ensures ss[i].sheet in names {
          assert HasSheet(ss, id, ss[i].sheet);
        }
        PickedAllNames(ss, id, names);
      }
      calc {
        multiset(AllPayloads(IdWrites(ss, ids)));
        multiset(AllPayloads(a + b));
      == { AllPayloadsAppend(a, b); }
        multiset(AllPayloads(a)) + multiset(AllPayloads(b));
      == { IdWritesPayloads(ss, init); SheetNamesSpec(ss, id); NameWritesPayloads(ss, id, names); }
        multiset(PickedIds(ss, init)) + multiset(PickedNames(ss, id, names));
        multiset(PickedIds(ss, init)) + multiset(PickedIds(ss, [id]));
      == { SplitIds(ss, init, id); }
        multiset(PickedIds(ss, ids));
      }
    }
  }

  lemma {:induction false} PickedAllIds(ss: seq<RowState>, ids: seq<string>)
    requires forall i :: 0 <= i < |ss| && Qualifies(ss[i]) ==> ss[i].idSheet in ids
    ensures PickedIds(ss, ids) == QualifyingPayloads(ss)
  {
    if ss != [] {
      var init := ss[..|ss| - 1];
      forall i | 0 <= i < |init| && Qualifies(init[i]) ensures init[i].idSheet in ids {
        assert init[i] == ss[i];
      }
      PickedAllIds(init, ids);
    }
  }

  /** The payloads of all writes together are those of the qualifying rows,
      each exactly once: a row gets a payload if and only if it qualifies, and
      the number of payloads is the number of qualifying rows. */
  lemma WritesPayloads(ss: seq<RowState>)
    ensures multiset(AllPayloads(Writes(ss))) == multiset(QualifyingPayloads(ss))
    ensures |AllPayloads(Writes(ss))| == |QualifyingPayloads(ss)|
  {
    SheetIdsSpec(ss);
    IdWritesPayloads(ss, SheetIds(ss));
    forall i | 0 <= i < |ss| && Qualifies(ss[i]) ensures ss[i].idSheet in SheetIds(ss) {
      assert HasSheetId(ss, ss[i].idSheet);
    }
    PickedAllIds(ss, SheetIds(ss));
    assert |multiset(AllPayloads(Writes(ss)))| == |multiset(QualifyingPayloads(ss))|;
  }

  /** `QualifyingPayloads` holds the payload of every row that qualifies, and
      nothing else. */
  lemma {:induction false} QualifyingPayloadsSpec(ss: seq<RowState>)
    ensures forall i :: 0 <= i < |ss| && Qualifies(ss[i]) ==> PayloadOf(ss[i]) in QualifyingPayloads(ss)
    ensures forall p :: p in QualifyingPayloads(ss) ==>
      exists i :: 0 <= i < |ss| && Qualifies(ss[i]) && PayloadOf(ss[i]) == p
  {
    if ss != [] {
      var init := ss[..|ss| - 1];
      var last := |ss| - 1;
      QualifyingPayloadsSpec(init);
      forall i | 0 <= i < |ss| && Qualifies(ss[i]) ensures PayloadOf(ss[i]) in QualifyingPayloads(ss) {
        if i < last {
          assert init[i] == ss[i];
        }
      }
      forall p | p in QualifyingPayloads(ss)
        ensures exists i :: 0 <= i < |ss| && Qualifies(ss[i]) && PayloadOf(ss[i]) == p
      {
        if p in QualifyingPayloads(init) {
          var i :| 0 <= i < |init| && Qualifies(init[i]) && PayloadOf(init[i]) == p;
          assert ss[i] == init[i];
        } else {
          assert Qualifies(ss[last]) && PayloadOf(ss[last]) == p;
        }
      }
    }
  }

  /** The number of payloads is the number of qualifying rows. */
  lemma {:induction false} QualifyingPayloadsCount(ss: seq<RowState>)
    ensures |QualifyingPayloads(ss)| == |set i | 0 <= i < |ss| && Qualifies(ss[i])|
  {
    if ss != [] {
      var init := ss[..|ss| - 1];
      var last := |ss| - 1;
      QualifyingPayloadsCount(init);
      var a := set i | 0 <= i < |init| && Qualifies(init[i]);
      var b := set i | 0 <= i < |ss| && Qualifies(ss[i]);
      assert a == set i | 0 <= i < last && Qualifies(ss[i]);
      if Qualifies(ss[last]) {
        assert b == a + {last};
      } else {
        assert b == a;
      }
    }
  }
}
