/** The reconciliation of src/app/processes.py: the catalog is flattened into a
    product index (`to_product_dict`), each fetched sheet row is matched
    against it and updated in place (`batch_process`), and the prices of the
    rows marked RUN are sent to their own cells, grouped by spreadsheet and
    tab (`batch_update_price`).

    The remote spreadsheet adapter is replaced by values: the rows a batch
    fetches are the `rows` argument, the full-row write-back is the returned
    `written` list, and the grouped cell writes are the returned `writes`. */
module Processes {
  import opened Models
  import opened Sheet
  import opened Grouping

  // ---------------------------------------------------------------------------
  // to_product_dict

  /** (b, p) names product p of brand b. */
  predicate IsPos(brands: seq<Brand>, b: int, p: int) {
    0 <= b < |brands| && 0 <= p < |brands[b].products|
  }

  /** Position (b, p) comes before (b2, p2) in brand-then-product order. */
  predicate Before(b: int, p: int, b2: int, p2: int) {
    b < b2 || (b == b2 && p < p2)
  }

  /** No product after (b, p) in brand-then-product order has the same id. */
  ghost predicate IsLastOccurrence(brands: seq<Brand>, b: int, p: int)
    requires IsPos(brands, b, p)
  {
    forall b2, p2 :: IsPos(brands, b2, p2) && Before(b, p, b2, p2) ==>
      brands[b2].products[p2].id != brands[b].products[p].id
  }

  /** The product index: one entry per product id of the catalog and no
      other; an entry takes the id, name and price of the product and the
      region of the brand that owns it; when an id repeats, the entry comes
      from its last occurrence. */
  method ToProductDict(catalog: CatalogResponse) returns (productDict: map<int, FriProduct>)
    ensures forall id :: id in productDict <==>
      exists b, p :: IsPos(catalog.brands, b, p) && catalog.brands[b].products[p].id == id
    ensures forall id :: id in productDict ==>
      exists b, p :: IsPos(catalog.brands, b, p) && IsLastOccurrence(catalog.brands, b, p) &&
        (var brand, product := catalog.brands[b], catalog.brands[b].products[p];
         product.id == id && productDict[id] == FriProduct(id, product.name, brand.countryCode, product.price))
  {
    var brands := catalog.brands;
    productDict := map[];
    // where each entry was last written from
    ghost var at: map<int, (int, int)> := map[];
    for i := 0 to |brands|
      invariant Indexed(brands, productDict, at, i, 0)
    {
      var brand := brands[i];
      for j := 0 to |brand.products|
        invariant Indexed(brands, productDict, at, i, j)
      {
        var product := brand.products[j];
        IndexedStep(brands, productDict, at, i, j);
        productDict := productDict[product.id := FriProduct(product.id, product.name, brand.countryCode, product.price)];
        at := at[product.id := (i, j)];
      }
      IndexedNextBrand(brands, productDict, at, i);
    }
    forall id | id in productDict
      ensures exists b, p :: (IsPos(brands, b, p) && IsLastOccurrence(brands, b, p) &&
        var brand, product := brands[b], brands[b].products[p];
        product.id == id && productDict[id] == FriProduct(id, product.name, brand.countryCode, product.price))
    {
      var (b, p) := at[id];
      assert IsLastOccurrence(brands, b, p);
    }
  }

  /** The state of `to_product_dict` once every product before position
      (i, j) has been visited: `dict` holds exactly the ids seen, and `at`
      says for each id the position its entry was last written from. */
  ghost predicate Indexed(brands: seq<Brand>, dict: map<int, FriProduct>, at: map<int, (int, int)>, i: int, j: int)
  {
    && (forall id :: id in dict <==>
          exists b, p :: IsPos(brands, b, p) && Before(b, p, i, j) && brands[b].products[p].id == id)
    && at.Keys == dict.Keys
    && (forall id :: id in at ==>
          var (b, p) := at[id];
          IsPos(brands, b, p) && Before(b, p, i, j) && brands[b].products[p].id == id &&
          dict[id] == FriProduct(id, brands[b].products[p].name, brands[b].countryCode, brands[b].products[p].price))
    && (forall id, b2, p2 ::
          (id in at && IsPos(brands, b2, p2) && Before(b2, p2, i, j) && Before(at[id].0, at[id].1, b2, p2)) ==>
          brands[b2].products[p2].id != id)
  }

  lemma IndexedStep(brands: seq<Brand>, dict: map<int, FriProduct>, at: map<int, (int, int)>, i: int, j: int)
    requires IsPos(brands, i, j) && Indexed(brands, dict, at, i, j)
    ensures var brand, product := brands[i], brands[i].products[j];
      Indexed(brands, dict[product.id := FriProduct(product.id, product.name, brand.countryCode, product.price)],
              at[product.id := (i, j)], i, j + 1)
  {
    var brand, product := brands[i], brands[i].products[j];
    var dict' := dict[product.id := FriProduct(product.id, product.name, brand.countryCode, product.price)];
    forall id ensures id in dict' <==>
      exists b, p :: IsPos(brands, b, p) && Before(b, p, i, j + 1) && brands[b].products[p].id == id
    {
      if id == product.id {
        assert IsPos(brands, i, j) && Before(i, j, i, j + 1);
      }
    }
  }

  lemma IndexedNextBrand(brands: seq<Brand>, dict: map<int, FriProduct>, at: map<int, (int, int)>, i: int)
    requires 0 <= i < |brands| && Indexed(brands, dict, at, i, |brands[i].products|)
    ensures Indexed(brands, dict, at, i + 1, 0)
  {
    forall b, p | IsPos(brands, b, p)
      ensures Before(b, p, i, |brands[i].products|) == Before(b, p, i + 1, 0)
    {
    }
  }

  // ---------------------------------------------------------------------------
  // batch_process

  /** A row after the batch has matched it against the product index. When
      its CODE_ID is a product id, PRODUCT, REGIONS, PRICE and CURRENCY take
      the product's name, its brand's region, the text of its maximum price
      and the price's currency, and the note reports success. Otherwise the
      note reports the missing code and PRICE is cleared. */
  function Reconciled(productDict: map<int, FriProduct>, s: RowState): RowState
  {
    if s.codeId in productDict then
      var entry := productDict[s.codeId];
      s.(product := entry.name, regions := entry.countryCode, price := entry.price.max.str,
         currency := entry.price.currencyCode, note := Updated)
    else
      s.(note := ProductNotFound(s.codeId), price := "")
  }

  /** The rows whose FILL_IN is RUN, in their order. */
  function RunRows(rows: seq<Row>): seq<Row>
    reads rows`fillIn
  {
    if rows == [] then []
    else
      var q := RunRows(rows[..|rows| - 1]);
      var r := rows[|rows| - 1];
      if r.fillIn == Run then q + [r] else q
  }

  /** One batch: every fetched row is matched and updated in place, the rows
      marked RUN are queued whether or not their code was found, the queued
      rows' prices are sent to their cells, and every fetched row is written
      back. */
  method BatchProcess(productDict: map<int, FriProduct>, rows: seq<Row>)
    returns (queued: seq<Row>, writes: seq<SheetWrite>, written: seq<Row>)
    modifies rows
    ensures forall r :: r in rows ==> r.State() == Reconciled(productDict, old(r.State()))
    ensures queued == RunRows(rows)
    ensures writes == Writes(States(queued))
    ensures written == rows
  {
    queued := [];
    for i := 0 to |rows|
      invariant forall r :: r in rows ==>
        r.State() == if r in rows[..i] then Reconciled(productDict, old(r.State())) else old(r.State())
      invariant queued == RunRows(rows[..i])
    {
      var row := rows[i];
      MatchRow(productDict, row);
      if row.fillIn == Run {
        queued := queued + [row];
      }
      // A row fetched twice is the same object; matching it again changes nothing.
      ReconciledIdempotent(productDict, old(row.State()));
      assert rows[..i + 1][..i] == rows[..i];
    }
    assert rows[..|rows|] == rows;
    writes := BatchUpdatePrice(queued);
    written := rows;
  }

  /** The per-row step of a batch: the row's fields are set from the product
      its CODE_ID names, or the row is marked as not found. */
  method MatchRow(productDict: map<int, FriProduct>, row: Row)
    modifies row
    ensures row.State() == Reconciled(productDict, old(row.State()))
  {
    if row.codeId in productDict {
      row.product := productDict[row.codeId].name;
      row.regions := productDict[row.codeId].countryCode;
      row.price := productDict[row.codeId].price.max.str;
      row.currency := productDict[row.codeId].price.currencyCode;
      row.note := Updated;
    } else {
      row.note := ProductNotFound(row.codeId);
      row.price := "";
    }
  }

  /** Matching a row twice is the same as matching it once. */
  lemma ReconciledIdempotent(productDict: map<int, FriProduct>, s: RowState)
    ensures Reconciled(productDict, Reconciled(productDict, s)) == Reconciled(productDict, s)
  {
  }

  /** Field by field: what a match sets, what a miss sets, and what neither touches. */
  lemma ReconciledFields(productDict: map<int, FriProduct>, s: RowState)
    ensures var t := Reconciled(productDict, s);
      && t.codeId == s.codeId && t.fillIn == s.fillIn
      && t.idSheet == s.idSheet && t.sheet == s.sheet && t.cell == s.cell
      && (s.codeId in productDict ==>
            var entry := productDict[s.codeId];
            t.product == entry.name && t.regions == entry.countryCode &&
            t.price == entry.price.max.str && t.currency == entry.price.currencyCode &&
            t.note == Updated)
      && (s.codeId !in productDict ==>
            t.price == "" && t.note == ProductNotFound(s.codeId) &&
            t.product == s.product && t.regions == s.regions && t.currency == s.currency)
  {
  }

  /** The queue holds exactly the rows marked RUN, each as often as it was fetched. */
  lemma {:induction false} RunRowsSpec(rows: seq<Row>)
    ensures forall r :: r in RunRows(rows) <==> r in rows && r.fillIn == Run
    ensures forall r: Row :: multiset(RunRows(rows))[r] == if r.fillIn == Run then multiset(rows)[r] else 0
  {
    if rows != [] {
      var init := rows[..|rows| - 1];
      RunRowsSpec(init);
      assert rows == init + [rows[|rows| - 1]];
    }
  }

  // ---------------------------------------------------------------------------
  // batch_update_price

  /** The cell writes for the queued rows: one write per distinct (ID_SHEET,
      SHEET) pair, sheets in the order they first appear, tabs of a sheet in
      the order they first appear, each holding the (CELL, PRICE) payloads of
      its rows in row order; rows missing ID_SHEET, SHEET or CELL are skipped.
      `WritesKeys` and `WritesPayloads` state what these writes contain. */
  method BatchUpdatePrice(queued: seq<Row>) returns (writes: seq<SheetWrite>)
    ensures writes == Writes(States(queued))
  {
    var updateDict, ids, names := GroupPayloads(queued);
    writes := IssueWrites(updateDict, ids, names, States(queued));
  }

  /** The first half of `batch_update_price`: `update_dict` is built row by
      row, and with it the insertion order of its keys (`ids`) and of each
      inner dict's keys (`names`), which is the order Python iterates them in. */
  method GroupPayloads(queued: seq<Row>)
    returns (updateDict: map<string, map<string, seq<Payload>>>, ids: seq<string>, names: map<string, seq<string>>)
    ensures Tracks(States(queued), ids, names, updateDict)
  {
    ghost var ss := States(queued);
    updateDict, ids, names := map[], [], map[];
    for i := 0 to |queued|
      invariant Tracks(ss[..i], ids, names, updateDict)
    {
      assert ss[..i + 1] == ss[..i] + [ss[i]];
      var row := queued[i];
      assert row.State() == ss[i];
      if row.idSheet != "" && row.sheet != "" && row.cell != "" {
        var payload := Payload(row.cell, if row.price != "" then row.price else "");
        if row.idSheet !in updateDict {
          NewSheetTracked(ss[..i], ss[i], ids, names, updateDict);
          updateDict := updateDict[row.idSheet := map[row.sheet := [payload]]];
          ids := ids + [row.idSheet];
          names := names[row.idSheet := [row.sheet]];
        } else if row.sheet !in updateDict[row.idSheet] {
          NewTabTracked(ss[..i], ss[i], ids, names, updateDict);
          updateDict := updateDict[row.idSheet := updateDict[row.idSheet][row.sheet := [payload]]];
          names := names[row.idSheet := names[row.idSheet] + [row.sheet]];
        } else {
          AppendTracked(ss[..i], ss[i], ids, names, updateDict);
          var group := updateDict[row.idSheet][row.sheet] + [payload];
          updateDict := updateDict[row.idSheet := updateDict[row.idSheet][row.sheet := group]];
        }
      } else {
        SkipTracked(ss[..i], ss[i], ids, names, updateDict);
      }
    }
    assert ss[..|queued|] == ss;
  }

  /** The second half of `batch_update_price`: one write per inner entry of
      `update_dict`, sheets in `ids` order and tabs in `names[id]` order. When
      the dict was built from the rows `ss`, these are exactly `Writes(ss)`. */
  method IssueWrites(updateDict: map<string, map<string, seq<Payload>>>, ids: seq<string>,
                     names: map<string, seq<string>>, ghost ss: seq<RowState>)
    returns (writes: seq<SheetWrite>)
    requires ids == SheetIds(ss)
    requires forall id :: id in ids ==> id in names && id in updateDict && names[id] == SheetNames(ss, id)
    requires forall id, name :: id in updateDict && id in names && name in names[id] ==>
      name in updateDict[id] && updateDict[id][name] == Group(ss, id, name)
    ensures writes == Writes(ss)
  {
    writes := [];
    for k := 0 to |ids|
      invariant writes == IdWrites(ss, ids[..k])
    {
      var id := ids[k];
      var sheetNames := names[id];
      for m := 0 to |sheetNames|
        invariant writes == IdWrites(ss, ids[..k]) + NameWrites(ss, id, sheetNames[..m])
      {
        var name := sheetNames[m];
        assert sheetNames[..m + 1][..m] == sheetNames[..m];
        writes := writes + [SheetWrite(id, name, updateDict[id][name])];
      }
      assert sheetNames[..|sheetNames|] == sheetNames;
      assert ids[..k + 1][..k] == ids[..k];
    }
    assert ids[..|ids|] == ids;
  }

  /** The state `batch_update_price` builds while it scans the rows `ss`:
      `d` is `update_dict`, `ids` the insertion order of its keys and
      `names[id]` the insertion order of the keys of `d[id]`. */
  ghost predicate Tracks(ss: seq<RowState>, ids: seq<string>, names: map<string, seq<string>>,
                         d: map<string, map<string, seq<Payload>>>)
  {
    && ids == SheetIds(ss)
    && (forall id :: id in d <==> id in ids)
    && (forall id :: id in names <==> id in ids)
    && (forall id :: id in names ==> names[id] == SheetNames(ss, id))
    && (forall id, name :: id in d && id in names ==> (name in d[id] <==> name in names[id]))
    && (forall id, name :: id in d && name in d[id] ==> d[id][name] == Group(ss, id, name))
  }

  lemma SkipTracked(ss: seq<RowState>, s: RowState, ids: seq<string>, names: map<string, seq<string>>,
                    d: map<string, map<string, seq<Payload>>>)
    requires Tracks(ss, ids, names, d) && !Qualifies(s)
    ensures Tracks(ss + [s], ids, names, d)
  {
    var ss' := ss + [s];
    SheetIdsSnoc(ss, s);
    forall id | id in names ensures names[id] == SheetNames(ss', id) {
      SheetNamesSnoc(ss, s, id);
    }
    forall id, name | id in d && name in d[id] ensures d[id][name] == Group(ss', id, name) {
      GroupSnoc(ss, s, id, name);
    }
  }

  lemma NewSheetTracked(ss: seq<RowState>, s: RowState, ids: seq<string>, names: map<string, seq<string>>,
                        d: map<string, map<string, seq<Payload>>>)
    requires Tracks(ss, ids, names, d) && Qualifies(s) && s.idSheet !in d
    ensures Tracks(ss + [s], ids + [s.idSheet], names[s.idSheet := [s.sheet]],
                   d[s.idSheet := map[s.sheet := [PayloadOf(s)]]])
  {
    var x, n := s.idSheet, s.sheet;
    var ss', names' := ss + [s], names[x := [n]];
    var d' := d[x := map[n := [PayloadOf(s)]]];
    SheetIdsSnoc(ss, s);
    SheetNamesUnseen(ss, x);
    GroupUnseen(ss, x, n);
    forall id | id in names' ensures names'[id] == SheetNames(ss', id) {
      SheetNamesSnoc(ss, s, id);
    }
    forall id, name | id in d' && name in d'[id] ensures d'[id][name] == Group(ss', id, name) {
      GroupSnoc(ss, s, id, name);
    }
  }

  lemma NewTabTracked(ss: seq<RowState>, s: RowState, ids: seq<string>, names: map<string, seq<string>>,
                      d: map<string, map<string, seq<Payload>>>)
    requires Tracks(ss, ids, names, d) && Qualifies(s) && s.idSheet in d && s.sheet !in d[s.idSheet]
    ensures s.idSheet in names
    ensures Tracks(ss + [s], ids, names[s.idSheet := names[s.idSheet] + [s.sheet]],
                   d[s.idSheet := d[s.idSheet][s.sheet := [PayloadOf(s)]]])
  {
    var x, n := s.idSheet, s.sheet;
    var ss', names' := ss + [s], names[x := names[x] + [n]];
    var d' := d[x := d[x][n := [PayloadOf(s)]]];
    SheetIdsSnoc(ss, s);
    GroupUnseen(ss, x, n);
    assert x in ids && x in names && n !in names[x];
    forall id | id in names' ensures names'[id] == SheetNames(ss', id) {
      SheetNamesSnoc(ss, s, id);
    }
    forall id, name | id in d' && name in d'[id] ensures d'[id][name] == Group(ss', id, name) {
      GroupSnoc(ss, s, id, name);
    }
  }

  lemma AppendTracked(ss: seq<RowState>, s: RowState, ids: seq<string>, names: map<string, seq<string>>,
                      d: map<string, map<string, seq<Payload>>>)
    requires Tracks(ss, ids, names, d) && Qualifies(s) && s.idSheet in d && s.sheet in d[s.idSheet]
    ensures Tracks(ss + [s], ids, names,
                   d[s.idSheet := d[s.idSheet][s.sheet := d[s.idSheet][s.sheet] + [PayloadOf(s)]]])
  {
    var x, n := s.idSheet, s.sheet;
    var ss' := ss + [s];
    var d' := d[x := d[x][n := d[x][n] + [PayloadOf(s)]]];
    SheetIdsSnoc(ss, s);
    assert x in ids && x in names && n in names[x];
    forall id | id in names ensures names[id] == SheetNames(ss', id) {
      SheetNamesSnoc(ss, s, id);
    }
    forall id, name | id in d' && name in d'[id] ensures d'[id][name] == Group(ss', id, name) {
      GroupSnoc(ss, s, id, name);
    }
  }

  /** The payload a matched row sends: a row qualifies for a cell write
      exactly when it did before matching, and its value is the text of the
      product's maximum price when its code was found and "" when it was not. */
  lemma ReconciledPayload(productDict: map<int, FriProduct>, s: RowState)
    ensures Qualifies(Reconciled(productDict, s)) == Qualifies(s)
    ensures PayloadOf(Reconciled(productDict, s)) ==
      Payload(s.cell, if s.codeId in productDict then productDict[s.codeId].price.max.str else "")
  {
  }
}
