# Price reconciliation between the Bamboo Card Portal catalog and a price sheet

This project models the reconciliation core of `src/app/processes.py`. The
program fetches the commerce catalog, which is a list of brands that each own
products. It flattens the catalog into a product index keyed by product id
(`to_product_dict`). It then processes batches of spreadsheet rows
(`batch_process`). Each fetched row is matched by its `CODE_ID` against the
index and updated in place:

- on a hit, it gets the product name, the brand's region, the text of the
  product's maximum price, the currency and a success note;
- on a miss, it gets a "product not found" note that carries the code, and
  its price is cleared.

Every row whose `FILL_IN` is `RUN` is queued, hit or miss. The queued rows'
prices go to the cells their `ID_SHEET`/`SHEET`/`CELL` fields name, in one
write per (spreadsheet, tab) pair (`batch_update_price`). All fetched rows are
then written back.

Modules:

- `Models` (`models.dfy`): the catalog records of `src/app/bbcp/models.py` as
  datatypes.
- `Sheet` (`sheet.dfy`): the row as a `class` with mutable fields, since the
  program updates rows in place. Also its value snapshot `RowState`, the
  abstract status `Note`, the cell payload and the grouped write.
- `Grouping` (`grouping.dfy`): what `batch_update_price` sends, as functions of
  the queued rows' values, and the lemmas about it. These cover one write per
  distinct pair, no other writes, no empty write, and exactly one payload per
  qualifying row.
- `Processes` (`processes.dfy`): the three operations as imperative methods.
  Each is proved against the `Grouping` functions above or against
  declarative postconditions.

Remote calls are replaced by values. The rows `RowModel.batch_get` returns are
the `rows` argument of `BatchProcess`. The `free_style_batch_update` calls are
the `writes` that `BatchUpdatePrice` returns, in the order the program issues
them. The `RowModel.batch_update` call is the `written` list.

## Model

| member | source | states |
|---|---|---|
| `Processes.ToProductDict` | src/app/processes.py:18-31 | The index has a key for every product id of every brand and no other key. The entry for an id comes from its last occurrence in brand-then-product order. It carries that product's id, name and price and the owning brand's `countryCode`. |
| `Processes.IndexedStep` | src/app/processes.py:23-29 | Writing one product's entry keeps the index exact for the positions visited so far. The entry written is the last writer of its id. |
| `Processes.IndexedNextBrand` | src/app/processes.py:22-23 | Finishing a brand's products is the same as starting the next brand. |
| `Processes.MatchRow` | src/app/processes.py:91-103 | After the per-row step, the row's whole state is the reconciled state of its old state. |
| `Processes.BatchProcess` | src/app/processes.py:73-115 | Every fetched row ends reconciled, even one fetched twice. The queue is exactly the RUN rows in fetch order, independent of the lookup. The cell writes are those of the queue. Every fetched row is written back. |
| `Processes.ReconciledFields` | src/app/processes.py:91-103 | On a hit, PRODUCT, REGIONS, PRICE, CURRENCY and NOTE are the product's name, its brand's region, `str(price.max)`, `price.currencyCode` and success. On a miss, PRICE is "" and NOTE names the CODE_ID, while PRODUCT, REGIONS and CURRENCY keep their values. CODE_ID, FILL_IN, ID_SHEET, SHEET and CELL never change. |
| `Processes.ReconciledIdempotent` | src/app/processes.py:90-103 | Matching a row a second time changes nothing. |
| `Processes.RunRowsSpec` | src/app/processes.py:98-105 | A row is queued if and only if it was fetched and its FILL_IN is RUN. It is queued as many times as it was fetched. |
| `Processes.ReconciledPayload` | src/app/processes.py:39-46 | Matching does not change whether a row gets a cell write. Its payload is (CELL, `str(price.max)`) on a hit and (CELL, "") on a miss. |
| `Processes.BatchUpdatePrice` | src/app/processes.py:34-69 | The writes issued are exactly `Grouping.Writes` of the queued rows. These are grouped by `update_dict[ID_SHEET][SHEET]` and issued in the dicts' insertion order. |
| `Processes.GroupPayloads` | src/app/processes.py:37-63 | The built `update_dict` holds, under each (ID_SHEET, SHEET), the payloads of the qualifying rows with that pair, in row order. Its outer and inner key orders are the first-insertion orders. |
| `Processes.IssueWrites` | src/app/processes.py:65-69 | One write is issued per inner entry of `update_dict`: spreadsheets in insertion order, and each spreadsheet's tabs in insertion order. |
| `Processes.SkipTracked` | src/app/processes.py:38-39 | A row missing ID_SHEET, SHEET or CELL leaves `update_dict` and its insertion orders as they were. |
| `Processes.NewSheetTracked` | src/app/processes.py:40-47 | A row of a new spreadsheet adds that spreadsheet with one tab holding its one payload. |
| `Processes.NewTabTracked` | src/app/processes.py:49-56 | A row of a new tab of a known spreadsheet adds that tab with its one payload. |
| `Processes.AppendTracked` | src/app/processes.py:57-63 | A row of a known tab appends its payload to that tab's list. |
| `Grouping.WritesKeys` | src/app/processes.py:37-69 | Exactly one write is issued per distinct (ID_SHEET, SHEET) pair of a qualifying row, and none for any other pair. Each write carries the in-order payloads of the rows with that pair, and no write is empty. |
| `Grouping.WritesPayloads` | src/app/processes.py:38-63 | All payloads of all writes together are the payloads of the qualifying rows, each exactly once. So the payload count equals the qualifying row count. |
| `Grouping.QualifyingPayloadsSpec` | src/app/processes.py:39-46 | A row contributes a payload if and only if ID_SHEET, SHEET and CELL are all non-empty. |
| `Grouping.QualifyingPayloadsCount` | src/app/processes.py:38-39 | The number of payloads is the number of rows with ID_SHEET, SHEET and CELL set. |
| `Grouping.SheetIdsSpec` | src/app/processes.py:40-41 | The outer dict's keys are distinct and are exactly the ID_SHEETs of qualifying rows. |
| `Grouping.SheetNamesSpec` | src/app/processes.py:50-51 | The inner dict of a spreadsheet has distinct keys: exactly the SHEETs of its qualifying rows. |
| `Grouping.SheetNamesUnseen` | src/app/processes.py:40-42 | A spreadsheet not yet in the outer dict has no tabs. |
| `Grouping.GroupUnseen` | src/app/processes.py:50-51 | A tab not yet in the inner dict has no payloads. |
| `Grouping.GroupContains` | src/app/processes.py:58-62 | Every qualifying row's payload is in the list of its own (ID_SHEET, SHEET). |
| `Grouping.GroupNonEmpty` | src/app/processes.py:42-56 | The list of every pair that occurs is non-empty. |

## Left out

- `process()` (src/app/processes.py:120-147) is not modelled. It fetches the catalog, reads the RUN row indexes from the sheet, splits them with `split_list`, reads the relax time from cell Q2 and sleeps. These are remote reads and sleeps, and `split_list` (src/app/shared/utils) is not part of this model.
- `retry_on_fail` around `batch_process` is not modelled. Its source (src/app/shared/decorators) is not part of this model, and retrying is timing behaviour.
- `BatchProcess`: the model does not capture that the grouped cell writes are issued before the full-row write-back. Both are returned as values.
- The timestamp prefix (`formated_datetime(datetime.now())`) and the exact Vietnamese text of both notes are not modelled. The note is the abstract `Note.Updated` or `Note.ProductNotFound(code)`.
- Logging and `sleep_for` are left out as side effects.
- Float values are not modelled. `Price.min`/`max` and the face values are floats, kept as the text `str()` renders (`Models.Float`). The model never parses or formats floats.
- `RowModel`, `CheckType` and the sheet adapter (src/app/sheet) are not part of this model. The row fields are modelled as strings, with `CODE_ID` as an integer to match the index's keys. An empty `CODE_ID` cell therefore cannot be represented: in the program such a row misses and its note reads `CODE_ID: None` (src/app/processes.py:102), which `Note.ProductNotFound(codeId: int)` cannot carry. Python's `None` and `""` are both the empty string. `CheckType.RUN` is taken to be the text "RUN".
- The HTTP client (src/app/bbcp/api.py) is not modelled: requests, status checks, the 429 cooldowns, JSON validation and the file-backed fake catalog. This is network and file I/O.
- `get_exchange_rates` (src/app/bbcp/api.py:45-57) is not modelled. `src/app/processes.py` never calls it, and the price written is `str(price.max)` unconverted. Only the `CELL` cell of a row is written; the code resolves no other cell references.
