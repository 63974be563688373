# Ledger conversion of MyExpenses transactions, modelled in Dafny

Two Python scripts read the transactions of a MyExpenses database and print them
as plain-text ledger blocks:

- `ledger_myexpenses.py` converts every transaction row into an entry with two postings.
  It merges the rows of one split transaction (equal time) into a single entry
  and collapses the flows booked on each account. It renders every entry under
  its own year, with a `Y<year>` marker before the first entry of each year.
- `ledger-import.py` is the older script. It converts each row on its own, with
  the amounts already formatted as text, and skips rows booked on the split
  category.

This project models the deterministic core of both scripts:

- the money text (`Flow.__str__` and its twin `fmt_currency`) and `Flow.__add__`;
- account and category labels (`Accounts.asset`, `category`, `_category`, `labels`
  and the table loaders);
- the `fetch_entries` state machine over the rows;
- `merge_splits` with `prepare`, including the sort-group-sum collapse of each
  account's flows;
- `Entry.render` and `fmt_entry`;
- the two printing loops that place the year markers.

The database is an input: a sequence of rows plus the account, category and
payee tables. A Python exception is an `Error` value (`AssertionError`,
`KeyError`, `RecursionError`, `UnboundLocalError`), and a loop stops at the
first one.

Modules, one per file:

| file | module | models |
|---|---|---|
| wrappers.dfy | Wrappers | `Option`, `Result`, the exceptions |
| text.dfy | Text | decimal digits, zero-padding, `{:<w}`/`{:>w}` padding, `join`, `split`, truthiness, Python's string order |
| assoc.dfy | Assoc | a Python dict as an insertion-ordered list of pairs |
| clock.dfy | Clock | local date-time fields, their order, the `strftime` texts |
| money.dfy | Money | `Flow`, its text, reading the text back, `Flow.__add__` |
| accounts.dfy | Accounts | the `Accounts` tables and their labels |
| entries.dfy | Entries | `Entry`, the two postings of a row, balances |
| extractor.dfy | Extractor | `fetch_entries` |
| grouping.dfy | Grouping | `itertools.groupby` (runs of equal keys) |
| collapse.dfy | Collapsing | `sorted` by the flow key and the per-group `reduce(operator.add, …)` |
| merger.dfy | Merger | `merge_splits` and `prepare` |
| render.dfy | Render | `Entry.render` |
| markers.dfy | Markers | where the year markers go |
| ledger.dfy | Ledger | `action_ledger` |
| ledger_import.dfy | LedgerImport | `fmt_entry`, the per-row transform and the printing loop of `ledger-import.py` |

Each loop of the source is a method with its invariants. The method is proved
equal to a function, and the properties are lemmas about that function. The
loops are `Flow.__str__`'s grouping loop, the two loaders, `labels`, the row loop
of `fetch_entries`, the loops of `merge_splits` and `prepare`, `render`'s block,
and the two printing loops.

## Model

| member | source | states |
|---|---|---|
| Money.FormatText | ledger_myexpenses.py:14-30 | The cents, the three-digit groups the `while True` loop puts in front, the `$` or the ` CODE`, and the sign give exactly `Format(amount, currency)`. `fmt_currency` (ledger-import.py:7-22) is the same code, and both scripts print their amounts through this one method. |
| Money.PrependGroups | ledger_myexpenses.py:21-26 | The grouping loop puts the comma-grouped digits of the whole units in front of the pieces it started with. |
| Money.GroupedShape | ledger_myexpenses.py:21-26 | The whole part has commas exactly at every fourth place from the right and digits elsewhere. Its first digit is 0 only for 0. Its digits read back as the number of whole units. |
| Money.FormatSign | ledger_myexpenses.py:16-17 | The text starts with '-' exactly when the amount is negative, and the rest is the text of the absolute amount. |
| Money.FractionMark | ledger_myexpenses.py:18-20 | A '.' appears exactly when the cents are not zero or the whole part is at least 1000. It is then followed by the two zero-filled cent digits. |
| Money.FormatDigits | ledger_myexpenses.py:18-26 | The digits of the text read as abs(amount) when the fraction is shown. Otherwise they read as abs(amount)/100, and the cents are zero. |
| Money.FormatCurrency | ledger_myexpenses.py:27-28 | USD gives a `$` right after the sign, and the text never names USD. Any other code ends the text after one space, and the text contains '$' only if the code does. |
| Money.ParseFormat | ledger-import.py:7-22 | Reading the text of `fmt_currency`, which is also the text of `Flow.__str__`, back (sign, currency marker, digits, '.') gives the amount: the text determines the amount. |
| Money.BodyChars | ledger_myexpenses.py:18-26 | Without sign and currency the text uses only digits, ',' and '.'. |
| Money.FormatNoBreak | ledger_myexpenses.py:14-30 | The text holds a line break only if the currency code does. |
| Money.FormatExampleWhole | ledger_myexpenses.py:14-30 | 0 USD is `$0` and -250 EUR is `-2.50 EUR`. |
| Money.FormatExampleCents | ledger_myexpenses.py:14-30 | 150 USD is `$1.50`. |
| Money.FormatExampleThousand | ledger_myexpenses.py:19 | 100000 USD is `$1,000.00`: from 1000 units on, zero cents are shown. |
| Money.Add | ledger_myexpenses.py:32-36 | The sum exists exactly when comment, payee and currency are equal, and fails with AssertionError otherwise. It has the summed amount, the first currency, and no payee or comment. |
| Money.AddCommutes | ledger_myexpenses.py:32-36 | `a + b` and `b + a` give the same result or the same error. |
| Money.AddAssociates | ledger_myexpenses.py:32-36 | On unannotated flows of one currency, both groupings succeed and give the same flow with the amount of all three. |
| Accounts.LoadAssets | ledger_myexpenses.py:83-86 | The table is the dict that assigning the rows in order builds: its ids in the order of their first row (`FirstKeys`), each holding the account of its last row. |
| Accounts.LoadCategories | ledger_myexpenses.py:88-92 | The same for categories, ids in first-row order. A row whose parent is itself is stored without a parent, so no stored category is its own parent. |
| Accounts.Load | ledger_myexpenses.py:75-81 | Both tables are loaded as above, each with its ids in first-row order and the last row of each id as its value. |
| Accounts.LoadedCategory | ledger_myexpenses.py:88-92 | Looking up a loaded id gives the last row with that id, normalised. |
| Accounts.CategoryName | ledger_myexpenses.py:100-103 | No category gives `Category:Unknown`. An id missing from the table raises KeyError for it. |
| Accounts.WalkChain | ledger_myexpenses.py:94-98 | Walking up a chain of stored categories gives their labels, top-level first, joined with ':'. |
| Accounts.WalkUp | ledger_myexpenses.py:96-97 | A category with a parent is named after the parent's name, a ':' and its label. |
| Accounts.WalkTop | ledger_myexpenses.py:95-98 | A category without a parent is named by its label alone. |
| Accounts.CategoryChain | ledger_myexpenses.py:94-103 | `category(id)` is the ':'-joined chain from the top-level category down to id. |
| Accounts.MissingParent | ledger_myexpenses.py:95-97 | A parent id missing from the table raises KeyError for the parent. |
| Accounts.ParentCycle | ledger_myexpenses.py:94-98 | Two categories that are each other's parent make the walk endless. This is reported as RecursionError. |
| Accounts.SelfParentRecursion | ledger_myexpenses.py:94-98 | A stored self-parent would recurse forever; only the loader's normalisation prevents it. |
| Accounts.SelfParentIsRoot | ledger_myexpenses.py:91 | After loading, a row that named itself as parent is a top-level category named by its own label. |
| Accounts.KindJoin | ledger_myexpenses.py:107-119 | Joining the type's words and the label with ':' is the type's prefix followed by the label. |
| Accounts.Asset | ledger_myexpenses.py:105-119 | An unknown id raises KeyError. Otherwise the name is `Assets:Cash:`, `Assets:Bank:`, `Assets:`, `Liabilities:CreditCard:` or `Liabilities:` by type, or nothing for any other type, followed by the label. |
| Accounts.AssetCurrency | ledger_myexpenses.py:121-122 | The currency exists exactly for a known id. An unknown id raises KeyError. |
| Accounts.AssetNames | ledger_myexpenses.py:125-126 | One name per account, in table order, each `asset(id)`. |
| Accounts.NamedCategories | ledger_myexpenses.py:127-128 | Every category id except 0. |
| Accounts.CategoryNamesSpec | ledger_myexpenses.py:127-129 | The category names succeed exactly when every named id can be named. They then list those names in order. Otherwise they fail with the first id's error. |
| Accounts.AssetLabels | ledger_myexpenses.py:125-126 | The first loop of `labels` yields exactly the account names. |
| Accounts.Labels | ledger_myexpenses.py:124-129 | `labels()` lists the account names, then the names of categories other than 0. If a category cannot be named, it raises that category's error. |
| Accounts.ErrStops | ledger_myexpenses.py:127-129 | Once naming fails, later ids do not change the error. |
| Assoc.Put | ledger_myexpenses.py:225-226 | `d[k] = v`: a present key keeps its position and a new key goes last. k then holds v and every other key keeps its value. |
| Assoc.PutHolds | ledger_myexpenses.py:86 | Assigning in order keeps the dict in step with the assignments made: a new key goes last, and every key holds its last value. |
| Clock.BeforeStrictTotal | ledger_myexpenses.py:217 | The order of local times is a strict total order. |
| Clock.BeforeYear | ledger_myexpenses.py:233 | An earlier time has a year no later, and an earlier year comes first. |
| Clock.MonthDay | ledger_myexpenses.py:50 | `%m/%d` is two zero-filled digits of the month, a '/', and two of the day. |
| Clock.DateText | ledger_myexpenses.py:50 | Under its own year the date is month and day only. Otherwise the year's digits and a '/' come in front. |
| Clock.TimeText | ledger_myexpenses.py:53 | `%H:%M` is two zero-filled digits each of hour and minute. |
| Clock.YearMarker | ledger_myexpenses.py:234 | The marker is a line break, `Y`, the year's digits, and a line break. |
| Entries.Postings | ledger_myexpenses.py:186-189 | The entry's flow is the amount on the source and its negation, with payee and comment, on the destination. When both are one account, the second value replaces the first. |
| Entries.PostingsBalanced | ledger_myexpenses.py:186-189 | Between two different accounts every currency sums to zero. |
| Entries.PostingsSameAccount | ledger_myexpenses.py:186-189 | Booked on one account, only the negated amount is left. |
| Extractor.HandleRow | ledger_myexpenses.py:144-189 | The loop body, with its early exits, equals the row step `Step`. |
| Extractor.FetchEntries | ledger_myexpenses.py:131-189 | The generator yields the entries of `Extract`. It stops at the first exception, which it returns. |
| Extractor.ErrorStops | ledger_myexpenses.py:140-189 | Once the generator has raised, later rows change nothing. |
| Extractor.ParentRow | ledger_myexpenses.py:151-156 | A non-transfer row with category 0 is skipped exactly then. It becomes the remembered parent and keeps the destination. |
| Extractor.OnlyParentSkips | ledger_myexpenses.py:154-156 | No other row is skipped. |
| Extractor.TransferAsserts | ledger_myexpenses.py:148-161 | A transfer with a category other than 0 or none fails with AssertionError. So does a non-transfer row with a transfer peer. |
| Extractor.SplitPosting | ledger_myexpenses.py:169-177 | A split posting fails unless it has no payee and its parent is present, has its id and date, and they do not both carry a comment. It then takes the parent's payee and, if it has none, the parent's comment. |
| Extractor.NonSplitResets | ledger_myexpenses.py:178-181 | A row that is not a split posting forgets the parent, keeps its own comment, and takes the payee of its own `payee_id` (none without one). |
| Extractor.NonSplitPayee | ledger_myexpenses.py:178-181 | For a routed row outside a split: an id missing from the payees raises KeyError for it; an entry gets the row's own payee and comment and forgets the parent; the only other failure is an unset destination. |
| Extractor.EntryShape | ledger_myexpenses.py:181-189 | An emitted entry has the row's time and the two postings. It balances when the two accounts differ. |
| Extractor.StaleDestination | ledger_myexpenses.py:152-153 | A row with no transfer and no category books on the destination the last row left. Before any row set one, it fails with UnboundLocalError. |
| Extractor.ExtractShape | ledger_myexpenses.py:182-189 | Every yielded entry has two balancing postings or one. |
| Extractor.ExtractInOrder | ledger_myexpenses.py:139-189 | Rows in time order yield entries in time order. |
| Grouping.RunsFlatten | ledger_myexpenses.py:210 | `groupby`'s runs, laid end to end, give the sequence back. |
| Grouping.RunsUniform | ledger_myexpenses.py:210 | Every element of a run has the run's key. |
| Grouping.RunsMaximal | ledger_myexpenses.py:210 | Neighbouring runs have different keys. |
| Collapsing.KeyOf | ledger_myexpenses.py:207 | The key is the sign test `amount > 0`, the currency, and `str` of payee and comment. A missing value becomes "None". |
| Collapsing.KeyLessTransitive | ledger_myexpenses.py:207 | Python's order on the key tuples is transitive. |
| Collapsing.KeyLessTotal | ledger_myexpenses.py:207 | Of two different keys, one is smaller. |
| Collapsing.SortByKey | ledger_myexpenses.py:210 | `sorted` keeps every flow, as a multiset. |
| Collapsing.SortSorted | ledger_myexpenses.py:210 | `sorted` orders the flows by key. |
| Collapsing.SortTotal | ledger_myexpenses.py:210 | Sorting keeps every currency's total. |
| Collapsing.SumGroup | ledger_myexpenses.py:210 | A group of one flow is returned unchanged. A longer group is the total amount in its currency, without payee or comment. |
| Collapsing.ReduceAddAgrees | ledger_myexpenses.py:210 | Where `reduce(operator.add, g)` as written succeeds, it gives that sum. |
| Collapsing.ReduceAddFails | ledger_myexpenses.py:210 | A third flow that carries a payee or a comment makes the as-written `reduce` fail. |
| Collapsing.CollapseAgrees | ledger_myexpenses.py:210 | Where the as-written collapse succeeds, it gives the corrected collapse. |
| Collapsing.CollapseCrash | ledger_myexpenses.py:210 | Three equal flows that carry a payee or comment make the as-written collapse raise AssertionError. |
| Collapsing.CollapseCrashExample | ledger_myexpenses.py:210 | Three postings of one split to one category under a parent with a payee crash the as-written code. The corrected collapse books their sum. |
| Collapsing.CollapseTriple | ledger_myexpenses.py:210 | The corrected collapse books three equal flows as one flow of three times the amount, without annotations. |
| Collapsing.CollapseTotal | ledger_myexpenses.py:209-210 | The collapse of an account's flows keeps its total in every currency. |
| Collapsing.CollapseRepeats | ledger_myexpenses.py:207-210 | A flow without payee that sorts before two equal flows with a payee leaves two flows with one key. |
| Collapsing.CollapseMayRepeatKey | ledger_myexpenses.py:207-210 | A concrete account where two collapsed flows share a key. |
| Merger.AbsorbInto | ledger_myexpenses.py:223-226 | The loop over an absorbed entry's accounts is the fold `Absorb`. |
| Merger.AbsorbGet | ledger_myexpenses.py:223-226 | After folding, each account holds its own flows followed by the absorbed entry's, and the result is still a dict. |
| Merger.AbsorbKeys | ledger_myexpenses.py:223-226 | The accounts already present stay first, in order. New ones come after them. |
| Merger.Merged | ledger_myexpenses.py:213-226 | A merged run has the first entry's time, payee and comment. |
| Merger.MergedGathered | ledger_myexpenses.py:213-226 | Each account of a merged run holds the members' flows for it, in arrival order. |
| Merger.MergedKeys | ledger_myexpenses.py:213-226 | The first entry's accounts stay first, in their order. |
| Merger.MergedTotal | ledger_myexpenses.py:223-226 | Merging books exactly what the members booked, currency by currency. |
| Merger.CollapseAccounts | ledger_myexpenses.py:209-210 | The loop over the accounts collapses each account's flows in turn, as written (`CollapseAllAsWritten`): the first account whose `reduce` fails raises its AssertionError. |
| Merger.CollapseAll | ledger_myexpenses.py:209-210 | The intended collapse: the accounts are unchanged and each holds its flows summed with the corrected sum. |
| Merger.CollapseAllAgrees | ledger_myexpenses.py:209-210 | The loop as written succeeds exactly when every account's collapse does, and then it gives the intended `CollapseAll`. |
| Merger.CollapseAllFails | ledger_myexpenses.py:209-210 | When the accounts before one collapse and that one does not, its exception is what the loop raises. |
| Merger.Prepare | ledger_myexpenses.py:194-211 | `prepare()` is `PrepareAsWritten`: an entry that absorbed nothing is returned as it is; otherwise the payee and comment rules apply, then each account is collapsed as written, and a failing `reduce` raises AssertionError. |
| Merger.PrepareAgrees | ledger_myexpenses.py:194-211 | `prepare` as written raises exactly when the group has an account whose flows it cannot collapse. Wherever it succeeds it gives the intended `Prepared`. |
| Merger.PrepareCrash | ledger_myexpenses.py:194-211 | An account holding three equal flows that carry a payee or a comment makes `prepare` raise AssertionError. |
| Merger.PreparedPayee | ledger_myexpenses.py:197-200 | After absorbing, the payee is dropped exactly when the group names more than one distinct non-empty payee. A payee that is kept is the payee of every flow that names one. |
| Merger.PreparedComment | ledger_myexpenses.py:202-205 | The same rule for the comment. |
| Merger.PreparedTotal | ledger_myexpenses.py:209-210 | `prepare` keeps the entry's total in every currency. |
| Merger.PreparedAccountTotal | ledger_myexpenses.py:209-210 | `prepare` keeps each account's total in every currency. |
| Merger.MergedBalanced | ledger_myexpenses.py:194-226 | A run of balanced entries gives a balanced entry. |
| Merger.MergeSplits | ledger_myexpenses.py:191-227 | The generator over the entries read, which stops at the first exception of `prepare` or of the entries upstream, yields exactly `MergeSplitsSpec` and stops with its error. |
| Merger.MergeSplitsSpec | ledger_myexpenses.py:191-227 | At most one output per run, each the intended prepared run, in order. An exception upstream always ends it with an exception. Without one, it ends cleanly exactly when every run can be prepared. An error of its own is the `prepare` failure of the first run not yielded. |
| Merger.PrepareRunsYields | ledger_myexpenses.py:213-227 | Runs are prepared in order until the first one `prepare` cannot handle. Every entry yielded is the intended prepared run, a run of one is not treated as a split, and an error is that of the first failing run. Without an error every run is yielded. |
| Merger.RunsNew | ledger_myexpenses.py:217-221 | A new time yields the pending entry, prepared, and starts a new run. |
| Merger.RunsJoin | ledger_myexpenses.py:222-226 | An equal time folds the entry into the pending run and marks it as split. |
| Merger.RunsFail | ledger_myexpenses.py:217-218 | When `prepare` raises on the pending run, the generator stops with that exception, whatever follows. |
| Merger.PrepareRunsPrefix | ledger_myexpenses.py:213-227 | Once a run has failed in `prepare`, later runs change nothing. |
| Merger.RunsStopped | ledger_myexpenses.py:213 | An exception from the entries upstream leaves the pending run unprepared and ends the generator with it. |
| Merger.RunsFinish | ledger_myexpenses.py:227 | When the entries end, the pending run is prepared last, and its failure is the generator's. |
| Merger.MergeSplitsTimes | ledger_myexpenses.py:213-227 | Every entry merged into an output has its time, and neighbouring outputs have different times. |
| Merger.MergeDistinctTimes | ledger_myexpenses.py:213-221 | Entries whose neighbours all differ in time come out unchanged, and `prepare` never raises on them. |
| Merger.MergeSplitsBalanced | ledger_myexpenses.py:191-227 | When every entry balances, so does every output. |
| Merger.MergeSplitsInOrder | ledger_myexpenses.py:213-227 | Entries in time order give outputs in strictly increasing time order. |
| Merger.MergeSplitsCrash | ledger_myexpenses.py:191-227 | Three postings of one split under the payee "Shop", as the extractor yields them, are folded into one group on which `prepare` raises: `merge_splits` yields nothing and stops with AssertionError. |
| Render.AppendFlow | ledger_myexpenses.py:59-61 | One flow appends its posting line, then its payee and note lines when those are truthy. |
| Render.AppendFlows | ledger_myexpenses.py:58-61 | The inner loop appends every flow of the account, in order. |
| Render.HeaderText | ledger_myexpenses.py:50-53 | The header is assembled as date, ` *`, payee and time. |
| Render.RenderEntry | ledger_myexpenses.py:47-63 | `render` returns the header, the note and every account's lines joined with line breaks, plus a final one. |
| Render.PostingLayout | ledger_myexpenses.py:59 | The posting line is four spaces, the account left-aligned in at least 26 columns, two spaces, and the amount right-aligned in at least 16. Nothing is cut. |
| Render.Lines | ledger_myexpenses.py:49-54 | The first line is the header. |
| Render.RenderedStarts | ledger_myexpenses.py:49-63 | The block starts with the header line. |
| Render.RenderedDate | ledger_myexpenses.py:50-51 | The block starts with the date text and ` *`. |
| Render.HeaderStarts | ledger_myexpenses.py:51-52 | The header is the date, ` *`, and ` payee` when the payee is truthy. |
| Render.HeaderTime | ledger_myexpenses.py:53 | The header always ends with `  ; time: HH:MM`. |
| Render.RenderedLines | ledger_myexpenses.py:47-63 | Split at its line breaks, the block gives back the header, note and posting lines, then an empty piece. |
| Render.AccountLinesCover | ledger_myexpenses.py:57-59 | Every flow of an account has its posting line among the account's lines. |
| Render.PostingLinesCover | ledger_myexpenses.py:57-59 | Every flow of every account has its posting line in the block. |
| Render.AccountLinesCount | ledger_myexpenses.py:58-61 | There are at least as many lines as flows, and at most three per flow. |
| Markers.OneMarkerPerYear | ledger_myexpenses.py:233-235 | When the years never go down, the markers rise strictly and every year gets one. |
| Ledger.PrintLedger | ledger_myexpenses.py:230-236 | The printing loop outputs, for each entry, the marker when its year differs from the last one, then the block under its own year. |
| Ledger.PrintEntry | ledger_myexpenses.py:232-236 | Given the year of the entry before, the loop body prints the marker exactly when the year changes, then the block under the entry's own year, and remembers that year. |
| Ledger.PieceDate | ledger_myexpenses.py:233-236 | Printed under its own year, every block starts with month and day alone. |
| Ledger.ActionLedger | ledger_myexpenses.py:229-236 | `action_ledger` prints the entries `merge_splits` yields from the rows read, and stops with the first exception: that of a run `prepare` cannot handle, or else the one that stopped reading. |
| Ledger.LedgerOutcome | ledger_myexpenses.py:213-231 | No more entries than rows are printed, and a failure in reading always ends the output with an exception. |
| Ledger.LedgerMarkers | ledger_myexpenses.py:229-236 | Rows in time order get rising markers, one per year printed. |
| LedgerImport.ImportAsset | ledger-import.py:78-80 | An unknown id raises KeyError. Otherwise the name is `Assets:` and the label, whatever the type. |
| LedgerImport.PayeeOf | ledger-import.py:117 | No payee gives None. A missing id raises KeyError. |
| LedgerImport.DestinationOf | ledger-import.py:106-110 | The destination is the category when the row is no transfer (a transfer peer then fails the assert), and the peer account otherwise. |
| LedgerImport.ImportRow | ledger-import.py:104-122 | The loop body up to the entry dict equals `ImportStep`. |
| LedgerImport.ImportEntryFlow | ledger-import.py:112-122 | An entry comes only from a row whose lookups succeeded and whose destination is not the split label. It has the row's time and comment. It posts the amount to the row's account and its negation to the destination, in the account's currency, or only the negation when they are one account. |
| LedgerImport.ImportEntryBalances | ledger-import.py:119-120 | Between two accounts the two amounts cancel out, and their printed texts read back as the amount and its negation. |
| LedgerImport.ImportStepFails | ledger-import.py:104-117 | The script raises exactly when a lookup fails or a row without transfer account has a transfer peer. |
| LedgerImport.HeadLines | ledger-import.py:25-33 | The block starts with the header, then a note line when the comment is truthy. |
| LedgerImport.AddPostings | ledger-import.py:34-35 | The loop adds one posting line per account, in dict order, each with the amount's text. |
| LedgerImport.AmountLines | ledger-import.py:34-35 | One line per account, in the entry's order, each the `{:<26}  {:>16}` posting of the account and its amount's text. |
| LedgerImport.FmtEntryText | ledger-import.py:24-36 | `fmt_entry` returns the header, the note and one line per account joined with line breaks, plus a final one. |
| LedgerImport.FmtEntryLines | ledger-import.py:24-36 | Split at its line breaks, the text of `fmt_entry` gives back the header, the note line when there is a comment, one posting line per account and the empty piece after the final break. |
| LedgerImport.PrintEntry | ledger-import.py:123-126 | The marker comes exactly when the year differs from the last one printed, then the entry under its own year. The year is remembered. |
| LedgerImport.ImportMain | ledger-import.py:96-126 | The script prints the pieces of the entries of `ImportScan` and stops at its error. |
| LedgerImport.ImportErrorStops | ledger-import.py:100-126 | Once the script has raised, later rows change nothing. |
| LedgerImport.ScanPrefix | ledger-import.py:100-126 | The entries printed from a first part of the rows begin those printed from all rows. |
| LedgerImport.MarkerIffNewYear | ledger-import.py:123 | The `year` test puts a marker exactly where the year differs from the entry before. |
| LedgerImport.ImportYearsAscending | ledger-import.py:113-126 | Rows in time order give printed years that never go down. The script's query does not order its rows, so this holds only for rows that come in time order. |
| LedgerImport.ImportMarkers | ledger-import.py:123-126 | Rows in time order get rising markers, one per year printed. Rows out of order can get a year marked twice (Markers.MarkersUnordered). |
| Markers.MarkersUnordered | ledger-import.py:123-126 | Years out of order get a marker at every change: 2020, 2019, 2020 get three markers, two of them for 2020. |
| Text.ZeroPad | ledger_myexpenses.py:19-26 | `%.02d` and `%03d` give digits of at least the width that read back as the number. |
| Text.Decimal | ledger_myexpenses.py:24 | `%d` of a natural number is a non-empty run of digits, starting with 0 only for 0. |
| Text.DecimalBounds | ledger_myexpenses.py:24 | `%d` has as many digits as the number needs and no more. |
| Text.PadRight | ledger_myexpenses.py:59 | `{:<w}` keeps the text and adds spaces after it, up to w. |
| Text.PadLeft | ledger_myexpenses.py:59 | `{:>w}` adds spaces before the text, up to w. |
| Text.SplitJoin | ledger_myexpenses.py:63 | Lines without breaks, joined with line breaks, split back into themselves. |
| Text.Or | ledger_myexpenses.py:176 | `a or b` is truthy when either is; it is a when a is truthy, and b otherwise. |
| Text.StrLessTransitive | ledger_myexpenses.py:207 | Python's string order is transitive. |
| Text.StrLessTotal | ledger_myexpenses.py:207 | Of two different strings, one is smaller. |

## Left out

- SQL, cursors, `fetchiter` and connections are left out. The rows, the account and category tables and the payee table are inputs.
- The queries' `WHERE (transfer_peer IS NULL OR _id < transfer_peer)` filter and the `ORDER BY date` of `ledger_myexpenses.py:136-139` are left out. Time order is a precondition (`RowsInOrder`) of the lemmas that need it. The query of `ledger-import.py:97-99` has no `ORDER BY`, so its rows are not known to come in time order: LedgerImport.ImportYearsAscending and LedgerImport.ImportMarkers hold only for rows that do. Markers.MarkersUnordered shows a year marked twice.
- `datetime.fromtimestamp` is not modelled. A row carries its local date-time fields. Time zones and daylight-saving changes are outside the model. The seconds are kept, because `merge_splits` compares whole times.
- `%Y` is written as the year's digits without padding. Years before 1000 are not padded to four digits.
- argparse, logging, the verbosity options and the debug `print` of each row are left out. This includes `print('; %r' % d)` in `ledger-import.py`.
- The `--accounts`, `--active-accounts` and `--payees` actions are left out, except `labels()`, which `Accounts.Labels` models.
- A `None` label, currency or payee name where the code concatenates strings (a `TypeError` in Python) is outside the model. Names and labels are strings.
- `is 0` is read as `== 0`.
- `Accounts.Walk`: a category cycle is reported as `RecursionError` as soon as the walk returns to an id it has visited. Python recurses until its stack limit; the outcome is the same exception.
- Entries are values. `merge_splits` changes the group's first entry in place, and `prepare` changes its payee, comment and lists (`flows[:] =`). The model builds the new entry instead. Nothing reads the absorbed entries again, so no other alias can tell the difference.
- Ledger.LedgerOutcome: when reading fails, `merge_splits` never prepares or yields the group it was still gathering, because the exception leaves its loop before the last `yield`. The model drops that group.
- Merger.Prepare: `prepare` changes the payee and comment of `cur` before it collapses the accounts, and collapses them one by one in place. When a collapse raises, that half-changed entry is never printed, so the model returns only the exception.
- LedgerImport.ImportEntry: the script's entry dict holds `fmt_currency` texts. The model keeps each amount as its number and currency, and makes the text with the same `Money.FormatText` when the entry is printed. Printing is the dict's only use, so the output is the same.
- LedgerImport.HeadLines: `fmt_entry` reads the module-level `comment` on its note line (`ledger-import.py:33`). At its one call site that variable equals the entry's comment, so the model uses the entry's comment.
- `ledger-import.py` reuses `Accounts.category`/`_category` unchanged (`ledger-import.py:61-76`). The model uses `Accounts.CategoryName` for both scripts.
- `fetch_entries` applies the stale destination as written: a row without category uses the `dst` of the last row that set one. See Extractor.StaleDestination.
- Collapsing: "no two flows of an account share a key after `prepare`" does not hold. A summed flow loses its payee and can end up beside a flow that never had one (Collapsing.CollapseMayRepeatKey). The model proves what does hold: totals are kept, and the corrected sums are what the code computes wherever it succeeds.

## Findings

| source | as written | input that shows it | evidently intended | confidence | as-written member | corrected member |
|---|---|---|---|---|---|---|
| ledger_myexpenses.py:210 | `reduce(operator.add, g)` adds a group's flows pairwise. `Flow.__add__` asserts equal payee and comment, and its sum has neither. | Three postings of one split, booked on one category under a parent with payee "Shop", each `Flow(-100, "EUR", "Shop", None)`. After the first `+` the sum has no payee, so the second `+` fails its assert and the script stops with AssertionError. | One flow with the group's total amount in its currency, without payee or comment, as the sum of two flows already gives. | not executed | Collapsing.CollapseCrash, Collapsing.CollapseCrashExample, Collapsing.ReduceAddFails, Merger.PrepareCrash, Merger.MergeSplitsCrash | Collapsing.SumGroup, Collapsing.CollapseTriple, Collapsing.CollapseTotal, Merger.PrepareAgrees |

The modelled path from the rows to the printed ledger follows the code as written: Merger.MergeSplits and Ledger.ActionLedger stop with AssertionError where line 210 raises. Every entry they do yield equals the corrected `Merger.Prepared` (Merger.PrepareAgrees), and the lemmas on totals and balance are about that corrected entry.
