# Gestoque ledger core in Dafny

Gestoque is a small desktop stock and sales manager. Its state is five lists:
products (`produtos`), sales (`vendas`), expense types (`tiposDespesa`),
expenses (`despesas`) and the stock history (`historicoEstoque`). This project
models what the screens and hooks do to those lists, and proves properties
of the model:

- registering products, adding stock, editing and removing products, and the
  stock history each addition writes (`Produtos`);
- the sales cart, its summary, confirming it, editing a sale by reversal and
  re-application, and deleting a sale (`Vendas`);
- expense types and expenses, with the type name copied into every expense
  (`Despesas`);
- the stock screen's low-stock list, totals and status badges (`Estoque`);
- the monthly financial history (`Historico`) and the dashboard's figures
  for the current month (`Dashboard`);
- backup documents: building them, sizes, the list of recent backups,
  validating a document for restore, and single-collection exports
  (`Backup`);
- the automatic backup scheduler and its emergency list (`Scheduler`), the
  emergency panel (`Settings`), and the application's wholesale restore
  (`App`).

Every handler is a pure function from the current lists and the form
inputs to either an error or the new lists. Form fields are modelled by
`FormNumber`: a field is either blank or typed, and a typed field either
parses to a number or does not (NaN). Fresh ids, the clock, the user's
confirmation and the Electron file sink are parameters.

The ledger's main invariant is that a sale moves units between a product's
stock and sold counters. So confirming, editing and deleting sales keep
`quantidadeEstoque + quantidadeVendida` of every product unchanged
(`Vendas.ConfirmConserves`, `Vendas.EditConserves`,
`Vendas.DeleteConserves`). Names are unique ignoring case and surrounding
blanks, and every operation that writes them keeps that property
(`Produtos.RegisterKeepsNamesDistinct`, `Despesas.RenameKeepsNamesDistinct`
and others). A snapshot written to a file and read back restores exactly
the lists it was taken of (`App.FileBackupRestores`), and so does an
automatic backup restored from the emergency list
(`App.EmergencyBackupRestores`).

Where the code's behaviour departs from what it evidently intends, the model follows the code:

- The cart checks each line only against the stock of the product snapshot
  that line carries. It never sums lines for the same product and never
  looks the product up again. Two one-unit lines of a product with one unit
  in stock are therefore accepted, and stock becomes -1 (`Vendas.DoubleSpend`).
  The model keeps stock as an `int` for that reason, and states the
  evidently intended check as `Vendas.SummarizeChecked` (see Findings).
- The automatic backup ignores the boolean the file sink returns. A save
  that reports failure still updates the emergency list and the last backup
  time; only a throw leaves them alone (`Scheduler.SinkResultIgnored`).
- `restoreEmergencyBackup` returns the whole stored document. The
  emergency panel then takes its `dados`.
- Configuration patches are not checked. A negative `maxBackupsToKeep`
  reaches `slice(0, k)`, which then drops entries from the end
  (`Scheduler.SliceTo`).

## Model

| member | source | states |
|---|---|---|
| Text.Trim | src/components/Produtos/Produtos.tsx:199 | `trim()`: the result is a contiguous piece of the input that neither starts nor ends with a blank, and is empty exactly when the input is all blanks (with `Text.TrimEmptyIffBlank`) |
| Text.TrimEmptyIffBlank | src/components/Despesas/Despesas.tsx:45 | `!s.trim()` holds exactly when every character of `s` is a blank |
| Text.TrimIdempotent | src/components/Produtos/Produtos.tsx:105 | trimming a stored name again changes nothing |
| Text.LowerTrimCommute | src/components/Produtos/Produtos.tsx:206-208 | lowering then trimming equals trimming then lowering, so the edit-time check on the trimmed name is the same test as the add-time `toLowerCase().trim()` |
| Text.NameKey | src/components/Produtos/Produtos.tsx:93-95 | the comparison key of a name is its lowered, trimmed form and is never longer than the name |
| Text.NameKeyOfTrimmed | src/components/Produtos/Produtos.tsx:105 | the trimmed name that gets stored has the same key as the name typed |
| Text.BeforeTransitive | src/components/Historico/Historico.tsx:51 | the code-unit order `localeCompare` is modelled by is transitive (with `Text.BeforeIrreflexive`, `Text.BeforeAsymmetric` and `Text.BeforeTotal` it is a strict total order) |
| Text.BeforeIrreflexive | src/components/Historico/Historico.tsx:51 | no month key sorts before itself |
| Text.BeforeAsymmetric | src/components/Historico/Historico.tsx:51 | two keys never sort before each other |
| Text.BeforeTotal | src/components/Historico/Historico.tsx:51 | of two different keys, one sorts before the other |
| Lists.Distinct | src/components/Dashboard/Dashboard.tsx:36 | `[...new Set(keys)]`: every key once, the same keys as the input, in order of first appearance |
| Lists.Filter | src/components/Produtos/Produtos.tsx:266 | `filter`: the kept entries in their original order (a sub-sequence of the input), each exactly as often as in the input when it passes and never otherwise; when every entry passes, the input itself |
| Lists.FilterUnique | src/components/Produtos/Produtos.tsx:266 | order and multiplicity pin `filter` down: any sub-sequence of the input holding each passing entry as often as the input and no failing one is the filtered list |
| Lists.SubseqMultiset | src/components/Produtos/Produtos.tsx:266 | a sub-sequence holds each entry at most as often as the list it is taken from |
| Types.FindProduct | src/components/Produtos/Produtos.tsx:149 | `find` by id: nothing exactly when no product has that id; otherwise the first product with that id |
| Types.FindById | src/components/Vendas/Vendas.tsx:156 | `find` by id, as used for sales (and for expense types at src/components/Despesas/Despesas.tsx:165): nothing exactly when no entry has that id; otherwise an entry of the list with that id, and it is the first one |
| Types.IndexById | src/hooks/useBackupScheduler.ts:126 | where `find` by id stops, for any list: either the length, when no entry has the id, or an index holding the id with no earlier entry holding it (products, sales, expense types and emergency entries all use it) |
| Types.IndexByIdIsFirst | src/components/Vendas/Vendas.tsx:194 | `find` returns the first match, so any index holding the id with no earlier match is the one found |
| Produtos.RecordMovement | src/components/Produtos/Produtos.tsx:49-70 | appends one entry after all existing ones whose new stock is the old stock plus the quantity, so a balanced history stays balanced |
| Produtos.RegisterProduct | src/components/Produtos/Produtos.tsx:73-133 | refused exactly when the trimmed name is empty, the price is blank, NaN or not positive, the stock is blank, NaN or negative, or the name is taken ignoring case and blanks; a blank field gives the "fill every field" error; on success the product is appended with the trimmed name and nothing sold, and a `cadastro_inicial` entry 0 -> stock is recorded only when the stock is positive |
| Produtos.AddStock | src/components/Produtos/Produtos.tsx:136-183 | refused exactly when no product is chosen, the quantity is blank, NaN or not positive, or the product is unknown; on success that product's stock rises by the quantity, nothing else changes, and an `adicao` entry carrying the product's id and name, from the previous stock to the new one, is appended |
| Produtos.EditProduct | src/components/Produtos/Produtos.tsx:196-246 | refused exactly when the trimmed name is empty, another product uses it ignoring case, the price is NaN or not positive, or the stock is NaN or negative; on success name, price and stock are overwritten on that id only, the sold count is kept, and no history entry is written |
| Produtos.RemoveProduct | src/components/Produtos/Produtos.tsx:264-273 | keeps the products with another id in their order, each as often as before, and drops every product with that id; removing an absent id changes nothing |
| Produtos.RemoveUndoesRegister | src/components/Produtos/Produtos.tsx:73-133 | removing a product just registered under a fresh id gives back the catalogue from before the registration |
| Produtos.HistoryView | src/components/Produtos/Produtos.tsx:276-278 | with no product selected the whole history; otherwise the entries of the selected product in history order, each as often as in the history, and no others |
| Produtos.HistoryViewRecord | src/components/Produtos/Produtos.tsx:49-70 | a newly recorded entry shows at the end of the unfiltered view and of its own product's view, and every other product's view is unchanged |
| Produtos.Additions | src/components/Produtos/Produtos.tsx:281-284 | the `adicao` entries of the history in history order, each as often as in the history, and no others |
| Produtos.AdditionsAppend | src/components/Produtos/Produtos.tsx:281 | appending an entry adds it to the additions only when it is an `adicao` |
| Produtos.AddStockStatistics | src/components/Produtos/Produtos.tsx:281-284 | a stock addition raises `totalAdicoes` by one and `totalQuantidadeAdicionada` by exactly the quantity added |
| Produtos.RegisterLeavesStatistics | src/components/Produtos/Produtos.tsx:115-124 | registering a product leaves both addition statistics unchanged, because its entry is not an `adicao` |
| Produtos.HistoryStaysBalanced | src/components/Produtos/Produtos.tsx:64 | registration and stock addition keep every history entry balanced |
| Produtos.RegisterKeepsNamesDistinct | src/components/Produtos/Produtos.tsx:92-100 | registration keeps product names distinct ignoring case and surrounding blanks |
| Produtos.SecondRegistrationRefused | src/components/Produtos/Produtos.tsx:92-100 | after a registration, a second one whose name differs only in case or surrounding blanks is refused |
| Produtos.EditKeepsNamesDistinct | src/components/Produtos/Produtos.tsx:205-213 | with unique ids, editing keeps names distinct |
| Produtos.RecasingOwnNameAllowed | src/components/Produtos/Produtos.tsx:206-207 | changing only the case or spacing of a product's own name is accepted, because the clash check skips the product itself |
| Vendas.Shift | src/components/Vendas/Vendas.tsx:121-129 | the products with that id move `q` units from stock to sold and the others are unchanged, so stock plus sold of every product is kept (and `Vendas.ShiftUndo` moves them back) |
| Vendas.AddCartLine | src/components/Vendas/Vendas.tsx:41-60 | refused exactly when no product is picked, the quantity is not positive, or it exceeds the picked product's stock; otherwise the line is appended to the cart (the partners `Vendas.AcceptedLineAvailable` and `Vendas.CartLinesSummarize` relate it to the product list and the summary) |
| Vendas.AcceptedLineAvailable | src/components/Vendas/Vendas.tsx:41-60 | a catalogue product the cart accepts a line for is one of the products the sale form lists as available |
| Vendas.CartLinesSummarize | src/components/Vendas/Vendas.tsx:62-99 | a line the cart accepts, added to an empty cart or to one the summary accepts, leaves a cart the summary accepts |
| Vendas.CheckLines | src/components/Vendas/Vendas.tsx:71-93 | succeeds exactly when every line is positive and within its own snapshot's stock, giving one summary line per cart line valued at price times quantity |
| Vendas.Summarize | src/components/Vendas/Vendas.tsx:62-99 | refused exactly when the cart is empty or some line is unacceptable (an empty cart gives its own error); otherwise one line per cart line with price times quantity, and a grand total equal to the sum of the line totals |
| Vendas.QtyOfUnreferenced | src/components/Vendas/Vendas.tsx:121-129 | lines that never name a product take no units from it |
| Vendas.ApplyLines | src/components/Vendas/Vendas.tsx:107-130 | applying the lines one after another moves, for each product, the sum of the quantities of all lines that name it |
| Vendas.Confirm | src/components/Vendas/Vendas.tsx:101-145 | without a summary nothing changes; otherwise one sale per line is appended after the existing sales with that line's product, name, quantity, price and total, and each product loses from stock and gains in sold the units of all lines naming it |
| Vendas.ConfirmLeavesUnreferenced | src/components/Vendas/Vendas.tsx:121-129 | a product no line names is left exactly as it was |
| Vendas.DoubleSpend | src/components/Vendas/Vendas.tsx:41-145 | with one unit in stock, two one-unit lines for the product are both accepted by the cart and the summary, and confirming leaves the stock at -1 |
| Vendas.SummarizeChecked | src/components/Vendas/Vendas.tsx:80-90 | corrected summary: accepted exactly when the plain summary is and, for every product of the live catalogue that some line names, the units all lines ask of it added together fit its stock; a product no line names is never looked at; an accepted result is the plain summary, and a refusal of an otherwise good cart is the insufficient-stock error |
| Vendas.CheckedIgnoresUnnamed | src/components/Vendas/Vendas.tsx:80-90 | adding to the catalogue a product that no cart line names, whatever its stock, does not change the corrected check's verdict or summary |
| Vendas.CheckedConfirmKeepsStock | src/components/Vendas/Vendas.tsx:118-129 | confirming a summary that passed the corrected check leaves every product some line names at zero stock or above and every other product unchanged, so a catalogue with no negative stock keeps none |
| Vendas.DoubleSpendRefused | src/components/Vendas/Vendas.tsx:80-90 | the corrected check refuses the two one-unit lines against one unit of stock that the plain summary accepts |
| Vendas.ConfirmConserves | src/components/Vendas/Vendas.tsx:121-129 | confirming keeps stock plus sold of every product and changes nothing else about any product |
| Vendas.ReplaceSale | src/components/Vendas/Vendas.tsx:223-225 | positionally, the sales with that id become the new sale and every other sale is unchanged; when the new sale keeps the id, dropping that id from the result leaves exactly what dropping it from the old list leaves |
| Vendas.RemoveSalePointwise | src/components/Vendas/Vendas.tsx:272 | two sale lists that agree on every entry without the id leave the same list once that id is dropped |
| Vendas.Reapply | src/components/Vendas/Vendas.tsx:183-213 | reversing the original sale and then applying the new quantity moves the net difference on each product |
| Vendas.EditSale | src/components/Vendas/Vendas.tsx:155-235 | succeeds exactly when the sale exists, both fields are filled, the new product exists, the quantity parses and is positive, the original product still exists, and the quantity fits the new product's stock after the original sale is reversed; on success the sale keeps its id and date, takes product, name, price and total from the new product, and the counters move by the net difference |
| Vendas.FindAfterReversal | src/components/Vendas/Vendas.tsx:194-198 | after the reversal the new product is always found, and its stock is its old stock plus the original quantity when it is the original product |
| Vendas.ReversalStock | src/components/Vendas/Vendas.tsx:183-198 | after the original sale is put back, looking up the product of the edit still finds a product, and its stock is the one the reversal gives that product |
| Vendas.FindAfterShift | src/components/Vendas/Vendas.tsx:194 | moving counters does not change which product `find` picks, only that product's counters |
| Vendas.EditConserves | src/components/Vendas/Vendas.tsx:183-213 | an accepted edit keeps stock plus sold of every product |
| Vendas.EditSameProduct | src/components/Vendas/Vendas.tsx:183-213 | editing a sale from q to q' units of the same product moves q - q' units back to stock and q' - q to sold |
| Vendas.DeleteSale | src/components/Vendas/Vendas.tsx:252-280 | refused exactly when no sale has that id; otherwise the sale's units go back from sold to stock on its product (if it still exists), and the sales with another id remain in their order, each as often as before |
| Vendas.RemoveSale | src/components/Vendas/Vendas.tsx:272 | keeps the sales with another id in their order, each as often as before, and drops every sale with that id; an absent id changes nothing |
| Vendas.RemoveSaleAppend | src/components/Vendas/Vendas.tsx:272 | dropping the id of a sale appended last, whose id is new, gives back the earlier list |
| Vendas.DeleteConserves | src/components/Vendas/Vendas.tsx:261-270 | deleting a sale keeps stock plus sold of every product |
| Vendas.DeleteUndoesConfirm | src/components/Vendas/Vendas.tsx:101-280 | confirming a one-line sale under a new id and then deleting that sale gives back both lists exactly |
| Vendas.DeleteLatest | src/components/Vendas/Vendas.tsx:252-280 | deleting the most recent sale drops just it and reverses its units |
| Vendas.ShiftUndo | src/components/Vendas/Vendas.tsx:261-270 | moving units out and back leaves the products as they were |
| Vendas.FindSaleAppend | src/components/Vendas/Vendas.tsx:253 | a sale appended under a new id is the one `find` returns |
| Vendas.Available | src/components/Vendas/Vendas.tsx:281 | the products with stock above zero in catalogue order, each as often as in the catalogue, and no others |
| Despesas.AddType | src/components/Despesas/Despesas.tsx:44-75 | refused exactly when the trimmed name is empty (its own error) or a type has the same name ignoring case and blanks; otherwise a type with the trimmed name is appended |
| Despesas.RenameType | src/components/Despesas/Despesas.tsx:77-112 | refused exactly when the trimmed name is empty or a type with another id uses it; otherwise the types with that id take the trimmed name, and every expense of that id gets it as its copied type name |
| Despesas.RemoveType | src/components/Despesas/Despesas.tsx:122-131 | keeps the types with another id in their order, each as often as before, drops those with that id, and leaves every expense untouched |
| Despesas.RemoveExpense | src/components/Despesas/Despesas.tsx:141-150 | keeps the expenses with another id in their order, each as often as before, and drops those with that id; an absent id changes nothing |
| Despesas.AddExpense | src/components/Despesas/Despesas.tsx:153-189 | refused exactly when the type or amount is empty, the amount is NaN or not positive, or the type is unknown; on success one expense is appended with an empty description, the chosen type id, and the name of the first type with that id (the one `find` returns) |
| Despesas.RemoveExpenseUndoesAdd | src/components/Despesas/Despesas.tsx:141-189 | removing an expense just added under a fresh id gives back the expense list from before |
| Despesas.AddTypeKeepsNamesDistinct | src/components/Despesas/Despesas.tsx:50-58 | adding a type keeps type names distinct ignoring case and blanks |
| Despesas.SecondTypeRefused | src/components/Despesas/Despesas.tsx:50-58 | a second type whose name differs only in case or blanks is refused as a duplicate |
| Despesas.RenameKeepsNamesDistinct | src/components/Despesas/Despesas.tsx:85-98 | with unique ids, renaming keeps type names distinct |
| Despesas.RecasingOwnTypeNameAllowed | src/components/Despesas/Despesas.tsx:86-88 | re-casing or re-spacing a type's own name is accepted |
| Despesas.RenameKeepsNamesInSync | src/components/Despesas/Despesas.tsx:96-103 | after a rename, every expense's copied name still equals the name of each type its id points at |
| Despesas.AddExpenseKeepsNamesInSync | src/components/Despesas/Despesas.tsx:165-179 | with unique type ids, adding an expense keeps the copied names in step |
| Despesas.RemoveTypeKeepsNamesInSync | src/components/Despesas/Despesas.tsx:122-131 | removing a type keeps the copied names of the remaining types in step |
| Estoque.LowStock | src/components/Estoque/Estoque.tsx:12 | the products with at most three units in stock in catalogue order, each as often as in the catalogue, and no others |
| Estoque.StatusOf | src/components/Estoque/Estoque.tsx:111-115 | "Esgotado" exactly at zero stock, "Normal" exactly above three; a negative stock shows as "Baixo" |
| Estoque.StatusMatchesLowStock | src/components/Estoque/Estoque.tsx:12-115 | a catalogue product is on the low-stock list exactly when its badge is not "Normal" |
| Estoque.CatalogueValue | src/components/Estoque/Estoque.tsx:164 | the footer of an empty catalogue is zero, and it is never negative when no stock or price is |
| Estoque.CatalogueValueConcat | src/components/Estoque/Estoque.tsx:164 | one product is worth its stock times its price, and the footer of two catalogues laid end to end is the sum of their footers |
| Estoque.RaiseStockValue | src/components/Produtos/Produtos.tsx:158-162 | adding `q` units to the products with an id raises the footer by `q` times the price of each of them, and leaves it alone when no product has that id |
| Estoque.RaiseOneStockValue | src/components/Produtos/Produtos.tsx:158-162 | with ids unique, adding `q` units to one product raises the footer by exactly `q` times its price |
| Estoque.WhereUnique | src/components/Produtos/Produtos.tsx:158 | with ids unique, selecting the products with one product's id finds that product alone |
| Estoque.UnitsSplit | src/components/Estoque/Estoque.tsx:13-14 | the units of all products are the stock total plus the sold total |
| Estoque.ConservedTotals | src/components/Estoque/Estoque.tsx:13-14 | any change that conserves each product's stock plus sold keeps the sum of the two totals |
| Estoque.SalesKeepTotals | src/components/Estoque/Estoque.tsx:13-14 | confirming, editing and deleting sales keep "Total em Estoque" plus "Total Vendido" unchanged |
| Historico.MonthKey | src/components/Historico/Historico.tsx:21 | `substring(0, 7)`: a prefix of the date of length at most 7, exactly 7 for a date that long, and the whole date when it is shorter |
| Historico.Insert | src/components/Historico/Historico.tsx:51 | inserting a new key into a descending list keeps it descending and adds just that key |
| Historico.SortDescending | src/components/Historico/Historico.tsx:51 | the distinct keys come out strictly descending, with the same keys |
| Historico.DescendingOrdered | src/components/Historico/Historico.tsx:51 | in a descending list every earlier key sorts after every later one, not just its neighbour |
| Historico.DescendingNoDup | src/components/Historico/Historico.tsx:51 | a descending list repeats no key |
| Historico.KeysInOrder | src/components/Historico/Historico.tsx:20-39 | the month keys in the order the map meets them, the sales' months then the expenses' months, so a key is listed exactly when some sale or expense falls in that month |
| Historico.MonthKeys | src/components/Historico/Historico.tsx:16-51 | the months shown are exactly those with a sale or an expense, each once, newest first |
| Historico.Month | src/components/Historico/Historico.tsx:25-49 | a month's row holds the sales and expenses of that month in their list order, each as often as in the list, and no others, with their sums and a profit equal to revenue minus expenses |
| Historico.MonthRows | src/components/Historico/Historico.tsx:41-50 | one row per month key, each the row of its month; summed over the rows, revenue and expenses are the grouped sums of the sales and expenses, and profit is their difference |
| Historico.RowsKeyed | src/components/Historico/Historico.tsx:41-50 | each row carries its own key and is the row of the month it names |
| Historico.ByMonth | src/components/Historico/Historico.tsx:16-52 | rows are strictly newest first, each row's month occurs, every occurring month has a row, and each row is that month's row |
| Historico.MonthsPartitionTotals | src/components/Historico/Historico.tsx:16-110 | the monthly revenues, expenses and profits add up to "Receita Total", "Despesa Total" and "Lucro Total" |
| Historico.SaleInOneMonth | src/components/Historico/Historico.tsx:20-28 | a sale appears in the row of its own month and in no other row |
| Dashboard.MonthSales | src/components/Dashboard/Dashboard.tsx:26 | the sales whose date starts with the month in list order, each as often as in the list, and no others |
| Dashboard.MonthExpenses | src/components/Dashboard/Dashboard.tsx:27 | the expenses whose date starts with the month in list order, each as often as in the list, and no others |
| Dashboard.StartsWithMonth | src/components/Dashboard/Dashboard.tsx:26 | for a full `YYYY-MM`, a date starts with it exactly when its month key is it |
| Dashboard.SalesFiltersAgree | src/components/Dashboard/Dashboard.tsx:26 | the dashboard's prefix filter and the history's month grouping select the same sales in the same order |
| Dashboard.ExpenseFiltersAgree | src/components/Dashboard/Dashboard.tsx:27 | likewise for expenses |
| Dashboard.DashboardMatchesHistory | src/components/Dashboard/Dashboard.tsx:31-33 | the dashboard's revenue, expenses and profit for a month equal that month's row of the financial history |
| Dashboard.GroupsOf | src/components/Dashboard/Dashboard.tsx:46-52 | one slice per name, in the order of the names, each valued at the sum of the entries with that name, and all slices together add up to the grouped total |
| Dashboard.PositiveGroupsKeys | src/components/Dashboard/Dashboard.tsx:36-42 | keeping only the slices with a positive value keeps exactly the names whose entries sum to more than zero, in the same order |
| Dashboard.FilterNoDup | src/components/Dashboard/Dashboard.tsx:36-42 | filtering a list without repeats leaves a list without repeats |
| Dashboard.GroupsMembership | src/components/Dashboard/Dashboard.tsx:36-41 | a slice is present exactly when its name is listed and its value is that name's sum |
| Dashboard.RevenueByProduct | src/components/Dashboard/Dashboard.tsx:36-42 | the slice names are the month's product names in order of first appearance with the non-positive ones dropped, so no name repeats; a slice is present exactly when its name is the product name of some sale of the month, its value is that name's revenue, and that value is positive |
| Dashboard.RevenueGroupsSum | src/components/Dashboard/Dashboard.tsx:31-42 | when every sale of the month has a positive total, the revenue slices add up to the month's revenue |
| Dashboard.ExpensesByType | src/components/Dashboard/Dashboard.tsx:45-52 | the slice names are the type names of the month's expenses in order of first appearance, each once; each value is that name's total |
| Dashboard.ExpenseGroupsSum | src/components/Dashboard/Dashboard.tsx:32-52 | the expense slices add up to the month's expenses |
| Dashboard.SameNameOneGroup | src/components/Dashboard/Dashboard.tsx:36-37 | sales grouped by copied name: two sales of the month with the same name and different product ids make exactly one slice, named by that name and worth both sales together |
| Backup.BuildSnapshot | src/components/Backup/BackupManager.tsx:73-92 | the snapshot carries version "1.0.0", the given time and kind, the five lists verbatim, and each list's length as its statistic |
| Backup.SizeLabel | src/components/Backup/BackupManager.tsx:95-102 | B exactly below 1024 bytes, KB exactly below 1024 * 1024, MB otherwise; the magnitude times the unit size is the byte count, and a KB magnitude lies in [1, 1024) |
| Backup.RotateHistory | src/components/Backup/BackupManager.tsx:134 | the new entry is first, followed by the most recent earlier ones, and the list never exceeds ten entries |
| Backup.BackupFileName | src/components/Backup/BackupManager.tsx:110 | a manual backup's name starts with `backup-produtos-` and ends with `.json` |
| Backup.Encode | src/components/Backup/BackupManager.tsx:111 | a written snapshot reads back with `versao` set exactly when it is non-empty, and with each of its five lists as that list |
| Backup.PassesGuardAsWritten | src/components/Backup/BackupManager.tsx:219-237 | as written: `dados` and `versao` present, the four lists are lists, and the history is not null; nothing else about the history is checked |
| Backup.HistoryAfterAsWritten | src/components/Backup/BackupManager.tsx:228-244 | as written, a missing history becomes `[]`, a falsy one keeps the live list, and a truthy non-list is stored as it is |
| Backup.JunkHistoryPassesGuard | src/components/Backup/BackupManager.tsx:228-244 | a document whose history is a truthy non-list passes the checks as written, and the live history then is not a list |
| Backup.Validate | src/components/Backup/BackupManager.tsx:216-244 | missing `versao` or `dados` is an invalid backup; otherwise accepted exactly when the as-written checks pass and the history is not a truthy non-list; a null history is refused; accepted data are the document's lists, with a missing history read as `[]` and a falsy one left out |
| Backup.ValidateAgreesWithGuard | src/components/Backup/BackupManager.tsx:219-237 | on every document whose history is not a truthy non-list, the corrected check accepts exactly what the as-written checks accept |
| Backup.RestoreFile | src/components/Backup/BackupManager.tsx:201-264 | no file means nothing happens; a name not ending in `.json` is refused first; data reach the restore callback exactly when the text parses, validates and the user confirms |
| Backup.RestoreDataOf | src/components/Backup/BackupManager.tsx:238-244 | the restore data of a collection set carries its history |
| Backup.SnapshotRoundTrip | src/components/Backup/BackupManager.tsx:73-264 | a snapshot saved under a backup name and read back is accepted and gives back exactly the five lists it was taken of |
| Backup.ExportOf | src/components/Backup/BackupManager.tsx:267-291 | each kind exports exactly its list, and the expense kind the pair of types and expenses |
| Backup.ExportFileName | src/components/Backup/BackupManager.tsx:277-289 | every export file name ends with `.json` |
| Backup.ExportAsDoc | src/components/Backup/BackupManager.tsx:219-221 | an export read as a backup document has neither `versao` nor `dados` |
| Backup.ExportNotRestorable | src/components/Backup/BackupManager.tsx:267-291 | restoring a single-collection export is always refused as an invalid backup |
| Backup.ExportMatchesBackup | src/components/Backup/BackupManager.tsx:73-291 | what any export writes is exactly the matching list (or pair of lists) of a full backup of the same data restored from file |
| Scheduler.DefaultConfig | src/hooks/useBackupScheduler.ts:22-27 | disabled, a seven-day interval, no last backup, five kept |
| Scheduler.ShouldBackup | src/hooks/useBackupScheduler.ts:30-39 | never when disabled; always when there was no backup; otherwise due exactly when the elapsed milliseconds reach the interval in whole days |
| Scheduler.FloorDivBound | src/hooks/useBackupScheduler.ts:36-38 | the floored day count reaches n exactly when the elapsed time reaches n days |
| Scheduler.NotDueBeforeLastBackup | src/hooks/useBackupScheduler.ts:36-38 | with a positive interval, a clock earlier than the last backup never makes a backup due |
| Scheduler.Emergencies | src/hooks/useBackupScheduler.ts:114-120 | the stored list, or empty when the item is unset or not JSON |
| Scheduler.SliceTo | src/hooks/useBackupScheduler.ts:84 | `slice(0, k)`: a prefix of length `min(k, n)` for non-negative `k`, and all but the last `-k` for negative `k` |
| Scheduler.AutoEntry | src/hooks/useBackupScheduler.ts:44-81 | the entry holds the automatic snapshot of the current lists under the auto file name |
| Scheduler.AutoBackup | src/hooks/useBackupScheduler.ts:42-99 | returns false, with config and list untouched, exactly when the sink throws, the stored list is not JSON, or writing the list back to storage throws (the file the sink wrote stays written); otherwise the new entry goes first, the list is cut to `maxBackupsToKeep`, and the last backup time is set |
| Scheduler.SinkResultIgnored | src/hooks/useBackupScheduler.ts:68-72 | a save that reports failure, a successful one, and no Electron at all leave the same state |
| Scheduler.AutoBackupBounded | src/hooks/useBackupScheduler.ts:75-85 | with a positive limit the newest backup comes first, the rest are the newest earlier ones, and the list never exceeds the limit |
| Scheduler.Configure | src/hooks/useBackupScheduler.ts:109-111 | the supplied fields replace the old ones, the rest are kept |
| Scheduler.ConfigureTwice | src/hooks/useBackupScheduler.ts:109-111 | two successive patches equal one patch with the later laid over the earlier |
| Scheduler.ConfigureIdempotent | src/hooks/useBackupScheduler.ts:109-111 | an empty patch changes nothing, and applying a patch twice is applying it once |
| Scheduler.RestoreEmergency | src/hooks/useBackupScheduler.ts:123-131 | a snapshot is returned exactly when the first entry with that id carries one, and it is that entry's |
| Scheduler.AutoBackupThenRestore | src/hooks/useBackupScheduler.ts:75-131 | right after an automatic backup that kept an entry, its id finds exactly the snapshot just taken |
| Settings.RemoveEmergency | src/components/Backup/BackupSettings.tsx:64-70 | unconfirmed nothing changes; confirmed, the entries with another id are written back in their order, each as often as before, and none with that id |
| Settings.RemovedNotRestorable | src/components/Backup/BackupSettings.tsx:64-70 | after a confirmed removal nothing with that id can be restored |
| Settings.RestoreFromEmergency | src/components/Backup/BackupSettings.tsx:51-61 | an error exactly when nothing usable is stored under the id; data reach the restore callback exactly when something is and the user confirms, and they are that snapshot's lists |
| App.Initial | src/App.tsx:22-26 | every list starts empty |
| App.Restore | src/App.tsx:29-43 | the four main lists are replaced, not merged; the history is replaced only when the data carries one |
| App.RestoreOfCollections | src/App.tsx:29-43 | restoring the data of a collection set, over any live state, gives back exactly that set |
| App.FileBackupRestores | src/App.tsx:29-43 | a backup file of some lists, restored over any live state, brings back exactly those lists |
| App.HistoryDefault | src/App.tsx:40-42 | a document without a history clears the live history; a falsy one keeps it |
| App.EmergencyBackupRestores | src/App.tsx:29-43 | an automatic backup restored from the emergency panel, over any live state, brings back exactly the lists it was taken of |
| Scenarios.MugLifecycle | src/components/Vendas/Vendas.tsx:101-235 | a product registered with 5 units, sold 2 at 10.00, topped up by 10 and with the sale edited to 5 ends with 10 in stock and 5 sold, the history recording 0 -> 5 and 3 -> 13 (each stage is one of `Scenarios.MugRegistered`, `Scenarios.MugSold`, `Scenarios.MugToppedUp`, `Scenarios.MugEdited`) |
| Scenarios.MugRegistered | src/components/Produtos/Produtos.tsx:73-133 | registering the mug with 5 units at 10.00 into an empty inventory gives that one product, nothing sold, and a 0 -> 5 history entry |
| Scenarios.MugSold | src/components/Vendas/Vendas.tsx:101-145 | selling 2 of the mug's 5 units gives one sale of 20.00 and leaves 3 in stock and 2 sold |
| Scenarios.MugToppedUp | src/components/Produtos/Produtos.tsx:136-183 | adding 10 units to 3 in stock gives 13 and a 3 -> 13 history entry |
| Scenarios.MugEdited | src/components/Vendas/Vendas.tsx:155-235 | editing the 2-unit sale to 5 units, with 13 in stock and 2 sold, leaves 10 in stock and 5 sold |
| Scenarios.MugPassesStockCheck | src/components/Vendas/Vendas.tsx:80-90 | two units of a product with five in stock pass the per-product stock check, which then gives the same summary as the plain check |
| Scenarios.DisabledNeverDue | src/hooks/useBackupScheduler.ts:31 | a disabled scheduler is never due |
| Scenarios.SevenDayInterval | src/hooks/useBackupScheduler.ts:36-38 | with a seven-day interval, eight days after the last backup it is due and six days after it is not |

## Left out

- Storage, rendering and notifications: `localStorage`, React state, toasts and modals are not modelled. Each handler returns the new lists or an error, and the error stands for the message shown.
- JSON text, `FileReader`, `Blob` and downloads: a document read back is modelled by what the restore checks can see of it (`Backup.Doc`). Elements inside the lists are typed records, so a list holding malformed records is not modelled.
- Money is a Dafny `real`. JavaScript floating point, rounding in sums, and `toFixed` formatting are not modelled.
- `Backup.SizeLabel`: the one-decimal rounding of `toFixed(1)` is not modelled; the exact quotient is stated instead.
- `parseInt` and `parseFloat` are not modelled on text. A typed field is given as already parsed or as NaN, so inputs such as "12abc" or "3.7" (which parse to 12 and 3) are given by their parsed value.
- `toLowerCase` is modelled on ASCII letters only, and `localeCompare` on month keys as code-unit order. The two agree on `YYYY-MM` keys.
- `generateId`, `Date.now` and `new Date()` are parameters, so uniqueness of fresh ids is assumed where a lemma needs it (`Vendas.DeleteUndoesConfirm` requires the new sale id to be unused).
- The Electron sink (`getUserDataPath`, `saveBackup`) is the opaque parameter `Scheduler.Sink`. Files written on disk are not modelled.
- `Scheduler.ShouldBackup`: a `lastBackupDate` that does not parse as a date (NaN elapsed days, never due) is not modelled; the stored date is an integer time.
- `Scheduler.AutoBackup`: whether `localStorage.setItem` throws (storage full) is the parameter `stored`, not derived from the size of the stored list.
- `Scheduler.AutoBackup`: an emergency item that parses as JSON but is not a list (then `unshift` throws and the run returns false) is not modelled; the slot is unset, unreadable or a list.
- `Settings.RestoreFromEmergency`: a stored entry whose `dados` lacks the inner lists is not modelled; a stored snapshot always holds all five lists.
- `Vendas.Confirm`: the code calls `new Date()` for each sale it writes, so lines of one cart can get different timestamps; the model takes one timestamp for the whole cart.
- `Scheduler.AutoEntry`: the code reads the clock once for `dataBackup` and again for the entry's `data`; the model uses the one time `agora` for both.
- The reactive trigger (`useEffect` calling the backup when due) and any overlap between runs are not modelled; the due check and the backup are separate functions.
- Presentation-only parts: month names, currency formatting, chart colours, and the sorting of tables for display.

## Findings

| source | as written | input that shows it | evidently intended | confidence | as-written member | corrected member |
|---|---|---|---|---|---|---|
| src/components/Backup/BackupManager.tsx:228-244 | restore checks that the four main collections are arrays but never checks `historicoEstoque`; any truthy value passes and replaces the live stock history | a document with `versao`, four empty lists and `historicoEstoque: "x"` | the history is held to the same array check as the other collections, and a document with a non-list history is refused as corrupted | not executed | Backup.JunkHistoryPassesGuard | Backup.Validate |
| src/components/Vendas/Vendas.tsx:41-129 | each cart line is checked against the product's stock on its own, both when it is added and when the sale is summarised, so several lines for one product can together ask for more than is in stock, and confirming subtracts them all | one unit in stock, the product added twice with quantity 1 | the units all lines ask of a product, added together, must fit its stock, so stock never goes below zero | not executed | Vendas.DoubleSpend | Vendas.SummarizeChecked |
