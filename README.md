# AIB transaction converter, modelled in Dafny

This project models the converter in `transactions/aibTransaction.go` of the
banking tool. The converter takes one comma-separated row of an AIB (Allied
Irish Banks) account export and turns it into a transaction record. It does
four things:

- it splits the row on commas and reads fields 1 to 5 (date, description,
  debit, credit, balance);
- it cleans the description: it trims spaces first, then deletes every `"`;
- it reconciles the debit and credit columns into one signed amount. A debit
  keeps its sign, a credit is negated, and an exact zero stays zero;
- it decides once whether the transaction is hidden from the ledger, from a
  fixed list of case-sensitive tests on the amount and the description.

Files:

- `wrappers.dfy`: `Option` and `Result`.
- `go_strings.dfy` (module `GoStrings`): the Go `strings` functions the
  converter calls (`Split`, `Trim`, `Replace` of every occurrence), written as
  recursive functions. Each comes with lemmas that pin down what it does:
  `Split` and `Join` are inverses, `Trim` removes exactly the surrounding runs,
  and `RemoveAll` keeps the other characters in order.
- `aib_transaction.dfy`: module `AIBTransaction` (the data model,
  `ParseAmount`, `IsRevolutTopUp`, `ShouldHide`, the method
  `NewAIBTransaction` and the lemmas), and module `AIBExamples`, where rows
  are worked through the converter.

The converter also calls code that is not part of this model: date parsing
(`time.Parse("02/01/06", …)`), number parsing (`strconv.ParseFloat(…, 32)`)
and the category lookup (`utils.Classify`). They are passed in as the three
function-valued fields of `Collaborators`, and every statement holds for any
choice of them. The source stops the process (`log.Fatal`) on a bad date or
amount, and panics on a row with too few fields. The model returns a
`RowError` instead: `MalformedDate`, `MalformedAmount`, or `MalformedRow`.
These errors come in the same order in which the Go code evaluates the fields.

Where the code and the converter's written description disagree, the model
follows the code. The description's worked example says that the quoted field
`" Test Shop "` yields the details `Test Shop`. The code trims spaces before
it deletes the quotes, so the spaces inside the quotes stay, and the details
are ` Test Shop `. The method `ConvertTestShopRow` states this result
(`QuotedDetailsKeepInnerSpaces` states the general case). The description
also treats rule order in `shouldHide` as significant. Every rule returns
`true`, so order cannot change the verdict. `HideOrderIrrelevant` proves this.

## Model

| member | source | states |
|---|---|---|
| `GoStrings.Split` | transactions/aibTransaction.go:29 | splitting on a one-character separator always gives at least one field, and no field contains the separator |
| `GoStrings.JoinSplit` | transactions/aibTransaction.go:29 | the fields joined back with the separator give the original row |
| `GoStrings.SplitJoin` | transactions/aibTransaction.go:29 | splitting undoes joining, for any non-empty list of fields without the separator |
| `GoStrings.SplitCount` | transactions/aibTransaction.go:29 | a row with n commas has n + 1 fields, so it has the six fields that lines 31-46 index exactly when it has at least five commas |
| `GoStrings.SplitAppend` | transactions/aibTransaction.go:29 | the fields of `a,b` are the fields of `a` followed by those of `b`, so what follows a field never changes it |
| `GoStrings.TrimLeft` | transactions/aibTransaction.go:38 | the result is a suffix, everything removed is the cut character, and the result does not start with it |
| `GoStrings.TrimRight` | transactions/aibTransaction.go:38 | the result is a prefix, everything removed is the cut character, and the result does not end with it |
| `GoStrings.Trim` | transactions/aibTransaction.go:38 | the trimmed text is no longer than the input and neither starts nor ends with a space |
| `GoStrings.TrimExact` | transactions/aibTransaction.go:38 | trimming spaces around a core that neither starts nor ends with a space gives exactly that core, inner spaces untouched |
| `GoStrings.RemoveAll` | transactions/aibTransaction.go:39 | the result has no `"`, and a character other than `"` occurs in it exactly when it occurs in the input |
| `GoStrings.RemoveAllConcat` | transactions/aibTransaction.go:39 | deleting quotes distributes over concatenation, so the other characters keep their order |
| `GoStrings.RemoveAllAbsent` | transactions/aibTransaction.go:39 | text without a quote is left unchanged |
| `AIBTransaction.ParseAmount` | transactions/aibTransaction.go:73-105 | the result is an error when both columns hold text and when neither does. Otherwise it is a value exactly when the present column parses: the debit value keeps its sign, the credit value is negated. An unparseable column is reported with its text |
| `AIBTransaction.CreditIsNegatedDebit` | transactions/aibTransaction.go:80-101 | the same text parses in the credit column exactly when it parses in the debit column, and it gives the opposite amount there |
| `AIBTransaction.IsRevolutTopUp` | transactions/aibTransaction.go:133-139 | every Revolut top-up description starts with `VDP-Revolut` or `VDP-REVOLUT*` |
| `AIBTransaction.ShouldHide` | transactions/aibTransaction.go:107-131 | the chain of early returns hides a row exactly when at least one of the five rules fires |
| `AIBTransaction.FirstMatchHides` | transactions/aibTransaction.go:107-131 | evaluating a list of rules in order, stopping at the first that fires, hides exactly when some rule in the list fires |
| `AIBTransaction.HideOrderIrrelevant` | transactions/aibTransaction.go:107-131 | any evaluation order that includes every rule gives the verdict of `ShouldHide` |
| `AIBTransaction.AmountIndependentRules` | transactions/aibTransaction.go:108-118 | a zero amount, a Revolut top-up or a `*INET SAVINGS ` description is hidden whatever the other field holds |
| `AIBTransaction.RentHiddenOnlyAt600` | transactions/aibTransaction.go:120-124 | a `*INET RENT ` or `*INET DAVID ` row is hidden exactly when its amount is 0 or 600 |
| `AIBTransaction.TransferHiddenOnlyAt10` | transactions/aibTransaction.go:126-128 | the `931365 22689017` row is hidden exactly when its amount is 0 or 10 |
| `AIBTransaction.CreditOfTenStaysVisible` | transactions/aibTransaction.go:90-128 | a credit of 10.00 becomes -10, and `931365 22689017` with -10 is not hidden |
| `AIBTransaction.OrdinaryRowVisible` | transactions/aibTransaction.go:107-139 | an amount other than 0, 600 and 10, with a description that starts with neither `V` nor `*`, is shown |
| `AIBTransaction.QuotedDetailsKeepInnerSpaces` | transactions/aibTransaction.go:38-39 | cleaning a quoted field whose inner text has no quote gives exactly the inner text, spaces included |
| `AIBTransaction.NewAIBTransaction` | transactions/aibTransaction.go:26-52 | success happens exactly when the row has six fields, the date parses and the amount reconciles. Each error is the first failure in the source's order, and a row with too few fields is `MalformedRow`. On success: the date is the parsed date; the details are field 2 trimmed and unquoted, so they contain neither `"` nor `,`; the amount is the reconciled one; the balance is field 5 verbatim; the source is `AIB`; the real-date column is empty; the hidden flag is `ShouldHide` of the amount and details, so it is set when the amount is 0; the id is the classification of the details |
| `AIBExamples.ConvertQuotedRow` | transactions/aibTransaction.go:26-52 | for a row `x,date,"inner",debit,credit,balance,…`, the details are `inner` verbatim and further fields play no part |
| `AIBExamples.ConvertTestShopRow` | transactions/aibTransaction.go:26-52 | `,05/03/24," Test Shop ",12.50,,1000.00` yields details ` Test Shop `, amount 12.5 and balance `1000.00`, and the row is shown |
| `AIBExamples.ConvertSavingsCreditRow` | transactions/aibTransaction.go:26-52 | `,01/01/24,"*INET SAVINGS X",,50.00,900.00` yields amount -50 and is hidden |
| `AIBExamples.ConvertTransferCreditRow` | transactions/aibTransaction.go:26-52 | `,01/01/24,"931365 22689017",,10.00,900.00` yields amount -10 and is shown |

## Left out

- `Output` (lines 58-71) is left out. It prints to the console. It rounds to cents with `math.Round`, formats with `%f`, and renders the date with `Format("2 Jan")`. Its only decision is to print nothing for a hidden transaction, and that decision reads the `isHidden` field that the model computes.
- `GetCompletedDate` (lines 54-56) is not a separate member. It returns the field, which is `completedDate` of `Transaction`.
- Date parsing is left out. Go's `02/01/06` layout, including the two-digit-year pivot, is the `parseDate` collaborator, and nothing is assumed about it.
- Number parsing is left out. `strconv.ParseFloat` with float32 rounding is the `parseFloat` collaborator. Amounts are exact `real` values, not `float64`.
- `ParseAmount`: reals have no negative zero. The `amount != 0` guard at line 97 is kept as a branch, but its effect is not observable in the model: in Go it keeps a credit of 0 from becoming -0, which would only show when printed.
- `utils.Classify` is not part of this model. It is the `classify` collaborator.
- `log.Fatal` is not modelled as process termination, and neither is the panic on a short row. Both become returned errors. The error text and the logged raw row are not modelled. Only the error kind and the offending field are.
- Strings are sequences of characters. Go's byte-level `Split` and rune-level `Trim` agree with this for the ASCII comma, space and quote used here. Invalid UTF-8 is not modelled.
