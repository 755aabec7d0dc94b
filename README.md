# Expense splitter: a verified model of its ledger and command parser

The expense splitter is a chat-style application. A user types commands such as
`alice paid 30 for dinner split among bob, carol on 2024-05-01`, `balance`,
`summary`, `help` or `clear`. The application keeps a ledger: the expenses recorded
so far and the set of people seen so far. From that ledger it computes each
person's net balance (what they paid minus the shares charged to them) and a
plan of payments "debtor pays creditor" that settles everybody up.

This project models the `ExpenseSplitter` class of `main.py` in Dafny:

- `common.dfy` (module `Common`) holds the shared pieces: `Option`, sequences that
  list a set once each, and the sum of a map's values with its lemmas.
- `ledger.dfy` (module `Ledger`) holds the ledger. The class `ExpenseSplitter` has
  the fields `expenses` and `people`, which its methods update in place. The
  balances are computed by a loop and proved equal to a closed-form
  `NetBalance`, and they sum to zero.
- `settlement.dfy` (module `Settlement`) holds the settlement planner of
  `get_transactions`. Its two nested loops are proved to pay debtors' debts to
  creditors without overpaying anybody, in the source's order.
- `pattern.dfy` (module `Pattern`) holds the text handling of `parse_command`:
  - `str.lower`, `in`, `str.strip`;
  - the expense regular expression under `re.search`, as a backtracking
    recogniser that tries alternatives in the order Python's engine does;
  - the name-list `re.split`;
  - `float` of the matched amount, taken exactly.
- `phrases.dfy` (module `Phrases`) writes commands in the form the help text
  teaches, and proves that the pattern, the split and the amount conversion
  read their parts back.
- `commands.dfy` (module `Commands`) holds `parse_command` itself. It classifies
  a command with the source's priority (expense, then balance, summary, help,
  clear). It turns the matched groups into the arguments of `add_expense` and
  answers each kind of command.

Amounts are exact real numbers. The clock and date parsing are parameters:
`today` is the current date as text, and `parseDate` stands for the
`strptime`/`strftime` round trip, returning `None` where `strptime` raises.

In these points the model follows the code, which a reader might expect to behave otherwise:

- split lists are not deduplicated: a name listed twice pays two shares;
- the payer is added only to an explicit split list, and a default split (all
  people known before the call) leaves out a payer not yet known;
- balances are compared with zero exactly, not within a tolerance;
- an empty split is not guarded: the source divides by zero after registering
  the names; the model reports the failure (see "Left out").

## Model

| member | source | states |
|---|---|---|
| Ledger.ExpenseSplitter.constructor | main.py:173-178 | a new splitter has no expenses and knows nobody |
| Ledger.ExpenseSplitter.AddExpense | main.py:182-213 | the payer and every listed name become known (even when recording fails); the expense fails exactly when the split is empty (explicitly empty, or defaulted while nobody is known); otherwise exactly one expense is appended, with the given payer, amount and description, the date or today, the given split or every previously known person once, and the amount divided equally among the split's entries; the ledger invariant is kept |
| Ledger.ExpenseSplitter.CalculateBalances | main.py:215-233 | the balance map has exactly the known people as keys; each balance is what the person paid minus one share per occurrence in each split; the balances sum to zero |
| Ledger.ExpenseSplitter.GetTransactions | main.py:235-262 | every payment is positive and goes from a known person who owes money to one who is owed money; payments are grouped by payer, the largest debt first; each debtor pays exactly its debt and each creditor receives exactly its credit, so after the payments everybody's net balance is zero; the total moved is the sum of the positive balances |
| Ledger.ExpenseSplitter.Clear | main.py:336-338 | no expenses and nobody known remain |
| Ledger.DebitShares | main.py:230-231 | subtracting the share from every entry of the split lowers each person's balance by one share per occurrence and leaves others unchanged |
| Ledger.DebitAt | main.py:230-231 | the debit takes from a person exactly one share per occurrence of that person in the split |
| Ledger.DebitSum | main.py:230-231 | the debit lowers the sum of the balances by one share per entry of the split |
| Ledger.AllSharesWhole | main.py:200 | the equal shares of a non-empty split add back up to the amount |
| Ledger.AllSharesCount | main.py:200 | the shares of a split are the split's length times the share |
| Ledger.BalancesAt | main.py:217-231 | the balance the fold computes for a known person equals the closed-form net balance |
| Ledger.ApplyConserves | main.py:227-231 | applying one equally shared expense leaves the sum of the balances unchanged |
| Ledger.BalancesConserved | main.py:215-233 | over any sequence of equally shared expenses among known people, the balances sum to zero |
| Ledger.NotPayer | main.py:252-256 | a person who is never the payer of a payment pays nothing |
| Ledger.NotPayee | main.py:252-256 | a person who is never the payee of a payment receives nothing |
| Ledger.Enumerate | main.py:190 | the list of a set holds every element exactly once |
| Settlement.SortByValue | main.py:245-247 | the result lists every key exactly once, ordered by value, ascending or descending |
| Settlement.SumsAppend | main.py:252-256 | the total, what each person pays and what each receives are additive over concatenated payment lists |
| Settlement.SumValuesPartition | main.py:239-240 | the sum of the balances is the total credit minus the total debt |
| Settlement.ExtremeExists | main.py:245-247 | every non-empty key set has a smallest (or largest) element |
| Settlement.PayDebtor | main.py:246-260 | one debtor pays the creditors, largest credit first: each creditor is paid at most once and never more than its credit, in descending order of credit; every payment is the creditor's whole credit except possibly the last, which clears the debt (together, min(debt, credit) each); a creditor with credit left unpaid implies the debt was cleared and every creditor paid had at least as much credit; payments are positive, the debt falls by the total paid, each creditor's credit falls by what it received, and either the debt is cleared or every creditor is paid off |
| Settlement.PayMin | main.py:250-256 | payments that take each creditor's whole credit, except possibly the last which clears the debt, are exactly the greedy amounts: each one is the smaller of the debt left after the earlier payments and the creditor's credit |
| Settlement.PayInOrder | main.py:248-260 | the inner loop over creditors in a given order keeps its invariant to the end: what is left of the debt and the credits, each payment's creditor and amount, and the creditors passed over only once the debt is cleared |
| Settlement.PayChoices | main.py:246-260 | with creditors visited in descending order, a creditor with credit that received nothing was passed over only because the debt was cleared, and every creditor paid had at least as much credit |
| Settlement.PayStep | main.py:248-260 | one creditor's turn keeps the inner loop's invariant: what is left, what was paid, and the sums |
| Settlement.PaySkip | main.py:248-249 | skipping a creditor when debt or credit is used up keeps the invariant |
| Settlement.SettleTurn | main.py:245-260 | one debtor's turn keeps the outer loop's invariant: remaining credits, amounts paid, and positions |
| Settlement.SettleDebtors | main.py:245-260 | after every debtor's turn, the remaining credits, amounts paid and payment positions satisfy the loop invariant |
| Settlement.SettleOrder | main.py:245 | payments come by debtor, in ascending order of balance, each debtor's payments together |
| Settlement.SettleCleared | main.py:245-260 | after the last debtor, either all creditors are paid off or every debtor has paid in full |
| Settlement.SettleTotals | main.py:245-262 | nobody pays more than it owes or receives more than it is owed; the total is the smaller of total debt and total credit, and that side is settled in full |
| Settlement.Settle | main.py:239-262 | payments are positive and go from debtors to creditors, ordered and grouped by debtor; caps on paying and receiving hold; the total is the smaller of total debt and total credit, and the smaller side is settled in full |
| Settlement.SettleBalanced | main.py:239-262 | when the balances sum to zero, debts and credits are equal in total, every debtor pays exactly its debt and every creditor receives exactly its credit |
| Pattern.Run | main.py:269 | a greedy character-class run takes the longest prefix in the class |
| Pattern.KeywordAt | main.py:269 | on success the text is at least one whitespace character followed by the keyword, and the rest is exactly what follows the keyword (so it is strictly shorter) |
| Pattern.AmountFor | main.py:269 | a matched amount has the form digits, optionally a point and more digits |
| Pattern.HeadAt | main.py:269 | a matched payer is a non-empty run of word characters and the amount has the amount form |
| Pattern.MatchAt | main.py:269 | an anchored match yields a word payer, a well-formed amount, and non-empty single-line description, split list and date |
| Pattern.Search | main.py:270 | the leftmost match has the same properties as an anchored one |
| Pattern.Contains | main.py:299 | the substring test holds exactly when the word occurs at some position |
| Pattern.SearchNeedsPaid | main.py:269-270 | text the expense pattern matches anywhere contains "paid" |
| Pattern.Lower | main.py:266 | lower-casing keeps the length, leaves no capital letter and changes only capital letters |
| Pattern.LowerIdempotent | main.py:266 | lower-casing twice is lower-casing once |
| Pattern.StripSpec | main.py:273 | stripping returns a contiguous stretch of the text, neither starting nor ending with whitespace, with only whitespace cut off on either side |
| Pattern.StripStartSuffix | main.py:273 | removing leading whitespace leaves a suffix |
| Pattern.StripEndPrefix | main.py:273 | removing trailing whitespace leaves a prefix |
| Pattern.Pieces | main.py:283 | the split yields at least one piece, and no piece contains a comma |
| Pattern.Fraction | main.py:274 | the digits after the point are worth less than one |
| Pattern.Decimal | main.py:274 | a matched amount converts to a non-negative number |
| Phrases.PhraseMatches | main.py:269-278 | a command written as "payer paid amount for description [split between/among/with names] [on date]", with a description of one or more words, names separated by commas or "and", and a date of any single line, is matched with exactly those parts as its groups |
| Phrases.PiecesJoin | main.py:283 | splitting a list of names joined by ", " or " and ", in any mix, gives the names back |
| Phrases.WholeNumberText | main.py:274 | reading the digits of a number gives the number |
| Phrases.DecimalCents | main.py:274 | an amount written with two decimals is accepted by the pattern and converted back to exactly its value |
| Phrases.LowercasePhrase | main.py:266 | a command built from lower-case parts has no capital letter, so lower-casing leaves it unchanged |
| Commands.SplitList | main.py:283-286 | the payer is always in the split list that is built |
| Commands.SplitListJoin | main.py:283-286 | reading a list joined by commas or "and" gives the names in order, duplicates kept, with the payer appended exactly when absent |
| Commands.SplitListPayer | main.py:273-286 | a payer captured by the pattern is unchanged by stripping, so the membership test uses the captured name |
| Commands.StripAllTrimmed | main.py:283 | names without surrounding whitespace are left as they are |
| Commands.ParseCommand | main.py:264-341 | the command is lower-cased and classified. An expense command registers the payer and names and records the expense built from the groups, failing only when nobody is known and no split is given. A balance query changes nothing and answers "all settled" exactly when every net balance is zero; otherwise it lists the settling payments with every guarantee of GetTransactions: positive payments from debtors to creditors, grouped by debtor with the largest debt first, each debtor paying and each creditor receiving exactly its balance, everybody at zero afterwards, and the total the sum of the positive balances. A summary lists the expenses or says there are none. Help answers help. Clear empties both expenses and people. Anything else is not understood and changes nothing |
| Commands.AnswerBalance | main.py:298-310 | the reply is "all settled" exactly when every known person's net balance is zero, and otherwise the payments of GetTransactions with all of its guarantees: positive, from debtors to creditors, grouped by debtor with the largest debt first, settling every balance exactly, totalling the sum of the positive balances |
| Commands.NoPaidNoExpense | main.py:269-299 | a command without "paid" is never taken for an expense |
| Commands.TaughtPayer | main.py:273 | the payer of a command in the taught form is read back unchanged |
| Commands.TaughtDescription | main.py:275 | the description of a command in the taught form, its words joined by single spaces, is read back unchanged |
| Commands.TaughtDate | main.py:278-294 | the date of a command in the taught form is passed to the date parser unchanged, and is absent when no date is written |
| Commands.TaughtSplit | main.py:277-286 | the split list of a command in the taught form is read back in order, the payer appended exactly when absent, and is absent when no names are written |
| Commands.TaughtRequest | main.py:273-294 | the arguments built from the groups of a command in the taught form are exactly its parts |
| Commands.TaughtIntent | main.py:266-272 | a command in the taught form, from lower-case parts, is classified as an expense command with exactly those parts as groups |
| Commands.TaughtCommand | main.py:264-296 | a command in the taught form with a two-decimal amount is an expense command, and the arguments handed to add_expense are exactly the payer, the amount's value, the description, the names with the payer appended when absent, and the parsed date |

## Left out

- The Streamlit user interface, the page styling and `session_state` persistence are not part of this model. The ledger is an object that lives as long as the caller keeps it.
- The random display colour of each expense (main.py:184, 210) is not modelled: it is randomness and affects only display.
- The clock (`datetime.now`) and `strptime`/`strftime` are not modelled. They are the parameters `today` and `parseDate`.
- Floating-point arithmetic is modelled as exact real arithmetic. Rounding in `amount / len(split_among)`, in the balances and in `min` is not captured. Neither is the `:.2f` rendering of amounts.
- The reply texts are not modelled. The reply is a datatype that carries the expense, the payments or the expense list the text would show.
- `\s`, `\w`, `\d`, `str.lower` and `str.strip` are modelled over ASCII only. Unicode letters, digits and whitespace outside ASCII are not covered.
- Python's set and dictionary iteration order is left open. The default split list and the order among equal balances are any order the model's choice allows.
- AddExpense: when the split is empty, the source raises `ZeroDivisionError` after registering the names. The model returns no expense and ParseCommand answers `AddFailed`; the exception path is not modelled.
- Settle: the greedy choice of creditors (largest remaining credit first, each payment the smaller of debt and credit) is stated per debtor by PayDebtor, which Settle calls with the credits left after the earlier debtors. It is not restated across debtors in Settle's own contract.
- GetTransactions: for the same reason, its contract states the outcome of the plan (who pays whom, how much in total, everybody settled) and the debtor order, but not the greedy choice of creditors, which PayDebtor states per debtor.
- SplitList: its contract states only that the payer is in the list. The exact contents for a written list are stated by SplitListJoin.
- PhraseMatches: the read-back is proved for sufficient conditions. Description words are separated by single spaces, contain no whitespace, and are not "on" or "split". Names contain no whitespace or commas and are not "on". A date is one line without surrounding whitespace. Commands outside these conditions are still matched by Search as modelled, but no lemma says which groups they yield.
- TaughtCommand: the same conditions as PhraseMatches apply, and so do TaughtIntent and TaughtRequest. Descriptions with other whitespace, names containing spaces and names "on" are not covered by the read-back lemmas.
- Pattern.Decimal: the conversion is exact. Its contract states only non-negativity; the value for two-decimal amounts is stated by DecimalCents.
