# splitter, modelled in Dafny

splitter is an interactive assistant for writing double-entry transactions
for a plain-text ledger file. This project models three parts of it:

- **The transaction accumulator** (`src/transaction.rs`), in `transaction.dfy`.
  - A `Transaction` keeps, per account, a vector of amounts with one entry per
    commodity, sorted by commodity.
  - `add_change` merges an amount into one account's vector.
  - `add_split_change` gives half of an amount to each of two accounts.
  - `balance` sums every commodity over all accounts.
  - `finalize` posts the negated balance to one account, so that the
    transaction nets to zero.
  - The `Display` implementation prints the header line and one posting line
    per `(account, amount)` pair. Non-negative postings come first, then
    negative ones. Each group is sorted by account.
- **The word-at-a-time command parser** (`src/tui/parser.rs`), in `parser.dfy`.
  - It reads `a account currency amount`, `s account account currency amount`
    and `f account`, one word at a time.
  - It rejects a word as soon as that word cannot continue the command.
- **The change-line driver** (`src/tui/mod.rs`), in `command.dfy`. It feeds
  the words of one typed line to a fresh parser and applies the resulting
  operation to the open transaction.
- **`process_ledger_output`** (`src/ledger.rs`), in `ledger.dfy`. It decodes
  the output of `ledger accounts` as UTF-8 and keeps the non-empty lines.

Three smaller modules support these:

- `lexicographic.dfy` holds the order of Rust's `Ord` for
  `String`, with its order laws.
- `results.dfy` holds `Option` and `Result`.
- `text.dfy` counts line breaks, for the rendered postings and for the
  `ledger` output.

Modelling choices:

- `Decimal` values are exact `real`s. `NaiveDate` is a plain `Date` value.
- The account map is a `map<string, seq<Amount>>`. Iterating a `HashMap`
  becomes picking keys in an arbitrary order. The model shows that the
  results do not depend on that order: sums are order-free, and the other
  results are sorted afterwards.
- `Transaction` is a class whose methods update `changes` in place. Its
  meaning is stated through ghost functions:
  - `TotalOf(c)` is the net change of commodity `c` over all accounts;
  - `AllCommodities()` is every commodity that some account holds;
  - `AllPostings()` is the set of `(account, amount)` pairs.
- Some library behaviour is passed in as function parameters, because none of
  it is part of this repository:
  - the Unicode letter class `\p{L}` of the regex crate;
  - `Decimal::from_str`;
  - the date and decimal formatters used by `Display`.

Two points where the code behaves differently from what one might expect:

- The account pattern is tested with an unanchored `is_match`
  (`src/tui/parser.rs:101-104`), so any word with a letter anywhere in it is
  accepted, `1abc` included. `CommandParser.DigitFirstAccepted` shows this.
- The completer gives up at the first rejected word
  (`src/tui/mod.rs:44-46`), but the change-line loop skips a rejected word
  and goes on (`src/tui/mod.rs:132-138`); see Findings below.

## Model

| member | source | states |
|---|---|---|
| Lexicographic.Irreflexive | src/transaction.rs:7-8 | No string is below itself in the order of Rust's `Ord` for `String`. |
| Lexicographic.Transitive | src/transaction.rs:7-8 | The order of Rust's `Ord` for `String` is transitive. |
| Lexicographic.Trichotomy | src/transaction.rs:7-8 | Of two different strings, at least one is below the other; with `Asymmetric`, exactly one is. So sorting by commodity is total. |
| Lexicographic.Asymmetric | src/transaction.rs:7-8 | If `a` is below `b`, then `b` is not below `a`. |
| Transactions.WellFormedIsSorted | src/transaction.rs:33-34 | A vector that is strictly increasing by commodity is sorted in `Amount`'s derived order and holds each commodity once. |
| Transactions.Canonical | src/transaction.rs:26-38 | Two well-formed vectors with the same commodities and the same magnitude in every commodity are equal, so a vector is fixed by what it holds. |
| Transactions.Position | src/transaction.rs:30 | `iter().position(...)` returns the first index holding the commodity, and `None` exactly when the commodity is absent. |
| Transactions.InsertSorted | src/transaction.rs:33-34 | `push` followed by `sort` on a well-formed vector, with a new commodity, keeps the vector well-formed, adds one element, and is a permutation of the old vector plus the amount. |
| Transactions.InsertSortedCommodities | src/transaction.rs:33-34 | After the sorted insert, the commodities are the old ones plus the new one. |
| Transactions.InsertSortedMagnitude | src/transaction.rs:33-34 | After the sorted insert, each commodity's magnitude is the old one plus the new amount's contribution. |
| Transactions.Merge | src/transaction.rs:29-37 | Merging an amount into a vector keeps it well-formed and adds the amount's commodity. Each commodity's magnitude grows by the amount's contribution to it. The vector grows by one entry exactly when the commodity is new. With `Canonical`, these facts fix the merged vector. |
| Transactions.MergeEmpty | src/transaction.rs:37 | An account seen for the first time gets the one-element vector `[amount]`. |
| Transactions.MergeCommutes | src/transaction.rs:29-37 | Merging two amounts into a vector gives the same vector in either order, because decimal addition commutes. |
| Transactions.AddedTo | src/transaction.rs:26-38 | The map `add_change` leaves: the account's vector stays well-formed and every other account keeps its vector. |
| Transactions.ChangesCommute | src/transaction.rs:26-38 | Two `add_change` calls leave the same map in either order, whether they name the same account or two different ones. |
| Transactions.SameAccountCommutes | src/transaction.rs:26-38 | Two `add_change` calls on one account commute. |
| Transactions.OtherAccountsCommute | src/transaction.rs:26-38 | `add_change` calls on two different accounts commute. |
| Transactions.TotalSplit | src/transaction.rs:48-55 | The sum over accounts does not depend on which account is taken first, so `HashMap` iteration order does not matter. |
| Transactions.TotalReplace | src/transaction.rs:26-38 | Replacing one account's vector changes the total of each commodity by the difference of the old and new vectors' magnitudes. |
| Transactions.MergeKeepsValid | src/transaction.rs:26-38 | After `add_change`, every account again holds a non-empty well-formed vector. |
| Transactions.MergeTotal | src/transaction.rs:26-38 | `add_change` raises the total of the amount's commodity by the amount and leaves other totals unchanged. |
| Transactions.MergeCommodities | src/transaction.rs:26-38 | `add_change` adds the amount's commodity to the transaction's commodities, and no other. |
| Transactions.Half | src/transaction.rs:41 | The half amount keeps the commodity, and two halves make up the whole. |
| Transactions.SplitValid | src/transaction.rs:40-44 | A split change keeps every account non-empty and well-formed. |
| Transactions.SplitFrame | src/transaction.rs:40-44 | After a split change the map's accounts are the old ones plus both named accounts. |
| Transactions.SplitUntouched | src/transaction.rs:40-44 | A split change leaves every other account's vector unchanged. |
| Transactions.SplitGains | src/transaction.rs:40-44 | Two distinct accounts each gain half of the amount. When both accounts are the same, that account gains all of it. |
| Transactions.SplitTotal | src/transaction.rs:40-44 | A split change raises the total of the amount's commodity by exactly the amount, and leaves other totals unchanged. |
| Transactions.SplitCommodities | src/transaction.rs:40-44 | A split change adds the amount's commodity to the transaction's commodities. |
| Transactions.Negated | src/transaction.rs:66 | `Amount(amount.0, -amount.1)` keeps the commodity and contributes the opposite of the amount to every commodity. |
| Transactions.PostAllFrame | src/transaction.rs:65-67 | Posting a list of amounts to one account changes no other account. The account is present afterwards exactly when it was before or the list is not empty. |
| Transactions.PostAllHeld | src/transaction.rs:65-67 | After posting a list of negated amounts, the account holds its old commodities plus every commodity of the list. |
| Transactions.PostAllMagnitude | src/transaction.rs:65-67 | After posting a list of negated amounts, the account's magnitude in each commodity has dropped by the list's magnitude in it. |
| Transactions.PostAllCommodities | src/transaction.rs:65-67 | Posting a list adds exactly the list's commodities to the transaction's commodities. |
| Transactions.PostAllTotal | src/transaction.rs:65-67 | Posting a list of negated amounts lowers each commodity's total by the list's magnitude in it. |
| Transactions.BalanceMagnitude | src/transaction.rs:46-62 | A vector holding each commodity of the transaction once, with its net total, has that total as its magnitude in every commodity. |
| Transactions.FinalizeBalances | src/transaction.rs:64-68 | Posting the negated balance keeps the transaction's commodities and brings every commodity's total to zero. |
| Transactions.FinalizeHolds | src/transaction.rs:64-68 | Posting the negated balance adds every commodity of the transaction to the account, and lowers the account's magnitude in each commodity by that commodity's old total. |
| Transactions.FinalizedHolding | src/transaction.rs:64-68 | When the account was new, it ends up holding exactly the negated balance, entry for entry, zero entries included. |
| Transactions.AddToSum | src/transaction.rs:50-53 | One `entry` update of `balance` adds the amount to its commodity's running sum, starting the sum at the amount when absent. No other sum changes, and the keys gain only the amount's commodity. |
| Transactions.AccumulateStep | src/transaction.rs:49-54 | Each inner step keeps the running sums equal to the starting sums plus the magnitudes of the amounts added so far. |
| Transactions.Accumulate | src/transaction.rs:49-54 | The inner loop of `balance` adds one account's amounts to the running sums. Each commodity's sum grows by the account's magnitude in it, a new commodity starts from zero, and the keys gain exactly the account's commodities. |
| Transactions.SortedAmounts | src/transaction.rs:56-61 | The collected sums become a vector sorted by commodity, with one entry per summed commodity carrying its sum. |
| Transactions.Partition | src/transaction.rs:89-92 | `partition` splits the postings into non-negative and negative ones, and together they are a permutation of the input. |
| Transactions.PartitionBlocks | src/transaction.rs:89-92 | `partition` keeps the relative order, so each part keeps the commodity order within an account. |
| Transactions.InsertByAccount | src/transaction.rs:93-94 | Inserting a posting into a list sorted by account keeps it sorted by account and adds exactly that posting. |
| Transactions.SortByAccount | src/transaction.rs:93-94 | `sort_by_key` on the account gives a permutation sorted by account. |
| Transactions.InsertByAccountStable | src/transaction.rs:93-94 | The insertion places a posting after the postings of its account, so the commodity order within each account is kept. |
| Transactions.SortByAccountStable | src/transaction.rs:93-94 | `sort_by_key` is stable: postings of one account stay in the commodity order they had. |
| Transactions.RenderOrderConcat | src/transaction.rs:93-100 | The sorted non-negative postings followed by the sorted negative ones are in rendering order, including the commodity order within one account. |
| Transactions.OneLinePerPosting | src/transaction.rs:95-100 | When no account, commodity or formatted decimal holds a `\n`, the posting part of the text has exactly one line per posting. |
| Transactions.Transaction.constructor | src/transaction.rs:18-24 | A new transaction has the given date and description and no changes. |
| Transactions.Transaction.ModifyVector | src/transaction.rs:29-36 | The `and_modify` closure turns a well-formed vector into the merge of the amount into it. It adds to the entry of the amount's commodity, or pushes the amount and sorts. |
| Transactions.Transaction.AddChange | src/transaction.rs:26-38 | `add_change` replaces only the account's vector by the merge of the amount into it. It keeps every account well-formed, raises the amount's commodity total by the amount, and adds the commodity. |
| Transactions.Transaction.AddSplitChange | src/transaction.rs:40-44 | `add_split_change` yields the map of two half merges, keeps validity, raises the commodity total by the whole amount, and adds the commodity. |
| Transactions.Transaction.Balance | src/transaction.rs:46-62 | `balance` is sorted by commodity, with each commodity the transaction holds exactly once, carrying that commodity's net total over all accounts. |
| Transactions.Transaction.Sums | src/transaction.rs:47-55 | The nested loop's map has the transaction's commodities as keys, each mapped to its net total. |
| Transactions.Transaction.PostNegated | src/transaction.rs:65-67 | The loop of `finalize` posts the negation of each balance entry to the account with `add_change`, in order. |
| Transactions.Transaction.Finalize | src/transaction.rs:64-68 | After `finalize`, every commodity nets to zero and no commodity is added or lost. Only the named account changes. It is present afterwards exactly when it was before or there was something to balance. It now holds every commodity of the transaction, zero entries included, and its magnitude in each commodity has dropped by that commodity's old total. |
| Transactions.Transaction.Amounts | src/transaction.rs:70-78 | `amounts` lists every `(account, amount)` pair of the transaction exactly once. Each account's amounts come out as one run, with no other account between them, and in its vector's commodity order. |
| Transactions.Transaction.Postings | src/transaction.rs:89-100 | The rendered postings are a permutation of all pairs: non-negative amounts first, then negative ones. Each group is sorted by account, and within one account by commodity. |
| Transactions.Transaction.Render | src/transaction.rs:81-102 | The text is the formatted date, a space, the description and a newline, then one `\t account \t commodity magnitude` line per posting in rendering order. |
| CommandParser.AccountRegexIsHasLetter | src/tui/parser.rs:101-104 | The unanchored account search accepts exactly the words containing a letter. |
| CommandParser.DigitFirstAccepted | src/tui/parser.rs:101-104 | Because the search is unanchored, `1abc` is accepted as an account word even though it starts with a digit. |
| CommandParser.CurrencyRegexIsHasNonDigit | src/tui/parser.rs:120-123 | The unanchored currency search accepts exactly the words with a non-digit, so only all-digit words (and the empty word) are refused. |
| CommandParser.ParseOperationType | src/tui/parser.rs:34-43 | Only `a`, `s` and `f` are operation words, mapped to simple, split and finalize. Anything else is an invalid operation type. |
| CommandParser.Initial | src/tui/parser.rs:54-62 | A new parser expects an operation word and holds nothing. |
| CommandParser.Step | src/tui/parser.rs:83-136 | One `parse_word`: each state reports its own error, and any word after the end is unexpected input. An accepted word sets only the field of its state: the operation type, one more account, the currency, or the parsed amount. |
| CommandParser.StepKeepsInv | src/tui/parser.rs:83-136 | Every accepted word keeps the parser's field invariant: which fields are set in each state, and how many accounts are held. |
| CommandParser.AtMostTwoAccounts | src/tui/parser.rs:100-117 | The parser never holds more than two accounts. |
| CommandParser.StepAccepts | src/tui/parser.rs:83-136 | Each state accepts exactly one kind of word: an operation word, a word with a letter, a word with a non-digit, or a decimal. Nothing is accepted at the end of the command. |
| CommandParser.StepTransitions | src/tui/parser.rs:94-136 | The transitions: operation word to account; a split's first account to a second account; a finalize account to the end; the last account to currency, to amount, to the end. |
| CommandParser.OperationOf | src/tui/parser.rs:64-81 | `operation()` gives a command exactly when the parser is at the end. Under the invariant every `unwrap` and account index in it is safe. |
| CommandParser.RunErrExtends | src/tui/parser.rs:83-92 | Once a word is rejected, the following words do not change the outcome. |
| CommandParser.RunPastEnd | src/tui/parser.rs:89 | Any word after a complete command is unexpected input. |
| CommandParser.RunIsCommand | src/tui/parser.rs:83-136 | Feeding a word list to a new parser ends at a complete command exactly when the list is `f` + account, `a` + account + currency + amount, or `s` + account + account + currency + amount. Here an account is a word with a letter, a currency a word with a non-digit, and an amount a decimal. `operation()` then returns that command. |
| CommandParser.Parser.constructor | src/tui/parser.rs:54-62 | `Parser::new` starts in the initial state. |
| CommandParser.Parser.ParseWord | src/tui/parser.rs:83-92 | `parse_word` moves the fields to the next state, or on error leaves them unchanged, as one transition prescribes. |
| CommandParser.Parser.ParseOperationWord | src/tui/parser.rs:94-98 | `parse_op_type` sets the operation type and expects an account, or fails without changing anything. |
| CommandParser.Parser.ParseAccount | src/tui/parser.rs:100-117 | `parse_account` appends a word the account pattern matches somewhere. It then expects a second account (split), the end (finalize) or a currency. A refused word changes nothing. |
| CommandParser.Parser.ParseCurrency | src/tui/parser.rs:119-130 | `parse_currency` stores a word with a non-digit and expects an amount. Any other word changes nothing. |
| CommandParser.Parser.ParseAmount | src/tui/parser.rs:132-136 | `parse_amount` stores a parsed decimal and ends the command. An unparsable word changes nothing. |
| ChangeCommand.ParseLine | src/tui/mod.rs:131-146 | A change line yields an operation exactly when its words form a command, and then that command. |
| ChangeCommand.ParseLineAsWritten | src/tui/mod.rs:131-146 | The loop as written skips each rejected word and applies the line whenever the remaining words end the command. |
| ChangeCommand.SkipRun | src/tui/mod.rs:132-138 | The loop as written reaches the parser's own state whenever no word is rejected. |
| ChangeCommand.SkipRunKeepsInv | src/tui/mod.rs:132-138 | Skipping rejected words still leaves the parser in a state that satisfies its field invariant. |
| ChangeCommand.SkippedWordStillApplied | src/tui/mod.rs:132-145 | `a Food 123 CZK 5` is no command, yet the loop as written applies `CZK 5` to `Food`. |
| ChangeCommand.ToAmount | src/tui/mod.rs:143-145 | A parsed amount becomes a transaction amount with the same commodity and magnitude. |
| ChangeCommand.Apply | src/tui/mod.rs:143-145 | Applying an operation performs `add_change`, `add_split_change` or `finalize` on the open transaction, with their effects on the map, the totals and the commodities. For a finalize, the account's new commodities and magnitudes are stated too. |
| LedgerOutput.Decode | src/ledger.rs:10 | A successful `String::from_utf8` gives the text whose UTF-8 form is exactly the bytes. |
| LedgerOutput.EncodeDecodeFirst | src/ledger.rs:10 | The bytes of one decoded character are exactly that character's UTF-8 form. |
| LedgerOutput.DecodeEncodeChar | src/ledger.rs:10 | Decoding the UTF-8 form of a character gives the character and its byte length back. |
| LedgerOutput.DecodeEncode | src/ledger.rs:10 | Every string's UTF-8 encoding decodes back to the string. |
| LedgerOutput.StrayContinuation | src/ledger.rs:10 | Output that starts with a continuation byte is refused. |
| LedgerOutput.OverlongRefused | src/ledger.rs:10 | Overlong two-byte forms (`C0`, `C1`) are refused. |
| LedgerOutput.SurrogateRefused | src/ledger.rs:10 | Encoded surrogates are refused. |
| LedgerOutput.DecodeErrSuffix | src/ledger.rs:10 | Ill-formed bytes anywhere make the whole output fail to decode. |
| LedgerOutput.Split | src/ledger.rs:11 | `split("\n")` yields at least one piece. |
| LedgerOutput.JoinSplit | src/ledger.rs:11 | Joining the pieces of `split("\n")` with newlines gives the text back. |
| LedgerOutput.SplitNoNewline | src/ledger.rs:11 | No piece contains a newline. |
| LedgerOutput.ConcatSplit | src/ledger.rs:11 | The pieces hold exactly the text's other characters, in order. |
| LedgerOutput.SplitCount | src/ledger.rs:11 | There is one more piece than there are newlines. |
| LedgerOutput.SplitWord | src/ledger.rs:11 | A text without a newline is one piece. |
| LedgerOutput.SplitJoin | src/ledger.rs:11 | Splitting undoes joining newline-free pieces. So `split("\n")` gives the only newline-free pieces whose join is the text. |
| LedgerOutput.NonEmpty | src/ledger.rs:11 | The filter keeps exactly the non-empty pieces and nothing else. |
| LedgerOutput.NonEmptyAppend | src/ledger.rs:11 | The filter distributes over concatenation, so it keeps the pieces' order. |
| LedgerOutput.NonEmptySingle | src/ledger.rs:11 | A single piece is kept exactly when it is not empty. |
| LedgerOutput.ConcatNonEmpty | src/ledger.rs:11 | Dropping empty pieces loses no character and keeps the order. |
| LedgerOutput.OnlyNewlines | src/ledger.rs:11 | Output made only of newlines yields no account names. |
| LedgerOutput.ProcessLedgerOutput | src/ledger.rs:9-12 | It succeeds exactly when the bytes are well-formed UTF-8. Then every line is non-empty and newline-free, and together the lines hold the output's characters without its newlines, in order. |
| LedgerOutput.ProcessLedgerOutputLines | src/ledger.rs:9-12 | For any newline-free pieces that join to the decoded text, the result is exactly those pieces with the empty ones dropped, in order. |
| LedgerOutput.NamesRoundTrip | src/ledger.rs:9-12 | Output listing non-empty, newline-free names one per line yields exactly those names, in order. |

## Left out

- The interactive session is not modelled: line editing, history, prompts, printing, the completer and `TUIController`. `ChangeCommand` models only what one change line does to the parser and the transaction. `src/main.rs` is not part of this model.
- ChangeCommand.ParseLine and ChangeCommand.ParseLineAsWritten take the line's words already split. Trimming the line, the empty-line branch that prints and closes the transaction (`src/tui/mod.rs:119-130`) and `split_ascii_whitespace` (`src/tui/mod.rs:132`) are not modelled; they are library string handling and session control.
- `get_accounts` is not modelled. It spawns the `ledger` process, and only the processing of that process's output is modelled.
- `parser::parse_transaction_header` and `Operation::add_to_transation` are called from `src/tui/mod.rs` (lines 121 and 145) but defined neither there nor in `src/tui/parser.rs`, `src/transaction.rs`, `src/ledger.rs` or `src/main.rs`. The header parser is not part of this model. `ChangeCommand.Apply` is the evident dispatch of an operation to the three transaction methods.
- Transactions.Half: `Decimal` division rounds to 28 significant digits. The model halves exactly, so two halves always make up the whole.
- Transactions.Transaction.AddChange: `Decimal` addition (and its overflow panic) is modelled as exact `real` addition.
- Transactions.Transaction.Render: the date is printed by `format("%Y-%m-%d")` and the magnitude by `Decimal`'s `Display`. Both are parameters here, so the exact digits printed are not modelled.
- CommandParser.Parser.ParseAccount: the letter class `\p{L}` is a parameter of the model (`Library.isLetter`). The Unicode tables are not modelled.
- CommandParser.Parser.ParseAmount: `Decimal::from_str` is a parameter (`Library.parseDecimal`). Its accepted syntax is not modelled.
- Error messages are modelled as error constructors, not as the source's texts.
- LedgerOutput.ProcessLedgerOutput: the error carries no byte offset, unlike `FromUtf8Error`.

## Findings

| source | as written | input that shows it | evidently intended | confidence | as-written member | corrected member |
|---|---|---|---|---|---|---|
| src/tui/mod.rs:132-138 | `continue` after a rejected word resumes the inner `for` over the words, so the rejected word is skipped and parsing goes on. | `a Food 123 CZK 5` | A rejected word aborts the line, as the completer at `src/tui/mod.rs:44-46` does | medium, not executed | ChangeCommand.SkippedWordStillApplied | ChangeCommand.ParseLine |
