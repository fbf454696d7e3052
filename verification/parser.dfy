/**
 * The word-at-a-time change-command parser of `src/tui/parser.rs`.
 *
 * A command is `op account [account] [currency amount]`: `a` (simple change)
 * takes one account, a currency and an amount; `s` (split change) takes two
 * accounts, a currency and an amount; `f` (finalize) takes one account.
 *
 * The pure part (`OperationType::parse`, `operation()` and one transition of
 * the state machine) is stated on a `ParserState` value; the `Parser` class
 * holds the same five fields and updates them in place, as the source does.
 *
 * Both patterns are searched for anywhere in the word (`is_match`), so an
 * account word is one with a letter in it and a currency word one with a
 * non-digit in it.
 */
module CommandParser {
  import opened Results

  /** `TokenType`: what the parser expects next. */
  datatype TokenType = OperationToken | AccountToken | CurrencyToken | AmountToken | EOL

  /** `OperationType`. */
  datatype OperationType = AddSimple | AddSplit | Finalize

  /** The parser's `Amount`: a commodity word and a decimal. */
  datatype Amount = Amount(commodity: string, magnitude: real)

  /** `Operation`: what a complete command denotes. */
  datatype Operation =
    | AddSimpleChange(account: string, amount: Amount)
    | AddSplitChange(account: string, splitAccount: string, amount: Amount)
    | FinalizeChange(account: string)

  /** The error of each rejecting branch. */
  datatype ParseError =
    | InvalidOperationType
    | InvalidAccount
    | InvalidCurrency
    | InvalidAmount
    | UnexpectedInput

  /**
   * Library behaviour the parser relies on: the Unicode `\p{L}` letter class
   * of the regex crate and `Decimal::from_str`, a partial function.
   */
  datatype Library = Library(isLetter: char -> bool, parseDecimal: string -> Option<real>)

  /** The `[:digit:]` class and the `0-9` range: ASCII digits. */
  predicate IsDigit(ch: char) {
    '0' <= ch <= '9'
  }

  // ---------------------------------------------------------------------
  // The two regular expressions, searched for anywhere in the word

  /** `\p{L}([\p{L}[:digit:]:])*` matches `word[i..j]`. */
  predicate AccountMatchAt(lib: Library, word: string, i: int, j: int)
    requires 0 <= i < j <= |word|
  {
    lib.isLetter(word[i]) &&
    forall k :: i < k < j ==> lib.isLetter(word[k]) || IsDigit(word[k]) || word[k] == ':'
  }

  /** `ACC_RE.is_match(word)` as written: a match somewhere in the word. */
  predicate AccountRegexMatches(lib: Library, word: string) {
    exists i, j | 0 <= i < j <= |word| :: AccountMatchAt(lib, word, i, j)
  }

  /** `[^0-9]+` matches `word[i..j]`. */
  predicate CurrencyMatchAt(word: string, i: int, j: int)
    requires 0 <= i < j <= |word|
  {
    forall k :: i <= k < j ==> !IsDigit(word[k])
  }

  /** `CURR_RE.is_match(word)`. */
  predicate CurrencyRegexMatches(word: string) {
    exists i, j | 0 <= i < j <= |word| :: CurrencyMatchAt(word, i, j)
  }

  /** An account word: one with a letter somewhere in it. */
  predicate HasLetter(lib: Library, word: string) {
    exists k | 0 <= k < |word| :: lib.isLetter(word[k])
  }

  /** A currency word: one with a non-digit somewhere in it. */
  predicate HasNonDigit(word: string) {
    exists k | 0 <= k < |word| :: !IsDigit(word[k])
  }

  /**
   * The account pattern is not anchored, and its tail may match nothing, so
   * as written it accepts exactly the words that contain a letter: `1abc`
   * and `x!` are accepted.
   */
  lemma AccountRegexIsHasLetter(lib: Library, word: string)
    ensures AccountRegexMatches(lib, word) <==> HasLetter(lib, word)
  {
    if HasLetter(lib, word) {
      var k :| 0 <= k < |word| && lib.isLetter(word[k]);
      assert AccountMatchAt(lib, word, k, k + 1);
    }
  }

  /**
   * The pattern is searched for anywhere in the word, so a digit may come
   * first: `1abc` is accepted because `abc` matches.
   */
  lemma DigitFirstAccepted(lib: Library)
    requires lib.isLetter('a')
    ensures AccountRegexMatches(lib, "1abc")
    ensures IsDigit("1abc"[0])
  {
    assert AccountMatchAt(lib, "1abc", 1, 2);
  }

  /**
   * The currency pattern is not anchored either: it accepts exactly the
   * words with at least one non-digit, so only all-digit words (and the
   * empty word) are rejected.
   */
  lemma CurrencyRegexIsHasNonDigit(word: string)
    ensures CurrencyRegexMatches(word) <==> HasNonDigit(word)
  {
    if HasNonDigit(word) {
      var k :| 0 <= k < |word| && !IsDigit(word[k]);
      assert CurrencyMatchAt(word, k, k + 1);
    }
    if CurrencyRegexMatches(word) {
      var i, j :| 0 <= i < j <= |word| && CurrencyMatchAt(word, i, j);
      assert !IsDigit(word[i]);
    }
  }

  // ---------------------------------------------------------------------
  // The state machine

  /** `OperationType::parse`. */
  function ParseOperationType(word: string): (r: Result<OperationType, ParseError>)
    ensures r.Ok? <==> word in {"a", "s", "f"}
    ensures r.Err? ==> r.error == InvalidOperationType
    ensures r == Ok(AddSimple) <==> word == "a"
    ensures r == Ok(AddSplit) <==> word == "s"
    ensures r == Ok(Finalize) <==> word == "f"
  {
    match word
    case "a" => Ok(AddSimple)
    case "s" => Ok(AddSplit)
    case "f" => Ok(Finalize)
    case _ => Err(InvalidOperationType)
  }

  /** The five fields of `Parser`. */
  datatype ParserState = ParserState(
    next: TokenType,
    opType: Option<OperationType>,
    accounts: seq<string>,
    currency: Option<string>,
    amount: Option<real>)

  /** `Parser::new`. */
  function Initial(): (s: ParserState)
    ensures s.next == OperationToken && s.opType == None && s.accounts == []
    ensures s.currency == None && s.amount == None
  {
    ParserState(OperationToken, None, [], None, None)
  }

  /** How many accounts a command of each kind names. */
  function AccountCount(t: OperationType): nat {
    if t == AddSplit then 2 else 1
  }

  /**
   * What holds of the fields in each parser state; every state reachable
   * from `Parser::new` satisfies it.
   */
  predicate Inv(s: ParserState) {
    match s.next
    case OperationToken =>
      s.opType.None? && s.accounts == [] && s.currency.None? && s.amount.None?
    case AccountToken =>
      s.opType.Some? && s.currency.None? && s.amount.None? &&
      |s.accounts| < AccountCount(s.opType.value)
    case CurrencyToken =>
      s.opType.Some? && s.opType.value != Finalize && |s.accounts| == AccountCount(s.opType.value) &&
      s.currency.None? && s.amount.None?
    case AmountToken =>
      s.opType.Some? && s.opType.value != Finalize && |s.accounts| == AccountCount(s.opType.value) &&
      s.currency.Some? && s.amount.None?
    case EOL =>
      s.opType.Some? && |s.accounts| == AccountCount(s.opType.value) &&
      (s.opType.value == Finalize <==> s.currency.None?) &&
      (s.opType.value == Finalize <==> s.amount.None?)
  }

  /** Where `parse_account` goes after pushing an account. */
  function AfterAccount(opType: Option<OperationType>, accounts: seq<string>): TokenType {
    if opType == Some(AddSplit) && |accounts| == 1 then AccountToken
    else if opType == Some(Finalize) then EOL
    else CurrencyToken
  }

  /**
   * One call of `parse_word` on the state `s`: the new state, or the error,
   * in which case the parser keeps `s`.
   */
  function Step(s: ParserState, word: string, lib: Library): (r: Result<ParserState, ParseError>)
    ensures r.Err? && s.next == OperationToken ==> r.error == InvalidOperationType
    ensures r.Err? && s.next == AccountToken ==> r.error == InvalidAccount
    ensures r.Err? && s.next == CurrencyToken ==> r.error == InvalidCurrency
    ensures r.Err? && s.next == AmountToken ==> r.error == InvalidAmount
    ensures s.next == EOL ==> r == Err(UnexpectedInput)
    ensures r.Ok? && s.next != OperationToken ==> r.value.opType == s.opType
    ensures r.Ok? ==> r.value.accounts == if s.next == AccountToken then s.accounts + [word] else s.accounts
    ensures r.Ok? ==> r.value.currency == if s.next == CurrencyToken then Some(word) else s.currency
    ensures r.Ok? ==> r.value.amount == if s.next == AmountToken then lib.parseDecimal(word) else s.amount
  {
    match s.next
    case OperationToken =>
      (match ParseOperationType(word)
       case Ok(t) => Ok(s.(opType := Some(t), next := AccountToken))
       case Err(e) => Err(e))
    case AccountToken =>
      if AccountRegexMatches(lib, word) then
        Ok(s.(accounts := s.accounts + [word], next := AfterAccount(s.opType, s.accounts + [word])))
      else
        Err(InvalidAccount)
    case CurrencyToken =>
      if CurrencyRegexMatches(word) then Ok(s.(currency := Some(word), next := AmountToken))
      else Err(InvalidCurrency)
    case AmountToken =>
      (match lib.parseDecimal(word)
       case Some(d) => Ok(s.(amount := Some(d), next := EOL))
       case None => Err(InvalidAmount))
    case EOL =>
      Err(UnexpectedInput)
  }

  /** Every transition keeps the invariant. */
  lemma StepKeepsInv(s: ParserState, word: string, lib: Library)
    requires Inv(s)
    ensures Step(s, word, lib).Ok? ==> Inv(Step(s, word, lib).value)
  {
  }

  /** The parser never holds more than two accounts. */
  lemma AtMostTwoAccounts(s: ParserState)
    requires Inv(s)
    ensures |s.accounts| <= 2
  {
  }

  /**
   * Which words each state accepts, and where it goes: an operation word is
   * `a`, `s` or `f`; an account word has a letter; a currency word has a
   * non-digit; an amount word is a decimal; nothing is accepted after the end.
   */
  lemma StepAccepts(s: ParserState, word: string, lib: Library)
    requires Inv(s)
    ensures s.next == OperationToken ==> (Step(s, word, lib).Ok? <==> word in {"a", "s", "f"})
    ensures s.next == AccountToken ==> (Step(s, word, lib).Ok? <==> HasLetter(lib, word))
    ensures s.next == CurrencyToken ==> (Step(s, word, lib).Ok? <==> HasNonDigit(word))
    ensures s.next == AmountToken ==> (Step(s, word, lib).Ok? <==> lib.parseDecimal(word).Some?)
    ensures s.next == EOL ==> Step(s, word, lib) == Err(UnexpectedInput)
  {
    AccountRegexIsHasLetter(lib, word);
    CurrencyRegexIsHasNonDigit(word);
  }

  /**
   * The transitions: an operation word leads to an account; a split command
   * reads a second account; a finalize command ends after its account; the
   * others go on to a currency and then an amount, which ends the command.
   */
  lemma StepTransitions(s: ParserState, word: string, lib: Library)
    requires Inv(s) && Step(s, word, lib).Ok?
    ensures s.next == OperationToken ==> Step(s, word, lib).value.next == AccountToken
    ensures s.next == AccountToken && s.opType == Some(AddSplit) && s.accounts == [] ==>
      Step(s, word, lib).value.next == AccountToken
    ensures s.next == AccountToken && s.opType == Some(Finalize) ==> Step(s, word, lib).value.next == EOL
    ensures s.next == AccountToken && s.opType != Some(Finalize) && |s.accounts| + 1 == AccountCount(s.opType.value) ==>
      Step(s, word, lib).value.next == CurrencyToken
    ensures s.next == CurrencyToken ==> Step(s, word, lib).value.next == AmountToken
    ensures s.next == AmountToken ==> Step(s, word, lib).value.next == EOL
  {
  }

  /**
   * `operation()`: the command once the parser has reached the end, `None`
   * before. The invariant makes every `unwrap()` and both `accounts[..]`
   * indexings of the source safe, which Dafny checks here.
   */
  function OperationOf(s: ParserState): (r: Option<Operation>)
    requires Inv(s)
    ensures r.Some? <==> s.next == EOL
  {
    if s.next != EOL then None
    else
      match s.opType.value
      case AddSimple => Some(AddSimpleChange(s.accounts[0], Amount(s.currency.value, s.amount.value)))
      case AddSplit => Some(AddSplitChange(s.accounts[0], s.accounts[1], Amount(s.currency.value, s.amount.value)))
      case Finalize => Some(FinalizeChange(s.accounts[0]))
  }

  /** Feeding `words` one by one from `s`, stopping at the first rejected word. */
  function Run(s: ParserState, words: seq<string>, lib: Library): Result<ParserState, ParseError>
    decreases |words|
  {
    if words == [] then Ok(s)
    else
      match Step(s, words[0], lib)
      case Ok(t) => Run(t, words[1..], lib)
      case Err(e) => Err(e)
  }

  lemma {:induction false} RunSnoc(s: ParserState, words: seq<string>, word: string, lib: Library)
    ensures Run(s, words + [word], lib) ==
      match Run(s, words, lib)
      case Ok(t) => Step(t, word, lib)
      case Err(e) => Err(e)
    decreases |words|
  {
    if words == [] {
      assert [] + [word] == [word];
    } else {
      assert (words + [word])[0] == words[0] && (words + [word])[1..] == words[1..] + [word];
      match Step(s, words[0], lib)
      case Ok(t) => RunSnoc(t, words[1..], word, lib);
      case Err(e) =>
    }
  }

  /** A rejected word ends the run: the words after it change nothing. */
  lemma {:induction false} RunErrExtends(s: ParserState, words: seq<string>, rest: seq<string>, lib: Library)
    requires Run(s, words, lib).Err?
    ensures Run(s, words + rest, lib) == Run(s, words, lib)
    decreases |words|
  {
    assert words != [];
    assert (words + rest)[0] == words[0] && (words + rest)[1..] == words[1..] + rest;
    match Step(s, words[0], lib)
    case Ok(t) => RunErrExtends(t, words[1..], rest, lib);
    case Err(e) =>
  }

  lemma {:induction false} RunKeepsInv(s: ParserState, words: seq<string>, lib: Library)
    requires Inv(s)
    ensures Run(s, words, lib).Ok? ==> Inv(Run(s, words, lib).value)
    decreases |words|
  {
    if words != [] {
      StepKeepsInv(s, words[0], lib);
      if Step(s, words[0], lib).Ok? {
        RunKeepsInv(Step(s, words[0], lib).value, words[1..], lib);
      }
    }
  }

  // ---------------------------------------------------------------------
  // The grammar the state machine recognises

  /**
   * A complete change command, stated on the whole word list: `f account`,
   * `a account currency amount` or `s account account currency amount`.
   */
  function Command(words: seq<string>, lib: Library): Option<Operation> {
    if |words| == 2 && words[0] == "f" && HasLetter(lib, words[1]) then
      Some(FinalizeChange(words[1]))
    else if |words| == 4 && words[0] == "a" && HasLetter(lib, words[1]) && HasNonDigit(words[2])
      && lib.parseDecimal(words[3]).Some? then
      Some(AddSimpleChange(words[1], Amount(words[2], lib.parseDecimal(words[3]).value)))
    else if |words| == 5 && words[0] == "s" && HasLetter(lib, words[1]) && HasLetter(lib, words[2])
      && HasNonDigit(words[3]) && lib.parseDecimal(words[4]).Some? then
      Some(AddSplitChange(words[1], words[2], Amount(words[3], lib.parseDecimal(words[4]).value)))
    else
      None
  }

  /** Once at the end of a command, any further word is rejected. */
  lemma RunPastEnd(s: ParserState, words: seq<string>, lib: Library)
    requires s.next == EOL && words != []
    ensures Run(s, words, lib) == Err(UnexpectedInput)
  {
  }

  /**
   * Feeding a word list from `Parser::new` and then asking `operation()`
   * yields exactly the command of the grammar, and nothing when the grammar
   * has none.
   */
  lemma {:induction false} RunIsCommand(words: seq<string>, lib: Library)
    ensures var r := Run(Initial(), words, lib);
      (r.Ok? && r.value.next == EOL) <==> Command(words, lib).Some?
    ensures var r := Run(Initial(), words, lib);
      r.Ok? && r.value.next == EOL ==> Inv(r.value) && OperationOf(r.value) == Command(words, lib)
  {
    RunKeepsInv(Initial(), words, lib);
    if words != [] {
      RunUnfold(Initial(), words, lib);
      if words[0] == "f" {
        RunFinalize(words, lib);
      } else if words[0] == "a" {
        RunSimple(words, lib);
      } else if words[0] == "s" {
        RunSplit(words, lib);
      }
    }
  }

  lemma RunFinalize(words: seq<string>, lib: Library)
    requires |words| >= 1 && words[0] == "f"
    ensures var r := Run(Initial(), words, lib);
      (r.Ok? && r.value.next == EOL) <==> Command(words, lib).Some?
    ensures var r := Run(Initial(), words, lib);
      r.Ok? && r.value.next == EOL && Inv(r.value) ==> OperationOf(r.value) == Command(words, lib)
  {
    var s1 := Initial().(opType := Some(Finalize), next := AccountToken);
    RunUnfold(Initial(), words, lib);
    if |words| >= 2 {
      RunUnfold(s1, words[1..], lib);
      assert words[1..][1..] == words[2..];
      AccountRegexIsHasLetter(lib, words[1]);
      if HasLetter(lib, words[1]) {
        var s2 := s1.(accounts := [words[1]], next := EOL);
        assert s1.accounts + [words[1]] == [words[1]];
        assert Step(s1, words[1], lib) == Ok(s2);
        if |words| > 2 { RunPastEnd(s2, words[2..], lib); }
      }
    }
  }

  lemma RunSimple(words: seq<string>, lib: Library)
    requires |words| >= 1 && words[0] == "a"
    ensures var r := Run(Initial(), words, lib);
      (r.Ok? && r.value.next == EOL) <==> Command(words, lib).Some?
    ensures var r := Run(Initial(), words, lib);
      r.Ok? && r.value.next == EOL && Inv(r.value) ==> OperationOf(r.value) == Command(words, lib)
  {
    var s1 := Initial().(opType := Some(AddSimple), next := AccountToken);
    RunUnfold(Initial(), words, lib);
    if |words| >= 2 {
      RunUnfold(s1, words[1..], lib);
      assert words[1..][1..] == words[2..];
      AccountRegexIsHasLetter(lib, words[1]);
      if HasLetter(lib, words[1]) {
        var s2 := s1.(accounts := [words[1]], next := CurrencyToken);
        assert s1.accounts + [words[1]] == [words[1]];
        assert Step(s1, words[1], lib) == Ok(s2);
        if |words| >= 3 {
          RunUnfold(s2, words[2..], lib);
          assert words[2..][1..] == words[3..];
          CurrencyRegexIsHasNonDigit(words[2]);
          if HasNonDigit(words[2]) {
            var s3 := s2.(currency := Some(words[2]), next := AmountToken);
            assert Step(s2, words[2], lib) == Ok(s3);
            if |words| >= 4 {
              RunUnfold(s3, words[3..], lib);
              assert words[3..][1..] == words[4..];
              if lib.parseDecimal(words[3]).Some? {
                var s4 := s3.(amount := lib.parseDecimal(words[3]), next := EOL);
                assert Step(s3, words[3], lib) == Ok(s4);
                if |words| > 4 { RunPastEnd(s4, words[4..], lib); }
              }
            }
          }
        }
      }
    }
  }

  lemma RunSplit(words: seq<string>, lib: Library)
    requires |words| >= 1 && words[0] == "s"
    ensures var r := Run(Initial(), words, lib);
      (r.Ok? && r.value.next == EOL) <==> Command(words, lib).Some?
    ensures var r := Run(Initial(), words, lib);
      r.Ok? && r.value.next == EOL && Inv(r.value) ==> OperationOf(r.value) == Command(words, lib)
  {
    var s1 := Initial().(opType := Some(AddSplit), next := AccountToken);
    RunUnfold(Initial(), words, lib);
    if |words| >= 2 {
      RunUnfold(s1, words[1..], lib);
      assert words[1..][1..] == words[2..];
      AccountRegexIsHasLetter(lib, words[1]);
      if HasLetter(lib, words[1]) {
        var s2 := s1.(accounts := [words[1]], next := AccountToken);
        assert s1.accounts + [words[1]] == [words[1]];
        assert Step(s1, words[1], lib) == Ok(s2);
        if |words| >= 3 {
          RunUnfold(s2, words[2..], lib);
          assert words[2..][1..] == words[3..];
          AccountRegexIsHasLetter(lib, words[2]);
          if HasLetter(lib, words[2]) {
            var s3 := s2.(accounts := [words[1], words[2]], next := CurrencyToken);
            assert s2.accounts + [words[2]] == [words[1], words[2]];
            assert Step(s2, words[2], lib) == Ok(s3);
            RunSplitAmount(words, lib, s3);
          }
        }
      }
    }
  }

  lemma RunSplitAmount(words: seq<string>, lib: Library, s3: ParserState)
    requires |words| >= 3 && words[0] == "s" && HasLetter(lib, words[1]) && HasLetter(lib, words[2])
    requires s3 == ParserState(CurrencyToken, Some(AddSplit), [words[1], words[2]], None, None)
    ensures var r := Run(s3, words[3..], lib);
      (r.Ok? && r.value.next == EOL) <==> Command(words, lib).Some?
    ensures var r := Run(s3, words[3..], lib);
      r.Ok? && r.value.next == EOL && Inv(r.value) ==> OperationOf(r.value) == Command(words, lib)
  {
    if |words| >= 4 {
      RunUnfold(s3, words[3..], lib);
      assert words[3..][1..] == words[4..];
      CurrencyRegexIsHasNonDigit(words[3]);
      if HasNonDigit(words[3]) {
        var s4 := s3.(currency := Some(words[3]), next := AmountToken);
        assert Step(s3, words[3], lib) == Ok(s4);
        if |words| >= 5 {
          RunUnfold(s4, words[4..], lib);
          assert words[4..][1..] == words[5..];
          if lib.parseDecimal(words[4]).Some? {
            var s5 := s4.(amount := lib.parseDecimal(words[4]), next := EOL);
            assert Step(s4, words[4], lib) == Ok(s5);
            if |words| > 5 { RunPastEnd(s5, words[5..], lib); }
          }
        }
      }
    }
  }

  /** One step of `Run`. */
  lemma RunUnfold(s: ParserState, words: seq<string>, lib: Library)
    requires words != []
    ensures Run(s, words, lib) ==
      match Step(s, words[0], lib)
      case Ok(t) => Run(t, words[1..], lib)
      case Err(e) => Err(e)
  {
  }

  // ---------------------------------------------------------------------
  // The parser object

  /** `Parser`: the fields that `parse_word` updates in place. */
  class Parser {
    var next: TokenType
    var opType: Option<OperationType>
    var accounts: seq<string>
    var currency: Option<string>
    var amount: Option<real>

    function State(): ParserState
      reads this
    {
      ParserState(next, opType, accounts, currency, amount)
    }

    ghost predicate Valid()
      reads this
    {
      Inv(State())
    }

    /** `Parser::new`: expects an operation word, holds nothing yet. */
    constructor ()
      ensures State() == Initial()
      ensures Valid()
    {
      next := OperationToken;
      opType := None;
      accounts := [];
      currency := None;
      amount := None;
    }

    /** `parse_word`: dispatch on the expected token. */
    method ParseWord(word: string, lib: Library) returns (r: Result<(), ParseError>)
      requires Valid()
      modifies this
      ensures Valid()
      ensures r.Err? ==> State() == old(State())
      ensures Step(old(State()), word, lib) == if r.Ok? then Ok(State()) else Err(r.error)
    {
      StepKeepsInv(State(), word, lib);
      match next
      case OperationToken => r := ParseOperationWord(word);
      case AccountToken => r := ParseAccount(word, lib);
      case CurrencyToken => r := ParseCurrency(word);
      case AmountToken => r := ParseAmount(word, lib);
      case EOL => r := Err(UnexpectedInput);
    }

    /** `parse_op_type`. */
    method ParseOperationWord(word: string) returns (r: Result<(), ParseError>)
      modifies this
      ensures r.Err? ==> State() == old(State()) && r.error == InvalidOperationType
      ensures r.Ok? <==> ParseOperationType(word).Ok?
      ensures r.Ok? ==> State() == old(State()).(opType := Some(ParseOperationType(word).value), next := AccountToken)
    {
      var t := ParseOperationType(word);
      if t.Err? {
        return Err(t.error);
      }
      opType := Some(t.value);
      next := AccountToken;
      r := Ok(());
    }

    /** `parse_account`: push the account, then pick the next token. */
    method ParseAccount(word: string, lib: Library) returns (r: Result<(), ParseError>)
      modifies this
      ensures r.Err? ==> State() == old(State()) && r.error == InvalidAccount
      ensures r.Ok? <==> AccountRegexMatches(lib, word)
      ensures r.Ok? ==> State() == old(State()).(accounts := old(accounts) + [word], next := AfterAccount(old(opType), old(accounts) + [word]))
    {
      if AccountRegexMatches(lib, word) {
        accounts := accounts + [word];
      } else {
        return Err(InvalidAccount);
      }
      if opType == Some(AddSplit) && |accounts| == 1 {
        next := AccountToken;
      } else if opType == Some(Finalize) {
        next := EOL;
      } else {
        next := CurrencyToken;
      }
      r := Ok(());
    }

    /** `parse_currency`. */
    method ParseCurrency(word: string) returns (r: Result<(), ParseError>)
      modifies this
      ensures r.Err? ==> State() == old(State()) && r.error == InvalidCurrency
      ensures r.Ok? <==> CurrencyRegexMatches(word)
      ensures r.Ok? ==> State() == old(State()).(currency := Some(word), next := AmountToken)
    {
      if CurrencyRegexMatches(word) {
        currency := Some(word);
      } else {
        return Err(InvalidCurrency);
      }
      next := AmountToken;
      r := Ok(());
    }

    /** `parse_amount`. */
    method ParseAmount(word: string, lib: Library) returns (r: Result<(), ParseError>)
      modifies this
      ensures r.Err? ==> State() == old(State()) && r.error == InvalidAmount
      ensures r.Ok? <==> lib.parseDecimal(word).Some?
      ensures r.Ok? ==> State() == old(State()).(amount := lib.parseDecimal(word), next := EOL)
    {
      var d := lib.parseDecimal(word);
      if d.None? {
        return Err(InvalidAmount);
      }
      amount := Some(d.value);
      next := EOL;
      r := Ok(());
    }
  }
}
