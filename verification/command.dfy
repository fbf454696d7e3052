/**
 * One change line of the interactive loop (`src/tui/mod.rs`): its words are
 * fed to a fresh `Parser` and, when they form a whole command, the resulting
 * `Operation` is applied to the open transaction.
 */
module ChangeCommand {
  import opened Results
  import P = CommandParser
  import T = Transactions

  /** Why a change line is not applied. */
  datatype LineError =
    | Rejected(reason: P.ParseError)
    | Incomplete(expecting: P.TokenType)

  lemma TakeOneMore(words: seq<string>, i: nat)
    requires i < |words|
    ensures words[..i + 1] == words[..i] + [words[i]]
  {
  }

  /**
   * A change line that stops at the first rejected word, as the parser's
   * error path and the completer (which gives up on the first error) treat
   * it: the line is applied exactly when it is a command of the grammar.
   */
  method ParseLine(words: seq<string>, lib: P.Library) returns (r: Result<P.Operation, LineError>)
    ensures r.Ok? <==> P.Command(words, lib).Some?
    ensures r.Ok? ==> r.value == P.Command(words, lib).value
  {
    var p := new P.Parser();
    var i := 0;
    while i < |words|
      invariant 0 <= i <= |words|
      invariant p.Valid()
      invariant P.Run(P.Initial(), words[..i], lib) == Ok(p.State())
    {
      TakeOneMore(words, i);
      P.RunSnoc(P.Initial(), words[..i], words[i], lib);
      var res := p.ParseWord(words[i], lib);
      if res.Err? {
        P.RunErrExtends(P.Initial(), words[..i + 1], words[i + 1..], lib);
        assert words[..i + 1] + words[i + 1..] == words;
        P.RunIsCommand(words, lib);
        return Err(Rejected(res.error));
      }
      i := i + 1;
    }
    assert words[..i] == words;
    P.RunIsCommand(words, lib);
    var op := P.OperationOf(p.State());
    if op.None? {
      return Err(Incomplete(p.next));
    }
    r := Ok(op.value);
  }

  /**
   * The loop as written: a rejected word is reported and then skipped, and
   * parsing goes on with the next word from the same state. Until a word is
   * rejected, it agrees with the parser's own run.
   */
  function SkipRun(s: P.ParserState, words: seq<string>, lib: P.Library): (r: P.ParserState)
    ensures P.Run(s, words, lib).Ok? ==> r == P.Run(s, words, lib).value
    decreases |words|
  {
    if words == [] then s
    else
      match P.Step(s, words[0], lib)
      case Ok(t) => SkipRun(t, words[1..], lib)
      case Err(_) => SkipRun(s, words[1..], lib)
  }

  lemma {:induction false} SkipRunKeepsInv(s: P.ParserState, words: seq<string>, lib: P.Library)
    requires P.Inv(s)
    ensures P.Inv(SkipRun(s, words, lib))
    decreases |words|
  {
    if words != [] {
      P.StepKeepsInv(s, words[0], lib);
      match P.Step(s, words[0], lib)
      case Ok(t) => SkipRunKeepsInv(t, words[1..], lib);
      case Err(_) => SkipRunKeepsInv(s, words[1..], lib);
    }
  }

  lemma {:induction false} SkipRunSnoc(s: P.ParserState, words: seq<string>, word: string, lib: P.Library)
    ensures SkipRun(s, words + [word], lib) ==
      var t := SkipRun(s, words, lib);
      match P.Step(t, word, lib)
      case Ok(u) => u
      case Err(_) => t
    decreases |words|
  {
    if words == [] {
      assert [] + [word] == [word];
    } else {
      assert (words + [word])[0] == words[0] && (words + [word])[1..] == words[1..] + [word];
      match P.Step(s, words[0], lib)
      case Ok(t) => SkipRunSnoc(t, words[1..], word, lib);
      case Err(_) => SkipRunSnoc(s, words[1..], word, lib);
    }
  }

  /**
   * The change-line loop of the interactive session as written: every word
   * is offered to the parser, a rejected one is skipped, and the line is
   * applied when the parser ends at `EOL`.
   */
  method ParseLineAsWritten(words: seq<string>, lib: P.Library) returns (r: Result<P.Operation, LineError>)
    ensures var s := SkipRun(P.Initial(), words, lib);
      P.Inv(s) && r == if s.next == P.EOL then Ok(P.OperationOf(s).value) else Err(Incomplete(s.next))
  {
    var p := new P.Parser();
    var i := 0;
    while i < |words|
      invariant 0 <= i <= |words|
      invariant p.Valid()
      invariant SkipRun(P.Initial(), words[..i], lib) == p.State()
    {
      TakeOneMore(words, i);
      SkipRunSnoc(P.Initial(), words[..i], words[i], lib);
      var res := p.ParseWord(words[i], lib);
      i := i + 1;
    }
    assert words[..i] == words;
    SkipRunKeepsInv(P.Initial(), words, lib);
    if p.next != P.EOL {
      return Err(Incomplete(p.next));
    }
    r := Ok(P.OperationOf(p.State()).value);
  }

  /**
   * A line whose currency word is all digits is no command, yet the loop as
   * written reports the word, skips it, takes the next word as the
   * currency and applies the change: `a Food 123 CZK 5` adds `CZK 5` to
   * `Food`.
   */
  lemma SkippedWordStillApplied(lib: P.Library)
    requires lib.isLetter('F') && lib.parseDecimal("5") == Some(5.0)
    ensures P.Command(["a", "Food", "123", "CZK", "5"], lib) == None
    ensures P.Inv(SkipRun(P.Initial(), ["a", "Food", "123", "CZK", "5"], lib))
    ensures P.OperationOf(SkipRun(P.Initial(), ["a", "Food", "123", "CZK", "5"], lib)) ==
      Some(P.AddSimpleChange("Food", P.Amount("CZK", 5.0)))
  {
    var words := ["a", "Food", "123", "CZK", "5"];
    assert !P.HasNonDigit("123") by {
      forall k | 0 <= k < 3 ensures P.IsDigit("123"[k]) { }
    }
    assert P.HasNonDigit("CZK") by { assert !P.IsDigit("CZK"[0]); }
    assert P.HasLetter(lib, "Food") by { assert lib.isLetter("Food"[0]); }
    P.AccountRegexIsHasLetter(lib, "Food");
    P.CurrencyRegexIsHasNonDigit("123");
    P.CurrencyRegexIsHasNonDigit("CZK");
    var s1 := P.Initial().(opType := Some(P.AddSimple), next := P.AccountToken);
    var s2 := s1.(accounts := ["Food"], next := P.CurrencyToken);
    var s3 := s2.(currency := Some("CZK"), next := P.AmountToken);
    var s4 := s3.(amount := Some(5.0), next := P.EOL);
    assert s1.accounts + ["Food"] == ["Food"];
    assert P.Step(P.Initial(), "a", lib) == Ok(s1);
    assert P.Step(s1, "Food", lib) == Ok(s2);
    assert P.Step(s2, "123", lib) == Err(P.InvalidCurrency);
    assert P.Step(s2, "CZK", lib) == Ok(s3);
    assert P.Step(s3, "5", lib) == Ok(s4);
    assert words[1..] == ["Food", "123", "CZK", "5"];
    assert words[1..][1..] == ["123", "CZK", "5"];
    assert words[1..][1..][1..] == ["CZK", "5"];
    assert words[1..][1..][1..][1..] == ["5"];
    assert SkipRun(s4, [], lib) == s4;
    assert SkipRun(s3, ["5"], lib) == s4;
    assert SkipRun(s2, ["CZK", "5"], lib) == s4;
    assert SkipRun(s2, ["123", "CZK", "5"], lib) == s4;
    assert SkipRun(s1, ["Food", "123", "CZK", "5"], lib) == s4;
  }

  /** The transaction's amount for a parsed amount. */
  function ToAmount(a: P.Amount): (r: T.Amount)
    ensures r.commodity == a.commodity && r.magnitude == a.magnitude
  {
    T.Amount(a.commodity, a.magnitude)
  }

  /**
   * Applying a parsed operation to the open transaction: a simple change
   * adds the amount to the account, a split change adds half to each of
   * the two accounts, a finalize balances the transaction into the account.
   */
  method Apply(tx: T.Transaction, op: P.Operation)
    requires tx.Valid()
    modifies tx
    ensures tx.Valid()
    ensures tx.date == old(tx.date) && tx.description == old(tx.description)
    ensures op.AddSimpleChange? ==>
      tx.changes == old(tx.changes)[op.account := T.Merge(T.Entries(old(tx.changes), op.account), ToAmount(op.amount))]
    ensures op.AddSplitChange? ==>
      tx.changes == T.SplitInto(old(tx.changes), op.account, op.splitAccount, ToAmount(op.amount))
    ensures !op.FinalizeChange? ==>
      (forall c :: tx.TotalOf(c) == old(tx.TotalOf(c)) + T.Contribution(ToAmount(op.amount), c)) &&
      tx.AllCommodities() == old(tx.AllCommodities()) + {op.amount.commodity}
    ensures op.FinalizeChange? ==>
      tx.AllCommodities() == old(tx.AllCommodities()) &&
      (forall c :: c in tx.AllCommodities() ==> tx.TotalOf(c) == 0.0) &&
      tx.changes - {op.account} == old(tx.changes) - {op.account} &&
      (op.account in tx.changes <==> op.account in old(tx.changes) || old(tx.AllCommodities()) != {}) &&
      T.Commodities(T.Entries(tx.changes, op.account)) ==
        T.Commodities(T.Entries(old(tx.changes), op.account)) + old(tx.AllCommodities()) &&
      (forall c :: T.Magnitude(T.Entries(tx.changes, op.account), c) ==
        T.Magnitude(T.Entries(old(tx.changes), op.account), c) - old(tx.TotalOf(c)))
  {
    match op
    case AddSimpleChange(account, amount) => tx.AddChange(account, ToAmount(amount));
    case AddSplitChange(account, splitAccount, amount) => tx.AddSplitChange(account, splitAccount, ToAmount(amount));
    case FinalizeChange(account) => tx.Finalize(account);
  }
}
