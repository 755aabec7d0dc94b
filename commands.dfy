/** The chat front end of the splitter: parse_command (main.py:264-341)
    lower-cases a command, reads an expense out of it when the expense
    pattern matches, and otherwise answers a balance, summary, help or clear
    request, in that order of priority. */
module Commands {
  import opened Common
  import opened Settlement
  import opened Ledger
  import opened Pattern
  import opened Phrases

  /** What a (lower-cased) command asks for. */
  datatype Intent =
    | AddCommand(groups: Groups)
    | BalanceQuery
    | SummaryQuery
    | HelpQuery
    | ClearCommand
    | Unrecognised

  /** The first of the source's tests that the command passes: the expense
      pattern, then "balance"/"who owes"/"owes who", then "summary"/"list
      expenses", then "help", then "clear"/"reset". */
  function Classify(s: string): Intent
  {
    match Search(s)
    case Some(g) => AddCommand(g)
    case None =>
      if Contains(s, "balance") || Contains(s, "who owes") || Contains(s, "owes who") then BalanceQuery
      else if Contains(s, "summary") || Contains(s, "list expenses") then SummaryQuery
      else if Contains(s, "help") then HelpQuery
      else if Contains(s, "clear") || Contains(s, "reset") then ClearCommand
      else Unrecognised
  }

  /** Every name stripped of surrounding whitespace. */
  function StripAll(names: seq<string>): (r: seq<string>)
    ensures |r| == |names|
    ensures forall i :: 0 <= i < |r| ==> r[i] == Strip(names[i])
  {
    seq(|names|, i requires 0 <= i < |names| => Strip(names[i]))
  }

  /** `[person.strip() for person in re.split(...)]`, then the payer appended
      unless already listed. Names listed twice stay listed twice. */
  function SplitList(text: string, payer: string): (r: seq<string>)
    ensures payer in r
  {
    var names := StripAll(Pieces(text));
    if payer in names then names else names + [payer]
  }

  /** The arguments parse_command hands to add_expense for a match. */
  datatype Request = Request(paidBy: string, amount: real, description: string,
                             splitAmong: Option<seq<string>>, date: Option<string>)

  /** The date recorded for a date clause: `parseDate` normalises it, and a
      date it cannot read is replaced by `today`. */
  function DateFrom(text: string, today: string, parseDate: string -> Option<string>): string
  {
    match parseDate(text)
    case Some(d) => d
    case None => today
  }

  /** Payer and description stripped, the amount read as a number, the split
      list read when the clause is there, and the date normalised by
      `parseDate` (the source's strptime/strftime), falling back to `today`
      when it does not parse. */
  function ToRequest(g: Groups, today: string, parseDate: string -> Option<string>): Request
  {
    var payer := Strip(g.paidBy);
    var split := if g.splitAmong.Some? && g.splitAmong.value != [] then Some(SplitList(g.splitAmong.value, payer)) else None;
    var date := if g.date.Some? && g.date.value != [] then Some(DateFrom(Strip(g.date.value), today, parseDate)) else None;
    Request(payer, Decimal(g.amount), Strip(g.description), split, date)
  }

  /** `e` is the expense recorded for `rq` when `known` were the people known
      beforehand. */
  ghost predicate Records(e: Expense, rq: Request, today: string, known: set<string>)
  {
    && e.paidBy == rq.paidBy
    && e.amount == rq.amount
    && e.description == rq.description
    && e.date == (if rq.date.Some? then rq.date.value else today)
    && |e.splitAmong| > 0
    && e.amountPerPerson == e.amount / (|e.splitAmong| as real)
    && (if rq.splitAmong.Some? then e.splitAmong == rq.splitAmong.value else Enumerates(e.splitAmong, known))
  }

  /** The answer to a command; the source answers with text, of which the
      model keeps the content. */
  datatype Reply =
    | Added(expense: Expense)
    | AddFailed
    | AllSettled
    | Owes(transactions: seq<Transaction>)
    | NoExpenses
    | Summary(expenses: seq<Expense>)
    | Help
    | Cleared
    | NotUnderstood

  /** Answer `command`. An expense command records the expense (it can fail
      only when no split is given and nobody is known yet, where the source
      divides by zero); a balance query answers "all settled" exactly when
      every known person's net balance is zero, and otherwise lists the
      settling payments; a summary lists the expenses; a clear command
      forgets everything; nothing but an expense or clear command changes
      the ledger. */
  method ParseCommand(ledger: ExpenseSplitter, command: string, today: string,
                      parseDate: string -> Option<string>) returns (reply: Reply)
    requires ledger.Valid()
    modifies ledger
    ensures ledger.Valid()
    ensures Classify(Lower(command)).AddCommand? ==>
              var rq := ToRequest(Classify(Lower(command)).groups, today, parseDate);
              && ledger.people == old(ledger.people) + {rq.paidBy}
                   + (if rq.splitAmong.Some? then set p | p in rq.splitAmong.value else {})
              && (reply.Added? || reply == AddFailed)
              && (reply == AddFailed <==> rq.splitAmong.None? && old(ledger.people) == {})
              && (reply == AddFailed ==> ledger.expenses == old(ledger.expenses))
              && (reply.Added? ==>
                    ledger.expenses == old(ledger.expenses) + [reply.expense]
                    && Records(reply.expense, rq, today, old(ledger.people)))
    ensures Classify(Lower(command)) == BalanceQuery ==>
              && unchanged(ledger)
              && (reply == AllSettled || reply.Owes?)
              && (reply == AllSettled <==> forall p :: p in ledger.people ==> NetBalance(ledger.expenses, p) == 0.0)
              && var ts := if reply.Owes? then reply.transactions else [];
              && (forall t :: t in ts ==>
                    && t.amount > 0.0 && t.from in ledger.people && t.to in ledger.people
                    && NetBalance(ledger.expenses, t.from) < 0.0 && NetBalance(ledger.expenses, t.to) > 0.0)
              && (forall i, j :: 0 <= i < j < |ts| ==>
                    NetBalance(ledger.expenses, ts[i].from) <= NetBalance(ledger.expenses, ts[j].from))
              && (forall i, j, k :: 0 <= i < j < k < |ts| && ts[i].from == ts[k].from ==> ts[j].from == ts[i].from)
              && (forall p :: p in ledger.people && NetBalance(ledger.expenses, p) < 0.0 ==>
                    PaidBy(ts, p) == -NetBalance(ledger.expenses, p) && ReceivedBy(ts, p) == 0.0)
              && (forall p :: p in ledger.people && NetBalance(ledger.expenses, p) > 0.0 ==>
                    ReceivedBy(ts, p) == NetBalance(ledger.expenses, p) && PaidBy(ts, p) == 0.0)
              && (forall p :: p in ledger.people ==>
                    NetBalance(ledger.expenses, p) + PaidBy(ts, p) - ReceivedBy(ts, p) == 0.0)
              && Total(ts) == SumValues(Credits(Balances(ledger.people, ledger.expenses)))
    ensures Classify(Lower(command)) == SummaryQuery ==>
              unchanged(ledger) && reply == (if ledger.expenses == [] then NoExpenses else Summary(ledger.expenses))
    ensures Classify(Lower(command)) == HelpQuery ==> unchanged(ledger) && reply == Help
    ensures Classify(Lower(command)) == ClearCommand ==>
              ledger.expenses == [] && ledger.people == {} && reply == Cleared
    ensures Classify(Lower(command)) == Unrecognised ==> unchanged(ledger) && reply == NotUnderstood
  {
    var s := Lower(command);
    match Classify(s)
    case AddCommand(g) =>
      var rq := ToRequest(g, today, parseDate);
      if rq.splitAmong.Some? {
        assert rq.splitAmong.value != [] by {
          assert rq.paidBy in rq.splitAmong.value;
        }
      }
      var added := ledger.AddExpense(rq.paidBy, rq.amount, rq.description, rq.splitAmong, rq.date, today);
      reply := if added.Some? then Added(added.value) else AddFailed;
    case BalanceQuery =>
      reply := AnswerBalance(ledger);
    case SummaryQuery =>
      reply := if ledger.expenses == [] then NoExpenses else Summary(ledger.expenses);
    case HelpQuery =>
      reply := Help;
    case ClearCommand =>
      ledger.Clear();
      reply := Cleared;
    case Unrecognised =>
      reply := NotUnderstood;
  }

  /** The balance branch of parse_command: "all settled" exactly when every
      known person's net balance is zero, and otherwise the settling payments,
      which leave everybody at zero. */
  method AnswerBalance(ledger: ExpenseSplitter) returns (reply: Reply)
    requires ledger.Valid()
    ensures reply == AllSettled || reply.Owes?
    ensures reply == AllSettled <==> forall p :: p in ledger.people ==> NetBalance(ledger.expenses, p) == 0.0
    ensures var ts := if reply.Owes? then reply.transactions else [];
            && (forall t :: t in ts ==>
                  && t.amount > 0.0 && t.from in ledger.people && t.to in ledger.people
                  && NetBalance(ledger.expenses, t.from) < 0.0 && NetBalance(ledger.expenses, t.to) > 0.0)
            && (forall i, j :: 0 <= i < j < |ts| ==>
                  NetBalance(ledger.expenses, ts[i].from) <= NetBalance(ledger.expenses, ts[j].from))
            && (forall i, j, k :: 0 <= i < j < k < |ts| && ts[i].from == ts[k].from ==> ts[j].from == ts[i].from)
            && (forall p :: p in ledger.people && NetBalance(ledger.expenses, p) < 0.0 ==>
                  PaidBy(ts, p) == -NetBalance(ledger.expenses, p) && ReceivedBy(ts, p) == 0.0)
            && (forall p :: p in ledger.people && NetBalance(ledger.expenses, p) > 0.0 ==>
                  ReceivedBy(ts, p) == NetBalance(ledger.expenses, p) && PaidBy(ts, p) == 0.0)
            && (forall p :: p in ledger.people ==>
                  NetBalance(ledger.expenses, p) + PaidBy(ts, p) - ReceivedBy(ts, p) == 0.0)
            && Total(ts) == SumValues(Credits(Balances(ledger.people, ledger.expenses)))
  {
    var _ := ledger.CalculateBalances();
    var ts := ledger.GetTransactions();
    if ts == [] {
      reply := AllSettled;
    } else {
      reply := Owes(ts);
      assert ts[0] in ts;
    }
  }

  /** A command that does not mention "paid" never records an expense. */
  lemma NoPaidNoExpense(command: string)
    requires !Contains(Lower(command), "paid")
    ensures !Classify(Lower(command)).AddCommand?
  {
    if Search(Lower(command)).Some? {
      SearchNeedsPaid(Lower(command));
    }
  }

  /** Names without surrounding whitespace are left as they are. */
  lemma StripAllTrimmed(names: seq<string>)
    requires forall i :: 0 <= i < |names| ==> Token(names[i])
    ensures StripAll(names) == names
  {
    forall i | 0 <= i < |names|
      ensures Strip(names[i]) == names[i]
    {
      var n := names[i];
      assert Token(n);
      assert !IsSpace(n[0]) && !IsSpace(n[|n| - 1]);
      StripTrimmed(n);
    }
  }

  /** Reading back a list of names joined by commas or "and" gives the
      names, with the payer added when absent. */
  lemma SplitListJoin(names: seq<string>, seps: seq<Sep>, payer: string)
    requires |names| > 0 && ListNames(names)
    ensures SplitList(Join(names, seps), payer) == if payer in names then names else names + [payer]
  {
    PiecesJoin(names, seps);
    assert forall i :: 0 <= i < |names| ==> ListName(names[i]);
    StripAllTrimmed(names);
  }

  /** A payer without surrounding whitespace names the same split list. */
  lemma SplitListPayer(text: string, payer: string)
    requires PayerName(payer)
    ensures SplitList(text, Strip(payer)) == SplitList(text, payer)
  {
    StripTrimmed(payer);
  }

  lemma TaughtPayer(p: Parts, today: string, parseDate: string -> Option<string>)
    requires PayerName(p.payer)
    ensures ToRequest(Written(p), today, parseDate).paidBy == p.payer
  {
    StripTrimmed(p.payer);
  }

  lemma TaughtDescription(p: Parts, today: string, parseDate: string -> Option<string>)
    requires DescWords(p.words)
    ensures ToRequest(Written(p), today, parseDate).description == Sentence(p.words)
  {
    SentenceShape(p.words);
    StripTrimmed(Sentence(p.words));
  }

  lemma TaughtDate(p: Parts, today: string, parseDate: string -> Option<string>)
    requires p.date.Some? ==> DateLine(p.date.value)
    ensures ToRequest(Written(p), today, parseDate).date
            == if p.date.Some? then Some(DateFrom(p.date.value, today, parseDate)) else None
  {
    if p.date.Some? {
      StripTrimmed(p.date.value);
    }
  }

  lemma TaughtSplit(p: Parts, today: string, parseDate: string -> Option<string>)
    requires PayerName(p.payer) && ListNames(p.names)
    ensures ToRequest(Written(p), today, parseDate).splitAmong
            == if p.names == [] then None else Some(if p.payer in p.names then p.names else p.names + [p.payer])
  {
    if p.names != [] {
      JoinShape(p.names, p.seps);
      SplitListPayer(Join(p.names, p.seps), p.payer);
      SplitListJoin(p.names, p.seps, p.payer);
    }
  }

  /** The request read from the groups of a command in the taught form. */
  lemma TaughtRequest(p: Parts, today: string, parseDate: string -> Option<string>)
    requires Readable(p)
    ensures ToRequest(Written(p), today, parseDate)
            == Request(p.payer, Decimal(p.amount), Sentence(p.words),
                       if p.names == [] then None else Some(if p.payer in p.names then p.names else p.names + [p.payer]),
                       if p.date.Some? then Some(DateFrom(p.date.value, today, parseDate)) else None)
  {
    TaughtPayer(p, today, parseDate);
    TaughtDescription(p, today, parseDate);
    TaughtDate(p, today, parseDate);
    TaughtSplit(p, today, parseDate);
  }

  /** A command in the taught form, from lower-case parts, is an expense
      command whose groups are exactly those parts. */
  lemma TaughtIntent(p: Parts)
    requires Readable(p) && LowerParts(p)
    ensures Classify(Lower(Phrase(p))) == AddCommand(Written(p))
  {
    LowercasePhrase(p);
    LowerFixed(Phrase(p));
    PhraseMatches(p);
  }

  /** A command written in the taught form, from lower-case parts and an
      amount in cents, is read as an expense command for exactly those parts:
      the payer, the amount, the description, the names (the payer added
      when absent) and the date. */
  lemma TaughtCommand(p: Parts, cents: nat, today: string, parseDate: string -> Option<string>)
    requires p.amount == CentsText(cents)
    requires Readable(p) && LowerParts(p)
    ensures var intent := Classify(Lower(Phrase(p)));
            && intent.AddCommand?
            && ToRequest(intent.groups, today, parseDate)
               == Request(p.payer, cents as real / 100.0, Sentence(p.words),
                          if p.names == [] then None else Some(if p.payer in p.names then p.names else p.names + [p.payer]),
                          if p.date.Some? then Some(DateFrom(p.date.value, today, parseDate)) else None)
  {
    DecimalCents(cents);
    TaughtIntent(p);
    TaughtRequest(p, today, parseDate);
  }
}
