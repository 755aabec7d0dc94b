/** The settlement planner of the expense splitter: from the net balance of
    every participant it proposes payments "debtor pays creditor", walking the
    debtors from the largest debt down and, for each, the creditors from the
    largest remaining credit down (main.py, get_transactions). */
module Settlement {
  import opened Common

  /** `from` should pay `amount` to `to`. */
  datatype Transaction = Transaction(from: string, to: string, amount: real)

  /** The participants with a negative balance, each with the amount it owes
      (a positive number). */
  function Debts(balances: map<string, real>): map<string, real>
  {
    map p | p in balances && balances[p] < 0.0 :: -balances[p]
  }

  /** The participants with a positive balance, each with the amount it is
      owed. */
  function Credits(balances: map<string, real>): map<string, real>
  {
    map p | p in balances && balances[p] > 0.0 :: balances[p]
  }

  /** The sum of all transaction amounts. */
  function Total(ts: seq<Transaction>): real
  {
    if ts == [] then 0.0 else Total(ts[..|ts| - 1]) + ts[|ts| - 1].amount
  }

  /** What `p` pays in `ts`. */
  function PaidBy(ts: seq<Transaction>, p: string): real
  {
    if ts == [] then 0.0
    else PaidBy(ts[..|ts| - 1], p) + (if ts[|ts| - 1].from == p then ts[|ts| - 1].amount else 0.0)
  }

  /** What `p` receives in `ts`. */
  function ReceivedBy(ts: seq<Transaction>, p: string): real
  {
    if ts == [] then 0.0
    else ReceivedBy(ts[..|ts| - 1], p) + (if ts[|ts| - 1].to == p then ts[|ts| - 1].amount else 0.0)
  }

  /** The three sums distribute over concatenation. */
  lemma {:induction false} SumsAppend(a: seq<Transaction>, b: seq<Transaction>)
    ensures Total(a + b) == Total(a) + Total(b)
    ensures forall p :: PaidBy(a + b, p) == PaidBy(a, p) + PaidBy(b, p)
    ensures forall p :: ReceivedBy(a + b, p) == ReceivedBy(a, p) + ReceivedBy(b, p)
    decreases |b|
  {
    if b != [] {
      var b' := b[..|b| - 1];
      assert (a + b)[..|a + b| - 1] == a + b';
      SumsAppend(a, b');
    } else {
      assert a + b == a;
    }
  }

  /** Removing one participant removes it from the creditors, if it is one. */
  lemma CreditsRemove(balances: map<string, real>, k: string)
    requires k in balances
    ensures Credits(balances - {k}) == if balances[k] > 0.0 then Credits(balances) - {k} else Credits(balances)
  {
  }

  /** Removing one participant removes it from the debtors, if it is one. */
  lemma DebtsRemove(balances: map<string, real>, k: string)
    requires k in balances
    ensures Debts(balances - {k}) == if balances[k] < 0.0 then Debts(balances) - {k} else Debts(balances)
  {
  }

  /** Balances add up to what is owed to creditors minus what debtors owe. */
  lemma {:induction false} SumValuesPartition(balances: map<string, real>)
    ensures SumValues(balances) == SumValues(Credits(balances)) - SumValues(Debts(balances))
    decreases |balances|
  {
    if balances != map[] {
      var k :| k in balances;
      var rest := balances - {k};
      assert |rest| < |balances| by { assert rest.Keys < balances.Keys; }
      SumValuesPartition(rest);
      SumValuesPick(balances, k);
      CreditsRemove(balances, k);
      DebtsRemove(balances, k);
      if balances[k] > 0.0 {
        SumValuesPick(Credits(balances), k);
      } else if balances[k] < 0.0 {
        SumValuesPick(Debts(balances), k);
      }
    }
  }

  /** `a` may come before `b` in an ascending (or, if `descending`, a
      descending) order. */
  predicate Before(a: real, b: real, descending: bool)
  {
    if descending then a >= b else a <= b
  }

  /** Every non-empty set of keys has an extreme element. */
  lemma {:induction false} ExtremeExists(m: map<string, real>, keys: set<string>, descending: bool)
    requires keys != {} && keys <= m.Keys
    ensures exists k :: k in keys && forall x :: x in keys ==> Before(m[k], m[x], descending)
    decreases keys
  {
    var y :| y in keys;
    if keys == {y} {
      assert forall x :: x in keys ==> x == y;
      assert Before(m[y], m[y], descending);
    } else {
      var others := keys - {y};
      ExtremeExists(m, others, descending);
      var k :| k in others && forall x :: x in others ==> Before(m[k], m[x], descending);
      if Before(m[k], m[y], descending) {
        assert k in keys && forall x :: x in keys ==> Before(m[k], m[x], descending);
      } else {
        assert forall x :: x in keys ==> Before(m[y], m[x], descending);
      }
    }
  }

  /** The keys of `m` ordered by their values (Python's `sorted` over
      `m.items()` keyed by the value). Keys with equal values come in an
      unspecified order, as dictionary iteration order decides them in the
      source. */
  method SortByValue(m: map<string, real>, descending: bool) returns (order: seq<string>)
    ensures Enumerates(order, m.Keys)
    ensures forall i :: 0 <= i < |order| ==> order[i] in m
    ensures forall i, j :: 0 <= i < j < |order| ==> Before(m[order[i]], m[order[j]], descending)
  {
    order := [];
    var rest := m.Keys;
    while rest != {}
      invariant rest <= m.Keys
      invariant forall x :: x in m ==> (x in order <==> x !in rest)
      invariant forall i :: 0 <= i < |order| ==> order[i] in m
      invariant Distinct(order)
      invariant forall i, j :: 0 <= i < j < |order| ==> Before(m[order[i]], m[order[j]], descending)
      invariant forall i, x :: 0 <= i < |order| && x in rest ==> Before(m[order[i]], m[x], descending)
      decreases rest
    {
      ExtremeExists(m, rest, descending);
      var k :| k in rest && forall x :: x in rest ==> Before(m[k], m[x], descending);
      order := order + [k];
      rest := rest - {k};
    }
  }

  /* The state of PayDebtor's loop after the creditors `order[..j]` have been
     tried, in three parts: PayLeft, PayMade and PaySums. `pos[i]` is the
     position in `order` of the creditor paid by payment `i`. */

  /** What is left of the debt (`remaining`) and of each credit (`after`). */
  ghost predicate PayLeft(debt: real, creditors: map<string, real>, order: seq<string>,
                          j: int, after: map<string, real>, remaining: real)
  {
    && 0 <= j <= |order|
    && (forall k :: 0 <= k < |order| ==> order[k] in creditors)
    && after.Keys == creditors.Keys
    && (forall c :: c in after ==> 0.0 <= after[c] <= creditors[c])
    && (forall k :: j <= k < |order| ==> after[order[k]] == creditors[order[k]])
    && 0.0 <= remaining <= debt
    && (remaining == 0.0 || forall k :: 0 <= k < j ==> after[order[k]] == 0.0)
  }

  /** Every payment so far goes from `debtor` to a creditor tried so far, one
      payment per creditor, in the order of `order`. */
  ghost predicate PayMade(debtor: string, creditors: map<string, real>, order: seq<string>,
                          j: int, payments: seq<Transaction>, pos: seq<int>)
  {
    && j <= |order|
    && |pos| == |payments|
    && (forall i :: 0 <= i < |payments| ==> 0 <= pos[i] < j && payments[i].to == order[pos[i]])
    && (forall i, i' :: 0 <= i < i' < |payments| ==> pos[i] < pos[i'])
    && (forall t :: t in payments ==>
          t.from == debtor && t.to in creditors && creditors[t.to] > 0.0 && t.amount > 0.0)
  }

  /** What has been paid is what the debt went down by, and what each
      creditor has received is what its credit went down by. */
  ghost predicate PaySums(debtor: string, debt: real, creditors: map<string, real>,
                          after: map<string, real>, payments: seq<Transaction>, remaining: real)
  {
    && Total(payments) == debt - remaining
    && PaidBy(payments, debtor) == debt - remaining
    && (forall p :: p != debtor ==> PaidBy(payments, p) == 0.0)
    && (forall c :: c in creditors ==> c in after && ReceivedBy(payments, c) == creditors[c] - after[c])
    && SumValues(after) == SumValues(creditors) - (debt - remaining)
  }

  ghost predicate PayInv(debtor: string, debt: real, creditors: map<string, real>, order: seq<string>,
                         j: int, after: map<string, real>, payments: seq<Transaction>,
                         remaining: real, pos: seq<int>)
  {
    && PayLeft(debt, creditors, order, j, after, remaining)
    && PayMade(debtor, creditors, order, j, payments, pos)
    && PaySums(debtor, debt, creditors, after, payments, remaining)
  }

  /** Every payment takes the creditor's whole credit, except that the last
      one may instead clear what is left of the debt. */
  ghost predicate PayAmounts(creditors: map<string, real>, payments: seq<Transaction>, remaining: real)
  {
    forall i :: 0 <= i < |payments| ==>
      payments[i].to in creditors && payments[i].amount <= creditors[payments[i].to]
      && (payments[i].amount == creditors[payments[i].to] || (i == |payments| - 1 && remaining == 0.0))
  }

  /** A creditor with credit that was tried and not paid was passed over
      because the debt was already cleared, after every payment made. */
  ghost predicate PayPassed(creditors: map<string, real>, order: seq<string>, j: int,
                            remaining: real, pos: seq<int>)
  {
    && j <= |order|
    && forall k :: 0 <= k < j && order[k] in creditors && creditors[order[k]] > 0.0 && k !in pos ==>
         remaining == 0.0 && forall i :: 0 <= i < |pos| ==> pos[i] < k
  }

  /** Paying `creditor` the smaller of the rest of the debt and its credit
      keeps PayAmounts: either the whole credit is paid or the debt is
      cleared. */
  lemma PayStepAmounts(debtor: string, creditors: map<string, real>, creditor: string,
                       payments: seq<Transaction>, remaining: real)
    requires creditor in creditors && remaining > 0.0
    requires PayAmounts(creditors, payments, remaining)
    ensures var amount := Min(remaining, creditors[creditor]);
            PayAmounts(creditors, payments + [Transaction(debtor, creditor, amount)], remaining - amount)
  {
  }

  /** Paying `order[j]`, which happens only while some debt is left, keeps
      PayPassed: no creditor tried before was passed over. */
  lemma PayStepPassed(creditors: map<string, real>, order: seq<string>, j: int,
                      remaining: real, pos: seq<int>, remaining': real)
    requires j < |order| && remaining > 0.0
    requires PayPassed(creditors, order, j, remaining, pos)
    ensures PayPassed(creditors, order, j + 1, remaining', pos + [j])
  {
  }

  /** Skipping `order[j]` keeps PayPassed: it is passed over only when the
      debt is cleared, and every payment so far went to an earlier creditor. */
  lemma PaySkipPassed(creditors: map<string, real>, order: seq<string>, j: int,
                      remaining: real, pos: seq<int>)
    requires 0 <= j < |order| && remaining >= 0.0
    requires order[j] in creditors ==> remaining <= 0.0 || creditors[order[j]] <= 0.0
    requires forall i :: 0 <= i < |pos| ==> pos[i] < j
    requires PayPassed(creditors, order, j, remaining, pos)
    ensures PayPassed(creditors, order, j + 1, remaining, pos)
  {
  }

  /** At the end of PayDebtor's loop: a creditor with credit that received
      nothing was passed over because the debt was cleared, and everybody
      paid had at least as much credit. */
  lemma PayChoices(debtor: string, creditors: map<string, real>, order: seq<string>,
                   payments: seq<Transaction>, remaining: real, pos: seq<int>)
    requires Enumerates(order, creditors.Keys)
    requires forall k :: 0 <= k < |order| ==> order[k] in creditors
    requires forall i, j :: 0 <= i < j < |order| ==> creditors[order[i]] >= creditors[order[j]]
    requires PayMade(debtor, creditors, order, |order|, payments, pos)
    requires PayPassed(creditors, order, |order|, remaining, pos)
    ensures forall c :: c in creditors && creditors[c] > 0.0 && (forall t :: t in payments ==> t.to != c) ==>
              remaining == 0.0 && forall t :: t in payments ==> creditors[t.to] >= creditors[c]
  {
    forall c | c in creditors && creditors[c] > 0.0 && (forall t :: t in payments ==> t.to != c)
      ensures remaining == 0.0 && forall t :: t in payments ==> creditors[t.to] >= creditors[c]
    {
      var k :| 0 <= k < |order| && order[k] == c;
      assert k !in pos by {
        forall i | 0 <= i < |pos|
          ensures pos[i] != k
        {
          assert payments[i] in payments;
        }
      }
      forall t | t in payments
        ensures creditors[t.to] >= creditors[c]
      {
        var i :| 0 <= i < |payments| && payments[i] == t;
        assert pos[i] < k;
      }
    }
  }

  /** Paying `order[j]` keeps PayLeft. */
  lemma PayStepLeft(debt: real, creditors: map<string, real>, order: seq<string>,
                    j: int, after: map<string, real>, remaining: real)
    requires Distinct(order)
    requires PayLeft(debt, creditors, order, j, after, remaining)
    requires j < |order|
    requires remaining > 0.0 && creditors[order[j]] > 0.0
    ensures var amount := Min(remaining, creditors[order[j]]);
            PayLeft(debt, creditors, order, j + 1, after[order[j] := after[order[j]] - amount], remaining - amount)
  {
  }

  /** Paying `order[j]` keeps PayMade. */
  lemma PayStepMade(debtor: string, creditors: map<string, real>, order: seq<string>,
                    j: int, payments: seq<Transaction>, pos: seq<int>, amount: real)
    requires 0 <= j < |order| && order[j] in creditors
    requires PayMade(debtor, creditors, order, j, payments, pos)
    requires amount > 0.0 && creditors[order[j]] > 0.0
    ensures PayMade(debtor, creditors, order, j + 1, payments + [Transaction(debtor, order[j], amount)], pos + [j])
  {
  }

  /** Paying `order[j]` keeps PaySums. */
  lemma PayStepSums(debtor: string, debt: real, creditors: map<string, real>, creditor: string,
                    after: map<string, real>, payments: seq<Transaction>, remaining: real, amount: real)
    requires creditor in creditors && after.Keys == creditors.Keys
    requires PaySums(debtor, debt, creditors, after, payments, remaining)
    ensures PaySums(debtor, debt, creditors, after[creditor := after[creditor] - amount],
                    payments + [Transaction(debtor, creditor, amount)], remaining - amount)
  {
    var t := Transaction(debtor, creditor, amount);
    SumValuesUpdate(after, creditor, after[creditor] - amount);
    SumsAppend(payments, [t]);
    assert [t][..0] == [];
  }

  /** One turn of PayDebtor's loop keeps PayInv. */
  lemma PayStep(debtor: string, debt: real, creditors: map<string, real>, order: seq<string>,
                j: int, after: map<string, real>, payments: seq<Transaction>,
                remaining: real, pos: seq<int>)
    requires Distinct(order)
    requires PayInv(debtor, debt, creditors, order, j, after, payments, remaining, pos)
    requires j < |order|
    requires remaining > 0.0 && creditors[order[j]] > 0.0
    ensures var amount := Min(remaining, creditors[order[j]]);
            PayInv(debtor, debt, creditors, order, j + 1,
                   after[order[j] := after[order[j]] - amount],
                   payments + [Transaction(debtor, order[j], amount)],
                   remaining - amount, pos + [j])
  {
    var amount := Min(remaining, creditors[order[j]]);
    PayStepLeft(debt, creditors, order, j, after, remaining);
    PayStepMade(debtor, creditors, order, j, payments, pos, amount);
    PayStepSums(debtor, debt, creditors, order[j], after, payments, remaining, amount);
  }

  /** Skipping `order[j]`, when the debt is cleared or it has no credit,
      keeps PayInv. */
  lemma PaySkip(debtor: string, debt: real, creditors: map<string, real>, order: seq<string>,
                j: int, after: map<string, real>, payments: seq<Transaction>,
                remaining: real, pos: seq<int>)
    requires PayInv(debtor, debt, creditors, order, j, after, payments, remaining, pos)
    requires j < |order|
    requires remaining <= 0.0 || creditors[order[j]] <= 0.0
    ensures PayInv(debtor, debt, creditors, order, j + 1, after, payments, remaining, pos)
  {
    assert PayLeft(debt, creditors, order, j + 1, after, remaining);
  }

  /** One creditor's turn in PayDebtor: `order[j]` is paid `min(debt,
      credit)` unless the debt is already cleared or the creditor has nothing
      left to receive. */
  method PayTurn(debtor: string, ghost debt: real, creditors: map<string, real>, order: seq<string>, j: int,
                 after: map<string, real>, payments: seq<Transaction>, remaining: real, ghost pos: seq<int>)
    returns (after': map<string, real>, payments': seq<Transaction>, remaining': real, ghost pos': seq<int>)
    requires Distinct(order) && j < |order|
    requires PayInv(debtor, debt, creditors, order, j, after, payments, remaining, pos)
    requires PayAmounts(creditors, payments, remaining)
    requires PayPassed(creditors, order, j, remaining, pos)
    ensures PayInv(debtor, debt, creditors, order, j + 1, after', payments', remaining', pos')
    ensures PayAmounts(creditors, payments', remaining')
    ensures PayPassed(creditors, order, j + 1, remaining', pos')
  {
    var creditor := order[j];
    var credit := creditors[creditor];
    if remaining > 0.0 && credit > 0.0 {
      var amount := Min(remaining, credit);
      payments' := payments + [Transaction(debtor, creditor, amount)];
      pos' := pos + [j];
      remaining' := remaining - amount;
      after' := after[creditor := after[creditor] - amount];
      PayPaid(debtor, debt, creditors, order, j, after, payments, remaining, pos, after', payments', remaining', pos');
    } else {
      PaySkipped(debtor, debt, creditors, order, j, after, payments, remaining, pos);
      after', payments', remaining', pos' := after, payments, remaining, pos;
    }
  }

  /** PayTurn's paying branch keeps all three of its invariants. */
  lemma PayPaid(debtor: string, debt: real, creditors: map<string, real>, order: seq<string>, j: int,
                after: map<string, real>, payments: seq<Transaction>, remaining: real, pos: seq<int>,
                after': map<string, real>, payments': seq<Transaction>, remaining': real, pos': seq<int>)
    requires Distinct(order) && 0 <= j < |order|
    requires PayInv(debtor, debt, creditors, order, j, after, payments, remaining, pos)
    requires PayAmounts(creditors, payments, remaining)
    requires PayPassed(creditors, order, j, remaining, pos)
    requires remaining > 0.0 && order[j] in creditors && creditors[order[j]] > 0.0
    requires payments' == payments + [Transaction(debtor, order[j], Min(remaining, creditors[order[j]]))]
    requires remaining' == remaining - Min(remaining, creditors[order[j]])
    requires after' == after[order[j] := after[order[j]] - Min(remaining, creditors[order[j]])]
    requires pos' == pos + [j]
    ensures PayInv(debtor, debt, creditors, order, j + 1, after', payments', remaining', pos')
    ensures PayAmounts(creditors, payments', remaining')
    ensures PayPassed(creditors, order, j + 1, remaining', pos')
  {
    PayStep(debtor, debt, creditors, order, j, after, payments, remaining, pos);
    PayStepAmounts(debtor, creditors, order[j], payments, remaining);
    PayStepPassed(creditors, order, j, remaining, pos, remaining');
  }

  /** PayTurn's skipping branch keeps all three of its invariants. */
  lemma PaySkipped(debtor: string, debt: real, creditors: map<string, real>, order: seq<string>, j: int,
                   after: map<string, real>, payments: seq<Transaction>, remaining: real, pos: seq<int>)
    requires Distinct(order) && 0 <= j < |order|
    requires PayInv(debtor, debt, creditors, order, j, after, payments, remaining, pos)
    requires PayAmounts(creditors, payments, remaining)
    requires PayPassed(creditors, order, j, remaining, pos)
    requires order[j] in creditors ==> remaining <= 0.0 || creditors[order[j]] <= 0.0
    ensures PayInv(debtor, debt, creditors, order, j + 1, after, payments, remaining, pos)
    ensures PayAmounts(creditors, payments, remaining)
    ensures PayPassed(creditors, order, j + 1, remaining, pos)
  {
    PaySkip(debtor, debt, creditors, order, j, after, payments, remaining, pos);
    PaySkipPassed(creditors, order, j, remaining, pos);
  }

  /** What PayDebtor's loop leaves once every creditor has been tried. */
  lemma PayResult(debtor: string, debt: real, creditors: map<string, real>, order: seq<string>,
                  after: map<string, real>, payments: seq<Transaction>, remaining: real, pos: seq<int>)
    requires Enumerates(order, creditors.Keys)
    requires forall i, j :: 0 <= i < j < |order| ==> Before(creditors[order[i]], creditors[order[j]], true)
    requires PayInv(debtor, debt, creditors, order, |order|, after, payments, remaining, pos)
    requires PayAmounts(creditors, payments, remaining)
    requires PayPassed(creditors, order, |order|, remaining, pos)
    ensures after.Keys == creditors.Keys
    ensures forall c :: c in after ==> 0.0 <= after[c] <= creditors[c]
    ensures 0.0 <= remaining <= debt
    ensures remaining == 0.0 || forall c :: c in after ==> after[c] == 0.0
    ensures forall t :: t in payments ==>
              t.from == debtor && t.to in creditors && creditors[t.to] > 0.0 && t.amount > 0.0
    ensures forall i, j :: 0 <= i < j < |payments| ==>
              payments[i].to != payments[j].to && creditors[payments[i].to] >= creditors[payments[j].to]
    ensures forall i :: 0 <= i < |payments| ==>
              payments[i].amount <= creditors[payments[i].to]
              && (payments[i].amount == creditors[payments[i].to] || (i == |payments| - 1 && remaining == 0.0))
    ensures forall c :: c in creditors && creditors[c] > 0.0 && (forall t :: t in payments ==> t.to != c) ==>
              remaining == 0.0 && forall t :: t in payments ==> creditors[t.to] >= creditors[c]
    ensures Total(payments) == debt - remaining
    ensures PaidBy(payments, debtor) == debt - remaining
    ensures forall p :: p != debtor ==> PaidBy(payments, p) == 0.0
    ensures forall c :: c in creditors ==> ReceivedBy(payments, c) == creditors[c] - after[c]
    ensures SumValues(after) == SumValues(creditors) - (debt - remaining)
  {
    if remaining != 0.0 {
      forall c | c in after
        ensures after[c] == 0.0
      {
        var k :| 0 <= k < |order| && order[k] == c;
      }
    }
    PayChoices(debtor, creditors, order, payments, remaining, pos);
  }

  /** The inner loop of the planner: `debtor` owes `debt` and pays the
      creditors, tried from the largest credit (as it stood when this debtor's
      turn began) down, `min(debt, credit)` each, skipping creditors already
      paid off and every creditor once the debt is cleared (main.py:246-260). */
  method PayDebtor(debtor: string, debt: real, creditors: map<string, real>)
    returns (after: map<string, real>, payments: seq<Transaction>, remaining: real)
    requires debt >= 0.0
    requires forall c :: c in creditors ==> creditors[c] >= 0.0
    ensures after.Keys == creditors.Keys
    ensures forall c :: c in after ==> 0.0 <= after[c] <= creditors[c]
    ensures 0.0 <= remaining <= debt
    ensures remaining == 0.0 || forall c :: c in after ==> after[c] == 0.0
    ensures forall t :: t in payments ==>
              t.from == debtor && t.to in creditors && creditors[t.to] > 0.0 && t.amount > 0.0
    ensures forall i, j :: 0 <= i < j < |payments| ==>
              payments[i].to != payments[j].to && creditors[payments[i].to] >= creditors[payments[j].to]
    ensures forall i :: 0 <= i < |payments| ==>
              payments[i].amount <= creditors[payments[i].to]
              && (payments[i].amount == creditors[payments[i].to] || (i == |payments| - 1 && remaining == 0.0))
    ensures forall c :: c in creditors && creditors[c] > 0.0 && (forall t :: t in payments ==> t.to != c) ==>
              remaining == 0.0 && forall t :: t in payments ==> creditors[t.to] >= creditors[c]
    ensures Total(payments) == debt - remaining
    ensures PaidBy(payments, debtor) == debt - remaining
    ensures forall p :: p != debtor ==> PaidBy(payments, p) == 0.0
    ensures forall c :: c in creditors ==> ReceivedBy(payments, c) == creditors[c] - after[c]
    ensures SumValues(after) == SumValues(creditors) - (debt - remaining)
  {
    var order := SortByValue(creditors, true);
    ghost var pos;
    after, payments, remaining, pos := PayInOrder(debtor, debt, creditors, order);
    PayResult(debtor, debt, creditors, order, after, payments, remaining, pos);
  }

  /** Payments of non-negative amounts: a prefix moves no more than the
      whole list. */
  lemma {:induction false} TotalPrefix(ts: seq<Transaction>, i: nat)
    requires i <= |ts|
    requires forall k :: 0 <= k < |ts| ==> ts[k].amount >= 0.0
    ensures Total(ts[..i]) <= Total(ts)
    decreases |ts| - i
  {
    if i < |ts| {
      assert ts[..i + 1][..i] == ts[..i];
      TotalPrefix(ts, i + 1);
    } else {
      assert ts[..i] == ts;
    }
  }

  /** One payment of PayDebtor is the smaller of the debt left after the
      earlier payments and the creditor's credit. */
  lemma PayMinAt(credit: real, debt: real, payments: seq<Transaction>, remaining: real, i: nat)
    requires i < |payments|
    requires remaining >= 0.0 && Total(payments) == debt - remaining
    requires forall k :: 0 <= k < |payments| ==> payments[k].amount > 0.0
    requires payments[i].amount <= credit
    requires payments[i].amount == credit || (i == |payments| - 1 && remaining == 0.0)
    ensures payments[i].amount == Min(debt - Total(payments[..i]), credit)
  {
    assert payments[..i + 1][..i] == payments[..i];
    TotalPrefix(payments, i + 1);
    if i == |payments| - 1 {
      assert payments[..i + 1] == payments;
    }
  }

  /** The amounts PayDebtor states are the greedy choice of get_transactions:
      each payment is the smaller of the debt left after the earlier payments
      and the creditor's credit. */
  lemma PayMin(creditors: map<string, real>, debt: real, payments: seq<Transaction>, remaining: real)
    requires remaining >= 0.0 && Total(payments) == debt - remaining
    requires forall i :: 0 <= i < |payments| ==>
               payments[i].to in creditors && 0.0 < payments[i].amount <= creditors[payments[i].to]
               && (payments[i].amount == creditors[payments[i].to] || (i == |payments| - 1 && remaining == 0.0))
    ensures forall i :: 0 <= i < |payments| ==>
              payments[i].amount == Min(debt - Total(payments[..i]), creditors[payments[i].to])
  {
    forall i | 0 <= i < |payments|
      ensures payments[i].amount == Min(debt - Total(payments[..i]), creditors[payments[i].to])
    {
      PayMinAt(creditors[payments[i].to], debt, payments, remaining, i);
    }
  }

  method PayInOrder(debtor: string, debt: real, creditors: map<string, real>, order: seq<string>)
    returns (after: map<string, real>, payments: seq<Transaction>, remaining: real, ghost pos: seq<int>)
    requires debt >= 0.0
    requires forall c :: c in creditors ==> creditors[c] >= 0.0
    requires Enumerates(order, creditors.Keys)
    ensures PayInv(debtor, debt, creditors, order, |order|, after, payments, remaining, pos)
    ensures PayAmounts(creditors, payments, remaining)
    ensures PayPassed(creditors, order, |order|, remaining, pos)
  {
    after, payments, remaining := creditors, [], debt;
    pos := [];
    var j := 0;
    while j < |order|
      invariant PayInv(debtor, debt, creditors, order, j, after, payments, remaining, pos)
      invariant PayAmounts(creditors, payments, remaining)
      invariant PayPassed(creditors, order, j, remaining, pos)
    {
      after, payments, remaining, pos := PayTurn(debtor, debt, creditors, order, j, after, payments, remaining, pos);
      j := j + 1;
    }
  }

  /* The state of Settle's loop after the debtors `order[..i]` have had their
     turn, in four parts: CreditsInv, PaidInv, DoneInv and PosInv. */

  /** What is left of each credit (`creditors`) and what each creditor has
      received in `ts`. */
  ghost predicate CreditsInv(credits: map<string, real>, creditors: map<string, real>, ts: seq<Transaction>)
  {
    && creditors.Keys == credits.Keys
    && (forall c :: c in creditors ==> 0.0 <= creditors[c] <= credits[c])
    && (forall c :: c in credits ==> ReceivedBy(ts, c) == credits[c] - creditors[c])
    && SumValues(creditors) == SumValues(credits) - Total(ts)
  }

  /** What each debtor has paid in `ts` (`paid`); debtors yet to have their
      turn have paid nothing. */
  ghost predicate PaidInv(debts: map<string, real>, order: seq<string>, i: int,
                          ts: seq<Transaction>, paid: map<string, real>)
  {
    PaidSoFar(debts, order, i, paid) && PaidSums(debts, ts, paid)
  }

  /** No debtor has paid more than it owes, and debtors from `order[i]` on
      have paid nothing. */
  ghost predicate PaidSoFar(debts: map<string, real>, order: seq<string>, i: int, paid: map<string, real>)
  {
    && 0 <= i <= |order|
    && (forall k :: 0 <= k < |order| ==> order[k] in debts)
    && paid.Keys == debts.Keys
    && (forall d :: d in debts ==> 0.0 <= paid[d] <= debts[d])
    && (forall k :: i <= k < |order| ==> paid[order[k]] == 0.0)
  }

  /** `paid` records what each debtor pays in `ts`. */
  ghost predicate PaidSums(debts: map<string, real>, ts: seq<Transaction>, paid: map<string, real>)
  {
    && paid.Keys == debts.Keys
    && (forall d :: d in debts ==> PaidBy(ts, d) == paid[d])
    && Total(ts) == SumValues(paid)
  }

  /** Either every creditor is paid off or every debtor so far has paid in
      full. */
  ghost predicate DoneInv(debts: map<string, real>, order: seq<string>, i: int,
                          creditors: map<string, real>, paid: map<string, real>)
  {
    (forall c :: c in creditors ==> creditors[c] == 0.0) ||
    (forall k :: 0 <= k < i && k < |order| ==> order[k] in debts && order[k] in paid && paid[order[k]] == debts[order[k]])
  }

  /** Every payment goes from a debtor to a creditor, `pos[n]` is the position
      in `order` of the debtor of payment `n`, and positions never go down. */
  ghost predicate PosInv(debts: map<string, real>, credits: map<string, real>, order: seq<string>, i: int,
                         ts: seq<Transaction>, pos: seq<int>)
  {
    && (forall t :: t in ts ==> t.amount > 0.0 && t.from in debts && t.to in credits)
    && |pos| == |ts|
    && (forall n :: 0 <= n < |ts| ==> 0 <= pos[n] < i <= |order| && ts[n].from == order[pos[n]])
    && (forall n, n' :: 0 <= n < n' < |ts| ==> pos[n] <= pos[n'])
  }

  /** `n` copies of `x`. */
  ghost function Repeat(x: int, n: nat): (r: seq<int>)
    ensures |r| == n && forall k :: 0 <= k < n ==> r[k] == x
  {
    seq(n, _ => x)
  }

  /** One debtor's turn keeps CreditsInv. */
  lemma StepCredits(credits: map<string, real>, creditors: map<string, real>, ts: seq<Transaction>,
                    after: map<string, real>, payments: seq<Transaction>)
    requires CreditsInv(credits, creditors, ts)
    requires after.Keys == creditors.Keys
    requires forall c :: c in after ==> 0.0 <= after[c] <= creditors[c]
    requires forall c :: c in creditors ==> ReceivedBy(payments, c) == creditors[c] - after[c]
    requires SumValues(after) == SumValues(creditors) - Total(payments)
    ensures CreditsInv(credits, after, ts + payments)
  {
    SumsAppend(ts, payments);
  }

  /** One debtor's turn keeps PaidSums. */
  lemma StepPaidSums(debts: map<string, real>, ts: seq<Transaction>, paid: map<string, real>,
                     debtor: string, payments: seq<Transaction>, v: real)
    requires debtor in debts && PaidSums(debts, ts, paid) && paid[debtor] == 0.0
    requires Total(payments) == v && PaidBy(payments, debtor) == v
    requires forall p :: p != debtor ==> PaidBy(payments, p) == 0.0
    ensures PaidSums(debts, ts + payments, paid[debtor := v])
  {
    SumsAppend(ts, payments);
    SumValuesUpdate(paid, debtor, v);
  }

  /** One debtor's turn keeps PaidSoFar. */
  lemma StepPaidSoFar(debts: map<string, real>, order: seq<string>, i: int, paid: map<string, real>, v: real)
    requires Distinct(order) && i < |order|
    requires PaidSoFar(debts, order, i, paid)
    requires 0.0 <= v <= debts[order[i]]
    ensures PaidSoFar(debts, order, i + 1, paid[order[i] := v])
  {
    forall k | i + 1 <= k < |order|
      ensures paid[order[i] := v][order[k]] == 0.0
    {
      assert order[k] != order[i];
    }
  }

  /** One debtor's turn keeps PaidInv. */
  lemma StepPaid(debts: map<string, real>, order: seq<string>, i: int, ts: seq<Transaction>,
                 paid: map<string, real>, payments: seq<Transaction>, remaining: real)
    requires Distinct(order) && i < |order|
    requires PaidInv(debts, order, i, ts, paid)
    requires 0.0 <= remaining <= debts[order[i]]
    requires Total(payments) == debts[order[i]] - remaining
    requires PaidBy(payments, order[i]) == debts[order[i]] - remaining
    requires forall p :: p != order[i] ==> PaidBy(payments, p) == 0.0
    ensures PaidInv(debts, order, i + 1, ts + payments, paid[order[i] := debts[order[i]] - remaining])
  {
    StepPaidSums(debts, ts, paid, order[i], payments, debts[order[i]] - remaining);
    StepPaidSoFar(debts, order, i, paid, debts[order[i]] - remaining);
  }

  /** One debtor's turn keeps DoneInv: if some credit is left afterwards, this
      debtor's debt was cleared. */
  lemma StepDone(debts: map<string, real>, order: seq<string>, i: int, ts: seq<Transaction>,
                 creditors: map<string, real>, paid: map<string, real>,
                 after: map<string, real>, remaining: real)
    requires Distinct(order) && i < |order|
    requires PaidInv(debts, order, i, ts, paid)
    requires DoneInv(debts, order, i, creditors, paid)
    requires after.Keys == creditors.Keys
    requires forall c :: c in after ==> 0.0 <= after[c] <= creditors[c]
    requires remaining == 0.0 || forall c :: c in after ==> after[c] == 0.0
    ensures DoneInv(debts, order, i + 1, after, paid[order[i] := debts[order[i]] - remaining])
  {
    var paid' := paid[order[i] := debts[order[i]] - remaining];
    if !(forall c :: c in after ==> after[c] == 0.0) {
      assert remaining == 0.0;
      assert !(forall c :: c in creditors ==> creditors[c] == 0.0);
      forall k | 0 <= k < i + 1 && k < |order|
        ensures order[k] in debts && order[k] in paid' && paid'[order[k]] == debts[order[k]]
      {
        if k < i {
          assert order[k] != order[i];
        }
      }
    }
  }

  /** One debtor's turn keeps PosInv. */
  lemma StepPositions(debts: map<string, real>, credits: map<string, real>, order: seq<string>, i: int,
                      ts: seq<Transaction>, pos: seq<int>, payments: seq<Transaction>)
    requires 0 <= i < |order| && order[i] in debts
    requires PosInv(debts, credits, order, i, ts, pos)
    requires forall t :: t in payments ==> t.from == order[i] && t.to in credits && t.amount > 0.0
    ensures PosInv(debts, credits, order, i + 1, ts + payments, pos + Repeat(i, |payments|))
  {
    var ts', pos' := ts + payments, pos + Repeat(i, |payments|);
    forall t | t in ts'
      ensures t.amount > 0.0 && t.from in debts && t.to in credits
    {
      if t !in ts {
        assert t in payments;
      }
    }
    forall n | 0 <= n < |ts'|
      ensures 0 <= pos'[n] < i + 1 <= |order| && ts'[n].from == order[pos'[n]]
    {
      if n >= |ts| {
        assert ts'[n] == payments[n - |ts|];
        assert ts'[n] in payments;
      }
    }
  }

  /** The order in which Settle emits payments: by debtor, the debtors in
      ascending order of balance, each debtor's payments together. */
  lemma SettleOrder(balances: map<string, real>, debtors: map<string, real>, debts: map<string, real>,
                    credits: map<string, real>, order: seq<string>, ts: seq<Transaction>, pos: seq<int>)
    requires forall x :: x in debtors ==> x in balances && debtors[x] == balances[x]
    requires Distinct(order)
    requires forall k :: 0 <= k < |order| ==> order[k] in debtors
    requires forall k, k' :: 0 <= k < k' < |order| ==> debtors[order[k]] <= debtors[order[k']]
    requires PosInv(debts, credits, order, |order|, ts, pos)
    ensures forall i :: 0 <= i < |ts| ==> ts[i].from in balances
    ensures forall i, j :: 0 <= i < j < |ts| ==> balances[ts[i].from] <= balances[ts[j].from]
    ensures forall i, j, k :: 0 <= i < j < k < |ts| && ts[i].from == ts[k].from ==> ts[j].from == ts[i].from
  {
    forall i, j | 0 <= i < j < |ts|
      ensures balances[ts[i].from] <= balances[ts[j].from]
    {
      if pos[i] < pos[j] {
        assert debtors[order[pos[i]]] <= debtors[order[pos[j]]];
      }
    }
    forall i, j, k | 0 <= i < j < k < |ts| && ts[i].from == ts[k].from
      ensures ts[j].from == ts[i].from
    {
      assert pos[i] == pos[k];
    }
  }

  /** One debtor's turn in Settle: `order[i]` pays what it owes, as far as
      the remaining credit goes, and the loop's state moves on. */
  method SettleTurn(ghost debts: map<string, real>, ghost credits: map<string, real>, order: seq<string>, i: int,
                    debt: real, creditors: map<string, real>, ts: seq<Transaction>,
                    ghost paid: map<string, real>, ghost pos: seq<int>)
    returns (creditors': map<string, real>, ts': seq<Transaction>,
             ghost paid': map<string, real>, ghost pos': seq<int>)
    requires Distinct(order) && 0 <= i < |order|
    requires CreditsInv(credits, creditors, ts)
    requires PaidInv(debts, order, i, ts, paid)
    requires DoneInv(debts, order, i, creditors, paid)
    requires PosInv(debts, credits, order, i, ts, pos)
    requires debt == debts[order[i]]
    ensures CreditsInv(credits, creditors', ts')
    ensures PaidInv(debts, order, i + 1, ts', paid')
    ensures DoneInv(debts, order, i + 1, creditors', paid')
    ensures PosInv(debts, credits, order, i + 1, ts', pos')
  {
    var debtor := order[i];
    var after, payments, remaining := PayDebtor(debtor, debt, creditors);
    StepCredits(credits, creditors, ts, after, payments);
    StepPaid(debts, order, i, ts, paid, payments, remaining);
    StepDone(debts, order, i, ts, creditors, paid, after, remaining);
    StepPositions(debts, credits, order, i, ts, pos, payments);
    ts' := ts + payments;
    pos' := pos + Repeat(i, |payments|);
    paid' := paid[debtor := debts[debtor] - remaining];
    creditors' := after;
  }

  /** Once every debtor has had its turn, either all creditors are paid off
      or every debtor has paid in full. */
  lemma SettleCleared(debts: map<string, real>, order: seq<string>,
                      creditors: map<string, real>, ts: seq<Transaction>, paid: map<string, real>)
    requires Enumerates(order, debts.Keys)
    requires PaidInv(debts, order, |order|, ts, paid)
    requires DoneInv(debts, order, |order|, creditors, paid)
    ensures (forall c :: c in creditors ==> creditors[c] == 0.0) || paid == debts
  {
    if !(forall c :: c in creditors ==> creditors[c] == 0.0) {
      forall d | d in debts
        ensures paid[d] == debts[d]
      {
        var k :| 0 <= k < |order| && order[k] == d;
      }
    }
  }

  /** The closing argument of Settle: once every debtor has had its turn,
      either all creditors are paid off or all debtors have paid in full, so
      the total is the smaller of the two sides and that side is settled. */
  lemma SettleTotals(debts: map<string, real>, credits: map<string, real>, order: seq<string>,
                     creditors: map<string, real>, ts: seq<Transaction>, paid: map<string, real>)
    requires Enumerates(order, debts.Keys)
    requires CreditsInv(credits, creditors, ts)
    requires PaidInv(debts, order, |order|, ts, paid)
    requires DoneInv(debts, order, |order|, creditors, paid)
    ensures forall p :: p in debts ==> PaidBy(ts, p) <= debts[p]
    ensures forall p :: p in credits ==> ReceivedBy(ts, p) <= credits[p]
    ensures Total(ts) == Min(SumValues(debts), SumValues(credits))
    ensures SumValues(debts) <= SumValues(credits) ==> forall p :: p in debts ==> PaidBy(ts, p) == debts[p]
    ensures SumValues(credits) <= SumValues(debts) ==> forall p :: p in credits ==> ReceivedBy(ts, p) == credits[p]
  {
    SumValuesMono(paid, debts);
    SumValuesNonNegative(creditors);
    SettleCleared(debts, order, creditors, ts, paid);
    if forall c :: c in creditors ==> creditors[c] == 0.0 {
      SumValuesZero(creditors);
    }
    if SumValues(debts) <= SumValues(credits) {
      SumValuesTight(paid, debts);
    }
  }

  /** The planner (main.py:239-262): the debtors in ascending order of balance
      (largest debt first), each paying creditors through PayDebtor, with the
      creditors' remaining credit carried from one debtor to the next.
      Every payment is positive and goes from a debtor to a creditor; payments
      come grouped by debtor in the order of the debtors' balances; nobody
      pays more than it owes or receives more than it is owed; and whichever
      side is smaller in total is settled in full (both, when the balances sum
      to zero: see SettleBalanced). */
  method Settle(balances: map<string, real>) returns (ts: seq<Transaction>)
    ensures forall t :: t in ts ==>
              t.amount > 0.0 && t.from in Debts(balances) && t.to in Credits(balances)
    ensures forall i :: 0 <= i < |ts| ==> ts[i].from in balances
    ensures forall i, j :: 0 <= i < j < |ts| ==> balances[ts[i].from] <= balances[ts[j].from]
    ensures forall i, j, k :: 0 <= i < j < k < |ts| && ts[i].from == ts[k].from ==> ts[j].from == ts[i].from
    ensures forall p :: p in Debts(balances) ==> PaidBy(ts, p) <= Debts(balances)[p]
    ensures forall p :: p in Credits(balances) ==> ReceivedBy(ts, p) <= Credits(balances)[p]
    ensures Total(ts) == Min(SumValues(Debts(balances)), SumValues(Credits(balances)))
    ensures SumValues(Debts(balances)) <= SumValues(Credits(balances)) ==>
              forall p :: p in Debts(balances) ==> PaidBy(ts, p) == Debts(balances)[p]
    ensures SumValues(Credits(balances)) <= SumValues(Debts(balances)) ==>
              forall p :: p in Credits(balances) ==> ReceivedBy(ts, p) == Credits(balances)[p]
  {
    var debtors := map p | p in balances && balances[p] < 0.0 :: balances[p];
    var credits := Credits(balances);
    ghost var debts := Debts(balances);
    var order := SortByValue(debtors, false);
    var creditors;
    ghost var paid, pos;
    creditors, ts, paid, pos := SettleDebtors(debtors, debts, credits, order);
    SettleOrder(balances, debtors, debts, credits, order, ts, pos);
    SettleTotals(debts, credits, order, creditors, ts, paid);
  }

  /** Settle's loop: each debtor of `order` in turn has its turn, starting
      from the full credits and no payments. */
  method SettleDebtors(debtors: map<string, real>, ghost debts: map<string, real>,
                       credits: map<string, real>, order: seq<string>)
    returns (creditors: map<string, real>, ts: seq<Transaction>,
             ghost paid: map<string, real>, ghost pos: seq<int>)
    requires debts.Keys == debtors.Keys && forall p :: p in debtors ==> debts[p] == -debtors[p]
    requires forall p :: p in debts ==> debts[p] >= 0.0
    requires forall c :: c in credits ==> credits[c] >= 0.0
    requires Enumerates(order, debtors.Keys)
    ensures CreditsInv(credits, creditors, ts)
    ensures PaidInv(debts, order, |order|, ts, paid)
    ensures DoneInv(debts, order, |order|, creditors, paid)
    ensures PosInv(debts, credits, order, |order|, ts, pos)
  {
    creditors := credits;
    ts := [];
    paid := map p | p in debts :: 0.0;
    pos := [];
    SumValuesZero(paid);
    var i := 0;
    while i < |order|
      invariant CreditsInv(credits, creditors, ts)
      invariant PaidInv(debts, order, i, ts, paid)
      invariant DoneInv(debts, order, i, creditors, paid)
      invariant PosInv(debts, credits, order, i, ts, pos)
    {
      var debt := -debtors[order[i]];
      creditors, ts, paid, pos := SettleTurn(debts, credits, order, i, debt, creditors, ts, paid, pos);
      i := i + 1;
    }
  }

  /** When the balances sum to zero (as the ledger's always do), debts and
      credits are equal in total, so every debtor pays exactly what it owes,
      every creditor receives exactly what it is owed, and the payments add up
      to the total credit. */
  lemma SettleBalanced(balances: map<string, real>, ts: seq<Transaction>)
    requires SumValues(balances) == 0.0
    requires Total(ts) == Min(SumValues(Debts(balances)), SumValues(Credits(balances)))
    requires SumValues(Debts(balances)) <= SumValues(Credits(balances)) ==>
               forall p :: p in Debts(balances) ==> PaidBy(ts, p) == Debts(balances)[p]
    requires SumValues(Credits(balances)) <= SumValues(Debts(balances)) ==>
               forall p :: p in Credits(balances) ==> ReceivedBy(ts, p) == Credits(balances)[p]
    ensures SumValues(Debts(balances)) == SumValues(Credits(balances))
    ensures Total(ts) == SumValues(Credits(balances))
    ensures forall p :: p in Debts(balances) ==> PaidBy(ts, p) == Debts(balances)[p]
    ensures forall p :: p in Credits(balances) ==> ReceivedBy(ts, p) == Credits(balances)[p]
  {
    SumValuesPartition(balances);
  }
}
