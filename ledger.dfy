/** The expense ledger of the splitter: the recorded expenses, the set of
    people met so far, the net balance of every person and the settlement
    plan derived from those balances (main.py, class ExpenseSplitter). */
module Ledger {
  import opened Common
  import opened Settlement

  /** One recorded expense. `amountPerPerson` is the share of each entry of
      `splitAmong`; a name listed twice pays two shares. The display colour
      the source attaches to each expense is not modelled. */
  datatype Expense = Expense(date: string, paidBy: string, amount: real, description: string,
                             splitAmong: seq<string>, amountPerPerson: real)

  /** The payer and everyone sharing `e` are among `people`. */
  predicate Known(e: Expense, people: set<string>)
  {
    e.paidBy in people && forall p :: p in e.splitAmong ==> p in people
  }

  /** `e` is shared by somebody, in equal parts. */
  predicate WellSplit(e: Expense)
  {
    |e.splitAmong| > 0 && e.amountPerPerson == e.amount / (|e.splitAmong| as real)
  }

  /** One `share` for every occurrence of `p` in `names`. */
  function SharesOf(names: seq<string>, p: string, share: real): real
  {
    if names == [] then 0.0
    else SharesOf(names[..|names| - 1], p, share) + (if names[|names| - 1] == p then share else 0.0)
  }

  /** One `share` for every entry of `names`. */
  function AllShares(names: seq<string>, share: real): real
  {
    if names == [] then 0.0 else AllShares(names[..|names| - 1], share) + share
  }

  /** `n` equal shares of `amount` make up `amount`. */
  lemma {:induction false} AllSharesWhole(names: seq<string>, amount: real)
    requires |names| > 0
    ensures AllShares(names, amount / (|names| as real)) == amount
  {
    var share := amount / (|names| as real);
    AllSharesCount(names, share);
    assert (|names| as real) * share == amount;
  }

  /** The shares of `names` are `|names|` times the share. */
  lemma {:induction false} AllSharesCount(names: seq<string>, share: real)
    ensures AllShares(names, share) == (|names| as real) * share
  {
    if names != [] {
      AllSharesCount(names[..|names| - 1], share);
    }
  }

  /** Subtract `share` from the balance of every entry of `names`, in order. */
  function Debit(b: map<string, real>, names: seq<string>, share: real): (r: map<string, real>)
    requires forall p :: p in names ==> p in b
    ensures r.Keys == b.Keys
  {
    if names == [] then b
    else
      var r0 := Debit(b, names[..|names| - 1], share);
      var last := names[|names| - 1];
      r0[last := r0[last] - share]
  }

  /** The effect of one expense on the balances: the payer is credited the
      whole amount, then every entry of the split is debited one share. */
  function Apply(b: map<string, real>, e: Expense): (r: map<string, real>)
    requires Known(e, b.Keys)
    ensures r.Keys == b.Keys
  {
    Debit(b[e.paidBy := b[e.paidBy] + e.amount], e.splitAmong, e.amountPerPerson)
  }

  /** The balances after the expenses `es`, everyone in `people` starting at
      zero: what calculate_balances computes. */
  function Balances(people: set<string>, es: seq<Expense>): (r: map<string, real>)
    requires forall e :: e in es ==> Known(e, people)
    ensures r.Keys == people
  {
    if es == [] then map p | p in people :: 0.0
    else Apply(Balances(people, es[..|es| - 1]), es[|es| - 1])
  }

  /** The net balance of `p` in closed form: what `p` paid minus the shares
      charged to `p`, over all expenses. */
  function NetBalance(es: seq<Expense>, p: string): real
  {
    if es == [] then 0.0
    else
      var e := es[|es| - 1];
      NetBalance(es[..|es| - 1], p)
        + (if e.paidBy == p then e.amount else 0.0)
        - SharesOf(e.splitAmong, p, e.amountPerPerson)
  }

  /** Debiting `names` takes one share from `p` per occurrence of `p`. */
  lemma {:induction false} DebitAt(b: map<string, real>, names: seq<string>, share: real, p: string)
    requires forall q :: q in names ==> q in b
    requires p in b
    ensures Debit(b, names, share)[p] == b[p] - SharesOf(names, p, share)
  {
    if names != [] {
      DebitAt(b, names[..|names| - 1], share, p);
    }
  }

  /** Debiting `names` lowers the total by one share per entry. */
  lemma {:induction false} DebitSum(b: map<string, real>, names: seq<string>, share: real)
    requires forall q :: q in names ==> q in b
    ensures SumValues(Debit(b, names, share)) == SumValues(b) - AllShares(names, share)
  {
    if names != [] {
      var init := names[..|names| - 1];
      var last := names[|names| - 1];
      assert forall q :: q in init ==> q in names;
      DebitSum(b, init, share);
      var r0 := Debit(b, init, share);
      assert last in names;
      SumValuesUpdate(r0, last, r0[last] - share);
      assert Debit(b, names, share) == r0[last := r0[last] - share];
    }
  }

  lemma ApplyUnfold(b: map<string, real>, e: Expense)
    requires Known(e, b.Keys)
    ensures Apply(b, e) == Debit(b[e.paidBy := b[e.paidBy] + e.amount], e.splitAmong, e.amountPerPerson)
  {
  }

  /** Before any expense, everyone's balance is zero. */
  lemma BalancesStart(people: set<string>, es: seq<Expense>)
    ensures Balances(people, es[..0]) == map p | p in people :: 0.0
  {
    assert es[..0] == [];
  }

  /** The fold over one more expense applies that expense. */
  lemma BalancesNext(people: set<string>, es: seq<Expense>, i: nat)
    requires i < |es|
    requires forall e :: e in es ==> Known(e, people)
    ensures forall e :: e in es[..i + 1] ==> Known(e, people)
    ensures Balances(people, es[..i + 1]) == Apply(Balances(people, es[..i]), es[i])
  {
    assert es[..i + 1][..i] == es[..i];
    assert forall x :: x in es[..i + 1] ==> x in es;
  }

  /** The balance a person gets from the fold is the closed-form net balance. */
  lemma {:induction false} BalancesAt(people: set<string>, es: seq<Expense>, p: string)
    requires forall e :: e in es ==> Known(e, people)
    requires p in people
    ensures Balances(people, es)[p] == NetBalance(es, p)
  {
    if es != [] {
      var init := es[..|es| - 1];
      var e := es[|es| - 1];
      assert e in es;
      assert forall x :: x in init ==> x in es;
      BalancesAt(people, init, p);
      var b := Balances(people, init);
      var credited := b[e.paidBy := b[e.paidBy] + e.amount];
      assert Balances(people, es) == Debit(credited, e.splitAmong, e.amountPerPerson);
      DebitAt(credited, e.splitAmong, e.amountPerPerson, p);
      var charged := SharesOf(e.splitAmong, p, e.amountPerPerson);
      var gained := if e.paidBy == p then e.amount else 0.0;
      assert credited[p] == b[p] + gained;
      assert NetBalance(es, p) == NetBalance(init, p) + gained - charged;
    }
  }

  /** Money is only moved around: when every expense is shared by somebody in
      equal parts, the balances add up to zero. */
  lemma {:induction false} BalancesConserved(people: set<string>, es: seq<Expense>)
    requires forall e :: e in es ==> Known(e, people) && WellSplit(e)
    ensures SumValues(Balances(people, es)) == 0.0
  {
    if es == [] {
      SumValuesZero(Balances(people, es));
    } else {
      var init := es[..|es| - 1];
      var e := es[|es| - 1];
      assert e in es;
      assert forall x :: x in init ==> x in es;
      BalancesConserved(people, init);
      ApplyConserves(Balances(people, init), e);
    }
  }

  /** One expense shared in equal parts leaves the total of the balances as
      it was. */
  lemma ApplyConserves(b: map<string, real>, e: Expense)
    requires Known(e, b.Keys) && WellSplit(e)
    ensures SumValues(Apply(b, e)) == SumValues(b)
  {
    var credited := b[e.paidBy := b[e.paidBy] + e.amount];
    SumValuesUpdate(b, e.paidBy, b[e.paidBy] + e.amount);
    DebitSum(credited, e.splitAmong, e.amountPerPerson);
    AllSharesWhole(e.splitAmong, e.amount);
  }

  /** Nobody who is not the payer of any transaction pays anything. */
  lemma {:induction false} NotPayer(ts: seq<Transaction>, p: string)
    requires forall t :: t in ts ==> t.from != p
    ensures PaidBy(ts, p) == 0.0
  {
    if ts != [] {
      assert forall t :: t in ts[..|ts| - 1] ==> t in ts;
      NotPayer(ts[..|ts| - 1], p);
    }
  }

  /** Nobody who is not the payee of any transaction receives anything. */
  lemma {:induction false} NotPayee(ts: seq<Transaction>, p: string)
    requires forall t :: t in ts ==> t.to != p
    ensures ReceivedBy(ts, p) == 0.0
  {
    if ts != [] {
      assert forall t :: t in ts[..|ts| - 1] ==> t in ts;
      NotPayee(ts[..|ts| - 1], p);
    }
  }

  /** The inner loop of calculate_balances: subtract `share` from the balance
      of every entry of `names`, one entry at a time. */
  method DebitShares(b: map<string, real>, names: seq<string>, share: real) returns (r: map<string, real>)
    requires forall p :: p in names ==> p in b
    ensures r == Debit(b, names, share)
    ensures forall p :: p in b ==> r[p] == b[p] - SharesOf(names, p, share)
  {
    r := b;
    var j := 0;
    while j < |names|
      invariant 0 <= j <= |names|
      invariant forall q :: q in names[..j] ==> q in names
      invariant r == Debit(b, names[..j], share)
    {
      assert names[..j + 1][..j] == names[..j];
      r := r[names[j] := r[names[j]] - share];
      j := j + 1;
    }
    assert names[..|names|] == names;
    forall p | p in b
      ensures r[p] == b[p] - SharesOf(names, p, share)
    {
      DebitAt(b, names, share, p);
    }
  }

  /** The elements of `s`, each once, in an order the model leaves open
      (Python's `list` of a set follows the set's iteration order). */
  method Enumerate(s: set<string>) returns (xs: seq<string>)
    ensures Enumerates(xs, s)
  {
    xs := [];
    var rest := s;
    while rest != {}
      invariant rest <= s
      invariant forall x :: x in s ==> (x in xs <==> x !in rest)
      invariant forall x :: x in xs ==> x in s
      invariant Distinct(xs)
      decreases rest
    {
      var x :| x in rest;
      xs := xs + [x];
      rest := rest - {x};
    }
  }

  /** The splitter's state: the recorded expenses in order and everybody who
      has paid or shared an expense (or was named in a split). */
  class ExpenseSplitter {
    var expenses: seq<Expense>
    var people: set<string>

    /** Every expense names only known people and is split in equal shares
        among at least one entry. */
    ghost predicate Valid()
      reads this
    {
      forall e :: e in expenses ==> Known(e, people) && WellSplit(e)
    }

    /** A fresh session: no expenses and nobody known. */
    constructor ()
      ensures expenses == [] && people == {}
      ensures Valid()
    {
      expenses := [];
      people := {};
    }

    /** Record that `paidBy` paid `amount` for `description`, shared by the
        names in `splitAmong` (every known person when absent), dated `date`
        (`today` when absent). The names and the payer become known even when
        the expense cannot be recorded; it cannot when the split is empty
        (the source then divides by zero). The payer shares the expense only
        if listed (or, by default, already known). */
    method AddExpense(paidBy: string, amount: real, description: string,
                      splitAmong: Option<seq<string>>, date: Option<string>, today: string)
      returns (added: Option<Expense>)
      requires Valid()
      modifies this
      ensures Valid()
      ensures people == old(people) + {paidBy} + (if splitAmong.Some? then set p | p in splitAmong.value else {})
      ensures added.None? <==> (if splitAmong.Some? then splitAmong.value == [] else old(people) == {})
      ensures added.None? ==> expenses == old(expenses)
      ensures added.Some? ==> expenses == old(expenses) + [added.value]
      ensures added.Some? ==>
                && added.value.paidBy == paidBy
                && added.value.amount == amount
                && added.value.description == description
                && added.value.date == (if date.Some? then date.value else today)
                && |added.value.splitAmong| > 0
                && added.value.amountPerPerson == amount / (|added.value.splitAmong| as real)
                && (if splitAmong.Some? then added.value.splitAmong == splitAmong.value
                    else Enumerates(added.value.splitAmong, old(people)))
    {
      var day := if date.Some? then date.value else today;
      var split: seq<string>;
      if splitAmong.None? {
        split := Enumerate(people);
        if people != {} {
          var x :| x in people;
          assert x in split;
        }
        if split != [] {
          assert split[0] in people;
        }
      } else {
        split := splitAmong.value;
        var i := 0;
        while i < |split|
          invariant 0 <= i <= |split|
          invariant people == old(people) + set p | p in split[..i]
          invariant expenses == old(expenses)
        {
          assert split[..i + 1] == split[..i] + [split[i]];
          people := people + {split[i]};
          i := i + 1;
        }
        assert split[..|split|] == split;
      }
      people := people + {paidBy};
      forall x | x in expenses
        ensures Known(x, people) && WellSplit(x)
      {
        assert old(Known(x, people));
      }
      if |split| == 0 {
        return None;
      }
      var e := Expense(day, paidBy, amount, description, split, amount / (|split| as real));
      expenses := expenses + [e];
      added := Some(e);
    }

    /** The net balance of every known person: keys exactly the known people,
        each balance what the person paid minus the shares charged to them,
        and the balances summing to zero. */
    method CalculateBalances() returns (b: map<string, real>)
      requires Valid()
      ensures b == Balances(people, expenses)
      ensures b.Keys == people
      ensures forall p :: p in people ==> b[p] == NetBalance(expenses, p)
      ensures SumValues(b) == 0.0
    {
      b := map p | p in people :: 0.0;
      BalancesStart(people, expenses);
      var i := 0;
      while i < |expenses|
        invariant 0 <= i <= |expenses|
        invariant forall e :: e in expenses[..i] ==> Known(e, people)
        invariant b == Balances(people, expenses[..i])
      {
        var e := expenses[i];
        assert e in expenses;
        BalancesNext(people, expenses, i);
        ApplyUnfold(b, e);
        b := b[e.paidBy := b[e.paidBy] + e.amount];
        b := DebitShares(b, e.splitAmong, e.amountPerPerson);
        i := i + 1;
      }
      assert expenses[..|expenses|] == expenses;
      forall p | p in people
        ensures b[p] == NetBalance(expenses, p)
      {
        BalancesAt(people, expenses, p);
      }
      BalancesConserved(people, expenses);
    }

    /** Who should pay whom to settle up. Every payment is positive and goes
        from a known person with a negative net balance to one with a positive
        net balance; payments come grouped by payer, the largest debt first;
        and once they are made everybody's net balance is exactly zero, the
        total moved being the sum of the positive balances. */
    method GetTransactions() returns (ts: seq<Transaction>)
      requires Valid()
      ensures forall t :: t in ts ==>
                && t.amount > 0.0 && t.from in people && t.to in people
                && NetBalance(expenses, t.from) < 0.0 && NetBalance(expenses, t.to) > 0.0
      ensures forall i, j :: 0 <= i < j < |ts| ==>
                NetBalance(expenses, ts[i].from) <= NetBalance(expenses, ts[j].from)
      ensures forall i, j, k :: 0 <= i < j < k < |ts| && ts[i].from == ts[k].from ==> ts[j].from == ts[i].from
      ensures forall p :: p in people && NetBalance(expenses, p) < 0.0 ==>
                PaidBy(ts, p) == -NetBalance(expenses, p) && ReceivedBy(ts, p) == 0.0
      ensures forall p :: p in people && NetBalance(expenses, p) > 0.0 ==>
                ReceivedBy(ts, p) == NetBalance(expenses, p) && PaidBy(ts, p) == 0.0
      ensures forall p :: p in people ==> NetBalance(expenses, p) + PaidBy(ts, p) - ReceivedBy(ts, p) == 0.0
      ensures Total(ts) == SumValues(Credits(Balances(people, expenses)))
    {
      var b := CalculateBalances();
      ts := Settle(b);
      SettleBalanced(b, ts);
      forall p | p in people
        ensures NetBalance(expenses, p) + PaidBy(ts, p) - ReceivedBy(ts, p) == 0.0
        ensures NetBalance(expenses, p) < 0.0 ==> PaidBy(ts, p) == -NetBalance(expenses, p) && ReceivedBy(ts, p) == 0.0
        ensures NetBalance(expenses, p) > 0.0 ==> ReceivedBy(ts, p) == NetBalance(expenses, p) && PaidBy(ts, p) == 0.0
      {
        if b[p] < 0.0 {
          assert p in Debts(b);
          NotPayee(ts, p);
        } else if b[p] > 0.0 {
          assert p in Credits(b);
          NotPayer(ts, p);
        } else {
          NotPayer(ts, p);
          NotPayee(ts, p);
        }
      }
    }

    /** Forget every expense and every person. */
    method Clear()
      modifies this
      ensures expenses == [] && people == {}
      ensures Valid()
    {
      expenses := [];
      people := {};
    }
  }
}
