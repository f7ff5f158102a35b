/** The summary the component derives from its transaction list on every
    render: per-type totals and the running balance. */
module Aggregator {
  import opened Ledger
  import opened LocalLists

  datatype Summary = Summary(ingresos: int, egresos: int, ahorros: int)

  const Zero: Summary := Summary(0, 0, 0)

  /** One step of the reduce: the entry's amount goes to the total of its
      type; an entry of any other type leaves the accumulator as it was. */
  function Tally(acc: Summary, t: Transaction): Summary {
    var amount := t.entry.amount;
    match t.entry.kind
    case Ingreso => acc.(ingresos := acc.ingresos + amount)
    case Gasto => acc.(egresos := acc.egresos + amount)
    case Ahorro => acc.(ahorros := acc.ahorros + amount)
    case Other(_) => acc
  }

  /** The reduce itself, left to right from `acc`. */
  function Fold(acc: Summary, ts: seq<Transaction>): Summary
    decreases |ts|
  {
    if ts == [] then acc else Fold(Tally(acc, ts[0]), ts[1..])
  }

  /** What one entry adds to the sum of type `k`. */
  function Contribution(t: Transaction, k: TxType): int {
    if t.entry.kind == k then t.entry.amount else 0
  }

  /** Reference definition: the sum of the amounts of the entries of type `k`. */
  function SumOf(ts: seq<Transaction>, k: TxType): int
    decreases |ts|
  {
    if ts == [] then 0 else Contribution(ts[0], k) + SumOf(ts[1..], k)
  }

  lemma {:induction false} FoldAddsSums(acc: Summary, ts: seq<Transaction>)
    ensures Fold(acc, ts) == Summary(acc.ingresos + SumOf(ts, Ingreso),
                                     acc.egresos + SumOf(ts, Gasto),
                                     acc.ahorros + SumOf(ts, Ahorro))
    decreases |ts|
  {
    if ts != [] {
      FoldAddsSums(Tally(acc, ts[0]), ts[1..]);
    }
  }

  /** The summary totals each of the three known types and ignores the rest. */
  function Summarize(ts: seq<Transaction>): (r: Summary)
    ensures r == Summary(SumOf(ts, Ingreso), SumOf(ts, Gasto), SumOf(ts, Ahorro))
  {
    FoldAddsSums(Zero, ts);
    Fold(Zero, ts)
  }

  /** Income minus expenses minus savings transfers. */
  function TotalBalance(ts: seq<Transaction>): (r: int)
    ensures r == SumOf(ts, Ingreso) - SumOf(ts, Gasto) - SumOf(ts, Ahorro)
  {
    var s := Summarize(ts);
    s.ingresos - s.egresos - s.ahorros
  }

  lemma {:induction false} SumOfAppend(a: seq<Transaction>, b: seq<Transaction>, k: TxType)
    ensures SumOf(a + b, k) == SumOf(a, k) + SumOf(b, k)
    decreases |a|
  {
    if a != [] {
      assert (a + b)[1..] == a[1..] + b;
      SumOfAppend(a[1..], b, k);
    } else {
      assert a + b == b;
    }
  }

  /** Taking entry `i` out of a list takes its contribution out of the sum. */
  lemma SumOfRemove(b: seq<Transaction>, i: nat, k: TxType)
    requires i < |b|
    ensures SumOf(b, k) == SumOf(b[..i] + b[i + 1..], k) + Contribution(b[i], k)
  {
    assert b == b[..i] + ([b[i]] + b[i + 1..]);
    assert ([b[i]] + b[i + 1..])[1..] == b[i + 1..];
    SumOfAppend(b[..i], [b[i]] + b[i + 1..], k);
    SumOfAppend(b[..i], b[i + 1..], k);
  }

  /** A per-type sum does not depend on the order of the list. */
  lemma {:induction false} SumOfPermutation(a: seq<Transaction>, b: seq<Transaction>, k: TxType)
    requires multiset(a) == multiset(b)
    ensures SumOf(a, k) == SumOf(b, k)
    decreases |a|
  {
    if a != [] {
      var rest, i := TakeHead(a, b);
      SumOfPermutation(a[1..], rest, k);
      SumOfRemove(b, i, k);
    }
  }

  /** Matches the head of `a` with an occurrence in its permutation `b`; what
      is left of the two lists is again a permutation. */
  lemma TakeHead<T>(a: seq<T>, b: seq<T>) returns (rest: seq<T>, i: nat)
    requires a != [] && multiset(a) == multiset(b)
    ensures i < |b| && b[i] == a[0] && rest == b[..i] + b[i + 1..]
    ensures multiset(a[1..]) == multiset(rest)
  {
    assert a[0] in multiset(b);
    i :| 0 <= i < |b| && b[i] == a[0];
    rest := b[..i] + b[i + 1..];
    MultisetRemoveAt(b, i);
    MultisetRemoveAt(a, 0);
    assert a[..0] + a[1..] == a[1..];
    MultisetCancel(multiset(a[1..]), multiset(rest), a[0]);
  }

  lemma MultisetRemoveAt<T>(s: seq<T>, i: nat)
    requires i < |s|
    ensures multiset(s) == multiset(s[..i] + s[i + 1..]) + multiset{s[i]}
  {
    assert s == s[..i] + [s[i]] + s[i + 1..];
  }

  lemma MultisetCancel<T>(p: multiset<T>, q: multiset<T>, x: T)
    requires p + multiset{x} == q + multiset{x}
    ensures p == q
  {
    assert p == (p + multiset{x}) - multiset{x};
    assert q == (q + multiset{x}) - multiset{x};
  }

  /** The summary, and so the balance, is independent of the list's order. */
  lemma SummaryIgnoresOrder(a: seq<Transaction>, b: seq<Transaction>)
    requires multiset(a) == multiset(b)
    ensures Summarize(a) == Summarize(b)
    ensures TotalBalance(a) == TotalBalance(b)
  {
    SumOfPermutation(a, b, Ingreso);
    SumOfPermutation(a, b, Gasto);
    SumOfPermutation(a, b, Ahorro);
  }

  /** Replacing entry `i` changes each per-type sum by the difference of the
      two entries' contributions, and nothing else. */
  lemma {:induction false} SumOfReplace(ts: seq<Transaction>, i: nat, t: Transaction, k: TxType)
    requires i < |ts|
    ensures SumOf(ts[i := t], k) == SumOf(ts, k) - Contribution(ts[i], k) + Contribution(t, k)
    decreases |ts|
  {
    if i > 0 {
      assert ts[i := t][1..] == ts[1..][i - 1 := t];
      SumOfReplace(ts[1..], i - 1, t, k);
    }
  }

  /** The edit's map by id, on a list where that id occurs once, replaces
      exactly that one entry. */
  lemma ApplyEditAt(ts: seq<Transaction>, i: nat, updated: Transaction)
    requires i < |ts|
    requires forall j :: 0 <= j < |ts| && j != i ==> ts[j].id != ts[i].id
    ensures ApplyEdit(ts, ts[i].id, updated) == ts[i := updated]
  {
    var r := ApplyEdit(ts, ts[i].id, updated);
    forall j | 0 <= j < |ts| ensures r[j] == ts[i := updated][j] {
    }
  }

  /** Saving an edit of the entry at `i` changes each per-type sum by the old
      and the new contribution of that entry only. */
  lemma EditChangesSums(ts: seq<Transaction>, i: nat, updated: Transaction, k: TxType)
    requires i < |ts|
    requires forall j :: 0 <= j < |ts| && j != i ==> ts[j].id != ts[i].id
    ensures SumOf(ApplyEdit(ts, ts[i].id, updated), k) == SumOf(ts, k) - Contribution(ts[i], k) + Contribution(updated, k)
  {
    ApplyEditAt(ts, i, updated);
    SumOfReplace(ts, i, updated, k);
  }

  /** A summary with one entry's contributions exchanged for another's. */
  function Exchange(s: Summary, removed: Transaction, added: Transaction): Summary {
    Summary(s.ingresos - Contribution(removed, Ingreso) + Contribution(added, Ingreso),
            s.egresos - Contribution(removed, Gasto) + Contribution(added, Gasto),
            s.ahorros - Contribution(removed, Ahorro) + Contribution(added, Ahorro))
  }

  /** After an edit of the entry at `i`, whose id occurs once, the summary
      differs from the old one only by that entry's old and new
      contributions. */
  lemma EditSummary(ts: seq<Transaction>, i: nat, updated: Transaction)
    requires i < |ts|
    requires forall j :: 0 <= j < |ts| && j != i ==> ts[j].id != ts[i].id
    ensures Summarize(ApplyEdit(ts, ts[i].id, updated)) == Exchange(Summarize(ts), ts[i], updated)
  {
    EditChangesSums(ts, i, updated, Ingreso);
    EditChangesSums(ts, i, updated, Gasto);
    EditChangesSums(ts, i, updated, Ahorro);
  }

  /** The worked edit: raising the 300 expense to 450 raises the expense
      total to 450 and lowers the balance to 350. */
  lemma ExampleEdit(a: Transaction, b: Transaction, c: Transaction, form: EditForm)
    requires a.entry.kind == Ingreso && a.entry.amount == 1000
    requires b.entry.kind == Gasto && b.entry.amount == 300
    requires c.entry.kind == Ahorro && c.entry.amount == 200
    requires a.id != b.id && c.id != b.id && form.amount == 450
    ensures var edited := ApplyEdit([a, b, c], b.id, Transaction(b.id, Patch(b.entry, form)));
            && Summarize(edited) == Summary(1000, 450, 200)
            && TotalBalance(edited) == 350
  {
    var u := Transaction(b.id, Patch(b.entry, form));
    ExampleBalance(a, b, c);
    EditChangesSums([a, b, c], 1, u, Ingreso);
    EditChangesSums([a, b, c], 1, u, Gasto);
    EditChangesSums([a, b, c], 1, u, Ahorro);
  }

  /** The worked example: 1000 of income, 300 spent and 200 saved leave 500. */
  lemma ExampleBalance(a: Transaction, b: Transaction, c: Transaction)
    requires a.entry.kind == Ingreso && a.entry.amount == 1000
    requires b.entry.kind == Gasto && b.entry.amount == 300
    requires c.entry.kind == Ahorro && c.entry.amount == 200
    ensures Summarize([a, b, c]) == Summary(1000, 300, 200)
    ensures TotalBalance([a, b, c]) == 500
  {
    assert [a, b, c][1..] == [b, c];
    assert [b, c][1..] == [c];
    assert [c][1..] == [];
    assert SumOf([], Gasto) == 0 && SumOf([], Ahorro) == 0;
    assert SumOf([c], Ingreso) == 0;
    assert SumOf([c], Gasto) == 0;
    assert SumOf([c], Ahorro) == 200;
    assert SumOf([b, c], Ingreso) == 0 && SumOf([b, c], Gasto) == 300 && SumOf([b, c], Ahorro) == 200;
  }
}
