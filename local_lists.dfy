/** The list transforms the component hands to its state setters: the
    filters of a delete, the map of an edit and the date sort of a load. */
module LocalLists {
  import opened Wrappers
  import opened Ledger

  /** JavaScript's `Array.prototype.filter`: the elements satisfying `keep`,
      in their original order. */
  function Filter<T>(s: seq<T>, keep: T -> bool): (r: seq<T>)
    ensures |r| <= |s|
    decreases |s|
  {
    if s == [] then []
    else (if keep(s[0]) then [s[0]] else []) + Filter(s[1..], keep)
  }

  /** The filter keeps every occurrence of a kept element and none of the
      others. */
  lemma {:induction false} FilterCounts<T(!new)>(s: seq<T>, keep: T -> bool)
    ensures forall x :: x in Filter(s, keep) <==> x in s && keep(x)
    ensures forall x :: multiset(Filter(s, keep))[x] == if keep(x) then multiset(s)[x] else 0
    decreases |s|
  {
    if s != [] {
      FilterCounts(s[1..], keep);
      assert s == [s[0]] + s[1..];
    }
  }

  /** Filtering distributes over concatenation, so the kept elements stay in
      their original relative order. */
  lemma {:induction false} FilterAppend<T>(a: seq<T>, b: seq<T>, keep: T -> bool)
    ensures Filter(a + b, keep) == Filter(a, keep) + Filter(b, keep)
    decreases |a|
  {
    if a == [] {
      assert a + b == b;
    } else {
      var head := if keep(a[0]) then [a[0]] else [];
      assert (a + b)[0] == a[0] && (a + b)[1..] == a[1..] + b;
      FilterAppend(a[1..], b, keep);
      calc {
        Filter(a + b, keep);
        head + Filter(a[1..] + b, keep);
        head + (Filter(a[1..], keep) + Filter(b, keep));
        (head + Filter(a[1..], keep)) + Filter(b, keep);
      }
    }
  }

  /** When every element is kept, the filter returns the list itself. */
  lemma {:induction false} FilterKeepsAll<T>(s: seq<T>, keep: T -> bool)
    requires forall i :: 0 <= i < |s| ==> keep(s[i])
    ensures Filter(s, keep) == s
    decreases |s|
  {
    if s != [] {
      FilterKeepsAll(s[1..], keep);
    }
  }

  /** `acquisitions.filter(a => a.id !== id)`: drops exactly the acquisitions
      carrying that numeric id. */
  function WithoutAcquisition(acqs: seq<Acquisition>, id: int): (r: seq<Acquisition>)
    ensures forall a :: a in r <==> a in acqs && a.id != id
    ensures forall a: Acquisition :: a.id != id ==> multiset(r)[a] == multiset(acqs)[a]
  {
    var keep := (a: Acquisition) => a.id != id;
    FilterCounts(acqs, keep);
    Filter(acqs, keep)
  }

  /** `transactions.filter(t => t.id !== id)`: drops exactly the transactions
      carrying that record id. */
  function WithoutTransaction(ts: seq<Transaction>, id: RecordId): (r: seq<Transaction>)
    ensures forall t :: t in r <==> t in ts && t.id != id
    ensures forall t: Transaction :: t.id != id ==> multiset(r)[t] == multiset(ts)[t]
    ensures UniqueIds(ts) ==> UniqueIds(r)
  {
    var keep := (t: Transaction) => t.id != id;
    FilterCounts(ts, keep);
    assert UniqueIds(ts) ==> UniqueIds(Filter(ts, keep)) by {
      if UniqueIds(ts) {
        FilterKeepsUniqueIds(ts, keep);
      }
    }
    Filter(ts, keep)
  }

  /** No two entries share a record id. */
  predicate UniqueIds(ts: seq<Transaction>) {
    forall i, j :: 0 <= i < j < |ts| ==> ts[i].id != ts[j].id
  }

  /** A list has at most as many distinct ids as entries. */
  lemma {:induction false} IdsBound(ts: seq<Transaction>)
    ensures |set t | t in ts :: t.id| <= |ts|
    decreases |ts|
  {
    if ts != [] {
      IdsBound(ts[1..]);
      assert ts == [ts[0]] + ts[1..];
      assert (set t | t in ts :: t.id) == {ts[0].id} + (set t | t in ts[1..] :: t.id);
    }
  }

  /** Two entries sharing an id leave fewer distinct ids than entries. */
  lemma DuplicateShrinks(ts: seq<Transaction>, i: nat, j: nat)
    requires i < j < |ts|
    ensures ts[i].id == ts[j].id ==> |set t | t in ts :: t.id| < |ts|
  {
    if ts[i].id == ts[j].id {
      var rest := ts[..j] + ts[j + 1..];
      assert ts == ts[..j] + [ts[j]] + ts[j + 1..];
      assert rest[i] == ts[i];
      forall t | t in ts ensures t.id in (set x | x in rest :: x.id) {
        var k :| 0 <= k < |ts| && ts[k] == t;
        if k < j {
          assert rest[k] == t;
        } else if k > j {
          assert rest[k - 1] == t;
        }
      }
      assert (set t | t in ts :: t.id) == (set t | t in rest :: t.id);
      IdsBound(rest);
    }
  }

  /** As many distinct ids as entries: no id occurs twice. */
  lemma CountedIdsUnique(ts: seq<Transaction>)
    requires |set t | t in ts :: t.id| == |ts|
    ensures UniqueIds(ts)
  {
    forall i, j | 0 <= i < j < |ts| ensures ts[i].id != ts[j].id {
      DuplicateShrinks(ts, i, j);
    }
  }

  /** A filter keeps ids unique. */
  lemma {:induction false} FilterKeepsUniqueIds(ts: seq<Transaction>, keep: Transaction -> bool)
    requires UniqueIds(ts)
    ensures UniqueIds(Filter(ts, keep))
    decreases |ts|
  {
    if ts != [] {
      var tail := ts[1..];
      assert forall i :: 0 <= i < |tail| ==> tail[i] == ts[i + 1];
      FilterKeepsUniqueIds(tail, keep);
      FilterCounts(tail, keep);
      var rest := Filter(tail, keep);
      if keep(ts[0]) {
        var r := [ts[0]] + rest;
        forall i, j | 0 <= i < j < |r| ensures r[i].id != r[j].id {
          if i == 0 {
            assert r[j] == rest[j - 1] && r[j] in tail;
            var k :| 0 <= k < |tail| && tail[k] == r[j];
            assert ts[k + 1] == r[j];
          } else {
            assert r[i] == rest[i - 1] && r[j] == rest[j - 1];
          }
        }
      } else {
        assert Filter(ts, keep) == rest;
      }
    }
  }

  /** The three values the edit form supplies; the amount arrives parsed. */
  datatype EditForm = EditForm(description: string, amount: int, date: int)

  /** The edited fields over an entry: description, amount and date come from
      the form, and type, category and card stay as they were. */
  function Patch(e: Entry, form: EditForm): (r: Entry)
    ensures r.kind == e.kind && r.category == e.category && r.card == e.card
    ensures r.description == Some(form.description) && r.amount == form.amount && r.date == form.date
  {
    e.(description := Some(form.description), amount := form.amount, date := form.date)
  }

  /** `transactions.map(t => t.id === id ? updated : t)`. */
  function ApplyEdit(ts: seq<Transaction>, id: RecordId, updated: Transaction): (r: seq<Transaction>)
    ensures |r| == |ts|
    ensures forall i :: 0 <= i < |ts| && ts[i].id != id ==> r[i] == ts[i]
    ensures forall i :: 0 <= i < |ts| && ts[i].id == id ==> r[i] == updated
    decreases |ts|
  {
    if ts == [] then []
    else [if ts[0].id == id then updated else ts[0]] + ApplyEdit(ts[1..], id, updated)
  }

  /** An edit that keeps the id keeps ids unique. */
  lemma EditKeepsUniqueIds(ts: seq<Transaction>, id: RecordId, updated: Transaction)
    requires updated.id == id && UniqueIds(ts)
    ensures UniqueIds(ApplyEdit(ts, id, updated))
  {
    var r := ApplyEdit(ts, id, updated);
    assert forall i :: 0 <= i < |ts| ==> r[i].id == ts[i].id;
  }

  /** Most recent first. */
  ghost predicate SortedByDateDesc(s: seq<Transaction>) {
    forall i, j :: 0 <= i < j < |s| ==> s[i].entry.date >= s[j].entry.date
  }

  /** Places `t` ahead of the first entry that is not more recent than it,
      so that among equal dates the entry inserted last comes first. */
  function Insert(t: Transaction, s: seq<Transaction>): (r: seq<Transaction>)
    ensures multiset(r) == multiset(s) + multiset{t}
    decreases |s|
  {
    if s == [] || t.entry.date >= s[0].entry.date then [t] + s
    else
      assert s == [s[0]] + s[1..];
      [s[0]] + Insert(t, s[1..])
  }

  lemma {:induction false} InsertSorted(t: Transaction, s: seq<Transaction>)
    requires SortedByDateDesc(s)
    ensures SortedByDateDesc(Insert(t, s))
    decreases |s|
  {
    if s != [] && t.entry.date < s[0].entry.date {
      var rest := Insert(t, s[1..]);
      InsertSorted(t, s[1..]);
      forall x | x in rest ensures s[0].entry.date >= x.entry.date {
        assert x in multiset(rest);
        assert x == t || x in s[1..];
      }
      assert Insert(t, s) == [s[0]] + rest;
    }
  }

  /** The load's `sort` by date, newest first. The comparator subtracts dates,
      and `Array.prototype.sort` is stable (ECMA-262, 2019 and later). */
  function SortByDateDesc(s: seq<Transaction>): (r: seq<Transaction>)
    ensures multiset(r) == multiset(s)
    ensures SortedByDateDesc(r)
    decreases |s|
  {
    if s == [] then []
    else
      var rest := SortByDateDesc(s[1..]);
      assert s == [s[0]] + s[1..];
      InsertSorted(s[0], rest);
      Insert(s[0], rest)
  }

  /** The entries of one date, in list order. */
  function OnDate(s: seq<Transaction>, d: int): seq<Transaction>
    decreases |s|
  {
    if s == [] then []
    else (if s[0].entry.date == d then [s[0]] else []) + OnDate(s[1..], d)
  }

  lemma {:induction false} InsertOnDate(t: Transaction, s: seq<Transaction>, d: int)
    requires SortedByDateDesc(s)
    ensures OnDate(Insert(t, s), d) == (if t.entry.date == d then [t] else []) + OnDate(s, d)
    decreases |s|
  {
    if s == [] || t.entry.date >= s[0].entry.date {
      assert ([t] + s)[1..] == s;
    } else {
      assert SortedByDateDesc(s[1..]);
      InsertOnDate(t, s[1..], d);
      assert ([s[0]] + Insert(t, s[1..]))[1..] == Insert(t, s[1..]);
    }
  }

  /** The sort is stable: the entries of any one date keep their list order. */
  lemma {:induction false} SortKeepsOrderWithinDate(s: seq<Transaction>, d: int)
    ensures OnDate(SortByDateDesc(s), d) == OnDate(s, d)
    decreases |s|
  {
    if s != [] {
      SortKeepsOrderWithinDate(s[1..], d);
      InsertOnDate(s[0], SortByDateDesc(s[1..]), d);
    }
  }
}
