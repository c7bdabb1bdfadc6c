/** The column sort of scripts/ui.js: `sortTransactions` and the toggle the
    sort buttons drive.

    `sortTransactions` copies the list and calls `Array.prototype.sort`, which
    is stable, with a comparator that returns -1/1/0 on the column's key. The
    result is therefore determined: the stable sort by that key. The model
    computes it by insertion sort and proves it is a permutation, ordered and
    stable. */
module Sorting {
  import opened Wrappers
  import opened Chars
  import opened State
  import Seqs

  datatype SortField = ByDate | ByDescription | ByAmount | ByCategory

  datatype Order = Asc | Desc

  /** JavaScript's `<` on two strings: the first differing character decides,
      and a proper prefix comes first. */
  predicate StrLess(a: string, b: string) {
    if b == [] then false
    else if a == [] then true
    else if a[0] != b[0] then a[0] < b[0]
    else StrLess(a[1..], b[1..])
  }

  lemma {:induction false} StrLessIrreflexive(a: string)
    ensures !StrLess(a, a)
  {
    if a != [] {
      StrLessIrreflexive(a[1..]);
    }
  }

  lemma {:induction false} StrLessTransitive(a: string, b: string, c: string)
    requires StrLess(a, b) && StrLess(b, c)
    ensures StrLess(a, c)
  {
    if a != [] && a[0] == b[0] && b[0] == c[0] {
      StrLessTransitive(a[1..], b[1..], c[1..]);
    }
  }

  lemma {:induction false} StrLessTotal(a: string, b: string)
    ensures a == b || StrLess(a, b) || StrLess(b, a)
  {
    if a != [] && b != [] && a[0] == b[0] {
      StrLessTotal(a[1..], b[1..]);
      if a[1..] == b[1..] {
        assert a == [a[0]] + a[1..] && b == [b[0]] + b[1..];
      }
    }
  }

  /** `valueA < valueB` in the comparator: amounts as numbers, dates as the
      stored strings, descriptions and categories after `toLowerCase`. */
  predicate KeyLess(field: SortField, a: Txn, b: Txn) {
    match field
    case ByAmount => a.amount < b.amount
    case ByDate => StrLess(a.date, b.date)
    case ByDescription => StrLess(Lower(a.description), Lower(b.description))
    case ByCategory => StrLess(Lower(a.category), Lower(b.category))
  }

  /** The comparator returns 0: the two keys are equal. */
  predicate SameKey(field: SortField, a: Txn, b: Txn) {
    match field
    case ByAmount => a.amount == b.amount
    case ByDate => a.date == b.date
    case ByDescription => Lower(a.description) == Lower(b.description)
    case ByCategory => Lower(a.category) == Lower(b.category)
  }

  /** The comparator returns a negative number: `a` goes before `b`. */
  predicate Before(field: SortField, order: Order, a: Txn, b: Txn) {
    match order
    case Asc => KeyLess(field, a, b)
    case Desc => KeyLess(field, b, a)
  }

  /** The comparator is a strict weak order whose ties are the equal keys. */
  lemma {:induction false} BeforeIrreflexive(field: SortField, order: Order, a: Txn, b: Txn)
    requires SameKey(field, a, b)
    ensures !Before(field, order, a, b)
  {
    match field
    case ByAmount =>
    case ByDate => StrLessIrreflexive(a.date);
    case ByDescription => StrLessIrreflexive(Lower(a.description));
    case ByCategory => StrLessIrreflexive(Lower(a.category));
  }

  lemma {:induction false} BeforeTransitive(field: SortField, order: Order, a: Txn, b: Txn, c: Txn)
    requires Before(field, order, a, b) && Before(field, order, b, c)
    ensures Before(field, order, a, c)
  {
    match (field, order)
    case (ByAmount, _) =>
    case (ByDate, Asc) => StrLessTransitive(a.date, b.date, c.date);
    case (ByDate, Desc) => StrLessTransitive(c.date, b.date, a.date);
    case (ByDescription, Asc) => StrLessTransitive(Lower(a.description), Lower(b.description), Lower(c.description));
    case (ByDescription, Desc) => StrLessTransitive(Lower(c.description), Lower(b.description), Lower(a.description));
    case (ByCategory, Asc) => StrLessTransitive(Lower(a.category), Lower(b.category), Lower(c.category));
    case (ByCategory, Desc) => StrLessTransitive(Lower(c.category), Lower(b.category), Lower(a.category));
  }

  lemma {:induction false} BeforeTotal(field: SortField, order: Order, a: Txn, b: Txn)
    ensures Before(field, order, a, b) || Before(field, order, b, a) || SameKey(field, a, b)
  {
    match field
    case ByAmount =>
    case ByDate => StrLessTotal(a.date, b.date);
    case ByDescription => StrLessTotal(Lower(a.description), Lower(b.description));
    case ByCategory => StrLessTotal(Lower(a.category), Lower(b.category));
  }

  /** Not-before chains: `a <= b <= c` gives `a <= c`. */
  lemma {:induction false} NotBeforeTransitive(field: SortField, order: Order, a: Txn, b: Txn, c: Txn)
    requires !Before(field, order, c, b) && !Before(field, order, b, a)
    ensures !Before(field, order, c, a)
  {
    BeforeTotal(field, order, b, c);
    if Before(field, order, c, a) {
      if Before(field, order, b, c) {
        BeforeTransitive(field, order, b, c, a);
      } else {
        assert SameKey(field, c, b);
        assert Before(field, order, b, a);
      }
    }
  }

  /** No element is placed before one that precedes it. */
  predicate Sorted(xs: seq<Txn>, field: SortField, order: Order) {
    forall i, j | 0 <= i < j < |xs| :: !Before(field, order, xs[j], xs[i])
  }

  /** Places `x` before the first element it does not come after. */
  function Insert(field: SortField, order: Order, x: Txn, ys: seq<Txn>): (r: seq<Txn>)
    ensures multiset(r) == multiset{x} + multiset(ys)
  {
    if ys == [] || !Before(field, order, ys[0], x) then [x] + ys
    else
      assert ys == [ys[0]] + ys[1..];
      [ys[0]] + Insert(field, order, x, ys[1..])
  }

  /** `sortTransactions(transactions, field, order)`: a new list holding the
      same records, ordered by the column. */
  function SortTransactions(xs: seq<Txn>, field: SortField, order: Order): (r: seq<Txn>)
    ensures multiset(r) == multiset(xs)
    ensures Sorted(r, field, order)
  {
    if xs == [] then []
    else
      assert xs == [xs[0]] + xs[1..];
      var rest := SortTransactions(xs[1..], field, order);
      InsertSorted(field, order, xs[0], rest);
      Insert(field, order, xs[0], rest)
  }

  lemma {:induction false} SortedCons(field: SortField, order: Order, h: Txn, t: seq<Txn>)
    requires Sorted(t, field, order)
    requires forall k | 0 <= k < |t| :: !Before(field, order, t[k], h)
    ensures Sorted([h] + t, field, order)
  {
    var s := [h] + t;
    forall i, j | 0 <= i < j < |s|
      ensures !Before(field, order, s[j], s[i])
    {
      assert s[j] == t[j - 1];
      if i > 0 {
        assert s[i] == t[i - 1];
      }
    }
  }

  lemma {:induction false} InsertSorted(field: SortField, order: Order, x: Txn, ys: seq<Txn>)
    requires Sorted(ys, field, order)
    ensures Sorted(Insert(field, order, x, ys), field, order)
  {
    if ys == [] || !Before(field, order, ys[0], x) {
      forall k | 0 <= k < |ys|
        ensures !Before(field, order, ys[k], x)
      {
        if k > 0 {
          NotBeforeTransitive(field, order, x, ys[0], ys[k]);
        }
      }
      SortedCons(field, order, x, ys);
    } else {
      var t := ys[1..];
      InsertSorted(field, order, x, t);
      var r := Insert(field, order, x, t);
      forall k | 0 <= k < |r|
        ensures !Before(field, order, r[k], ys[0])
      {
        assert r[k] in multiset(r);
        if r[k] == x {
          BeforeTotal(field, order, ys[0], x);
          if Before(field, order, x, ys[0]) {
            BeforeTransitive(field, order, x, ys[0], x);
            BeforeIrreflexive(field, order, x, x);
          }
        } else {
          assert r[k] in multiset(t);
          var m :| 0 <= m < |t| && t[m] == r[k];
          assert ys[m + 1] == r[k];
        }
      }
      SortedCons(field, order, ys[0], r);
    }
  }

  /** Keeps the records whose key equals `y`'s. */
  function SameKeyAs(field: SortField, y: Txn): Txn -> bool {
    (t: Txn) => SameKey(field, t, y)
  }

  lemma {:induction false} FilterCons(h: Txn, t: seq<Txn>, keep: Txn -> bool)
    ensures Seqs.Filter([h] + t, keep) == (if keep(h) then [h] else []) + Seqs.Filter(t, keep)
  {
    assert ([h] + t)[0] == h;
    assert ([h] + t)[1..] == t;
  }

  /** Inserting `x` leaves the records of any other key where they were. */
  lemma {:induction false} InsertStable(field: SortField, order: Order, x: Txn, ys: seq<Txn>, y: Txn)
    ensures var keep := SameKeyAs(field, y);
      Seqs.Filter(Insert(field, order, x, ys), keep)
        == (if keep(x) then [x] else []) + Seqs.Filter(ys, keep)
  {
    var keep := SameKeyAs(field, y);
    if ys == [] || !Before(field, order, ys[0], x) {
      FilterCons(x, ys, keep);
    } else {
      var h, t := ys[0], ys[1..];
      assert ys == [h] + t;
      var rest := Insert(field, order, x, t);
      assert Insert(field, order, x, ys) == [h] + rest;
      InsertStable(field, order, x, t, y);
      FilterCons(h, rest, keep);
      FilterCons(h, t, keep);
      if keep(x) && keep(h) {
        BeforeIrreflexive(field, order, h, x);
        assert false;
      } else if keep(x) {
        assert Seqs.Filter([h] + rest, keep) == [x] + Seqs.Filter(t, keep);
      } else {
        assert Seqs.Filter(rest, keep) == Seqs.Filter(t, keep);
      }
    }
  }

  /** Stability: records with equal keys keep their relative order. */
  lemma {:induction false} SortStable(xs: seq<Txn>, field: SortField, order: Order, y: Txn)
    ensures Seqs.Filter(SortTransactions(xs, field, order), SameKeyAs(field, y))
         == Seqs.Filter(xs, SameKeyAs(field, y))
  {
    if xs != [] {
      var h, t := xs[0], xs[1..];
      var st := SortTransactions(t, field, order);
      SortStable(t, field, order, y);
      InsertStable(field, order, h, st, y);
      SortCons(xs, field, order);
      assert xs == [h] + t;
      StableStep(h, t, st, Insert(field, order, h, st), SameKeyAs(field, y));
    }
  }

  /** Sorting a non-empty list inserts its head into the sorted tail. */
  lemma {:induction false} SortCons(xs: seq<Txn>, field: SortField, order: Order)
    requires xs != []
    ensures SortTransactions(xs, field, order) == Insert(field, order, xs[0], SortTransactions(xs[1..], field, order))
  {
  }

  /** The filtering step of stability: if the sorted tail keeps the tail's
      filtered order and the insertion keeps the head in front, the whole
      list's filtered order is kept. */
  lemma {:induction false} StableStep(h: Txn, t: seq<Txn>, st: seq<Txn>, ins: seq<Txn>, keep: Txn -> bool)
    requires Seqs.Filter(st, keep) == Seqs.Filter(t, keep)
    requires Seqs.Filter(ins, keep) == (if keep(h) then [h] else []) + Seqs.Filter(st, keep)
    ensures Seqs.Filter(ins, keep) == Seqs.Filter([h] + t, keep)
  {
    FilterCons(h, t, keep);
  }

  /** Sorting a list already in order returns it unchanged; in particular
      sorting twice by the same column and direction is sorting once. */
  lemma {:induction false} SortSortedIdentity(xs: seq<Txn>, field: SortField, order: Order)
    requires Sorted(xs, field, order)
    ensures SortTransactions(xs, field, order) == xs
  {
    if xs != [] {
      assert Sorted(xs[1..], field, order);
      SortSortedIdentity(xs[1..], field, order);
      assert xs == [xs[0]] + xs[1..];
    }
  }

  lemma {:induction false} SortIdempotent(xs: seq<Txn>, field: SortField, order: Order)
    ensures var once := SortTransactions(xs, field, order);
      SortTransactions(once, field, order) == once
  {
    SortSortedIdentity(SortTransactions(xs, field, order), field, order);
  }

  /** No two records of the list share a key. */
  predicate NoTies(xs: seq<Txn>, field: SortField) {
    forall i, j | 0 <= i < j < |xs| :: !SameKey(field, xs[i], xs[j])
  }

  /** Two ordered permutations of a list without ties start alike. */
  lemma {:induction false} SortedSameHead(a: seq<Txn>, b: seq<Txn>, field: SortField, order: Order)
    requires Sorted(a, field, order) && Sorted(b, field, order)
    requires multiset(a) == multiset(b)
    requires NoTies(a, field)
    requires a != []
    ensures b != [] && a[0] == b[0]
  {
    assert a[0] in multiset(b);
    var k :| 0 <= k < |b| && b[k] == a[0];
    assert b[0] in multiset(a);
    var m :| 0 <= m < |a| && a[m] == b[0];
    if m != 0 {
      assert !Before(field, order, a[m], a[0]);
      assert k != 0;
      assert !Before(field, order, a[0], a[m]);
      BeforeTotal(field, order, a[0], a[m]);
      assert false;
    }
  }

  lemma {:induction false} SortedTail(a: seq<Txn>, field: SortField, order: Order)
    requires Sorted(a, field, order) && a != []
    ensures Sorted(a[1..], field, order)
  {
    forall i, j | 0 <= i < j < |a| - 1
      ensures !Before(field, order, a[1..][j], a[1..][i])
    {
      assert a[1..][j] == a[j + 1] && a[1..][i] == a[i + 1];
    }
  }

  lemma {:induction false} NoTiesTail(a: seq<Txn>, field: SortField)
    requires NoTies(a, field) && a != []
    ensures NoTies(a[1..], field)
  {
    forall i, j | 0 <= i < j < |a| - 1
      ensures !SameKey(field, a[1..][i], a[1..][j])
    {
      assert a[1..][j] == a[j + 1] && a[1..][i] == a[i + 1];
    }
  }

  lemma {:induction false} TailMultiset(a: seq<Txn>)
    requires a != []
    ensures multiset(a[1..]) == multiset(a) - multiset{a[0]}
  {
    assert a == [a[0]] + a[1..];
  }

  /** Without ties, an ordered permutation is unique. */
  lemma {:induction false} SortedUnique(a: seq<Txn>, b: seq<Txn>, field: SortField, order: Order)
    requires Sorted(a, field, order) && Sorted(b, field, order)
    requires multiset(a) == multiset(b)
    requires NoTies(a, field)
    ensures a == b
  {
    if a != [] {
      SortedSameHead(a, b, field, order);
      TailMultiset(a);
      TailMultiset(b);
      SortedTail(a, field, order);
      SortedTail(b, field, order);
      NoTiesTail(a, field);
      SortedUnique(a[1..], b[1..], field, order);
      assert a == [a[0]] + a[1..] && b == [b[0]] + b[1..];
    }
  }

  function Reverse(xs: seq<Txn>): (r: seq<Txn>)
    ensures |r| == |xs|
    ensures forall i | 0 <= i < |xs| :: r[i] == xs[|xs| - 1 - i]
  {
    if xs == [] then [] else Reverse(xs[1..]) + [xs[0]]
  }

  lemma {:induction false} ReverseMultiset(xs: seq<Txn>)
    ensures multiset(Reverse(xs)) == multiset(xs)
  {
    if xs != [] {
      ReverseMultiset(xs[1..]);
      assert xs == [xs[0]] + xs[1..];
    }
  }

  function Flip(order: Order): Order {
    match order
    case Asc => Desc
    case Desc => Asc
  }

  /** Flipping the direction swaps the comparator's arguments. */
  lemma {:induction false} BeforeFlip(field: SortField, order: Order, a: Txn, b: Txn)
    ensures Before(field, Flip(order), a, b) == Before(field, order, b, a)
  {
  }

  /** Reading an ordered list backwards orders it the other way round. */
  lemma {:induction false} ReverseSorted(xs: seq<Txn>, field: SortField, order: Order)
    requires Sorted(xs, field, order)
    ensures Sorted(Reverse(xs), field, Flip(order))
  {
    var rev := Reverse(xs);
    forall i, j | 0 <= i < j < |rev|
      ensures !Before(field, Flip(order), rev[j], rev[i])
    {
      BeforeFlip(field, order, rev[j], rev[i]);
      assert rev[i] == xs[|xs| - 1 - i] && rev[j] == xs[|xs| - 1 - j];
    }
  }

  lemma {:induction false} ReverseNoTies(xs: seq<Txn>, field: SortField)
    requires NoTies(xs, field)
    ensures NoTies(Reverse(xs), field)
  {
    var rev := Reverse(xs);
    forall i, j | 0 <= i < j < |rev|
      ensures !SameKey(field, rev[i], rev[j])
    {
      assert rev[i] == xs[|xs| - 1 - i] && rev[j] == xs[|xs| - 1 - j];
    }
  }

  /** Sorting the other way round a list without ties reverses it. */
  lemma {:induction false} FlipReversesWithoutTies(xs: seq<Txn>, field: SortField, order: Order)
    requires NoTies(SortTransactions(xs, field, order), field)
    ensures var once := SortTransactions(xs, field, order);
      SortTransactions(once, field, Flip(order)) == Reverse(once)
  {
    var once := SortTransactions(xs, field, order);
    ReverseMultiset(once);
    ReverseSorted(once, field, order);
    ReverseNoTies(once, field);
    SortedUnique(Reverse(once), SortTransactions(once, field, Flip(order)), field, Flip(order));
  }

  /** With two records on the same date, sorting by date ascending and then
      descending keeps them in input order: the second sort is not a
      reversal of the first. */
  lemma {:induction false} FlipDoesNotReverseTies()
    ensures var a := Txn("a", "Lunch", 10.0, "Food", "2025-01-01", None, None);
      var b := Txn("b", "Bus", 2.0, "Transport", "2025-01-01", None, None);
      var once := SortTransactions([a, b], ByDate, Asc);
      once == [a, b] && SortTransactions(once, ByDate, Desc) != Reverse(once)
  {
    var a := Txn("a", "Lunch", 10.0, "Food", "2025-01-01", None, None);
    var b := Txn("b", "Bus", 2.0, "Transport", "2025-01-01", None, None);
    StrLessIrreflexive(a.date);
    assert [a, b][1..] == [b];
    assert SortTransactions([b], ByDate, Asc) == [b];
    assert SortTransactions([a, b], ByDate, Asc) == [a, b];
    assert SortTransactions([b], ByDate, Desc) == [b];
    assert SortTransactions([a, b], ByDate, Desc) == [a, b];
  }

  /** Which column is sorted and in which direction; no column at first. */
  datatype SortState = SortState(field: Option<SortField>, order: Order)

  const InitialSort := SortState(None, Asc)

  /** A click on a column's sort button. */
  function ClickSort(s: SortState, field: SortField): (r: SortState)
    ensures r.field == Some(field)
    ensures s.field == Some(field) ==> r.order != s.order
    ensures s.field != Some(field) ==> r.order == Asc
  {
    if s.field == Some(field) then s.(order := Flip(s.order))
    else SortState(Some(field), Asc)
  }

  /** Two clicks on the sorted column restore the state; two clicks on
      another column leave it sorted descending. */
  lemma {:induction false} ClickTwice(s: SortState, field: SortField)
    ensures s.field == Some(field) ==> ClickSort(ClickSort(s, field), field) == s
    ensures s.field != Some(field) ==> ClickSort(ClickSort(s, field), field) == SortState(Some(field), Desc)
  {
  }

  /** The rows the table shows in list order or in the sorted order. */
  function SortView(xs: seq<Txn>, s: SortState): seq<Txn> {
    match s.field
    case None => xs
    case Some(f) => SortTransactions(xs, f, s.order)
  }
}
