/** The dashboard statistics of scripts/ui.js: total spending, the top
    category, spending over the last seven days and the budget-cap status.

    Amounts are exact reals, so the order in which `reduce` adds them does not
    matter here. */
module Stats {
  import opened Wrappers
  import opened State
  import Seqs

  /** `transactions.reduce((sum, t) => sum + t.amount, 0)`. */
  function Total(xs: seq<Txn>): real {
    if xs == [] then 0.0 else xs[0].amount + Total(xs[1..])
  }

  /** The total of a concatenation is the sum of the totals. */
  lemma {:induction false} TotalAppend(xs: seq<Txn>, ys: seq<Txn>)
    ensures Total(xs + ys) == Total(xs) + Total(ys)
  {
    if xs != [] {
      assert (xs + ys)[1..] == xs[1..] + ys;
      TotalAppend(xs[1..], ys);
    } else {
      assert xs + ys == ys;
    }
  }

  predicate NonNegative(xs: seq<Txn>) {
    forall i | 0 <= i < |xs| :: xs[i].amount >= 0.0
  }

  /** With no negative amount, a filtered part never exceeds the whole. */
  lemma {:induction false} TotalFilterBounded(xs: seq<Txn>, keep: Txn -> bool)
    requires NonNegative(xs)
    ensures 0.0 <= Total(Seqs.Filter(xs, keep)) <= Total(xs)
  {
    if xs != [] {
      TotalFilterBounded(xs[1..], keep);
      if keep(xs[0]) {
        assert ([xs[0]] + Seqs.Filter(xs[1..], keep))[1..] == Seqs.Filter(xs[1..], keep);
      }
    }
  }

  /** The amount recorded under category `c`: what `categoryTotals[c]`
      holds once the loop has seen every record. */
  function CategoryTotal(xs: seq<Txn>, c: string): real {
    if xs == [] then 0.0
    else (if xs[0].category == c then xs[0].amount else 0.0) + CategoryTotal(xs[1..], c)
  }

  /** The index of the first record of category `c`, or `|xs|` if none. */
  function FirstAt(xs: seq<Txn>, c: string): (r: nat)
    ensures r <= |xs|
    ensures r < |xs| ==> xs[r].category == c
    ensures forall k | 0 <= k < r :: xs[k].category != c
  {
    FirstAtFrom(xs, c, 0)
  }

  /** The index of the first record of category `c` at `i` or later. */
  function FirstAtFrom(xs: seq<Txn>, c: string, i: nat): (r: nat)
    requires i <= |xs|
    ensures i <= r <= |xs|
    ensures r < |xs| ==> xs[r].category == c
    ensures forall k | i <= k < r :: xs[k].category != c
    decreases |xs| - i
  {
    if i == |xs| then i
    else if xs[i].category == c then i
    else FirstAtFrom(xs, c, i + 1)
  }

  /** The categories first seen at index `i` or later, in order of first
      appearance. */
  function FirstSeenFrom(xs: seq<Txn>, i: nat): seq<string>
    requires i <= |xs|
    decreases |xs| - i
  {
    if i == |xs| then []
    else
      var rest := FirstSeenFrom(xs, i + 1);
      if FirstAt(xs, xs[i].category) == i then [xs[i].category] + rest else rest
  }

  /** Every listed category is first seen at `i` or later. */
  lemma {:induction false} FirstSeenFromAt(xs: seq<Txn>, i: nat, j: nat)
    requires i <= |xs| && j < |FirstSeenFrom(xs, i)|
    ensures i <= FirstAt(xs, FirstSeenFrom(xs, i)[j]) < |xs|
    decreases |xs| - i
  {
    var ci := xs[i].category;
    if FirstAt(xs, ci) == i {
      if j > 0 {
        FirstSeenFromAt(xs, i + 1, j - 1);
      }
    } else {
      FirstSeenFromAt(xs, i + 1, j);
    }
  }

  /** The list is in order of first appearance. */
  lemma {:induction false} FirstSeenFromOrdered(xs: seq<Txn>, i: nat, j: nat, k: nat)
    requires i <= |xs| && j < k < |FirstSeenFrom(xs, i)|
    ensures FirstAt(xs, FirstSeenFrom(xs, i)[j]) < FirstAt(xs, FirstSeenFrom(xs, i)[k])
    decreases |xs| - i, 1
  {
    if FirstAt(xs, xs[i].category) == i {
      FirstSeenFromOrderedNew(xs, i, j, k);
    } else {
      assert FirstSeenFrom(xs, i) == FirstSeenFrom(xs, i + 1);
      FirstSeenFromOrdered(xs, i + 1, j, k);
    }
  }

  /** The ordering step when the record at `i` opens a new category. */
  lemma {:induction false} FirstSeenFromOrderedNew(xs: seq<Txn>, i: nat, j: nat, k: nat)
    requires i < |xs| && FirstAt(xs, xs[i].category) == i
    requires j < k < |FirstSeenFrom(xs, i)|
    ensures FirstAt(xs, FirstSeenFrom(xs, i)[j]) < FirstAt(xs, FirstSeenFrom(xs, i)[k])
    decreases |xs| - i, 0
  {
    var r := FirstSeenFrom(xs, i);
    var rest := FirstSeenFrom(xs, i + 1);
    assert r == [xs[i].category] + rest;
    assert r[k] == rest[k - 1];
    if j == 0 {
      FirstSeenFromAt(xs, i + 1, k - 1);
    } else {
      assert r[j] == rest[j - 1];
      FirstSeenFromOrdered(xs, i + 1, j - 1, k - 1);
    }
  }

  /** A category first seen at `i` or later is listed. */
  lemma {:induction false} FirstSeenFromIndex(xs: seq<Txn>, i: nat, c: string) returns (j: nat)
    requires i <= FirstAt(xs, c) < |xs|
    ensures j < |FirstSeenFrom(xs, i)| && FirstSeenFrom(xs, i)[j] == c
    decreases |xs| - i
  {
    var ci := xs[i].category;
    if FirstAt(xs, ci) == i {
      if FirstAt(xs, c) == i {
        j := 0;
      } else {
        j := FirstSeenFromIndex(xs, i + 1, c);
        j := j + 1;
      }
    } else {
      // `c` is not first seen at `i`: that would make it `ci`.
      assert FirstAt(xs, c) != i;
      j := FirstSeenFromIndex(xs, i + 1, c);
    }
  }

  /** The keys of `categoryTotals` in the order the loop creates them. */
  function Categories(xs: seq<Txn>): seq<string> {
    FirstSeenFrom(xs, 0)
  }

  /** Where a record's category sits in the category list. */
  lemma {:induction false} CategoryIndex(xs: seq<Txn>, i: nat) returns (j: nat)
    requires i < |xs|
    ensures j < |Categories(xs)| && Categories(xs)[j] == xs[i].category
  {
    j := FirstSeenFromIndex(xs, 0, xs[i].category);
  }

  /** A record added at the end adds its amount to its own category only. */
  lemma {:induction false} CategoryTotalSnoc(xs: seq<Txn>, t: Txn, c: string)
    ensures CategoryTotal(xs + [t], c) == CategoryTotal(xs, c) + (if t.category == c then t.amount else 0.0)
  {
    if xs == [] {
      assert [] + [t] == [t];
    } else {
      assert (xs + [t])[1..] == xs[1..] + [t];
      CategoryTotalSnoc(xs[1..], t, c);
    }
  }

  /** A category absent from the list totals 0. */
  lemma {:induction false} CategoryTotalAbsent(xs: seq<Txn>, c: string)
    requires forall k | 0 <= k < |xs| :: xs[k].category != c
    ensures CategoryTotal(xs, c) == 0.0
  {
    if xs != [] {
      assert xs[0].category != c;
      CategoryTotalAbsent(xs[1..], c);
    }
  }

  /** A record added at the end is the first of its category exactly when
      the category is new. */
  lemma {:induction false} FirstAtSnoc(xs: seq<Txn>, t: Txn, c: string)
    ensures FirstAt(xs + [t], c) ==
      if FirstAt(xs, c) < |xs| then FirstAt(xs, c)
      else if t.category == c then |xs|
      else |xs| + 1
  {
    var ys := xs + [t];
    var a, b := FirstAt(xs, c), FirstAt(ys, c);
    assert a < |xs| ==> ys[a].category == c;
    assert b < |xs| ==> xs[b].category == c;
    assert ys[|xs|] == t;
  }

  /** What a record added at the end contributes to the category list. */
  function NewCategory(xs: seq<Txn>, t: Txn): seq<string> {
    if FirstAt(xs, t.category) == |xs| then [t.category] else []
  }

  /** A record added at the end appends its category to the list when the
      category is new, and leaves the list alone otherwise. */
  lemma {:induction false} FirstSeenSnoc(xs: seq<Txn>, t: Txn, i: nat)
    requires i <= |xs|
    ensures FirstSeenFrom(xs + [t], i) == FirstSeenFrom(xs, i) + NewCategory(xs, t)
    decreases |xs| - i
  {
    if i == |xs| {
      FirstAtSnoc(xs, t, t.category);
      assert (xs + [t])[i] == t;
    } else {
      FirstSeenSnoc(xs, t, i + 1);
      FirstSeenSnocStep(xs, t, i);
    }
  }

  /** The step of `FirstSeenSnoc` at an index of the old list. */
  lemma {:induction false} FirstSeenSnocStep(xs: seq<Txn>, t: Txn, i: nat)
    requires i < |xs|
    requires FirstSeenFrom(xs + [t], i + 1) == FirstSeenFrom(xs, i + 1) + NewCategory(xs, t)
    ensures FirstSeenFrom(xs + [t], i) == FirstSeenFrom(xs, i) + NewCategory(xs, t)
  {
    var c := xs[i].category;
    assert (xs + [t])[i] == xs[i];
    FirstAtSnoc(xs, t, c);
    var rest, extra := FirstSeenFrom(xs, i + 1), NewCategory(xs, t);
    assert ([c] + rest) + extra == [c] + (rest + extra);
  }

  /** The `for … in` scan from index `i`: `best` holds the value that beat
      every earlier one strictly, starting from a maximum of 0. */
  function LeaderFrom(vals: seq<real>, i: nat, best: Option<nat>, max: real): (r: Option<nat>)
    requires i <= |vals|
    requires best.None? ==> max == 0.0 && forall k | 0 <= k < i :: vals[k] <= 0.0
    requires best.Some? ==>
      && best.value < i && vals[best.value] == max && max > 0.0
      && (forall k | 0 <= k < i :: vals[k] <= max)
      && (forall k | 0 <= k < best.value :: vals[k] < max)
    ensures r.None? ==> forall k | 0 <= k < |vals| :: vals[k] <= 0.0
    ensures r.Some? ==>
      && r.value < |vals| && vals[r.value] > 0.0
      && (forall k | 0 <= k < |vals| :: vals[k] <= vals[r.value])
      && (forall k | 0 <= k < r.value :: vals[k] < vals[r.value])
    decreases |vals| - i
  {
    if i == |vals| then best
    else if vals[i] > max then LeaderFrom(vals, i + 1, Some(i), vals[i])
    else LeaderFrom(vals, i + 1, best, max)
  }

  /** The first index holding the largest positive value, if any. */
  function Leader(vals: seq<real>): (r: Option<nat>)
    ensures r.None? <==> forall k | 0 <= k < |vals| :: vals[k] <= 0.0
    ensures r.Some? ==>
      && r.value < |vals|
      && (forall k | 0 <= k < |vals| :: vals[k] <= vals[r.value])
      && (forall k | 0 <= k < r.value :: vals[k] < vals[r.value])
  {
    LeaderFrom(vals, 0, None, 0.0)
  }

  /** The per-category totals, in category-list order. */
  function Totals(xs: seq<Txn>, cats: seq<string>): (r: seq<real>)
    ensures |r| == |cats|
    ensures forall j | 0 <= j < |cats| :: r[j] == CategoryTotal(xs, cats[j])
  {
    if cats == [] then [] else [CategoryTotal(xs, cats[0])] + Totals(xs, cats[1..])
  }

  /** `getTopCategory` with the per-category totals kept as an ordered map:
      the category with the largest positive total, the one seen first on a
      tie, and `None` for an empty list or when no total is positive. */
  function TopCategory(xs: seq<Txn>): (r: Option<string>)
    ensures r.None? <==> forall i | 0 <= i < |xs| :: CategoryTotal(xs, xs[i].category) <= 0.0
    ensures r.Some? ==> FirstAt(xs, r.value) < |xs|
    ensures r.Some? ==> CategoryTotal(xs, r.value) > 0.0
    ensures r.Some? ==> forall i | 0 <= i < |xs| :: CategoryTotal(xs, xs[i].category) <= CategoryTotal(xs, r.value)
    ensures r.Some? ==> forall i | 0 <= i < FirstAt(xs, r.value) :: CategoryTotal(xs, xs[i].category) < CategoryTotal(xs, r.value)
  {
    if xs == [] then None
    else
      var lead := Leader(Totals(xs, Categories(xs)));
      if lead.None? then
        LeaderNone(xs);
        None
      else
        LeaderSome(xs, lead.value);
        Some(Categories(xs)[lead.value])
  }

  /** No positive total in the list means no category has one. */
  lemma {:induction false} LeaderNone(xs: seq<Txn>)
    requires Leader(Totals(xs, Categories(xs))).None?
    ensures forall i | 0 <= i < |xs| :: CategoryTotal(xs, xs[i].category) <= 0.0
  {
    var totals := Totals(xs, Categories(xs));
    assert forall k | 0 <= k < |totals| :: totals[k] <= 0.0;
    NonPositiveAll(xs);
  }

  lemma {:induction false} NonPositiveAll(xs: seq<Txn>)
    requires forall k | 0 <= k < |Totals(xs, Categories(xs))| :: Totals(xs, Categories(xs))[k] <= 0.0
    ensures forall i | 0 <= i < |xs| :: CategoryTotal(xs, xs[i].category) <= 0.0
  {
    forall i | 0 <= i < |xs|
      ensures CategoryTotal(xs, xs[i].category) <= 0.0
    {
      var j := CategoryIndex(xs, i);
      assert Totals(xs, Categories(xs))[j] == CategoryTotal(xs, Categories(xs)[j]);
    }
  }

  /** The scan's winner is a category of the list with the largest total,
      ahead of every category first seen before it. */
  lemma {:induction false} LeaderSome(xs: seq<Txn>, w: nat)
    requires Leader(Totals(xs, Categories(xs))) == Some(w)
    ensures w < |Categories(xs)|
    ensures var c := Categories(xs)[w];
      && FirstAt(xs, c) < |xs|
      && CategoryTotal(xs, c) > 0.0
      && (forall i | 0 <= i < |xs| :: CategoryTotal(xs, xs[i].category) <= CategoryTotal(xs, c))
      && (forall i | 0 <= i < FirstAt(xs, c) :: CategoryTotal(xs, xs[i].category) < CategoryTotal(xs, c))
  {
    var cats := Categories(xs);
    var totals := Totals(xs, cats);
    var c := cats[w];
    assert totals[w] == CategoryTotal(xs, c);
    FirstSeenFromAt(xs, 0, w);
    forall i | 0 <= i < |xs|
      ensures CategoryTotal(xs, xs[i].category) <= CategoryTotal(xs, c)
    {
      var j := CategoryIndex(xs, i);
      assert totals[j] <= totals[w];
    }
    forall i | 0 <= i < FirstAt(xs, c)
      ensures CategoryTotal(xs, xs[i].category) < CategoryTotal(xs, c)
    {
      var j := CategoryIndex(xs, i);
      // `cats[j]` is first seen no later than `i`, so before `c`.
      assert FirstAt(xs, cats[j]) <= i;
      if w < j {
        FirstSeenFromOrdered(xs, 0, w, j);
      }
      assert j < w;
      assert totals[j] < totals[w];
    }
  }

  /** The status line under the budget cap. */
  datatype BudgetStatus = NoCap | Under(remaining: real) | Over(overage: real)

  /** `updateBudgetStatus`: nothing when the cap is unset or 0; otherwise
      the amount left, or by how much spending exceeds the cap. */
  function BudgetStatusOf(total: real, cap: Option<real>): (r: BudgetStatus)
    ensures r.NoCap? <==> cap.None? || cap.value == 0.0
    ensures r.Under? ==> r.remaining >= 0.0 && total + r.remaining == cap.value
    ensures r.Over? ==> r.overage > 0.0 && cap.value + r.overage == total
  {
    if cap.None? || cap.value == 0.0 then NoCap
    else
      var remaining := cap.value - total;
      if remaining >= 0.0 then Under(remaining) else Over(-remaining)
  }

  /** With a cap set, the status says "under" exactly when spending does not
      exceed the cap. */
  lemma {:induction false} BudgetUnderIff(total: real, cap: real)
    requires cap != 0.0
    ensures BudgetStatusOf(total, Some(cap)).Under? <==> total <= cap
    ensures BudgetStatusOf(total, Some(cap)).Over? <==> total > cap
  {
  }

  /** Milliseconds in seven days. */
  const SevenDaysMs: int := 7 * 24 * 60 * 60 * 1000

  /** Whether `new Date(t.date)` falls in `[from, to]`; `timeOf` stands for
      the date parser, `None` for an invalid date, which compares false. */
  function InWindow(from: int, to: int, timeOf: string -> Option<int>): Txn -> bool {
    (t: Txn) => timeOf(t.date).Some? && from <= timeOf(t.date).value <= to
  }

  /** The spending of the records dated within `[from, to]`. */
  function WindowSpending(xs: seq<Txn>, from: int, to: int, timeOf: string -> Option<int>): real {
    Total(Seqs.Filter(xs, InWindow(from, to, timeOf)))
  }

  /** `getLast7DaysSpending` at the instant `now`: the window opens seven
      days before now and closes at now. */
  function Last7DaysSpending(xs: seq<Txn>, now: int, timeOf: string -> Option<int>): (r: real)
    ensures NonNegative(xs) ==> 0.0 <= r <= Total(xs)
  {
    var r := WindowSpending(xs, now - SevenDaysMs, now, timeOf);
    if NonNegative(xs) then
      TotalFilterBounded(xs, InWindow(now - SevenDaysMs, now, timeOf));
      r
    else r
  }

  /** Each record adds its amount exactly when its date lies in the window. */
  lemma {:induction false} WindowSpendingAppend(xs: seq<Txn>, t: Txn, from: int, to: int, timeOf: string -> Option<int>)
    ensures WindowSpending(xs + [t], from, to, timeOf)
         == WindowSpending(xs, from, to, timeOf)
          + (if InWindow(from, to, timeOf)(t) then t.amount else 0.0)
  {
    var keep := InWindow(from, to, timeOf);
    Seqs.FilterAppend(xs, [t], keep);
    TotalAppend(Seqs.Filter(xs, keep), Seqs.Filter([t], keep));
    assert [t][1..] == [];
  }
}
