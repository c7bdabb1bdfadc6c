/** The transaction store of scripts/state.js: the in-memory transactions,
    the exchange rates and the budget cap, together with the content of the
    browser-storage key the store writes through scripts/storage.js.

    The module-level variables of the source become one immutable `Store`
    value; each operation returns the next one. */
module State {
  import opened Wrappers
  import Seqs

  /** A transaction record. `createdAt` / `updatedAt` are optional because
      imported records need not carry them. */
  datatype Txn = Txn(
    id: string,
    description: string,
    amount: real,
    category: string,
    date: string,
    createdAt: Option<string>,
    updatedAt: Option<string>)

  /** The fields an update supplies; `None` means the key is absent, so the
      existing value survives the shallow merge. */
  datatype Patch = Patch(
    id: Option<string>,
    description: Option<string>,
    amount: Option<real>,
    category: Option<string>,
    date: Option<string>,
    createdAt: Option<string>,
    updatedAt: Option<string>)

  /** Currency code to conversion factor. */
  type Rates = map<string, real>

  const InitialRates: Rates := map["usd" := 0.000685, "gbp" := 0.000504]

  /** The store's variables plus the storage key's content: `saved` is what
      `save` last wrote, `None` once the key is absent. */
  datatype Store = Store(txns: seq<Txn>, rates: Rates, budgetCap: Option<real>, saved: Option<seq<Txn>>)

  /** The store as the module is loaded, before `init`: no transactions,
      the default rates, no cap; the storage holds whatever it held. */
  function Boot(saved: Option<seq<Txn>>): Store {
    Store([], InitialRates, None, saved)
  }

  /** `load()`: the saved list, or the empty list when nothing is stored. */
  function Load(saved: Option<seq<Txn>>): seq<Txn> {
    saved.GetOr([])
  }

  /** `save(data)`. */
  function Save(s: Store, data: seq<Txn>): Store {
    s.(saved := Some(data))
  }

  /** `clear()` of the storage module: removes the key. */
  function ClearStorage(s: Store): Store {
    s.(saved := None)
  }

  /** `init`: replaces the transactions with the loaded list; nothing else
      changes. */
  function Init(s: Store): (r: Store)
    ensures s.saved.Some? ==> r.txns == s.saved.value
    ensures s.saved.None? ==> r.txns == []
    ensures r.rates == s.rates && r.budgetCap == s.budgetCap && r.saved == s.saved
  {
    s.(txns := Load(s.saved))
  }

  /** Loading at start-up: the stored list, the default rates and no cap. */
  lemma {:induction false} InitAfterBoot(saved: Option<seq<Txn>>)
    ensures Init(Boot(saved)).txns == Load(saved)
    ensures Init(Boot(saved)).rates == InitialRates
    ensures Init(Boot(saved)).budgetCap == None
  {
  }

  /** What `save` wrote is what `init` reads back. */
  lemma {:induction false} InitAfterSave(s: Store, data: seq<Txn>)
    ensures Init(Save(s, data)).txns == data
    ensures Init(Save(s, data)).saved == Some(data)
  {
  }

  function GetTransactions(s: Store): seq<Txn> {
    s.txns
  }

  function GetRates(s: Store): Rates {
    s.rates
  }

  function GetBudgetCap(s: Store): Option<real> {
    s.budgetCap
  }

  /** `addTransaction`: push, then save the whole list. */
  function AddTransaction(s: Store, t: Txn): (r: Store)
    ensures |r.txns| == |s.txns| + 1
    ensures r.txns[..|s.txns|] == s.txns
    ensures r.txns[|s.txns|] == t
    ensures r.saved == Some(r.txns)
    ensures r.rates == s.rates && r.budgetCap == s.budgetCap
  {
    var txns := s.txns + [t];
    s.(txns := txns, saved := Some(txns))
  }

  /** `findIndex(t => t.id === id)`, with `None` for -1. */
  function FirstIndex(xs: seq<Txn>, id: string): (r: Option<nat>)
    ensures r.None? <==> forall i | 0 <= i < |xs| :: xs[i].id != id
    ensures r.Some? ==> r.value < |xs| && xs[r.value].id == id
    ensures r.Some? ==> forall i | 0 <= i < r.value :: xs[i].id != id
  {
    if xs == [] then None
    else if xs[0].id == id then Some(0)
    else match FirstIndex(xs[1..], id)
      case None => None
      case Some(i) => Some(i + 1)
  }

  /** `{ ...t, ...p }`: each supplied field replaces the record's own. */
  function Merge(t: Txn, p: Patch): Txn {
    Txn(
      p.id.GetOr(t.id),
      p.description.GetOr(t.description),
      p.amount.GetOr(t.amount),
      p.category.GetOr(t.category),
      p.date.GetOr(t.date),
      if p.createdAt.Some? then p.createdAt else t.createdAt,
      if p.updatedAt.Some? then p.updatedAt else t.updatedAt)
  }

  const NoFields := Patch(None, None, None, None, None, None, None)

  /** Merging nothing changes nothing, and merging the same fields twice is
      merging them once. */
  lemma {:induction false} MergeLaws(t: Txn, p: Patch)
    ensures Merge(t, NoFields) == t
    ensures Merge(Merge(t, p), p) == Merge(t, p)
  {
  }

  /** `updateTransaction`: merges into the first record with that id and
      saves; with no such record nothing happens and nothing is saved. */
  function UpdateTransaction(s: Store, id: string, p: Patch): (r: Store)
    ensures (forall i | 0 <= i < |s.txns| :: s.txns[i].id != id) ==> r == s
    ensures FirstIndex(s.txns, id).Some? ==>
      var i := FirstIndex(s.txns, id).value;
      && |r.txns| == |s.txns|
      && r.txns[i] == Merge(s.txns[i], p)
      && (forall j | 0 <= j < |s.txns| && j != i :: r.txns[j] == s.txns[j])
      && r.saved == Some(r.txns)
    ensures r.rates == s.rates && r.budgetCap == s.budgetCap
  {
    match FirstIndex(s.txns, id)
    case None => s
    case Some(i) =>
      var txns := s.txns[i := Merge(s.txns[i], p)];
      s.(txns := txns, saved := Some(txns))
  }

  /** The filter `deleteTransaction` applies: keep other ids. */
  function OtherId(id: string): Txn -> bool {
    (t: Txn) => t.id != id
  }

  /** `deleteTransaction`: drops every record with that id, keeps the order
      of the rest, and saves, even when nothing matched. */
  function DeleteTransaction(s: Store, id: string): (r: Store)
    ensures forall i | 0 <= i < |r.txns| :: r.txns[i].id != id
    ensures forall i | 0 <= i < |s.txns| :: s.txns[i].id != id ==> s.txns[i] in r.txns
    ensures Seqs.IsSubsequence(r.txns, s.txns)
    ensures forall t: Txn | t.id != id :: multiset(r.txns)[t] == multiset(s.txns)[t]
    ensures (forall i | 0 <= i < |s.txns| :: s.txns[i].id != id) ==> r.txns == s.txns
    ensures r.saved == Some(r.txns)
    ensures r.rates == s.rates && r.budgetCap == s.budgetCap
  {
    var txns := Seqs.Filter(s.txns, OtherId(id));
    Seqs.FilterCount(s.txns, OtherId(id));
    s.(txns := txns, saved := Some(txns))
  }

  /** Every record of the list has the property `ok`. */
  predicate AllRecords(xs: seq<Txn>, ok: Txn -> bool) {
    forall i | 0 <= i < |xs| :: ok(xs[i])
  }

  /** Adding a record that has a per-record property keeps it for the list. */
  lemma {:induction false} AddKeeps(s: Store, t: Txn, ok: Txn -> bool)
    requires AllRecords(s.txns, ok) && ok(t)
    ensures AllRecords(AddTransaction(s, t).txns, ok)
  {
    var xs := AddTransaction(s, t).txns;
    forall i | 0 <= i < |xs|
      ensures ok(xs[i])
    {
      if i < |s.txns| {
        assert xs[i] == s.txns[i];
      }
    }
  }

  /** An update whose merged record keeps a per-record property keeps it for
      the list. */
  lemma {:induction false} UpdateKeeps(s: Store, id: string, p: Patch, ok: Txn -> bool)
    requires AllRecords(s.txns, ok)
    requires FirstIndex(s.txns, id).Some? ==> ok(Merge(s.txns[FirstIndex(s.txns, id).value], p))
    ensures AllRecords(UpdateTransaction(s, id, p).txns, ok)
  {
    var xs := UpdateTransaction(s, id, p).txns;
    match FirstIndex(s.txns, id)
    case None =>
    case Some(k) =>
      forall i | 0 <= i < |xs|
        ensures ok(xs[i])
      {
        if i != k {
          assert xs[i] == s.txns[i];
        }
      }
  }

  /** Deleting keeps any per-record property. */
  lemma {:induction false} DeleteKeeps(s: Store, id: string, ok: Txn -> bool)
    requires AllRecords(s.txns, ok)
    ensures AllRecords(DeleteTransaction(s, id).txns, ok)
  {
    var xs := DeleteTransaction(s, id).txns;
    forall i | 0 <= i < |xs|
      ensures ok(xs[i])
    {
      assert xs[i] in s.txns;
    }
  }

  /** `setRates`: the given keys replace their values, the others stay; the
      rates are not written to storage. */
  function SetRates(s: Store, newRates: Rates): (r: Store)
    ensures r.rates.Keys == s.rates.Keys + newRates.Keys
    ensures forall k | k in newRates :: r.rates[k] == newRates[k]
    ensures forall k | k in s.rates && k !in newRates :: r.rates[k] == s.rates[k]
    ensures r.txns == s.txns && r.budgetCap == s.budgetCap && r.saved == s.saved
  {
    s.(rates := s.rates + newRates)
  }

  /** `setBudgetCap`: the cap becomes `amount`; nothing is saved. */
  function SetBudgetCap(s: Store, amount: Option<real>): (r: Store)
    ensures GetBudgetCap(r) == amount
    ensures r.txns == s.txns && r.rates == s.rates && r.saved == s.saved
  {
    s.(budgetCap := amount)
  }
}
