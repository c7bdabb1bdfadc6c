/** The event handlers of scripts/ui.js that change the store: the
    transaction form, delete, JSON import and export, clear-all, the budget
    cap and the exchange rates; plus the pipeline `renderTable` applies
    before drawing rows.

    Dialogs (`confirm`) become boolean parameters; the clock, the id
    generator, `parseFloat` and the date parser become parameters too. */
module Controller {
  import opened Wrappers
  import opened Chars
  import opened State
  import opened Validators
  import Search
  import Sorting
  import Seqs

  // ---------------------------------------------------------------------
  // The transaction form

  /** The form after `cleanDescription` has been applied. */
  function Cleaned(form: FormData): FormData {
    form.(description := CleanDescription(form.description))
  }

  /** `if (editingId)`: a non-empty id puts the form in edit mode. */
  predicate EditMode(editingId: Option<string>) {
    editingId.Some? && editingId.value != []
  }

  /** An amount field the validator accepted, read as a number. The
      handler reads it only after the whole form passed. */
  function AmountOf(amount: string): (r: real)
    requires ValidateAmount(amount).valid
    ensures r >= 0.0
    ensures WholeCents(r)
    ensures forall m: nat | amount == ShowNat(m) :: r == m as real
    ensures forall m: nat, d: nat | d < 10 && amount == FormatTenths(m, d) :: r == m as real + d as real / 10.0
    ensures forall n: nat | amount == FormatCents(n) :: r == n as real / 100.0
  {
    AmountPatternIffRegex(amount);
    WholeAmounts(amount);
    TenthsAmounts(amount);
    FormattedAmounts(amount);
    ParseAmount(amount)
  }

  /** The store after a submission and the verdict the form shows. */
  datatype Submission = Submission(store: Store, verdict: FormVerdict)

  /** `handleFormSubmit`. `freshId` is what `generateId` returns and `now`
      what `new Date().toISOString()` returns. */
  function SubmitForm(s: Store, form: FormData, editingId: Option<string>, freshId: string, now: string, dateParses: string -> bool): (r: Submission)
    ensures r.verdict == ValidateForm(Cleaned(form), dateParses)
    ensures !r.verdict.valid ==> r.store == s
    ensures r.store.rates == s.rates && r.store.budgetCap == s.budgetCap
    ensures r.verdict.valid && !EditMode(editingId) ==>
      var f := Cleaned(form);
      && |r.store.txns| == |s.txns| + 1
      && r.store.txns[..|s.txns|] == s.txns
      && r.store.txns[|s.txns|] == Txn(freshId, f.description, AmountOf(f.amount), f.category, f.date, Some(now), Some(now))
      && r.store.saved == Some(r.store.txns)
    ensures r.verdict.valid && EditMode(editingId) && FirstIndex(s.txns, editingId.value).None? ==> r.store == s
    ensures r.verdict.valid && EditMode(editingId) && FirstIndex(s.txns, editingId.value).Some? ==>
      var f := Cleaned(form);
      var i := FirstIndex(s.txns, editingId.value).value;
      && |r.store.txns| == |s.txns|
      && r.store.txns[i] == Txn(editingId.value, f.description, AmountOf(f.amount), f.category, f.date, s.txns[i].createdAt, Some(now))
      && (forall j | 0 <= j < |s.txns| && j != i :: r.store.txns[j] == s.txns[j])
      && r.store.saved == Some(r.store.txns)
  {
    var f := Cleaned(form);
    var verdict := ValidateForm(f, dateParses);
    if !verdict.valid then Submission(s, verdict)
    else if EditMode(editingId) then
      Submission(UpdateTransaction(s, editingId.value, EditPatch(f, dateParses, editingId.value, now)), verdict)
    else
      Submission(AddTransaction(s, NewRecord(f, dateParses, freshId, now)), verdict)
  }

  /** The record a new-mode submission adds: both time stamps are `now`. */
  function NewRecord(f: FormData, dateParses: string -> bool, freshId: string, now: string): Txn
    requires ValidateForm(f, dateParses).valid
  {
    Txn(freshId, f.description, AmountOf(f.amount), f.category, f.date, Some(now), Some(now))
  }

  /** The changes an edit-mode submission merges: the four fields, the id
      again, and `updatedAt`; `createdAt` is left alone. */
  function EditPatch(f: FormData, dateParses: string -> bool, id: string, now: string): Patch
    requires ValidateForm(f, dateParses).valid
  {
    Patch(Some(id), Some(f.description), Some(AmountOf(f.amount)), Some(f.category), Some(f.date), None, Some(now))
  }

  /** A record as the form lets it in: every field passes its validator, the
      description is already clean and the amount has at most two decimals. */
  predicate FormRecord(t: Txn, dateParses: string -> bool) {
    && ValidateDescription(t.description).valid
    && IsClean(t.description)
    && t.amount >= 0.0
    && WholeCents(t.amount)
    && ValidateCategory(t.category).valid
    && ValidateDate(t.date, dateParses).valid
  }

  function IsFormRecord(dateParses: string -> bool): Txn -> bool {
    (t: Txn) => FormRecord(t, dateParses)
  }

  predicate AllFormRecords(xs: seq<Txn>, dateParses: string -> bool) {
    AllRecords(xs, IsFormRecord(dateParses))
  }

  /** The fields an accepted form supplies make a form record. */
  lemma {:induction false} AcceptedFieldsFormRecord(f: FormData, dateParses: string -> bool, t: Txn)
    requires ValidateForm(f, dateParses).valid
    requires IsClean(f.description)
    requires t.description == f.description && t.amount == AmountOf(f.amount)
    requires t.category == f.category && t.date == f.date
    ensures FormRecord(t, dateParses)
  {
  }

  lemma {:induction false} NewRecordKeeps(s: Store, f: FormData, dateParses: string -> bool, freshId: string, now: string)
    requires AllFormRecords(s.txns, dateParses)
    requires ValidateForm(f, dateParses).valid && IsClean(f.description)
    ensures AllFormRecords(AddTransaction(s, NewRecord(f, dateParses, freshId, now)).txns, dateParses)
  {
    var t := NewRecord(f, dateParses, freshId, now);
    AcceptedFieldsFormRecord(f, dateParses, t);
    AddKeeps(s, t, IsFormRecord(dateParses));
  }

  /** Merging an accepted edit into any record gives a form record. */
  lemma {:induction false} EditedFormRecord(t: Txn, f: FormData, dateParses: string -> bool, id: string, now: string)
    requires ValidateForm(f, dateParses).valid && IsClean(f.description)
    ensures IsFormRecord(dateParses)(Merge(t, EditPatch(f, dateParses, id, now)))
  {
    AcceptedFieldsFormRecord(f, dateParses, Merge(t, EditPatch(f, dateParses, id, now)));
  }

  lemma {:induction false} EditPatchKeeps(s: Store, f: FormData, dateParses: string -> bool, id: string, now: string)
    requires AllFormRecords(s.txns, dateParses)
    requires ValidateForm(f, dateParses).valid && IsClean(f.description)
    ensures AllFormRecords(UpdateTransaction(s, id, EditPatch(f, dateParses, id, now)).txns, dateParses)
  {
    var p := EditPatch(f, dateParses, id, now);
    if FirstIndex(s.txns, id).Some? {
      EditedFormRecord(s.txns[FirstIndex(s.txns, id).value], f, dateParses, id, now);
    }
    UpdateKeeps(s, id, p, IsFormRecord(dateParses));
  }

  /** The form never stores a record its validators would reject. */
  lemma {:induction false} SubmitKeepsFormRecords(s: Store, form: FormData, editingId: Option<string>, freshId: string, now: string, dateParses: string -> bool)
    requires AllFormRecords(s.txns, dateParses)
    ensures AllFormRecords(SubmitForm(s, form, editingId, freshId, now, dateParses).store.txns, dateParses)
  {
    var f := Cleaned(form);
    if ValidateForm(f, dateParses).valid {
      if EditMode(editingId) {
        EditPatchKeeps(s, f, dateParses, editingId.value, now);
      } else {
        NewRecordKeeps(s, f, dateParses, freshId, now);
      }
    }
  }

  // ---------------------------------------------------------------------
  // Delete

  /** `handleDelete`: an unknown id changes nothing; otherwise the record
      goes only if the user confirms. */
  function HandleDelete(s: Store, id: string, confirmed: bool): (r: Store)
    ensures (forall i | 0 <= i < |s.txns| :: s.txns[i].id != id) ==> r == s
    ensures !confirmed ==> r == s
    ensures confirmed && (exists i | 0 <= i < |s.txns| :: s.txns[i].id == id) ==>
      && (forall i | 0 <= i < |r.txns| :: r.txns[i].id != id)
      && |r.txns| < |s.txns|
      && Seqs.IsSubsequence(r.txns, s.txns)
      && r.saved == Some(r.txns)
      && r == DeleteTransaction(s, id)
  {
    match FirstIndex(s.txns, id)
    case None => s
    case Some(i) =>
      if confirmed then
        DeleteShrinks(s.txns, id, i);
        DeleteTransaction(s, id)
      else s
  }

  /** Dropping a present id shortens the list. */
  lemma {:induction false} DeleteShrinks(xs: seq<Txn>, id: string, i: nat)
    requires i < |xs| && xs[i].id == id
    ensures |Seqs.Filter(xs, OtherId(id))| < |xs|
  {
    if i == 0 {
      assert xs[0].id == id;
    } else {
      DeleteShrinks(xs[1..], id, i - 1);
    }
  }

  // ---------------------------------------------------------------------
  // Import and export

  /** A value `JSON.parse` can return. */
  datatype Json =
    | JNull
    | JBool(b: bool)
    | JNum(n: real)
    | JStr(s: string)
    | JArr(items: seq<Json>)
    | JObj(fields: map<string, Json>)

  /** JavaScript truthiness of a property read; `None` is `undefined`. */
  predicate Truthy(v: Option<Json>) {
    match v
    case None => false
    case Some(JNull) => false
    case Some(JBool(b)) => b
    case Some(JNum(n)) => n != 0.0
    case Some(JStr(s)) => s != []
    case Some(JArr(_)) => true
    case Some(JObj(_)) => true
  }

  /** `t[key]` on an element that is not `null`: an object's own field, or
      `undefined` for every key the import reads on anything else. */
  function Get(t: Json, key: string): Option<Json> {
    if t.JObj? && key in t.fields then Some(t.fields[key]) else None
  }

  /** The per-record test of `data.every(...)`. */
  predicate ShapeOk(t: Json) {
    && Truthy(Get(t, "id"))
    && Truthy(Get(t, "description"))
    && Get(t, "amount").Some? && Get(t, "amount").value.JNum?
    && Truthy(Get(t, "category"))
    && Truthy(Get(t, "date"))
  }

  /** How `data.every(...)` ends: reading a field of `null` throws, which
      the surrounding `try` reports as a read error. */
  datatype Every = Pass | Fail | Throws

  /** A record that passes the test without throwing. */
  predicate Good(t: Json) {
    t != JNull && ShapeOk(t)
  }

  /** `items[i]` is the first record that does not pass: `every` stops there. */
  predicate FirstBadAt(items: seq<Json>, i: int) {
    0 <= i < |items| && !Good(items[i]) && forall j | 0 <= j < i :: Good(items[j])
  }

  function EveryShape(items: seq<Json>): (r: Every)
    ensures r == Pass <==> forall i | 0 <= i < |items| :: items[i] != JNull && ShapeOk(items[i])
    ensures r == Throws <==> exists i :: FirstBadAt(items, i) && items[i] == JNull
    ensures r == Fail <==> exists i :: FirstBadAt(items, i) && items[i] != JNull
  {
    if items == [] then Pass
    else if items[0] == JNull then Throws
    else if !ShapeOk(items[0]) then Fail
    else EveryShape(items[1..])
  }

  /** A string field, or an optional timestamp: absent, `null` or a string. */
  predicate StrField(t: Json, key: string) {
    Get(t, key).Some? && Get(t, key).value.JStr?
  }

  predicate StampField(t: Json, key: string) {
    Get(t, key).None? || Get(t, key).value.JNull? || Get(t, key).value.JStr?
  }

  /** A record the model's `Txn` can hold. */
  predicate Representable(t: Json) {
    && StrField(t, "id") && StrField(t, "description") && StrField(t, "category") && StrField(t, "date")
    && Get(t, "amount").Some? && Get(t, "amount").value.JNum?
    && StampField(t, "createdAt") && StampField(t, "updatedAt")
  }

  function Stamp(t: Json, key: string): Option<string>
    requires StampField(t, key)
  {
    if Get(t, key).Some? && Get(t, key).value.JStr? then Some(Get(t, key).value.s) else None
  }

  /** `{ ...t, amount: parseFloat(t.amount) }`: a number reads back as
      itself. */
  function ToTxn(t: Json): Txn
    requires Representable(t)
  {
    Txn(Get(t, "id").value.s, Get(t, "description").value.s, Get(t, "amount").value.n,
        Get(t, "category").value.s, Get(t, "date").value.s, Stamp(t, "createdAt"), Stamp(t, "updatedAt"))
  }

  function ToTxns(items: seq<Json>): (r: seq<Txn>)
    requires forall i | 0 <= i < |items| :: Representable(items[i])
    ensures |r| == |items|
    ensures forall i | 0 <= i < |items| :: r[i] == ToTxn(items[i])
  {
    if items == [] then [] else [ToTxn(items[0])] + ToTxns(items[1..])
  }

  /** What the import handler tells the user. */
  datatype ImportOutcome = ReadError | NotAnArray | InvalidData | Declined | Unrepresentable | Imported

  datatype ImportResult = ImportResult(store: Store, outcome: ImportOutcome)

  /** The import handler for a file whose text `JSON.parse` turned into
      `parsed` (`None`: the text is not JSON). */
  function ImportFile(s: Store, parsed: Option<Json>, confirmed: bool): (r: ImportResult)
    ensures r.outcome != Imported ==> r.store == s
    ensures parsed.None? ==> r.outcome == ReadError
    ensures parsed.Some? && !parsed.value.JArr? ==> r.outcome == NotAnArray
    ensures r.outcome == Imported <==>
      && parsed.Some? && parsed.value.JArr?
      && (forall i | 0 <= i < |parsed.value.items| :: parsed.value.items[i] != JNull && ShapeOk(parsed.value.items[i]))
      && confirmed
      && (forall i | 0 <= i < |parsed.value.items| :: Representable(parsed.value.items[i]))
    ensures r.outcome == ReadError <==>
      parsed.None? || (parsed.value.JArr? && exists i :: FirstBadAt(parsed.value.items, i) && parsed.value.items[i] == JNull)
    ensures r.outcome == InvalidData <==>
      parsed.Some? && parsed.value.JArr? && exists i :: FirstBadAt(parsed.value.items, i) && parsed.value.items[i] != JNull
    ensures r.outcome == Declined <==>
      && parsed.Some? && parsed.value.JArr?
      && (forall i | 0 <= i < |parsed.value.items| :: Good(parsed.value.items[i]))
      && !confirmed
    ensures r.outcome == Unrepresentable <==>
      && parsed.Some? && parsed.value.JArr?
      && (forall i | 0 <= i < |parsed.value.items| :: Good(parsed.value.items[i]))
      && confirmed
      && !(forall i | 0 <= i < |parsed.value.items| :: Representable(parsed.value.items[i]))
    ensures r.outcome == Imported ==>
      && |r.store.txns| == |parsed.value.items|
      && (forall i | 0 <= i < |r.store.txns| :: r.store.txns[i] == ToTxn(parsed.value.items[i]))
      && r.store.saved == Some(r.store.txns)
      && r.store.rates == s.rates && r.store.budgetCap == s.budgetCap
  {
    match parsed
    case None => ImportResult(s, ReadError)
    case Some(data) =>
      if !data.JArr? then ImportResult(s, NotAnArray)
      else match EveryShape(data.items)
        case Throws => ImportResult(s, ReadError)
        case Fail => ImportResult(s, InvalidData)
        case Pass =>
          if !confirmed then ImportResult(s, Declined)
          else if !(forall i | 0 <= i < |data.items| :: Representable(data.items[i])) then ImportResult(s, Unrepresentable)
          else
            var txns := ToTxns(data.items);
            ImportResult(Init(Save(ClearStorage(s), txns)), Imported)
  }

  /** `JSON.stringify` of one record: the timestamps appear only when set. */
  function RecordJson(t: Txn): Json {
    var base := map[
      "id" := JStr(t.id), "description" := JStr(t.description), "amount" := JNum(t.amount),
      "category" := JStr(t.category), "date" := JStr(t.date)];
    var withCreated := if t.createdAt.Some? then base["createdAt" := JStr(t.createdAt.value)] else base;
    JObj(if t.updatedAt.Some? then withCreated["updatedAt" := JStr(t.updatedAt.value)] else withCreated)
  }

  /** The export button's JSON. */
  function ExportJson(xs: seq<Txn>): (r: Json)
    ensures r.JArr? && |r.items| == |xs|
    ensures forall i | 0 <= i < |xs| :: r.items[i] == RecordJson(xs[i])
  {
    JArr(seq(|xs|, i requires 0 <= i < |xs| => RecordJson(xs[i])))
  }

  /** A record whose id, description, category and date are non-empty. */
  predicate Importable(t: Txn) {
    t.id != [] && t.description != [] && t.category != [] && t.date != []
  }

  /** Each field of an exported record reads back as the record's value. */
  lemma {:induction false} RecordFields(t: Txn)
    ensures Get(RecordJson(t), "id") == Some(JStr(t.id))
    ensures Get(RecordJson(t), "description") == Some(JStr(t.description))
    ensures Get(RecordJson(t), "amount") == Some(JNum(t.amount))
    ensures Get(RecordJson(t), "category") == Some(JStr(t.category))
    ensures Get(RecordJson(t), "date") == Some(JStr(t.date))
    ensures Get(RecordJson(t), "createdAt") == if t.createdAt.Some? then Some(JStr(t.createdAt.value)) else None
    ensures Get(RecordJson(t), "updatedAt") == if t.updatedAt.Some? then Some(JStr(t.updatedAt.value)) else None
  {
  }

  lemma {:induction false} RecordRoundTrip(t: Txn)
    requires Importable(t)
    ensures RecordJson(t) != JNull && ShapeOk(RecordJson(t)) && Representable(RecordJson(t))
    ensures ToTxn(RecordJson(t)) == t
  {
    RecordFields(t);
  }

  /** Importing an exported file, confirmed, restores exactly the exported
      records, provided each has the fields the import insists on. */
  lemma {:induction false} ExportImportRoundTrip(s: Store, xs: seq<Txn>)
    requires forall i | 0 <= i < |xs| :: Importable(xs[i])
    ensures ImportFile(s, Some(ExportJson(xs)), true).outcome == Imported
    ensures ImportFile(s, Some(ExportJson(xs)), true).store.txns == xs
  {
    var data := ExportJson(xs);
    forall i | 0 <= i < |xs|
      ensures data.items[i] != JNull && ShapeOk(data.items[i]) && Representable(data.items[i])
      ensures ToTxn(data.items[i]) == xs[i]
    {
      RecordRoundTrip(xs[i]);
    }
  }

  // ---------------------------------------------------------------------
  // Clear all, budget cap, exchange rates

  /** The clear-all button: only after two confirmations are the storage
      key and the transactions emptied; rates and cap stay. */
  function ClearAll(s: Store, first: bool, second: bool): (r: Store)
    ensures first && second ==> r.txns == [] && r.saved == None
    ensures !(first && second) ==> r == s
    ensures r.rates == s.rates && r.budgetCap == s.budgetCap
  {
    if first && second then Init(ClearStorage(s)) else s
  }

  /** What the cap button reports. */
  datatype CapOutcome = CapRemoved | CapInvalid | CapSet

  datatype CapResult = CapResult(store: Store, outcome: CapOutcome)

  /** The cap button: blank input removes the cap; otherwise `parseFloat`
      of the trimmed text must give a positive number. */
  function SetCapFromInput(s: Store, input: string, parseFloat: string -> Option<real>): (r: CapResult)
    ensures r.outcome == CapRemoved <==> AllSpace(input)
    ensures r.outcome == CapRemoved ==> r.store.budgetCap == None
    ensures !AllSpace(input) && r.outcome != CapSet ==> r.outcome == CapInvalid && r.store == s
    ensures r.outcome == CapSet <==>
      !AllSpace(input) && parseFloat(Trim(input)).Some? && parseFloat(Trim(input)).value > 0.0
    ensures r.outcome == CapSet ==> r.store.budgetCap == parseFloat(Trim(input))
    ensures r.outcome == CapInvalid ==> r.store == s
    ensures r.store.txns == s.txns && r.store.rates == s.rates && r.store.saved == s.saved
  {
    var value := Trim(input);
    if value == [] then CapResult(SetBudgetCap(s, None), CapRemoved)
    else
      var cap := parseFloat(value);
      if cap.None? || cap.value <= 0.0 then CapResult(s, CapInvalid)
      else CapResult(SetBudgetCap(s, cap), CapSet)
  }

  /** The save-rates button: both rates must parse to positive numbers;
      then they replace the USD and GBP rates. */
  function SaveRatesFromInput(s: Store, usdText: string, gbpText: string, parseFloat: string -> Option<real>): (r: Store)
    ensures var u := parseFloat(usdText); var g := parseFloat(gbpText);
      if u.Some? && g.Some? && u.value > 0.0 && g.value > 0.0 then
        && r.rates == s.rates["usd" := u.value]["gbp" := g.value]
        && r.txns == s.txns && r.budgetCap == s.budgetCap && r.saved == s.saved
      else r == s
  {
    var u := parseFloat(usdText);
    var g := parseFloat(gbpText);
    if u.None? || g.None? || u.value <= 0.0 || g.value <= 0.0 then s
    else SetRates(s, map["usd" := u.value, "gbp" := g.value])
  }

  /** The settings the UI can reach: no cap or a positive one, and only
      positive rates. */
  predicate SettingsOk(s: Store) {
    && (s.budgetCap.None? || s.budgetCap.value > 0.0)
    && (forall k | k in s.rates :: s.rates[k] > 0.0)
  }

  /** The settings start well. */
  lemma {:induction false} SettingsAtStart(saved: Option<seq<Txn>>)
    ensures SettingsOk(Init(Boot(saved)))
  {
    assert Init(Boot(saved)).rates == InitialRates;
  }

  /** The cap and rate buttons keep the settings well; the other handlers
      leave cap and rates alone. Hence the cap-equals-zero branch of the
      budget status never runs. */
  lemma {:induction false} SettingsPreserved(s: Store, text: string, text2: string, parseFloat: string -> Option<real>)
    requires SettingsOk(s)
    ensures SettingsOk(SetCapFromInput(s, text, parseFloat).store)
    ensures SettingsOk(SaveRatesFromInput(s, text, text2, parseFloat))
  {
    var r := SaveRatesFromInput(s, text, text2, parseFloat);
    forall k | k in r.rates
      ensures r.rates[k] > 0.0
    {
      if k != "usd" && k != "gbp" {
        assert r.rates[k] == s.rates[k];
      }
    }
  }

  // ---------------------------------------------------------------------
  // The rows `renderTable` draws

  /** `renderTable`'s filtering and sorting: search only when the box is
      non-empty and the pattern compiles, then sort when a column is
      chosen. */
  function VisibleRows<P>(engine: Search.Engine<P>, s: Store, search: string, caseSensitive: bool, sort: Sorting.SortState): seq<Txn> {
    var txns := GetTransactions(s);
    var filtered :=
      if search != [] && Search.CompileRegex(engine, search, !caseSensitive).Some?
      then Search.SearchTransactions(engine, txns, search, caseSensitive)
      else txns;
    Sorting.SortView(filtered, sort)
  }

  /** The extra guard in `renderTable` changes nothing: the rows are the
      search result, in the chosen order, and hold exactly the records the
      search keeps. */
  lemma {:induction false} VisibleRowsAreSearchResult<P>(engine: Search.Engine<P>, s: Store, search: string, caseSensitive: bool, sort: Sorting.SortState)
    ensures var found := Search.SearchTransactions(engine, s.txns, search, caseSensitive);
      && VisibleRows(engine, s, search, caseSensitive, sort) == Sorting.SortView(found, sort)
      && multiset(VisibleRows(engine, s, search, caseSensitive, sort)) == multiset(found)
  {
  }
}
