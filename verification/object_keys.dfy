/** `getTopCategory` (scripts/ui.js) as written: the per-category totals live
    in a plain object literal `{}` and are enumerated with `for … in`.

    Two JavaScript object rules then decide the result besides the totals:
    - a category named like a member of `Object.prototype` reads an inherited
      function, so `+=` turns its slot into a string, which never compares
      greater than a number; and `__proto__` never becomes a key at all;
    - `for … in` lists the keys that are array indices (`"0"`, `"7"`, …) first,
      in numeric order, and only then the others in creation order.

    `Stats.TopCategory` is the intended behaviour. `TopCategoryAgrees` shows
    that the two agree when no category falls under these rules; the lemmas
    at the end show where they part. */
module ObjectKeys {
  import opened Wrappers
  import opened Chars
  import opened State
  import Validators
  import Stats

  /** The data properties `Object.prototype` provides; each holds a
      function. `__proto__` is an accessor and is handled on its own. */
  const PrototypeNames: set<string> := {
    "constructor", "hasOwnProperty", "isPrototypeOf", "propertyIsEnumerable",
    "toLocaleString", "toString", "valueOf",
    "__defineGetter__", "__defineSetter__", "__lookupGetter__", "__lookupSetter__"
  }

  const ProtoAccessor := "__proto__"

  /** A property value of `categoryTotals`: a number, or the string that
      adding a number to a function produces. */
  datatype Slot = Num(n: real) | Text

  /** A plain object: own keys in creation order and their values. */
  datatype Obj = Obj(keys: seq<string>, slots: map<string, Slot>)

  /** The object's keys are listed once each, and every listed key has a value. */
  predicate WellFormed(o: Obj) {
    && (forall i | 0 <= i < |o.keys| :: o.keys[i] in o.slots)
    && (forall k | k in o.slots :: k in o.keys)
    && (forall i, j | 0 <= i < j < |o.keys| :: o.keys[i] != o.keys[j])
  }

  /** One turn of `transactions.forEach`: the `if (!categoryTotals[c])`
      reset, then `categoryTotals[c] += t.amount`. */
  function Accumulate(o: Obj, t: Txn): Obj {
    var c := t.category;
    if c == ProtoAccessor then
      // Reads Object.prototype (truthy); assigning a string to the
      // `__proto__` setter is ignored.
      o
    else if c in o.slots then
      match o.slots[c]
      case Num(v) => Obj(o.keys, o.slots[c := Num(v + t.amount)])
      case Text => o
    else if c in PrototypeNames then
      // The inherited function is truthy, so there is no reset, and
      // function + number concatenates to a string.
      Obj(o.keys + [c], o.slots[c := Text])
    else
      Obj(o.keys + [c], o.slots[c := Num(0.0 + t.amount)])
  }

  /** The object's keys stay listed once each with a value, `__proto__` is
      never added, and an inherited name only ever holds a string. */
  predicate Invariant(o: Obj) {
    && WellFormed(o)
    && ProtoAccessor !in o.slots
    && (forall k | k in o.slots && k in PrototypeNames :: o.slots[k] == Text)
  }

  lemma {:induction false} AccumulateKeeps(o: Obj, t: Txn)
    requires Invariant(o)
    ensures Invariant(Accumulate(o, t))
  {
    var c := t.category;
    if c != ProtoAccessor && c !in o.slots {
      var v := if c in PrototypeNames then Text else Num(0.0 + t.amount);
      AddKeyKeeps(o, c, v);
    }
  }

  /** Adding a fresh key at the end keeps the keys listed once each. */
  lemma {:induction false} AddKeyKeeps(o: Obj, c: string, v: Slot)
    requires WellFormed(o) && c !in o.slots
    ensures WellFormed(Obj(o.keys + [c], o.slots[c := v]))
  {
    var ks := o.keys + [c];
    forall i, j | 0 <= i < j < |ks|
      ensures ks[i] != ks[j]
    {
      if j == |o.keys| {
        assert ks[i] == o.keys[i];
      } else {
        assert ks[i] == o.keys[i] && ks[j] == o.keys[j];
      }
    }
    forall i | 0 <= i < |ks|
      ensures ks[i] in o.slots[c := v]
    {
      if i < |o.keys| {
        assert ks[i] == o.keys[i];
      }
    }
    forall k | k in o.slots[c := v]
      ensures k in ks
    {
      if k != c {
        var i :| 0 <= i < |o.keys| && o.keys[i] == k;
        assert ks[i] == k;
      } else {
        assert ks[|o.keys|] == c;
      }
    }
  }

  /** The object after `forEach` has visited the first `|xs|` records. */
  function TotalsObject(xs: seq<Txn>): Obj {
    if xs == [] then Obj([], map[])
    else Accumulate(TotalsObject(xs[..|xs| - 1]), xs[|xs| - 1])
  }

  lemma {:induction false} TotalsObjectInvariant(xs: seq<Txn>)
    ensures Invariant(TotalsObject(xs))
  {
    if xs != [] {
      TotalsObjectInvariant(xs[..|xs| - 1]);
      AccumulateKeeps(TotalsObject(xs[..|xs| - 1]), xs[|xs| - 1]);
    }
  }

  /** A canonical array index: `"0"` or a digit string without a leading
      zero whose value is below 2^32 - 1. */
  predicate IsArrayIndex(s: string) {
    && |s| >= 1
    && Validators.AllDigits(s)
    && (s == "0" || s[0] != '0')
    && Validators.DigitsValue(s) <= 4294967294
  }

  /** Puts an index key among index keys kept in ascending numeric order. */
  function InsertIndex(k: string, ks: seq<string>): (r: seq<string>)
    requires IsArrayIndex(k)
    requires forall i | 0 <= i < |ks| :: IsArrayIndex(ks[i])
    ensures forall i | 0 <= i < |r| :: IsArrayIndex(r[i])
    ensures multiset(r) == multiset{k} + multiset(ks)
  {
    if ks == [] then [k]
    else
      assert IsArrayIndex(ks[0]);
      if Validators.DigitsValue(k) < Validators.DigitsValue(ks[0]) then [k] + ks
      else
        assert ks == [ks[0]] + ks[1..];
        [ks[0]] + InsertIndex(k, ks[1..])
  }

  /** The index keys of `ks` in ascending numeric order. */
  function IndexKeys(ks: seq<string>): (r: seq<string>)
    ensures forall i | 0 <= i < |r| :: IsArrayIndex(r[i])
  {
    if ks == [] then []
    else if IsArrayIndex(ks[0]) then InsertIndex(ks[0], IndexKeys(ks[1..]))
    else IndexKeys(ks[1..])
  }

  /** The other keys of `ks`, in creation order. */
  function NamedKeys(ks: seq<string>): (r: seq<string>)
    ensures forall i | 0 <= i < |r| :: !IsArrayIndex(r[i]) && r[i] in ks
  {
    if ks == [] then []
    else if IsArrayIndex(ks[0]) then NamedKeys(ks[1..])
    else [ks[0]] + NamedKeys(ks[1..])
  }

  /** The order in which `for (const category in categoryTotals)` visits the
      keys. */
  function ForInOrder(o: Obj): seq<string> {
    IndexKeys(o.keys) + NamedKeys(o.keys)
  }

  /** `categoryTotals[category] > maxAmount`: a string slot compares as NaN,
      so never greater. */
  predicate Beats(s: Slot, max: real) {
    s.Num? && s.n > max
  }

  /** The `for … in` loop over `order`, from `topCategory`/`maxAmount`. */
  function ScanKeys(order: seq<string>, slots: map<string, Slot>, top: Option<string>, max: real): (r: Option<string>)
    requires forall i | 0 <= i < |order| :: order[i] in slots
    requires top.Some? ==> top.value in slots && slots[top.value].Num?
    ensures r.Some? ==> r.value in slots && slots[r.value].Num?
  {
    if order == [] then top
    else if Beats(slots[order[0]], max) then ScanKeys(order[1..], slots, Some(order[0]), slots[order[0]].n)
    else ScanKeys(order[1..], slots, top, max)
  }

  lemma {:induction false} IndexKeysListed(ks: seq<string>)
    ensures forall i | 0 <= i < |IndexKeys(ks)| :: IndexKeys(ks)[i] in ks
  {
    if ks != [] {
      IndexKeysListed(ks[1..]);
      var rest := IndexKeys(ks[1..]);
      if IsArrayIndex(ks[0]) {
        var r := InsertIndex(ks[0], rest);
        forall i | 0 <= i < |r|
          ensures r[i] in ks
        {
          assert r[i] in multiset(r);
          if r[i] != ks[0] {
            assert r[i] in multiset(rest);
          }
        }
      }
    }
  }

  /** `getTopCategory` as written. */
  function TopCategoryAsWritten(xs: seq<Txn>): (r: Option<string>)
    ensures xs == [] ==> r.None?
    ensures r.Some? ==> r.value !in PrototypeNames && r.value != ProtoAccessor
  {
    if xs == [] then None
    else
      var o := TotalsObject(xs);
      TotalsObjectInvariant(xs);
      IndexKeysListed(o.keys);
      ScanKeys(ForInOrder(o), o.slots, None, 0.0)
  }

  /** A category the object rules do not touch: not inherited from
      `Object.prototype`, not `__proto__`, not an array index. */
  predicate Plain(c: string) {
    c !in PrototypeNames && c != ProtoAccessor && !IsArrayIndex(c)
  }

  predicate Ordinary(xs: seq<Txn>) {
    forall i | 0 <= i < |xs| :: Plain(xs[i].category)
  }

  /** `o` is what the loop holds after the records `xs`, when the object
      rules do not interfere: each category once, in order of first
      appearance, with its total as a number. */
  ghost predicate Tracks(o: Obj, xs: seq<Txn>) {
    && o.keys == Stats.Categories(xs)
    && (forall c :: c in o.slots <==> Stats.FirstAt(xs, c) < |xs|)
    && (forall c | c in o.slots :: o.slots[c] == Num(Stats.CategoryTotal(xs, c)))
  }

  /** One plain record keeps the key list in step with `Stats.Categories`. */
  lemma {:induction false} AccumulateKeys(o: Obj, xs: seq<Txn>, t: Txn)
    requires Tracks(o, xs) && Plain(t.category)
    ensures Accumulate(o, t).keys == Stats.Categories(xs + [t])
  {
    Stats.FirstSeenSnoc(xs, t, 0);
  }

  /** One plain record keeps the slot of each key `c` in step with the
      category totals. */
  lemma {:induction false} AccumulateSlot(o: Obj, xs: seq<Txn>, t: Txn, c: string)
    requires Tracks(o, xs) && Plain(t.category)
    ensures c in Accumulate(o, t).slots <==> Stats.FirstAt(xs + [t], c) < |xs + [t]|
    ensures c in Accumulate(o, t).slots ==>
      Accumulate(o, t).slots[c] == Num(Stats.CategoryTotal(xs + [t], c))
  {
    var d := t.category;
    Stats.FirstAtSnoc(xs, t, c);
    Stats.CategoryTotalSnoc(xs, t, c);
    if d !in o.slots {
      Stats.CategoryTotalAbsent(xs, d);
    }
  }

  lemma {:induction false} AccumulateSlots(o: Obj, xs: seq<Txn>, t: Txn)
    requires Tracks(o, xs) && Plain(t.category)
    ensures forall c :: c in Accumulate(o, t).slots <==> Stats.FirstAt(xs + [t], c) < |xs + [t]|
    ensures forall c | c in Accumulate(o, t).slots ::
      Accumulate(o, t).slots[c] == Num(Stats.CategoryTotal(xs + [t], c))
  {
    forall c
      ensures c in Accumulate(o, t).slots <==> Stats.FirstAt(xs + [t], c) < |xs + [t]|
      ensures c in Accumulate(o, t).slots ==>
        Accumulate(o, t).slots[c] == Num(Stats.CategoryTotal(xs + [t], c))
    {
      AccumulateSlot(o, xs, t, c);
    }
  }

  /** One plain record keeps the object in step with the list. */
  lemma {:induction false} AccumulateTracks(o: Obj, xs: seq<Txn>, t: Txn)
    requires Tracks(o, xs) && Plain(t.category)
    ensures Tracks(Accumulate(o, t), xs + [t])
  {
    AccumulateKeys(o, xs, t);
    AccumulateSlots(o, xs, t);
  }

  lemma {:induction false} TotalsObjectOrdinary(xs: seq<Txn>)
    requires Ordinary(xs)
    ensures Tracks(TotalsObject(xs), xs)
    decreases |xs|
  {
    if xs != [] {
      var pre, t := xs[..|xs| - 1], xs[|xs| - 1];
      assert forall i | 0 <= i < |pre| :: pre[i] == xs[i];
      TotalsObjectOrdinary(pre);
      AccumulateTracks(TotalsObject(pre), pre, t);
      assert xs == pre + [t];
    }
  }

  /** No key is an array index, so `for … in` keeps creation order. */
  lemma {:induction false} NoIndexKeys(ks: seq<string>)
    requires forall i | 0 <= i < |ks| :: !IsArrayIndex(ks[i])
    ensures IndexKeys(ks) == [] && NamedKeys(ks) == ks
  {
    if ks != [] {
      assert !IsArrayIndex(ks[0]);
      NoIndexKeys(ks[1..]);
      assert ks == [ks[0]] + ks[1..];
    }
  }

  /** Over numeric slots the key scan is the index scan `Stats.LeaderFrom`
      on their values. */
  lemma {:induction false} ScanIsLeader(order: seq<string>, slots: map<string, Slot>, vals: seq<real>, i: nat, best: Option<nat>, max: real)
    requires |vals| == |order| && i <= |order|
    requires forall k | 0 <= k < |order| :: order[k] in slots && slots[order[k]] == Num(vals[k])
    requires best.None? ==> max == 0.0 && forall k | 0 <= k < i :: vals[k] <= 0.0
    requires best.Some? ==>
      && best.value < i && vals[best.value] == max && max > 0.0
      && (forall k | 0 <= k < i :: vals[k] <= max)
      && (forall k | 0 <= k < best.value :: vals[k] < max)
    ensures var lead := Stats.LeaderFrom(vals, i, best, max);
      ScanKeys(order[i..], slots, if best.None? then None else Some(order[best.value]), max)
      == if lead.None? then None else Some(order[lead.value])
    decreases |order| - i
  {
    if i < |order| {
      assert order[i..][0] == order[i] && order[i..][1..] == order[i + 1..];
      if vals[i] > max {
        ScanIsLeader(order, slots, vals, i + 1, Some(i), vals[i]);
      } else {
        ScanIsLeader(order, slots, vals, i + 1, best, max);
      }
    }
  }

  /** With plain categories only, the code as written reports what the
      intended `Stats.TopCategory` reports. */
  lemma {:induction false} TopCategoryAgrees(xs: seq<Txn>)
    requires Ordinary(xs)
    ensures TopCategoryAsWritten(xs) == Stats.TopCategory(xs)
  {
    if xs != [] {
      var o := TotalsObject(xs);
      var cats := Stats.Categories(xs);
      TotalsObjectOrdinary(xs);
      forall j | 0 <= j < |cats|
        ensures !IsArrayIndex(cats[j]) && cats[j] in o.slots
      {
        Stats.FirstSeenFromAt(xs, 0, j);
      }
      NoIndexKeys(cats);
      assert ForInOrder(o) == cats;
      var vals := Stats.Totals(xs, cats);
      ScanIsLeader(cats, o.slots, vals, 0, None, 0.0);
      assert cats[0..] == cats;
      var lead := Stats.Leader(vals);
      assert TopCategoryAsWritten(xs) == if lead.None? then None else Some(cats[lead.value]);
    }
  }

  function Spent(category: string, amount: real): Txn {
    Txn(category, "Spent", amount, category, "2025-01-01", None, None)
  }

  /** One purchase of 100 filed under "constructor", a valid category
      (letters only). */
  const ConstructorOnly: seq<Txn> := [Spent("constructor", 100.0)]

  /** The purchase is not reported: its total became a string, which never
      beats 0, although it is the only, and positive, total. */
  lemma {:induction false} PrototypeNameNeverWins()
    ensures Stats.CategoryTotal(ConstructorOnly, "constructor") == 100.0
    ensures TopCategoryAsWritten(ConstructorOnly) == None
  {
    var xs := ConstructorOnly;
    assert xs[..0] == [] && xs[1..] == [];
    assert "constructor" in PrototypeNames;
    var o := TotalsObject(xs);
    assert o == Obj(["constructor"], map["constructor" := Text]);
    assert !IsArrayIndex("constructor");
    assert ForInOrder(o) == ["constructor"];
  }

  /** The intended result names the category. */
  lemma {:induction false} PrototypeNameCorrected()
    ensures Stats.TopCategory(ConstructorOnly) == Some("constructor")
  {
    var xs := ConstructorOnly;
    assert xs[1..] == [];
    assert Stats.CategoryTotal(xs, xs[0].category) == 100.0;
    var r := Stats.TopCategory(xs);
    assert Stats.FirstAt(xs, r.value) < 1;
  }

  /** Food, then "7", each at 50. "7" is not a valid form category, but an
      imported record can carry it. */
  const FoodThenSeven: seq<Txn> := [Spent("Food", 50.0), Spent("7", 50.0)]

  const FoodSevenObject := Obj(["Food", "7"], map["Food" := Num(50.0), "7" := Num(50.0)])

  lemma {:induction false} FoodObject()
    ensures TotalsObject([Spent("Food", 50.0)]) == Obj(["Food"], map["Food" := Num(50.0)])
  {
    var xs := [Spent("Food", 50.0)];
    assert xs[..0] == [];
    assert "Food" !in PrototypeNames && "Food" != ProtoAccessor;
    assert Accumulate(Obj([], map[]), xs[0]) == Obj(["Food"], map["Food" := Num(0.0 + 50.0)]);
  }

  lemma {:induction false} FoodThenSevenObject()
    ensures TotalsObject(FoodThenSeven) == FoodSevenObject
  {
    var xs := FoodThenSeven;
    var o := Obj(["Food"], map["Food" := Num(50.0)]);
    assert xs[..1] == [Spent("Food", 50.0)];
    FoodObject();
    assert TotalsObject(xs) == Accumulate(o, xs[1]);
    assert "7" !in PrototypeNames && "7" != ProtoAccessor && "7" !in o.slots;
    assert Accumulate(o, xs[1]) == Obj(["Food", "7"], o.slots["7" := Num(0.0 + 50.0)]);
  }

  lemma {:induction false} SevenVisitedFirst()
    ensures ForInOrder(FoodSevenObject) == ["7", "Food"]
  {
    assert !IsArrayIndex("Food");
    assert Validators.DigitsValue("7") == 7;
    assert IsArrayIndex("7");
    assert IndexKeys(["7"]) == ["7"];
    assert IndexKeys(["Food", "7"]) == ["7"];
    assert NamedKeys(["Food", "7"]) == ["Food"];
  }

  /** The two totals tie and Food is seen first, yet `for … in` visits "7"
      first, so "7" is reported. */
  lemma {:induction false} IndexKeyJumpsQueue()
    ensures Stats.CategoryTotal(FoodThenSeven, "Food") == Stats.CategoryTotal(FoodThenSeven, "7")
    ensures Stats.FirstAt(FoodThenSeven, "Food") < Stats.FirstAt(FoodThenSeven, "7")
    ensures TopCategoryAsWritten(FoodThenSeven) == Some("7")
  {
    var xs := FoodThenSeven;
    assert xs[1..] == [xs[1]] && [xs[1]][1..] == [];
    assert "7" != "Food";
    FoodThenSevenObject();
    SevenVisitedFirst();
    var o := FoodSevenObject;
    assert ScanKeys(["7", "Food"], o.slots, None, 0.0) == Some("7");
  }

  /** The intended result gives the tie to Food. */
  lemma {:induction false} IndexKeyCorrected()
    ensures Stats.TopCategory(FoodThenSeven) == Some("Food")
  {
    var xs := FoodThenSeven;
    assert xs[1..] == [xs[1]] && [xs[1]][1..] == [];
    assert "7" != "Food";
    assert Stats.CategoryTotal(xs, "Food") == 50.0;
    assert Stats.CategoryTotal(xs, "7") == 50.0;
    assert Stats.FirstAt(xs, "7") == 1;
    var r := Stats.TopCategory(xs);
    assert r.Some? by {
      assert Stats.CategoryTotal(xs, xs[0].category) > 0.0;
    }
    assert Stats.FirstAt(xs, r.value) < 2;
  }
}
