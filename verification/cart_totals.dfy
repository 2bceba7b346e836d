/** `quantity` and `total`: sums over the members in the order SMEMBERS
    happens to list them. The sums do not depend on that order, and they move
    by exactly one item's share when an item is added or removed. */
module CartTotals {
  import opened Wrappers
  import opened RubyText
  import opened KeySpace
  import opened Store
  import opened Cart
  import opened CartEffects

  lemma {:induction false} SumOverAppend(f: string -> int, a: seq<string>, b: seq<string>)
    ensures SumOver(f, a + b) == SumOver(f, a) + SumOver(f, b)
  {
    if |a| > 0 {
      assert (a + b)[1..] == a[1..] + b;
      SumOverAppend(f, a[1..], b);
    } else {
      assert a + b == b;
    }
  }

  lemma SumOverCons(f: string -> int, x: string, t: seq<string>)
    ensures SumOver(f, [x] + t) == f(x) + SumOver(f, t)
  {
    assert ([x] + t)[0] == x && ([x] + t)[1..] == t;
  }

  lemma SumOverMiddle(f: string -> int, pre: seq<string>, x: string, post: seq<string>)
    ensures SumOver(f, pre + ([x] + post)) == f(x) + SumOver(f, pre + post)
  {
    SumOverAppend(f, pre, [x] + post);
    SumOverCons(f, x, post);
    SumOverAppend(f, pre, post);
  }

  /** Taking one element out of the sum. */
  lemma SumOverRemoveAt(f: string -> int, s: seq<string>, i: nat)
    requires i < |s|
    ensures SumOver(f, s) == f(s[i]) + SumOver(f, s[..i] + s[i + 1..])
  {
    assert s == s[..i] + ([s[i]] + s[i + 1..]);
    SumOverMiddle(f, s[..i], s[i], s[i + 1..]);
  }

  /** Taking the element at `i` out of `b` takes one copy of it out of the
      multiset. */
  lemma MultisetRemoveAt(a: seq<string>, b: seq<string>, i: nat)
    requires multiset(a) == multiset(b) && |a| > 0
    requires i < |b| && b[i] == a[0]
    ensures multiset(a[1..]) == multiset(b[..i] + b[i + 1..])
  {
    var rest := b[..i] + b[i + 1..];
    assert multiset(b) == multiset(rest) + multiset{a[0]} by {
      assert b == b[..i] + [b[i]] + b[i + 1..];
    }
    assert multiset(a) == multiset(a[1..]) + multiset{a[0]} by {
      assert a == [a[0]] + a[1..];
    }
    assert multiset(a[1..]) == multiset(a) - multiset{a[0]};
    assert multiset(rest) == multiset(b) - multiset{a[0]};
  }

  /** A sum does not depend on the order of its terms. */
  lemma {:induction false} SumOverPermutation(f: string -> int, a: seq<string>, b: seq<string>)
    requires multiset(a) == multiset(b)
    ensures SumOver(f, a) == SumOver(f, b)
    decreases |a|
  {
    if |a| == 0 {
      assert |multiset(b)| == 0;
    } else {
      assert a[0] in multiset(b);
      var i :| 0 <= i < |b| && b[i] == a[0];
      MultisetRemoveAt(a, b, i);
      SumOverPermutation(f, a[1..], b[..i] + b[i + 1..]);
      SumOverRemoveAt(f, b, i);
    }
  }

  /** Two term functions that agree on the elements give the same sum. */
  lemma {:induction false} SumOverCongruent(f: string -> int, g: string -> int, s: seq<string>)
    requires forall i :: 0 <= i < |s| ==> f(s[i]) == g(s[i])
    ensures SumOver(f, s) == SumOver(g, s)
  {
    if |s| > 0 {
      SumOverCongruent(f, g, s[1..]);
    }
  }

  /** `quantity` and `total` are the same whatever order SMEMBERS lists the
      cart in. */
  lemma TotalsIndependentOfOrder(cfg: Config, st: Store, uid: string, o1: seq<string>, o2: seq<string>)
    requires Enumerates(o1, CartMembers(st, uid)) && Enumerates(o2, CartMembers(st, uid))
    ensures Quantity(cfg, st, uid, o1) == Quantity(cfg, st, uid, o2)
    ensures Total(cfg, st, uid, o1) == Total(cfg, st, uid, o2)
  {
    SumOverPermutation(QuantityOf(cfg, st), o1, o2);
    SumOverPermutation(CostOf(cfg, st), o1, o2);
  }

  /** An empty cart has quantity 0 and total 0. */
  lemma EmptyCartTotals(cfg: Config, st: Store, uid: string, order: seq<string>)
    requires Enumerates(order, CartMembers(st, uid))
    requires CartMembers(st, uid) == {}
    ensures Quantity(cfg, st, uid, order) == 0 && Total(cfg, st, uid, order) == 0
  {
    EnumeratesFacts(order, CartMembers(st, uid));
  }

  /** A sum over one more element, whose other terms are unchanged, grows
      by that element's term. */
  lemma SumShift(f: string -> int, g: string -> int, before: seq<string>, after: seq<string>, x: string)
    requires multiset(after) == multiset(before) + multiset{x}
    requires forall i :: 0 <= i < |before| ==> f(before[i]) == g(before[i])
    ensures SumOver(f, after) == SumOver(g, before) + f(x)
  {
    assert multiset(after) == multiset(before + [x]);
    SumOverPermutation(f, after, before + [x]);
    SumOverAppend(f, before, [x]);
    SumOverCongruent(f, g, before);
  }

  lemma MultisetOfSetAdd(s: set<string>, x: string)
    requires x !in s
    ensures multiset(s + {x}) == multiset(s) + multiset{x}
  {
  }

  /** Members whose hash did not change have the same quantity and cost. */
  lemma SharesUnchanged(cfg: Config, st: Store, r: Store, ids: seq<string>)
    requires forall i :: 0 <= i < |ids| ==> HGetAll(r, LineItemKey(ids[i])) == HGetAll(st, LineItemKey(ids[i]))
    ensures forall i :: 0 <= i < |ids| ==> QuantityOf(cfg, r)(ids[i]) == QuantityOf(cfg, st)(ids[i])
    ensures forall i :: 0 <= i < |ids| ==> CostOf(cfg, r)(ids[i]) == CostOf(cfg, st)(ids[i])
  {
  }

  lemma AddedOtherHashes(st: Store, uid: string, options: map<string, string>, lineId: string, r: Store, versions: Value)
    requires "id" in options && "type" in options
    requires r.data == AddedStore(st, uid, options, lineId).data[VersionsKey := versions]
    ensures forall m :: m != lineId ==> HGetAll(r, LineItemKey(m)) == HGetAll(st, LineItemKey(m))
  {
  }

  /** The hash of every line item other than the new one reads the same
      after `add_item`. */
  lemma AddItemOtherHashes(cfg: Config, st: Store, uid: string, options: map<string, string>)
    requires StoreInv(st)
    requires "id" in options && "type" in options
    ensures var r := AddItem(cfg, st, uid, options).0;
      forall m :: m != NatToString(st.counter + 1) ==> HGetAll(r, LineItemKey(m)) == HGetAll(st, LineItemKey(m))
  {
    var lineId := NatToString(st.counter + 1);
    var w := AddedStore(st, uid, options, lineId);
    AddItemData(cfg, st, uid, options);
    AddedOtherHashes(st, uid, options, lineId, AddItem(cfg, st, uid, options).0, BumpedVersions(w, uid));
  }

  /** `add_item` raises `quantity` and `total` by the new item's quantity
      and cost, whatever order SMEMBERS lists the cart in before and after. */
  lemma AddItemRaisesTotals(cfg: Config, st: Store, uid: string, options: map<string, string>,
                            before: seq<string>, after: seq<string>)
    requires StoreInv(st)
    requires "id" in options && "type" in options
    requires Enumerates(before, CartMembers(st, uid))
    requires Enumerates(after, CartMembers(AddItem(cfg, st, uid, options).0, uid))
    ensures var r := AddItem(cfg, st, uid, options).0;
      var lineId := NatToString(st.counter + 1);
      && Quantity(cfg, r, uid, after) == Quantity(cfg, st, uid, before) + ItemQuantity(cfg, r, lineId)
      && Total(cfg, r, uid, after) == Total(cfg, st, uid, before) + ItemCost(cfg, r, lineId)
  {
    var r := AddItem(cfg, st, uid, options).0;
    var lineId := NatToString(st.counter + 1);
    AddItemEffects(cfg, st, uid, options);
    AddItemFreshId(st, uid, options);
    AddItemOtherHashes(cfg, st, uid, options);
    MultisetOfSetAdd(CartMembers(st, uid), lineId);
    EnumeratesFacts(before, CartMembers(st, uid));
    SharesUnchanged(cfg, st, r, before);
    SumShift(QuantityOf(cfg, r), QuantityOf(cfg, st), before, after, lineId);
    SumShift(CostOf(cfg, r), CostOf(cfg, st), before, after, lineId);
  }

  /** The new item's quantity and cost are read from the options passed to
      `add_item` (when the fields are not `_version`). */
  lemma AddedItemShare(cfg: Config, st: Store, uid: string, options: map<string, string>)
    requires StoreInv(st)
    requires "id" in options && "type" in options
    requires cfg.quantityField != VersionField && cfg.unitCostField != VersionField
    ensures var r := AddItem(cfg, st, uid, options).0;
      var lineId := NatToString(st.counter + 1);
      var q := NilToI(if cfg.quantityField in options then Some(options[cfg.quantityField]) else None);
      var u := NilToI(if cfg.unitCostField in options then Some(options[cfg.unitCostField]) else None);
      && ItemQuantity(cfg, r, lineId) == q
      && ItemCost(cfg, r, lineId) == u * q
  {
    AddItemEffects(cfg, st, uid, options);
  }

  /** The hash of every line item other than the removed one reads the same
      after `remove_item`. */
  lemma RemoveItemOtherHashes(cfg: Config, st: Store, uid: string, item: Item)
    requires StoreInv(st)
    ensures var r := RemoveItem(cfg, st, uid, item);
      forall m :: m != item.lineId ==> HGetAll(r, LineItemKey(m)) == HGetAll(st, LineItemKey(m))
  {
    RemoveItemEffects(cfg, st, uid, item);
  }

  /** Sums over a cart that lost member `m0` while every other hash stayed. */
  lemma TotalsWithout(cfg: Config, st: Store, r: Store, uid: string, m0: string, before: seq<string>, after: seq<string>)
    requires m0 in CartMembers(st, uid)
    requires CartMembers(r, uid) == CartMembers(st, uid) - {m0}
    requires forall m :: m != m0 ==> HGetAll(r, LineItemKey(m)) == HGetAll(st, LineItemKey(m))
    requires Enumerates(before, CartMembers(st, uid))
    requires Enumerates(after, CartMembers(r, uid))
    ensures Quantity(cfg, r, uid, after) == Quantity(cfg, st, uid, before) - ItemQuantity(cfg, st, m0)
    ensures Total(cfg, r, uid, after) == Total(cfg, st, uid, before) - ItemCost(cfg, st, m0)
  {
    var rest := CartMembers(st, uid) - {m0};
    assert rest + {m0} == CartMembers(st, uid);
    MultisetOfSetAdd(rest, m0);
    EnumeratesFacts(after, rest);
    SharesUnchanged(cfg, r, st, after);
    SumShift(QuantityOf(cfg, st), QuantityOf(cfg, r), after, before, m0);
    SumShift(CostOf(cfg, st), CostOf(cfg, r), after, before, m0);
  }

  /** `remove_item` of a member lowers `quantity` and `total` by that item's
      quantity and cost. */
  lemma RemoveItemLowersTotals(cfg: Config, st: Store, uid: string, m0: string,
                               before: seq<string>, after: seq<string>)
    requires StoreInv(st)
    requires m0 in CartMembers(st, uid)
    requires Enumerates(before, CartMembers(st, uid))
    requires Enumerates(after, CartMembers(RemoveItem(cfg, st, uid, GetItem(st, uid, m0)), uid))
    ensures var r := RemoveItem(cfg, st, uid, GetItem(st, uid, m0));
      && Quantity(cfg, r, uid, after) == Quantity(cfg, st, uid, before) - ItemQuantity(cfg, st, m0)
      && Total(cfg, r, uid, after) == Total(cfg, st, uid, before) - ItemCost(cfg, st, m0)
  {
    var item := GetItem(st, uid, m0);
    RemoveItemEffects(cfg, st, uid, item);
    RemoveItemOtherHashes(cfg, st, uid, item);
    TotalsWithout(cfg, st, RemoveItem(cfg, st, uid, item), uid, m0, before, after);
  }

  /** The configuration of the cart tests that total unit costs in cents. */
  const CentsConfig: Config := Config(86400, "quantity", "unit_cost_in_cents")

  const Bordeaux: map<string, string> :=
    map["id" := "17", "type" := "Bottle", "name" := "Bordeux", "unit_cost_in_cents" := "9212", "quantity" := "2"]

  const Cabernet: map<string, string> :=
    map["id" := "34", "type" := "Bottle", "name" := "Cabernet", "unit_cost_in_cents" := "9212", "quantity" := "2"]

  /** The digit strings of the cart tests read as the integers they spell. */
  lemma PriceDigits()
    ensures ToI("9212") == 9212 && ToI("2") == 2
  {
    assert DigitPrefix("9212") == "9212";
    assert DigitPrefix("2") == "2";
    assert DigitsValue("9") == 9;
    assert DigitsValue("92") == 92 by {
      assert "92"[..1] == "9";
    }
    assert DigitsValue("921") == 921 by {
      assert "921"[..2] == "92";
    }
    assert DigitsValue("9212") == 9212 by {
      assert "9212"[..3] == "921";
    }
  }

  /** `add_item` with both configured fields given raises `quantity` by
      the given quantity and `total` by quantity times unit cost. */
  lemma AddItemAddsShare(cfg: Config, st: Store, uid: string, options: map<string, string>,
                         before: seq<string>, after: seq<string>)
    requires StoreInv(st)
    requires Priced(cfg, options)
    requires Enumerates(before, CartMembers(st, uid))
    requires Enumerates(after, CartMembers(AddItem(cfg, st, uid, options).0, uid))
    ensures var r := AddItem(cfg, st, uid, options).0;
      var q := ToI(options[cfg.quantityField]);
      && Quantity(cfg, r, uid, after) == Quantity(cfg, st, uid, before) + q
      && Total(cfg, r, uid, after) == Total(cfg, st, uid, before) + ToI(options[cfg.unitCostField]) * q
  {
    AddItemRaisesTotals(cfg, st, uid, options, before, after);
    AddedItemShare(cfg, st, uid, options);
  }

  /** The fields `quantity` and `total` read, and `add_item` needs. */
  predicate Priced(cfg: Config, options: map<string, string>) {
    && "id" in options && "type" in options
    && cfg.quantityField in options && cfg.unitCostField in options
    && cfg.quantityField != VersionField && cfg.unitCostField != VersionField
  }

  /** A cart of one line item totals that item's share. */
  lemma SingletonTotals(cfg: Config, st: Store, uid: string, lineId: string)
    requires CartMembers(st, uid) == {lineId}
    ensures Enumerates([lineId], CartMembers(st, uid))
    ensures Quantity(cfg, st, uid, [lineId]) == ItemQuantity(cfg, st, lineId)
    ensures Total(cfg, st, uid, [lineId]) == ItemCost(cfg, st, lineId)
  {
    assert multiset([lineId]) == multiset{lineId} == multiset(CartMembers(st, uid));
    assert [lineId][1..] == [];
    assert SumOver(QuantityOf(cfg, st), [lineId]) == QuantityOf(cfg, st)(lineId);
    assert SumOver(CostOf(cfg, st), [lineId]) == CostOf(cfg, st)(lineId);
  }

  /** One line item added to an empty cart makes the cart that item alone. */
  lemma FirstAddTotals(cfg: Config, st: Store, uid: string, o1: map<string, string>)
    requires StoreInv(st) && CartMembers(st, uid) == {}
    requires Priced(cfg, o1)
    ensures var s1 := AddItem(cfg, st, uid, o1).0;
      var l1 := NatToString(st.counter + 1);
      var q1 := ToI(o1[cfg.quantityField]);
      && StoreInv(s1)
      && Enumerates([l1], CartMembers(s1, uid))
      && Quantity(cfg, s1, uid, [l1]) == q1
      && Total(cfg, s1, uid, [l1]) == ToI(o1[cfg.unitCostField]) * q1
  {
    var s1 := AddItem(cfg, st, uid, o1).0;
    var l1 := NatToString(st.counter + 1);
    assert StoreInv(s1) by {
      AddItemInv(cfg, st, uid, o1);
    }
    assert CartMembers(s1, uid) == {l1} by {
      AddItemEffects(cfg, st, uid, o1);
    }
    SingletonTotals(cfg, s1, uid, l1);
    AddedItemShare(cfg, st, uid, o1);
  }

  /** Two line items added to an empty cart: `quantity` and `total` are
      the sums of their two shares, whatever order SMEMBERS replies in. */
  lemma TwoAddsTotals(cfg: Config, st: Store, uid: string, o1: map<string, string>, o2: map<string, string>,
                      order: seq<string>)
    requires StoreInv(st) && CartMembers(st, uid) == {}
    requires Priced(cfg, o1) && Priced(cfg, o2)
    requires Enumerates(order, CartMembers(AddItem(cfg, AddItem(cfg, st, uid, o1).0, uid, o2).0, uid))
    ensures var s2 := AddItem(cfg, AddItem(cfg, st, uid, o1).0, uid, o2).0;
      var q1, q2 := ToI(o1[cfg.quantityField]), ToI(o2[cfg.quantityField]);
      && Quantity(cfg, s2, uid, order) == q1 + q2
      && Total(cfg, s2, uid, order) == ToI(o1[cfg.unitCostField]) * q1 + ToI(o2[cfg.unitCostField]) * q2
  {
    FirstAddTotals(cfg, st, uid, o1);
    AddItemAddsShare(cfg, AddItem(cfg, st, uid, o1).0, uid, o2, [NatToString(st.counter + 1)], order);
  }

  /** Both bottles carry the configured fields, quantity 2 at 9212 cents. */
  lemma BottlesPriced()
    ensures Priced(CentsConfig, Bordeaux) && Priced(CentsConfig, Cabernet)
    ensures ToI(Bordeaux["quantity"]) == 2 && ToI(Bordeaux["unit_cost_in_cents"]) == 9212
    ensures ToI(Cabernet["quantity"]) == 2 && ToI(Cabernet["unit_cost_in_cents"]) == 9212
  {
    PriceDigits();
  }

  /** Two bottles at 9212 cents, quantity 2 each, added to an empty cart:
      `quantity` is 4 and `total` 36848, whatever order SMEMBERS replies in. */
  lemma TwoBottlesTotal(st: Store, uid: string, order: seq<string>)
    requires StoreInv(st) && CartMembers(st, uid) == {}
    requires Enumerates(order, CartMembers(AddItem(CentsConfig, AddItem(CentsConfig, st, uid, Bordeaux).0, uid, Cabernet).0, uid))
    ensures var s2 := AddItem(CentsConfig, AddItem(CentsConfig, st, uid, Bordeaux).0, uid, Cabernet).0;
      && Quantity(CentsConfig, s2, uid, order) == 4
      && Total(CentsConfig, s2, uid, order) == 36848
  {
    BottlesPriced();
    TwoAddsTotals(CentsConfig, st, uid, Bordeaux, Cabernet, order);
  }
}
