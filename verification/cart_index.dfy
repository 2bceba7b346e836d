/** The agreement between a cart's set of line-item ids and its index: the
    `type:id` tokens that `contains?` reads and the detail keys that `find`
    follows. The cart keeps them in step only while every product is added
    once; these lemmas say which operations keep the agreement and what a
    second `add_item` of the same product breaks. */
module CartIndex {
  import opened Wrappers
  import opened RubyText
  import opened KeySpace
  import opened Store
  import opened Cart
  import opened CartEffects

  /** The index token of an item: `"#{type}:#{id}"`. */
  function ItemToken(item: Item): string {
    Token(Interpolate(ItemType(item)), Interpolate(ItemProductId(item)))
  }

  /** A line-item id as INCR produces it: the decimal of its own `to_i`. */
  predicate Canonical(lineId: string) {
    lineId == IntToString(ToI(lineId))
  }

  /** A member of the cart is indexed: its hash exists with a `type` (free
      of `:`) and an `id`, its token is in the index set and its detail key
      holds its id. */
  predicate Indexed(st: Store, uid: string, m: string) {
    var item := GetItem(st, uid, m);
    && LineItemKey(m) in st.data
    && Canonical(m)
    && ItemType(item).Some? && ItemProductId(item).Some?
    && NoColon(ItemType(item).value)
    && ItemToken(item) in Tokens(st, uid)
    && Get(st, DetailKeyOfItem(item, uid)) == Some(m)
  }

  /** Every member is indexed, and every token and every detail key of the
      cart belongs to a member. */
  predicate Consistent(st: Store, uid: string) {
    && (forall m :: m in CartMembers(st, uid) ==> Indexed(st, uid, m))
    && (forall tok :: tok in Tokens(st, uid) ==>
          exists m :: m in CartMembers(st, uid) && ItemToken(GetItem(st, uid, m)) == tok)
    && (forall k :: k in DetailKeysOf(st, uid) ==>
          exists m :: m in CartMembers(st, uid) && DetailKeyOfItem(GetItem(st, uid, m), uid) == k)
  }

  /** A member whose type holds a `:`, such as a namespaced class name, is
      never indexed, so a cart holding one is never Consistent. */
  lemma ColonTypeNotIndexed(st: Store, uid: string, m: string)
    requires m in CartMembers(st, uid)
    requires ItemType(GetItem(st, uid, m)).Some? && !NoColon(ItemType(GetItem(st, uid, m)).value)
    ensures !Indexed(st, uid, m)
    ensures !Consistent(st, uid)
  {
  }

  lemma CanonicalFresh(n: nat)
    ensures Canonical(NatToString(n))
  {
    ToIOfIntToString(n);
  }

  /** Two indexed members never share a product: each detail key holds one id. */
  lemma IndexedDistinct(st: Store, uid: string, m1: string, m2: string)
    requires Indexed(st, uid, m1) && Indexed(st, uid, m2) && m1 != m2
    ensures DetailKeyOfItem(GetItem(st, uid, m1), uid) != DetailKeyOfItem(GetItem(st, uid, m2), uid)
    ensures ItemToken(GetItem(st, uid, m1)) != ItemToken(GetItem(st, uid, m2))
  {
    var i1, i2 := GetItem(st, uid, m1), GetItem(st, uid, m2);
    if ItemToken(i1) == ItemToken(i2) {
      TokenInjective(ItemType(i1).value, ItemProductId(i1).value, ItemType(i2).value, ItemProductId(i2).value);
      assert false;
    }
  }

  /** A cart nothing was added to is consistent. */
  lemma EmptyConsistent(uid: string)
    ensures Consistent(EmptyStore, uid)
  {
  }

  // ---------------------------------------------------------------------
  // Operations that leave the cart's sets, detail keys and item identities
  // alone.

  /** Consistency carries over to a store with the same sets, the same
      detail keys holding the same ids, and the same `type` and `id` in
      every member's hash. */
  lemma ConsistentTransfer(a: Store, b: Store, uid: string)
    requires Consistent(a, uid)
    requires CartMembers(b, uid) == CartMembers(a, uid)
    requires Tokens(b, uid) == Tokens(a, uid)
    requires DetailKeysOf(b, uid) == DetailKeysOf(a, uid)
    requires forall m :: ItemType(GetItem(b, uid, m)) == ItemType(GetItem(a, uid, m))
    requires forall m :: ItemProductId(GetItem(b, uid, m)) == ItemProductId(GetItem(a, uid, m))
    requires forall m :: m in CartMembers(a, uid) ==> LineItemKey(m) in b.data
    requires forall k: Key :: k.DetailKey? ==> Get(b, k) == Get(a, k)
    ensures Consistent(b, uid)
  {
    forall m | m in CartMembers(b, uid)
      ensures Indexed(b, uid, m)
    {
      assert Indexed(a, uid, m);
      assert DetailKeyOfItem(GetItem(b, uid, m), uid) == DetailKeyOfItem(GetItem(a, uid, m), uid);
    }
    forall tok | tok in Tokens(b, uid)
      ensures exists m :: m in CartMembers(b, uid) && ItemToken(GetItem(b, uid, m)) == tok
    {
      var m :| m in CartMembers(a, uid) && ItemToken(GetItem(a, uid, m)) == tok;
      assert ItemToken(GetItem(b, uid, m)) == tok;
    }
    forall k | k in DetailKeysOf(b, uid)
      ensures exists m :: m in CartMembers(b, uid) && DetailKeyOfItem(GetItem(b, uid, m), uid) == k
    {
      var m :| m in CartMembers(a, uid) && DetailKeyOfItem(GetItem(a, uid, m), uid) == k;
      assert DetailKeyOfItem(GetItem(b, uid, m), uid) == k;
    }
  }

  /** Consistency reads nothing from the versions hash. */
  lemma ConsistentFrame(a: Store, b: Store, uid: string, v: Value)
    requires b.data == a.data[VersionsKey := v]
    requires Consistent(a, uid)
    ensures Consistent(b, uid)
  {
    assert forall m :: GetItem(b, uid, m) == GetItem(a, uid, m);
    ConsistentTransfer(a, b, uid);
  }

  /** `touch` keeps every cart consistent. */
  lemma TouchConsistent(cfg: Config, st: Store, uid: string, u: string)
    requires Consistent(st, u)
    ensures Consistent(Touch(cfg, st, uid), u)
  {
    TouchData(cfg, st, uid);
    ConsistentFrame(st, Touch(cfg, st, uid), u, BumpedVersions(st, uid));
  }

  /** Rewriting a member's hash keeps consistency when `type` and `id` stay. */
  lemma RewriteHashConsistent(st: Store, r: Store, uid: string, k: Key, fields: map<string, string>)
    requires k.LineItemKey? && k in st.data
    requires r.data == st.data[k := Fields(fields)]
    requires ("type" in fields <==> "type" in HGetAll(st, k)) && ("id" in fields <==> "id" in HGetAll(st, k))
    requires "type" in fields ==> fields["type"] == HGetAll(st, k)["type"]
    requires "id" in fields ==> fields["id"] == HGetAll(st, k)["id"]
    requires WellTyped(st)
    requires Consistent(st, uid)
    ensures Consistent(r, uid)
  {
    RewriteHashReads(st, r, uid, k, fields);
    ConsistentTransfer(st, r, uid);
  }

  /** What consistency reads is the same after rewriting a line-item hash
      with the same `type` and `id`. */
  lemma RewriteHashReads(st: Store, r: Store, uid: string, k: Key, fields: map<string, string>)
    requires k.LineItemKey? && k in st.data
    requires r.data == st.data[k := Fields(fields)]
    requires ("type" in fields <==> "type" in HGetAll(st, k)) && ("id" in fields <==> "id" in HGetAll(st, k))
    requires "type" in fields ==> fields["type"] == HGetAll(st, k)["type"]
    requires "id" in fields ==> fields["id"] == HGetAll(st, k)["id"]
    requires WellTyped(st)
    ensures CartMembers(r, uid) == CartMembers(st, uid)
    ensures Tokens(r, uid) == Tokens(st, uid)
    ensures DetailKeysOf(r, uid) == DetailKeysOf(st, uid)
    ensures forall m :: ItemType(GetItem(r, uid, m)) == ItemType(GetItem(st, uid, m))
    ensures forall m :: ItemProductId(GetItem(r, uid, m)) == ItemProductId(GetItem(st, uid, m))
    ensures forall m :: LineItemKey(m) in st.data ==> LineItemKey(m) in r.data
    ensures forall k: Key :: k.DetailKey? ==> Get(r, k) == Get(st, k)
  {
    assert CartMembers(r, uid) == CartMembers(st, uid);
    assert Tokens(r, uid) == Tokens(st, uid);
    assert DetailKeysOf(r, uid) == DetailKeysOf(st, uid);
    forall m
      ensures ItemType(GetItem(r, uid, m)) == ItemType(GetItem(st, uid, m))
      ensures ItemProductId(GetItem(r, uid, m)) == ItemProductId(GetItem(st, uid, m))
    {
    }
  }

  /** An item setter of a field other than `type` and `id` keeps every cart
      consistent. */
  lemma SetItemFieldConsistent(cfg: Config, st: Store, item: Item, name: string, value: string, u: string)
    requires StoreInv(st) && Consistent(st, u)
    requires LineItemKey(item.lineId) in st.data
    requires name != VersionField && name != "type" && name != "id"
    ensures Consistent(SetItemField(cfg, st, item, name, value), u)
  {
    var k := LineItemKey(item.lineId);
    var mid := st.(data := st.data[k := Fields(SetFields(st, k, name, value))]);
    SetItemFieldData(cfg, st, item, name, value);
    RewriteHashConsistent(st, mid, u, k, SetFields(st, k, name, value));
    ConsistentFrame(mid, SetItemField(cfg, st, item, name, value), u, BumpedVersions(st, item.uid));
  }

  lemma SetCouponFieldsConsistent(cfg: Config, st: Store, item: Item, couponId: string, couponCode: string, discount: string, u: string)
    requires StoreInv(st) && Consistent(st, u)
    requires LineItemKey(item.lineId) in st.data
    ensures Consistent(SetCouponFields(cfg, st, item, couponId, couponCode, discount), u)
  {
    var s1 := SetItemField(cfg, st, item, "coupon_id", couponId);
    var s2 := SetItemField(cfg, s1, item, "coupon_code", couponCode);
    SetItemFieldConsistent(cfg, st, item, "coupon_id", couponId, u);
    SetItemFieldInv(cfg, st, item, "coupon_id", couponId);
    SetItemFieldEffects(cfg, st, item, "coupon_id", couponId);
    SetItemFieldConsistent(cfg, s1, item, "coupon_code", couponCode, u);
    SetItemFieldInv(cfg, s1, item, "coupon_code", couponCode);
    SetItemFieldEffects(cfg, s1, item, "coupon_code", couponCode);
    SetItemFieldConsistent(cfg, s2, item, "discount", discount, u);
  }

  /** `apply_coupon?` and `remove_coupon?` keep the cart consistent. */
  lemma CouponsConsistent(cfg: Config, st: Store, uid: string, order: seq<string>,
                          couponId: string, couponCode: string, productId: string, productType: string,
                          discount: string)
    requires StoreInv(st) && Consistent(st, uid)
    requires Enumerates(order, CartMembers(st, uid))
    ensures Consistent(ApplyCoupon(cfg, st, uid, order, couponId, couponCode, productId, productType, discount).0, uid)
    ensures Consistent(RemoveCoupon(cfg, st, uid, order, productId, productType).0, uid)
  {
    var found := FindItemByProduct(st, uid, order, productId, productType);
    if found.Some? {
      assert Indexed(st, uid, found.value.lineId);
      SetCouponFieldsConsistent(cfg, st, found.value, couponId, couponCode, discount, uid);
      SetCouponFieldsConsistent(cfg, st, found.value, "", "", "", uid);
    }
  }

  /** After `destroy!` the cart is empty, hence consistent. */
  lemma DestroyConsistent(st: Store, uid: string)
    requires StoreInv(st)
    ensures Consistent(Destroy(st, uid), uid)
  {
    DestroyEffects(st, uid);
  }

  // ---------------------------------------------------------------------
  // add_item

  /** What adding product (t, p) as line item `lineId` with hash `fields`
      does to the keys consistency reads. */
  predicate AddedFacts(st: Store, r: Store, uid: string, t: string, p: string, lineId: string, fields: map<string, string>) {
    && CartMembers(r, uid) == CartMembers(st, uid) + {lineId}
    && Tokens(r, uid) == Tokens(st, uid) + {Token(t, p)}
    && Get(r, DetailKey(uid, t, p)) == Some(lineId)
    && HGetAll(r, LineItemKey(lineId)) == fields
    && SameOutside(st, r, {LineItemKey(lineId), CartKey(uid), IndexKey(uid), DetailKey(uid, t, p), VersionsKey})
    && r.data.Keys == st.data.Keys + {LineItemKey(lineId), CartKey(uid), IndexKey(uid), DetailKey(uid, t, p), VersionsKey}
  }

  /** The items already in the cart read back unchanged after an add. */
  lemma AddedOldItem(st: Store, r: Store, uid: string, t: string, p: string, lineId: string, fields: map<string, string>, m: string)
    requires AddedFacts(st, r, uid, t, p, lineId, fields)
    requires m in CartMembers(st, uid) && Indexed(st, uid, m) && m != lineId
    ensures GetItem(r, uid, m) == GetItem(st, uid, m)
  {
  }

  lemma AddKeepsOldIndexed(st: Store, r: Store, uid: string, t: string, p: string, lineId: string, fields: map<string, string>, m: string)
    requires AddedFacts(st, r, uid, t, p, lineId, fields)
    requires m in CartMembers(st, uid) && Indexed(st, uid, m) && m != lineId
    requires !Contains(st, uid, t, p)
    ensures Indexed(r, uid, m)
  {
    AddedOldItem(st, r, uid, t, p, lineId, fields, m);
    var item := GetItem(st, uid, m);
    assert DetailKeyOfItem(item, uid) != DetailKey(uid, t, p) by {
      assert ItemToken(item) in Tokens(st, uid);
    }
  }

  lemma AddIndexesNew(st: Store, r: Store, uid: string, t: string, p: string, lineId: string, fields: map<string, string>)
    requires AddedFacts(st, r, uid, t, p, lineId, fields)
    requires Canonical(lineId)
    requires "type" in fields && "id" in fields && fields["type"] == t && fields["id"] == p && NoColon(t)
    ensures Indexed(r, uid, lineId)
  {
  }

  lemma AddKeepsIndexed(st: Store, r: Store, uid: string, t: string, p: string, lineId: string, fields: map<string, string>)
    requires Consistent(st, uid)
    requires AddedFacts(st, r, uid, t, p, lineId, fields)
    requires lineId !in CartMembers(st, uid) && Canonical(lineId)
    requires "type" in fields && "id" in fields && fields["type"] == t && fields["id"] == p && NoColon(t)
    requires !Contains(st, uid, t, p)
    ensures forall m :: m in CartMembers(r, uid) ==> Indexed(r, uid, m)
  {
    forall m | m in CartMembers(r, uid)
      ensures Indexed(r, uid, m)
    {
      if m == lineId {
        AddIndexesNew(st, r, uid, t, p, lineId, fields);
      } else {
        AddKeepsOldIndexed(st, r, uid, t, p, lineId, fields, m);
      }
    }
  }

  lemma AddKeepsCovered(st: Store, r: Store, uid: string, t: string, p: string, lineId: string, fields: map<string, string>)
    requires Consistent(st, uid)
    requires AddedFacts(st, r, uid, t, p, lineId, fields)
    requires lineId !in CartMembers(st, uid)
    requires "type" in fields && "id" in fields && fields["type"] == t && fields["id"] == p
    ensures forall tok :: tok in Tokens(r, uid) ==>
              exists m :: m in CartMembers(r, uid) && ItemToken(GetItem(r, uid, m)) == tok
    ensures forall k :: k in DetailKeysOf(r, uid) ==>
              exists m :: m in CartMembers(r, uid) && DetailKeyOfItem(GetItem(r, uid, m), uid) == k
  {
    forall tok | tok in Tokens(r, uid)
      ensures exists m :: m in CartMembers(r, uid) && ItemToken(GetItem(r, uid, m)) == tok
    {
      if tok == Token(t, p) {
        assert ItemToken(GetItem(r, uid, lineId)) == tok;
      } else {
        var m :| m in CartMembers(st, uid) && ItemToken(GetItem(st, uid, m)) == tok;
        AddedOldItem(st, r, uid, t, p, lineId, fields, m);
      }
    }
    forall k | k in DetailKeysOf(r, uid)
      ensures exists m :: m in CartMembers(r, uid) && DetailKeyOfItem(GetItem(r, uid, m), uid) == k
    {
      if k == DetailKey(uid, t, p) {
        assert DetailKeyOfItem(GetItem(r, uid, lineId), uid) == k;
      } else {
        assert k in DetailKeysOf(st, uid);
        var m :| m in CartMembers(st, uid) && DetailKeyOfItem(GetItem(st, uid, m), uid) == k;
        AddedOldItem(st, r, uid, t, p, lineId, fields, m);
      }
    }
  }

  /** `add_item` with both `id` and `type` makes the changes AddedFacts
      describes, with a fresh id not yet in the cart. */
  lemma AddItemFacts(cfg: Config, st: Store, uid: string, options: map<string, string>)
    requires StoreInv(st)
    requires "id" in options && "type" in options
    ensures var lineId := NatToString(st.counter + 1);
      && AddedFacts(st, AddItem(cfg, st, uid, options).0, uid, options["type"], options["id"], lineId, FreshItemFields(options))
      && lineId !in CartMembers(st, uid)
      && Canonical(lineId)
  {
    AddItemEffects(cfg, st, uid, options);
    AddItemFrame(cfg, st, uid, options);
    AddItemFreshId(st, uid, options);
    CanonicalFresh(st.counter + 1);
  }

  /** `add_item` of a product the cart does not contain yet, with a type
      free of `:`, keeps the cart consistent. */
  lemma AddItemConsistent(cfg: Config, st: Store, uid: string, options: map<string, string>)
    requires StoreInv(st) && Consistent(st, uid)
    requires "id" in options && "type" in options && NoColon(options["type"])
    requires !Contains(st, uid, options["type"], options["id"])
    ensures Consistent(AddItem(cfg, st, uid, options).0, uid)
  {
    var r := AddItem(cfg, st, uid, options).0;
    var lineId := NatToString(st.counter + 1);
    var t, p := options["type"], options["id"];
    var fields := FreshItemFields(options);
    AddItemFacts(cfg, st, uid, options);
    assert fields["type"] == t && fields["id"] == p;
    AddKeepsIndexed(st, r, uid, t, p, lineId, fields);
    AddKeepsCovered(st, r, uid, t, p, lineId, fields);
  }

  /** A second `add_item` of a product already in a consistent cart breaks
      consistency: the detail key now holds the new id, so the older item is
      no longer the one `find` returns. */
  lemma DuplicateAddBreaksConsistency(cfg: Config, st: Store, uid: string, options: map<string, string>, m0: string)
    requires StoreInv(st) && Consistent(st, uid)
    requires "id" in options && "type" in options
    requires m0 in CartMembers(st, uid)
    requires DetailKeyOfItem(GetItem(st, uid, m0), uid) == DetailKey(uid, options["type"], options["id"])
    ensures var r := AddItem(cfg, st, uid, options).0;
      && m0 in CartMembers(r, uid)
      && Get(r, DetailKey(uid, options["type"], options["id"])) == Some(NatToString(st.counter + 1))
      && NatToString(st.counter + 1) != m0
      && !Consistent(r, uid)
  {
    var r := AddItem(cfg, st, uid, options).0;
    var lineId := NatToString(st.counter + 1);
    AddItemFacts(cfg, st, uid, options);
    assert Indexed(st, uid, m0);
    AddedOldItem(st, r, uid, options["type"], options["id"], lineId, FreshItemFields(options), m0);
    assert !Indexed(r, uid, m0);
  }

  // ---------------------------------------------------------------------
  // remove_item

  /** What removing member `m0`, whose product is (t, p), does to the keys
      consistency reads. */
  predicate RemovedFacts(st: Store, r: Store, uid: string, m0: string, t: string, p: string) {
    && CartMembers(r, uid) == CartMembers(st, uid) - {m0}
    && Tokens(r, uid) == Tokens(st, uid) - {Token(t, p)}
    && DetailKey(uid, t, p) !in r.data
    && SameOutside(st, r, {LineItemKey(m0), CartKey(uid), IndexKey(uid), DetailKey(uid, t, p), VersionsKey})
    && r.data.Keys <= st.data.Keys + {VersionsKey}
  }

  /** The items left in the cart read back unchanged after a removal. */
  lemma RemovedOldItem(st: Store, r: Store, uid: string, m0: string, t: string, p: string, m: string)
    requires RemovedFacts(st, r, uid, m0, t, p)
    requires m in CartMembers(r, uid) && LineItemKey(m) in st.data
    ensures m in CartMembers(st, uid) && m != m0
    ensures GetItem(r, uid, m) == GetItem(st, uid, m)
  {
  }

  /** A member stays indexed in a store where it reads back the same, its
      token is still in the index and its detail key holds the same id. */
  lemma IndexedTransfer(st: Store, r: Store, uid: string, m: string)
    requires Indexed(st, uid, m)
    requires GetItem(r, uid, m) == GetItem(st, uid, m) && LineItemKey(m) in r.data
    requires ItemToken(GetItem(st, uid, m)) in Tokens(r, uid)
    requires Get(r, DetailKeyOfItem(GetItem(st, uid, m), uid)) == Get(st, DetailKeyOfItem(GetItem(st, uid, m), uid))
    ensures Indexed(r, uid, m)
  {
  }

  lemma RemoveKeepsOldIndexed(st: Store, r: Store, uid: string, m0: string, t: string, p: string, m: string)
    requires Indexed(st, uid, m0) && Indexed(st, uid, m)
    requires var item := GetItem(st, uid, m0);
      Interpolate(ItemType(item)) == t && Interpolate(ItemProductId(item)) == p
    requires RemovedFacts(st, r, uid, m0, t, p)
    requires m in CartMembers(r, uid)
    ensures GetItem(r, uid, m) == GetItem(st, uid, m)
    ensures Indexed(r, uid, m)
  {
    RemovedOldItem(st, r, uid, m0, t, p, m);
    var item := GetItem(st, uid, m);
    IndexedDistinct(st, uid, m, m0);
    var dk := DetailKeyOfItem(item, uid);
    assert dk != DetailKey(uid, t, p);
    assert dk in st.data;
    assert Get(r, dk) == Get(st, dk);
    IndexedTransfer(st, r, uid, m);
  }

  lemma RemoveKeepsTokensCovered(st: Store, r: Store, uid: string, m0: string, t: string, p: string)
    requires Consistent(st, uid) && m0 in CartMembers(st, uid)
    requires var item := GetItem(st, uid, m0);
      Interpolate(ItemType(item)) == t && Interpolate(ItemProductId(item)) == p
    requires RemovedFacts(st, r, uid, m0, t, p)
    ensures forall tok :: tok in Tokens(r, uid) ==>
              exists m :: m in CartMembers(r, uid) && ItemToken(GetItem(r, uid, m)) == tok
  {
    forall tok | tok in Tokens(r, uid)
      ensures exists m :: m in CartMembers(r, uid) && ItemToken(GetItem(r, uid, m)) == tok
    {
      var m :| m in CartMembers(st, uid) && ItemToken(GetItem(st, uid, m)) == tok;
      assert m != m0;
      assert Indexed(st, uid, m);
      RemovedOldItem(st, r, uid, m0, t, p, m);
    }
  }

  /** A detail key left after a removal still belongs to the member that
      owned it before. */
  lemma RemovedDetailKeyOwner(st: Store, r: Store, uid: string, m0: string, t: string, p: string, k: Key, m: string)
    requires var item := GetItem(st, uid, m0);
      Interpolate(ItemType(item)) == t && Interpolate(ItemProductId(item)) == p
    requires RemovedFacts(st, r, uid, m0, t, p)
    requires k in DetailKeysOf(r, uid)
    requires m in CartMembers(st, uid) && LineItemKey(m) in st.data
    requires DetailKeyOfItem(GetItem(st, uid, m), uid) == k
    ensures m in CartMembers(r, uid) && DetailKeyOfItem(GetItem(r, uid, m), uid) == k
  {
    assert m != m0;
    RemovedOldItem(st, r, uid, m0, t, p, m);
  }

  lemma RemoveKeepsDetailKeysCovered(st: Store, r: Store, uid: string, m0: string, t: string, p: string)
    requires Consistent(st, uid) && m0 in CartMembers(st, uid)
    requires var item := GetItem(st, uid, m0);
      Interpolate(ItemType(item)) == t && Interpolate(ItemProductId(item)) == p
    requires RemovedFacts(st, r, uid, m0, t, p)
    ensures forall k :: k in DetailKeysOf(r, uid) ==>
              exists m :: m in CartMembers(r, uid) && DetailKeyOfItem(GetItem(r, uid, m), uid) == k
  {
    forall k | k in DetailKeysOf(r, uid)
      ensures exists m :: m in CartMembers(r, uid) && DetailKeyOfItem(GetItem(r, uid, m), uid) == k
    {
      assert k in DetailKeysOf(st, uid);
      var m :| m in CartMembers(st, uid) && DetailKeyOfItem(GetItem(st, uid, m), uid) == k;
      assert Indexed(st, uid, m);
      RemovedDetailKeyOwner(st, r, uid, m0, t, p, k, m);
    }
  }

  /** `remove_item` of a member of a consistent cart keeps it consistent. */
  lemma RemoveItemConsistent(cfg: Config, st: Store, uid: string, m0: string)
    requires StoreInv(st) && Consistent(st, uid)
    requires m0 in CartMembers(st, uid)
    ensures Consistent(RemoveItem(cfg, st, uid, GetItem(st, uid, m0)), uid)
  {
    var item := GetItem(st, uid, m0);
    var r := RemoveItem(cfg, st, uid, item);
    var t, p := Interpolate(ItemType(item)), Interpolate(ItemProductId(item));
    RemoveItemEffects(cfg, st, uid, item);
    assert RemovedFacts(st, r, uid, m0, t, p);
    assert Indexed(st, uid, m0);
    forall m | m in CartMembers(r, uid)
      ensures Indexed(r, uid, m)
    {
      assert Indexed(st, uid, m);
      RemoveKeepsOldIndexed(st, r, uid, m0, t, p, m);
    }
    RemoveKeepsTokensCovered(st, r, uid, m0, t, p);
    RemoveKeepsDetailKeysCovered(st, r, uid, m0, t, p);
  }

  // ---------------------------------------------------------------------
  // contains?, find and find_item_by_product

  /** On a consistent cart, and for a class name free of `:`, `contains?`
      holds exactly when some item has that type and id, and `find` returns
      that item. */
  lemma FindExact(st: Store, uid: string, t: string, p: string)
    requires Consistent(st, uid) && NoColon(t)
    ensures Contains(st, uid, t, p) <==>
              exists m :: m in CartMembers(st, uid) && DetailKeyOfItem(GetItem(st, uid, m), uid) == DetailKey(uid, t, p)
    ensures forall m :: m in CartMembers(st, uid) && DetailKeyOfItem(GetItem(st, uid, m), uid) == DetailKey(uid, t, p)
              ==> Find(st, uid, t, p) == Some(GetItem(st, uid, m))
  {
    if Contains(st, uid, t, p) {
      var m :| m in CartMembers(st, uid) && ItemToken(GetItem(st, uid, m)) == Token(t, p);
      var item := GetItem(st, uid, m);
      assert Indexed(st, uid, m);
      TokenInjective(ItemType(item).value, ItemProductId(item).value, t, p);
      assert DetailKeyOfItem(item, uid) == DetailKey(uid, t, p);
    }
    forall m | m in CartMembers(st, uid) && DetailKeyOfItem(GetItem(st, uid, m), uid) == DetailKey(uid, t, p)
      ensures Find(st, uid, t, p) == Some(GetItem(st, uid, m))
    {
      assert Indexed(st, uid, m);
    }
  }

  /** What `find` finds, `find_item_by_product` finds too, given the same
      type and id. */
  lemma FindImpliesFindItemByProduct(st: Store, uid: string, order: seq<string>, t: string, p: string)
    requires Consistent(st, uid) && NoColon(t)
    requires Enumerates(order, CartMembers(st, uid))
    ensures Find(st, uid, t, p).Some? ==> FindItemByProduct(st, uid, order, p, t).Some?
  {
    FindExact(st, uid, t, p);
    if Contains(st, uid, t, p) {
      var m :| m in CartMembers(st, uid) && DetailKeyOfItem(GetItem(st, uid, m), uid) == DetailKey(uid, t, p);
      assert MatchesProduct(GetItem(st, uid, m), p, t);
    }
  }

  /** A one-item cart holding product 7 of type `Book`. */
  const BookCart: Store :=
    Store(map[CartKey("u") := Members({"1"}),
              IndexKey("u") := Members({"Book:7"}),
              DetailKey("u", "Book", "7") := Str("1"),
              LineItemKey("1") := Fields(map["type" := "Book", "id" := "7", "_version" := "1"])],
          map[], 1)

  /** What the keys of BookCart read as. */
  lemma BookCartReads()
    ensures CartMembers(BookCart, "u") == {"1"}
    ensures Tokens(BookCart, "u") == {"Book:7"}
    ensures DetailKeysOf(BookCart, "u") == {DetailKey("u", "Book", "7")}
    ensures GetItem(BookCart, "u", "1").fields == map["type" := "Book", "id" := "7", "_version" := "1"]
    ensures Get(BookCart, DetailKey("u", "Book", "7")) == Some("1")
  {
  }

  lemma BookCartConsistent()
    ensures Consistent(BookCart, "u")
  {
    BookCartReads();
    var item := GetItem(BookCart, "u", "1");
    assert ItemType(item) == Some("Book") && ItemProductId(item) == Some("7");
    assert ItemToken(item) == "Book:7";
    assert DetailKeyOfItem(item, "u") == DetailKey("u", "Book", "7");
    assert Canonical("1") by {
      assert DigitPrefix("1") == "1";
      assert ToI("1") == 1;
    }
    assert Indexed(BookCart, "u", "1");
  }

  /** The book of BookCart matches `find_item_by_product(7, "book")` and
      `find_item_by_product("07", "Book")`. */
  lemma BookMatches()
    ensures MatchesProduct(GetItem(BookCart, "u", "1"), "7", "book")
    ensures MatchesProduct(GetItem(BookCart, "u", "1"), "07", "Book")
  {
    BookCartReads();
    assert ToI("7") == 7 by {
      assert DigitPrefix("7") == "7";
    }
    assert ToI("07") == 7 by {
      assert DigitPrefix("07") == "07";
      assert "07"[..1] == "0";
    }
    assert Downcase("Book") == "book";
  }

  /** The converse fails for case: `find_item_by_product` folds the type
      to lower case, `contains?` compares the exact token. */
  lemma FindItemByProductFoldsCase(order: seq<string>)
    requires Enumerates(order, CartMembers(BookCart, "u"))
    ensures FindItemByProduct(BookCart, "u", order, "7", "book").Some?
    ensures !Contains(BookCart, "u", "book", "7")
  {
    BookCartReads();
    BookMatches();
    assert Token("book", "7")[0] == 'b';
  }

  /** The converse fails for ids: `find_item_by_product` compares ids after
      `to_i`, so "07" finds product 7, which `contains?` does not. */
  lemma FindItemByProductReadsIdAsInteger(order: seq<string>)
    requires Enumerates(order, CartMembers(BookCart, "u"))
    ensures FindItemByProduct(BookCart, "u", order, "07", "Book").Some?
    ensures !Contains(BookCart, "u", "Book", "07")
  {
    assert FindItemByProduct(BookCart, "u", order, "07", "Book").Some? by {
      BookCartReads();
      BookMatches();
    }
    assert !Contains(BookCart, "u", "Book", "07") by {
      BookCartReads();
      assert |Token("Book", "07")| == 7;
    }
  }

  /** `add_item` returns the new item, with the given type and id, under an
      id no older member has; the older members stay. */
  lemma AddItemReturnsNewItem(cfg: Config, st: Store, uid: string, options: map<string, string>)
    requires StoreInv(st)
    requires "id" in options && "type" in options
    ensures var (s1, res) := AddItem(cfg, st, uid, options);
      && res.Ok?
      && res.value.lineId !in CartMembers(st, uid)
      && CartMembers(st, uid) <= CartMembers(s1, uid)
      && Interpolate(ItemType(res.value)) == options["type"]
      && Interpolate(ItemProductId(res.value)) == options["id"]
  {
    AddItemEffects(cfg, st, uid, options);
    AddItemFreshId(st, uid, options);
    var fields := FreshItemFields(options);
    assert fields["type"] == options["type"] && fields["id"] == options["id"];
  }

  /** After a duplicate `add_item`, removing the newer item leaves the older
      one in the cart, listed by `items`, but with its token and detail key
      gone: `contains?` is false and `find` returns nil for it. */
  lemma DuplicateThenRemoveHidesItem(cfg: Config, st: Store, uid: string, options: map<string, string>, m0: string)
    requires StoreInv(st) && Consistent(st, uid)
    requires "id" in options && "type" in options
    requires m0 in CartMembers(st, uid)
    requires DetailKeyOfItem(GetItem(st, uid, m0), uid) == DetailKey(uid, options["type"], options["id"])
    ensures var s1 := AddItem(cfg, st, uid, options).0;
      var s2 := RemoveItem(cfg, s1, uid, AddItem(cfg, st, uid, options).1.value);
      && m0 in CartMembers(s2, uid)
      && !Contains(s2, uid, options["type"], options["id"])
      && Find(s2, uid, options["type"], options["id"]).None?
  {
    var (s1, res) := AddItem(cfg, st, uid, options);
    AddItemReturnsNewItem(cfg, st, uid, options);
    AddItemInv(cfg, st, uid, options);
    RemoveItemEffects(cfg, s1, uid, res.value);
  }

  /** The other half: after a duplicate `add_item`, removing the OLDER item
      leaves the newer one in the cart, but the token and the detail key the
      two share go with the older one, so `contains?` is false and `find`
      returns nil for the product still in the cart. */
  lemma DuplicateThenRemoveOldHidesNew(cfg: Config, st: Store, uid: string, options: map<string, string>, m0: string)
    requires StoreInv(st) && Consistent(st, uid)
    requires "id" in options && "type" in options
    requires m0 in CartMembers(st, uid)
    requires DetailKeyOfItem(GetItem(st, uid, m0), uid) == DetailKey(uid, options["type"], options["id"])
    ensures var s1 := AddItem(cfg, st, uid, options).0;
      var s2 := RemoveItem(cfg, s1, uid, GetItem(s1, uid, m0));
      && NatToString(st.counter + 1) in CartMembers(s2, uid)
      && DetailKey(uid, options["type"], options["id"]) !in s2.data
      && !Contains(s2, uid, options["type"], options["id"])
      && Find(s2, uid, options["type"], options["id"]).None?
  {
    var s1 := AddItem(cfg, st, uid, options).0;
    var lineId := NatToString(st.counter + 1);
    var t, p := options["type"], options["id"];
    assert GetItem(s1, uid, m0) == GetItem(st, uid, m0) && lineId in CartMembers(s1, uid) && lineId != m0 by {
      AddItemFacts(cfg, st, uid, options);
      assert Indexed(st, uid, m0);
      AddedOldItem(st, s1, uid, t, p, lineId, FreshItemFields(options), m0);
    }
    var olderItem := GetItem(s1, uid, m0);
    assert Interpolate(ItemType(olderItem)) == t && Interpolate(ItemProductId(olderItem)) == p;
    assert StoreInv(s1) by {
      AddItemInv(cfg, st, uid, options);
    }
    RemoveSharedProduct(cfg, s1, uid, olderItem, t, p, lineId);
  }

  /** Removing an item takes its product's token and detail key even when
      another member, which stays, is of the same product. */
  lemma RemoveSharedProduct(cfg: Config, s1: Store, uid: string, item: Item, t: string, p: string, other: string)
    requires StoreInv(s1)
    requires Interpolate(ItemType(item)) == t && Interpolate(ItemProductId(item)) == p
    requires other in CartMembers(s1, uid) && other != item.lineId
    ensures var s2 := RemoveItem(cfg, s1, uid, item);
      && other in CartMembers(s2, uid)
      && DetailKey(uid, t, p) !in s2.data
      && !Contains(s2, uid, t, p)
      && Find(s2, uid, t, p).None?
  {
    RemoveItemEffects(cfg, s1, uid, item);
  }
}
