/** What each store-changing cart method does to the store, key by key, and
    the store invariant they all keep. */
module CartEffects {
  import opened Wrappers
  import opened RubyText
  import opened KeySpace
  import opened Store
  import opened Cart

  /** Every line-item id in use came from the counter: each line-item key
      and each cart member reads (with `to_i`) as at most the counter. */
  predicate Allocated(st: Store) {
    && (forall k :: k in st.data && k.LineItemKey? ==> ToI(k.lineId) <= st.counter)
    && (forall k :: k in st.data && k.CartKey? ==> forall m :: m in SMembers(st, k) ==> ToI(m) <= st.counter)
  }

  /** The invariant every store reachable from the empty one keeps. */
  predicate StoreInv(st: Store) {
    WellTyped(st) && Allocated(st)
  }

  lemma EmptyStoreInv()
    ensures StoreInv(EmptyStore)
  {
  }

  /** Keys outside `ks` exist in `b` with the value they had in `a`. */
  predicate SameOutside(a: Store, b: Store, ks: set<Key>) {
    forall k :: k in a.data && k !in ks ==> k in b.data && b.data[k] == a.data[k]
  }

  // ---------------------------------------------------------------------
  // touch

  /** The versions hash after `touch` raised the cart's field. */
  function BumpedVersions(st: Store, uid: string): Value {
    Fields(HGetAll(st, VersionsKey)[uid := IntToString(Version(st, uid) + 1)])
  }

  /** `touch` writes nothing but the versions hash (and expiries). */
  lemma TouchData(cfg: Config, st: Store, uid: string)
    ensures Touch(cfg, st, uid).data == st.data[VersionsKey := BumpedVersions(st, uid)]
    ensures Touch(cfg, st, uid).counter == st.counter
  {
  }

  /** `touch` raises the cart's version by exactly one and no other cart's;
      the version of a uid never touched is 0. */
  lemma TouchVersion(cfg: Config, st: Store, uid: string)
    ensures Version(Touch(cfg, st, uid), uid) == Version(st, uid) + 1
    ensures forall u :: u != uid ==> Version(Touch(cfg, st, uid), u) == Version(st, u)
  {
    TouchData(cfg, st, uid);
    ToIOfIntToString(Version(st, uid) + 1);
  }

  /** `touch` gives the configured TTL to every line-item key of the cart
      and to the cart key, and to the index key and every detail key only
      when the index key exists; the versions hash gets no expiry. */
  lemma TouchExpiry(cfg: Config, st: Store, uid: string)
    requires st.ttl.Keys <= st.data.Keys
    ensures var r := Touch(cfg, st, uid);
      && (forall m :: m in CartMembers(st, uid) && LineItemKey(m) in st.data
            ==> TtlOf(r, LineItemKey(m)) == cfg.cartExpiresIn)
      && (Exists(st, CartKey(uid)) ==> Ttl(r, uid) == cfg.cartExpiresIn)
      && (Exists(st, IndexKey(uid)) ==>
            TtlOf(r, IndexKey(uid)) == cfg.cartExpiresIn
            && forall k :: k in DetailKeysOf(st, uid) ==> TtlOf(r, k) == cfg.cartExpiresIn)
      && (!Exists(st, IndexKey(uid)) ==> forall k :: k in DetailKeysOf(st, uid) ==> TtlOf(r, k) == TtlOf(st, k))
      && (VersionsKey !in st.ttl ==> VersionsKey !in r.ttl)
      && r.ttl.Keys <= r.data.Keys
  {
    var r := Touch(cfg, st, uid);
    TouchData(cfg, st, uid);
    forall m | m in CartMembers(st, uid) && LineItemKey(m) in st.data
      ensures TtlOf(r, LineItemKey(m)) == cfg.cartExpiresIn
    {
      assert LineItemKey(m) in LineItemKeys(st, uid);
    }
  }

  /** An existing cart key gets the configured TTL from `touch`. */
  lemma TouchExpiresCart(cfg: Config, st: Store, uid: string)
    requires Exists(st, CartKey(uid))
    ensures Ttl(Touch(cfg, st, uid), uid) == cfg.cartExpiresIn
  {
    assert CartKey(uid) in TouchedKeys(st, uid);
  }

  lemma TouchInv(cfg: Config, st: Store, uid: string)
    requires StoreInv(st)
    ensures StoreInv(Touch(cfg, st, uid))
  {
    var r := Touch(cfg, st, uid);
    TouchData(cfg, st, uid);
    TouchExpiry(cfg, st, uid);
    assert Allocated(r) by {
      forall k | k in r.data && k.CartKey?
        ensures forall m :: m in SMembers(r, k) ==> ToI(m) <= r.counter
      {
        assert SMembers(r, k) == SMembers(st, k);
      }
    }
  }

  /** The version of a cart is read from the versions hash alone. */
  lemma VersionFrame(a: Store, b: Store, uid: string)
    requires VersionsKey in a.data <==> VersionsKey in b.data
    requires VersionsKey in a.data ==> a.data[VersionsKey] == b.data[VersionsKey]
    ensures Version(a, uid) == Version(b, uid)
  {
    assert HGetAll(a, VersionsKey) == HGetAll(b, VersionsKey);
  }

  /** The cache key differs after every `touch`. */
  lemma CacheKeyChangesOnTouch(cfg: Config, st: Store, uid: string)
    ensures CacheKey(Touch(cfg, st, uid), uid) != CacheKey(st, uid)
  {
    TouchVersion(cfg, st, uid);
    var v := Version(st, uid);
    ToIOfIntToString(v);
    ToIOfIntToString(v + 1);
    var prefix := "cart/" + uid + "-";
    var before, after := IntToString(v), IntToString(v + 1);
    assert (prefix + before)[|prefix|..] == before;
    assert (prefix + after)[|prefix|..] == after;
  }

  // ---------------------------------------------------------------------
  // add_item

  /** The hash `add_item` leaves for a fresh line item: the options, with
      `_version` raised by one by HINCRBY. */
  function FreshItemFields(options: map<string, string>): map<string, string> {
    options[VersionField := IntToString(NilToI(if VersionField in options then Some(options[VersionField]) else None) + 1)]
  }

  /** The store `add_item`'s pipelined writes leave, as one update of the
      store; `lineId` is the id INCR returned. */
  function AddedStore(st: Store, uid: string, options: map<string, string>, lineId: string): Store
    requires "id" in options && "type" in options
  {
    var t, p := options["type"], options["id"];
    Store(st.data[LineItemKey(lineId) := Fields(FreshItemFields(options))]
                 [CartKey(uid) := Members(CartMembers(st, uid) + {lineId})]
                 [IndexKey(uid) := Members(Tokens(st, uid) + {Token(t, p)})]
                 [DetailKey(uid, t, p) := Str(lineId)],
          st.ttl - {DetailKey(uid, t, p)},
          st.counter + 1)
  }

  /** INCR, then HMSET of the options on a fresh line-item key. */
  lemma HMSetFresh(st: Store, lk: Key, options: map<string, string>)
    requires lk !in st.data
    ensures HMSet(Incr(st), lk, options) == Store(st.data[lk := Fields(options)], st.ttl, st.counter + 1)
  {
    assert HGetAll(Incr(st), lk) == map[];
    assert map[] + options == options;
  }

  /** HINCRBY of `_version` by one on a hash holding `fields`. */
  lemma HIncrVersion(s: Store, lk: Key, fields: map<string, string>)
    requires lk in s.data && s.data[lk] == Fields(fields)
    ensures HIncrBy(s, lk, VersionField, 1) == s.(data := s.data[lk := Fields(FreshItemFields(fields))])
  {
    assert HGetAll(s, lk) == fields;
  }

  /** INCR, HMSET and HINCRBY of `_version` on a fresh line-item key. */
  lemma AddItemHashStep(st: Store, lk: Key, options: map<string, string>)
    requires lk !in st.data
    ensures HIncrBy(HMSet(Incr(st), lk, options), lk, VersionField, 1)
            == Store(st.data[lk := Fields(FreshItemFields(options))], st.ttl, st.counter + 1)
  {
    var s2 := Store(st.data[lk := Fields(options)], st.ttl, st.counter + 1);
    HMSetFresh(st, lk, options);
    HIncrVersion(s2, lk, options);
    var written := Fields(FreshItemFields(options));
    assert st.data[lk := Fields(options)][lk := written] == st.data[lk := written];
  }

  lemma AddItemWritesShape(st: Store, uid: string, options: map<string, string>)
    requires "id" in options && "type" in options
    requires LineItemKey(NatToString(st.counter + 1)) !in st.data
    ensures AddItemWrites(st, uid, options) == AddedStore(st, uid, options, NatToString(st.counter + 1))
  {
    var lineId := NatToString(st.counter + 1);
    var lk := LineItemKey(lineId);
    AddItemHashStep(st, lk, options);
    var s3 := Store(st.data[lk := Fields(FreshItemFields(options))], st.ttl, st.counter + 1);
    assert SMembers(s3, CartKey(uid)) == CartMembers(st, uid);
    assert SMembers(SAdd(s3, CartKey(uid), lineId), IndexKey(uid)) == Tokens(st, uid);
  }

  /** Under the store invariant the id INCR returns names no existing line
      item and reads as more than every id already in any cart. */
  lemma AddItemFreshId(st: Store, uid: string, options: map<string, string>)
    requires StoreInv(st)
    ensures var lineId := NatToString(st.counter + 1);
      && ToI(lineId) == st.counter + 1
      && LineItemKey(lineId) !in st.data
      && (forall k :: k in st.data && k.CartKey? ==> forall m :: m in SMembers(st, k) ==> ToI(m) < ToI(lineId))
  {
    ToIOfIntToString(st.counter + 1);
  }

  /** The whole data change of `add_item`: its writes, then the version bump. */
  lemma AddItemData(cfg: Config, st: Store, uid: string, options: map<string, string>)
    requires StoreInv(st)
    requires "id" in options && "type" in options
    ensures var w := AddedStore(st, uid, options, NatToString(st.counter + 1));
      && AddItem(cfg, st, uid, options).0.data == w.data[VersionsKey := BumpedVersions(w, uid)]
      && AddItem(cfg, st, uid, options).0.counter == st.counter + 1
      && AddItem(cfg, st, uid, options).1 == Ok(GetItem(AddItem(cfg, st, uid, options).0, uid, NatToString(st.counter + 1)))
  {
    AddItemFreshId(st, uid, options);
    AddItemWritesShape(st, uid, options);
    TouchData(cfg, AddItemWrites(st, uid, options), uid);
  }

  /** What can be read back from any store whose data is that of
      AddedStore with the versions hash replaced. */
  lemma AddedObservations(st: Store, uid: string, options: map<string, string>, lineId: string, r: Store, versions: Value)
    requires "id" in options && "type" in options
    requires r.data == AddedStore(st, uid, options, lineId).data[VersionsKey := versions]
    ensures var t, p := options["type"], options["id"];
      && HGetAll(r, LineItemKey(lineId)) == FreshItemFields(options)
      && CartMembers(r, uid) == CartMembers(st, uid) + {lineId}
      && Tokens(r, uid) == Tokens(st, uid) + {Token(t, p)}
      && Get(r, DetailKey(uid, t, p)) == Some(lineId)
      && SameOutside(st, r, {LineItemKey(lineId), CartKey(uid), IndexKey(uid), DetailKey(uid, t, p), VersionsKey})
      && r.data.Keys == st.data.Keys + {LineItemKey(lineId), CartKey(uid), IndexKey(uid), DetailKey(uid, t, p), VersionsKey}
  {
  }

  /** `add_item` with both `id` and `type`: the options stored with
      `_version` raised by one (so 1 for a fresh item), the id added to the
      cart so `count` grows by one, the token added to the index, the detail
      key pointing at the id, and the item returned; nothing else in the
      data changes but the versions hash. */
  lemma AddItemEffects(cfg: Config, st: Store, uid: string, options: map<string, string>)
    requires StoreInv(st)
    requires "id" in options && "type" in options
    ensures var r := AddItem(cfg, st, uid, options).0;
      var lineId := NatToString(st.counter + 1);
      && r.counter == st.counter + 1
      && AddedReads(st, r, uid, options, lineId)
      && AddItem(cfg, st, uid, options).1 == Ok(GetItem(r, uid, lineId))
  {
    var lineId := NatToString(st.counter + 1);
    var r := AddItem(cfg, st, uid, options).0;
    var w := AddedStore(st, uid, options, lineId);
    AddItemData(cfg, st, uid, options);
    FreshIdNotMember(st, uid);
    AddedReadBack(st, uid, options, lineId, r, BumpedVersions(w, uid));
  }

  /** The id `add_item` allocates is not yet a member of the cart. */
  lemma FreshIdNotMember(st: Store, uid: string)
    requires StoreInv(st)
    ensures NatToString(st.counter + 1) !in CartMembers(st, uid)
  {
    AddItemFreshId(st, uid, map[]);
    assert CartKey(uid) !in st.data || forall m :: m in SMembers(st, CartKey(uid)) ==> ToI(m) < ToI(NatToString(st.counter + 1));
  }

  /** What `add_item` leaves to read back under a new line-item id: the
      options with `_version` raised by one (so 1 for a fresh item), the id
      added to the cart so `count` grows by one, the token added to the
      index and the detail key pointing at the id. */
  predicate AddedReads(st: Store, r: Store, uid: string, options: map<string, string>, lineId: string)
    requires "id" in options && "type" in options
  {
    var t, p := options["type"], options["id"];
    && HGetAll(r, LineItemKey(lineId)) == FreshItemFields(options)
    && (VersionField !in options ==> HGet(r, LineItemKey(lineId), VersionField) == Some("1"))
    && CartMembers(r, uid) == CartMembers(st, uid) + {lineId}
    && Count(r, uid) == Count(st, uid) + 1
    && Tokens(r, uid) == Tokens(st, uid) + {Token(t, p)}
    && Get(r, DetailKey(uid, t, p)) == Some(lineId)
  }

  /** The reads of `AddedReads` hold in any store whose data is that of
      AddedStore with the versions hash replaced, when the new id is not
      yet a member. */
  lemma AddedReadBack(st: Store, uid: string, options: map<string, string>, lineId: string, r: Store, versions: Value)
    requires "id" in options && "type" in options
    requires r.data == AddedStore(st, uid, options, lineId).data[VersionsKey := versions]
    requires lineId !in CartMembers(st, uid)
    ensures AddedReads(st, r, uid, options, lineId)
  {
    AddedObservations(st, uid, options, lineId, r, versions);
    AddedCount(st, r, uid, lineId);
    if VersionField !in options {
      assert FreshItemFields(options)[VersionField] == IntToString(1);
    }
  }

  lemma AddedCount(st: Store, r: Store, uid: string, lineId: string)
    requires CartMembers(r, uid) == CartMembers(st, uid) + {lineId}
    requires lineId !in CartMembers(st, uid)
    ensures Count(r, uid) == Count(st, uid) + 1
  {
  }

  /** `add_item` writes only the line-item key, the cart key, the index
      key, the detail key and the versions hash. */
  lemma AddItemFrame(cfg: Config, st: Store, uid: string, options: map<string, string>)
    requires StoreInv(st)
    requires "id" in options && "type" in options
    ensures var r := AddItem(cfg, st, uid, options).0;
      var lineId := NatToString(st.counter + 1);
      var t, p := options["type"], options["id"];
      && SameOutside(st, r, {LineItemKey(lineId), CartKey(uid), IndexKey(uid), DetailKey(uid, t, p), VersionsKey})
      && r.data.Keys == st.data.Keys + {LineItemKey(lineId), CartKey(uid), IndexKey(uid), DetailKey(uid, t, p), VersionsKey}
  {
    var lineId := NatToString(st.counter + 1);
    var r := AddItem(cfg, st, uid, options).0;
    AddItemData(cfg, st, uid, options);
    AddedObservations(st, uid, options, lineId, r, BumpedVersions(AddedStore(st, uid, options, lineId), uid));
  }

  /** `add_item` is `touch` applied to its writes. */
  lemma AddItemIsTouch(cfg: Config, st: Store, uid: string, options: map<string, string>)
    requires StoreInv(st)
    requires "id" in options && "type" in options
    ensures AddItem(cfg, st, uid, options).0 == Touch(cfg, AddedStore(st, uid, options, NatToString(st.counter + 1)), uid)
  {
    AddItemFreshId(st, uid, options);
    AddItemWritesShape(st, uid, options);
  }

  /** The writes of `add_item` keep the store invariant. */
  lemma AddedStoreInv(st: Store, uid: string, options: map<string, string>)
    requires StoreInv(st)
    requires "id" in options && "type" in options
    ensures StoreInv(AddedStore(st, uid, options, NatToString(st.counter + 1)))
  {
    var lineId := NatToString(st.counter + 1);
    var w := AddedStore(st, uid, options, lineId);
    AddItemFreshId(st, uid, options);
    assert WellTyped(w);
    assert Allocated(w) by {
      forall k | k in w.data && k.CartKey?
        ensures forall m :: m in SMembers(w, k) ==> ToI(m) <= w.counter
      {
        if k != CartKey(uid) {
          assert SMembers(w, k) == SMembers(st, k);
        }
      }
    }
  }

  /** The writes of `add_item` leave every cart's version alone. */
  lemma AddedVersion(st: Store, uid: string, options: map<string, string>, lineId: string, u: string)
    requires "id" in options && "type" in options
    ensures Version(AddedStore(st, uid, options, lineId), u) == Version(st, u)
  {
    VersionFrame(AddedStore(st, uid, options, lineId), st, u);
  }

  /** `add_item` calls `touch` once: the version rises by one, and the cart
      key and the new line item's hash get the configured TTL. */
  lemma AddItemTouches(cfg: Config, st: Store, uid: string, options: map<string, string>)
    requires StoreInv(st)
    requires "id" in options && "type" in options
    ensures var r := AddItem(cfg, st, uid, options).0;
      && Version(r, uid) == Version(st, uid) + 1
      && Ttl(r, uid) == cfg.cartExpiresIn
      && TtlOf(r, LineItemKey(NatToString(st.counter + 1))) == cfg.cartExpiresIn
  {
    var lineId := NatToString(st.counter + 1);
    var w := AddedStore(st, uid, options, lineId);
    AddItemIsTouch(cfg, st, uid, options);
    AddedVersion(st, uid, options, lineId, uid);
    assert Exists(w, CartKey(uid));
    TouchVersion(cfg, w, uid);
    TouchExpiresCart(cfg, w, uid);
    assert lineId in CartMembers(w, uid) && LineItemKey(lineId) in w.data && w.ttl.Keys <= w.data.Keys by {
      AddedStoreInv(st, uid, options);
    }
    TouchExpiry(cfg, w, uid);
  }

  lemma AddItemInv(cfg: Config, st: Store, uid: string, options: map<string, string>)
    requires StoreInv(st)
    ensures StoreInv(AddItem(cfg, st, uid, options).0)
  {
    if "id" in options && "type" in options {
      AddItemIsTouch(cfg, st, uid, options);
      AddedStoreInv(st, uid, options);
      TouchInv(cfg, AddedStore(st, uid, options, NatToString(st.counter + 1)), uid);
    }
  }

  // ---------------------------------------------------------------------
  // remove_item

  /** The deletions of `remove_item` take the line-item key, the id from
      the cart set, the token from the index and the detail key named by the
      item's snapshot `type`/`id`, and change nothing else. */
  lemma RemoveItemWritesEffects(st: Store, uid: string, item: Item)
    ensures var w := RemoveItemWrites(st, uid, item);
      var t, p := Interpolate(ItemType(item)), Interpolate(ItemProductId(item));
      && w.counter == st.counter
      && LineItemKey(item.lineId) !in w.data
      && CartMembers(w, uid) == CartMembers(st, uid) - {item.lineId}
      && Tokens(w, uid) == Tokens(st, uid) - {Token(t, p)}
      && DetailKey(uid, t, p) !in w.data
      && SameOutside(st, w, {LineItemKey(item.lineId), CartKey(uid), IndexKey(uid), DetailKey(uid, t, p)})
      && w.data.Keys <= st.data.Keys
      && w.ttl.Keys <= st.ttl.Keys
      && (forall k :: SMembers(w, k) <= SMembers(st, k))
  {
  }

  lemma RemoveItemWritesInv(st: Store, uid: string, item: Item)
    requires StoreInv(st)
    ensures StoreInv(RemoveItemWrites(st, uid, item))
  {
    var w := RemoveItemWrites(st, uid, item);
    RemoveItemWritesEffects(st, uid, item);
    assert Allocated(w) by {
      forall k | k in w.data && k.CartKey?
        ensures forall m :: m in SMembers(w, k) ==> ToI(m) <= w.counter
      {
        assert SMembers(w, k) <= SMembers(st, k);
      }
    }
  }

  /** `remove_item`: its deletions, then one `touch` (the version rises by
      one); the store invariant is kept. */
  lemma RemoveItemEffects(cfg: Config, st: Store, uid: string, item: Item)
    requires StoreInv(st)
    ensures var r := RemoveItem(cfg, st, uid, item);
      var t, p := Interpolate(ItemType(item)), Interpolate(ItemProductId(item));
      && StoreInv(r)
      && LineItemKey(item.lineId) !in r.data
      && CartMembers(r, uid) == CartMembers(st, uid) - {item.lineId}
      && Tokens(r, uid) == Tokens(st, uid) - {Token(t, p)}
      && DetailKey(uid, t, p) !in r.data
      && Version(r, uid) == Version(st, uid) + 1
      && SameOutside(st, r, {LineItemKey(item.lineId), CartKey(uid), IndexKey(uid), DetailKey(uid, t, p), VersionsKey})
      && r.data.Keys <= st.data.Keys + {VersionsKey}
  {
    var w := RemoveItemWrites(st, uid, item);
    var r := RemoveItem(cfg, st, uid, item);
    RemoveItemWritesEffects(st, uid, item);
    assert StoreInv(r) by {
      RemoveItemWritesInv(st, uid, item);
      TouchInv(cfg, w, uid);
    }
    assert Version(r, uid) == Version(w, uid) + 1 by {
      TouchVersion(cfg, w, uid);
    }
    VersionFrame(w, st, uid);
    assert r.data == w.data[VersionsKey := BumpedVersions(w, uid)] by {
      TouchData(cfg, w, uid);
    }
  }

  // ---------------------------------------------------------------------
  // destroy!

  /** `destroy!` leaves no line-item key of the cart's members, no cart key,
      no index key and no detail key of the uid; the versions hash and every
      key outside the cart are untouched. */
  lemma DestroyEffects(st: Store, uid: string)
    requires StoreInv(st)
    ensures var r := Destroy(st, uid);
      && StoreInv(r)
      && (forall m :: m in CartMembers(st, uid) ==> LineItemKey(m) !in r.data)
      && !Exists(r, CartKey(uid)) && !Exists(r, IndexKey(uid))
      && DetailKeysOf(r, uid) == {}
      && Count(r, uid) == 0
      && (forall u :: Version(r, u) == Version(st, u))
      && (forall k :: k in st.data && k !in DestroyedKeys(st, uid) ==> k in r.data && r.data[k] == st.data[k])
  {
    var r := Destroy(st, uid);
    forall m | m in CartMembers(st, uid)
      ensures LineItemKey(m) !in r.data
    {
      assert LineItemKey(m) in LineItemKeys(st, uid);
    }
    assert VersionsKey !in DestroyedKeys(st, uid);
  }

  // ---------------------------------------------------------------------
  // coupons

  /** The hash an item setter leaves: the field written, then `_version`
      raised by one. */
  function SetFields(st: Store, k: Key, name: string, value: string): map<string, string> {
    HGetAll(st, k)[name := value][VersionField := IntToString(NilToI(HGet(st, k, VersionField)) + 1)]
  }

  /** HSET of the field, then HINCRBY of `_version`. */
  lemma SetItemHashStep(st: Store, k: Key, name: string, value: string)
    requires name != VersionField
    ensures HIncrBy(HSet(st, k, name, value), k, VersionField, 1)
            == st.(data := st.data[k := Fields(SetFields(st, k, name, value))])
  {
    assert HGet(HSet(st, k, name, value), k, VersionField) == HGet(st, k, VersionField);
  }

  /** An item setter changes the item's hash and the versions hash only. */
  lemma SetItemFieldData(cfg: Config, st: Store, item: Item, name: string, value: string)
    requires name != VersionField
    ensures var k := LineItemKey(item.lineId);
      && SetItemField(cfg, st, item, name, value).data
           == st.data[k := Fields(SetFields(st, k, name, value))][VersionsKey := BumpedVersions(st, item.uid)]
      && SetItemField(cfg, st, item, name, value).counter == st.counter
  {
    var k := LineItemKey(item.lineId);
    SetItemHashStep(st, k, name, value);
    var s2 := st.(data := st.data[k := Fields(SetFields(st, k, name, value))]);
    TouchData(cfg, s2, item.uid);
    VersionFrame(s2, st, item.uid);
    assert HGetAll(s2, VersionsKey) == HGetAll(st, VersionsKey);
  }

  /** An item setter writes the field, raises the item's `_version` by one
      and the cart's version by one, keeps every other field, and changes
      nothing else in the data. */
  lemma SetItemFieldEffects(cfg: Config, st: Store, item: Item, name: string, value: string)
    requires name != VersionField
    ensures var r := SetItemField(cfg, st, item, name, value);
      var k := LineItemKey(item.lineId);
      && HGet(r, k, name) == Some(value)
      && NilToI(HGet(r, k, VersionField)) == NilToI(HGet(st, k, VersionField)) + 1
      && (forall f :: f != name && f != VersionField ==> HGet(r, k, f) == HGet(st, k, f))
      && Version(r, item.uid) == Version(st, item.uid) + 1
      && SameOutside(st, r, {k, VersionsKey})
      && r.data.Keys == st.data.Keys + {k, VersionsKey}
  {
    var k := LineItemKey(item.lineId);
    var r := SetItemField(cfg, st, item, name, value);
    assert r.data == st.data[k := Fields(SetFields(st, k, name, value))][VersionsKey := BumpedVersions(st, item.uid)] by {
      SetItemFieldData(cfg, st, item, name, value);
    }
    SetFieldReadBack(st, r, k, item.uid, name, value);
  }

  /** What can be read back from any store whose data is `st`'s with one
      line-item hash rewritten by an item setter and the versions hash
      bumped for `uid`. */
  lemma SetFieldReadBack(st: Store, r: Store, k: Key, uid: string, name: string, value: string)
    requires k.LineItemKey? && name != VersionField
    requires r.data == st.data[k := Fields(SetFields(st, k, name, value))][VersionsKey := BumpedVersions(st, uid)]
    ensures HGet(r, k, name) == Some(value)
    ensures NilToI(HGet(r, k, VersionField)) == NilToI(HGet(st, k, VersionField)) + 1
    ensures forall f :: f != name && f != VersionField ==> HGet(r, k, f) == HGet(st, k, f)
    ensures Version(r, uid) == Version(st, uid) + 1
    ensures SameOutside(st, r, {k, VersionsKey})
    ensures r.data.Keys == st.data.Keys + {k, VersionsKey}
  {
    assert HGetAll(r, k) == SetFields(st, k, name, value);
    SetFieldsReadBack(st, r, k, name, value);
    assert HGetAll(r, VersionsKey) == HGetAll(st, VersionsKey)[uid := IntToString(Version(st, uid) + 1)];
    BumpReadBack(st, r, uid);
  }

  /** Reading a hash rewritten by an item setter. */
  lemma SetFieldsReadBack(st: Store, r: Store, k: Key, name: string, value: string)
    requires name != VersionField
    requires HGetAll(r, k) == SetFields(st, k, name, value)
    ensures HGet(r, k, name) == Some(value)
    ensures NilToI(HGet(r, k, VersionField)) == NilToI(HGet(st, k, VersionField)) + 1
    ensures forall f :: f != name && f != VersionField ==> HGet(r, k, f) == HGet(st, k, f)
  {
    ToIOfIntToString(NilToI(HGet(st, k, VersionField)) + 1);
  }

  /** Reading the versions hash after `touch` raised the cart's field. */
  lemma BumpReadBack(st: Store, r: Store, uid: string)
    requires HGetAll(r, VersionsKey) == HGetAll(st, VersionsKey)[uid := IntToString(Version(st, uid) + 1)]
    ensures Version(r, uid) == Version(st, uid) + 1
  {
    ToIOfIntToString(Version(st, uid) + 1);
  }

  /** An item setter keeps the store invariant when the line-item key exists
      or its id came from the counter. */
  lemma SetItemFieldInv(cfg: Config, st: Store, item: Item, name: string, value: string)
    requires StoreInv(st)
    requires LineItemKey(item.lineId) in st.data || ToI(item.lineId) <= st.counter
    requires name != VersionField
    ensures StoreInv(SetItemField(cfg, st, item, name, value))
  {
    var k := LineItemKey(item.lineId);
    var s2 := HIncrBy(HSet(st, k, name, value), k, VersionField, 1);
    assert StoreInv(s2) by {
      assert Allocated(s2) by {
        forall j | j in s2.data && j.CartKey?
          ensures forall m :: m in SMembers(s2, j) ==> ToI(m) <= s2.counter
        {
          assert SMembers(s2, j) == SMembers(st, j);
        }
      }
    }
    TouchInv(cfg, s2, item.uid);
  }

  /** A setter leaves every set as it was. */
  lemma SetItemFieldSets(cfg: Config, st: Store, item: Item, name: string, value: string)
    requires WellTyped(st)
    requires name != VersionField
    ensures forall k :: SMembers(SetItemField(cfg, st, item, name, value), k) == SMembers(st, k)
  {
    SetItemFieldData(cfg, st, item, name, value);
  }

  /** The three coupon setters: each field holds its value, the item's
      `_version` and the cart's version each rise by three, the sets stay as
      they were and the store invariant is kept. */
  lemma SetCouponFieldsEffects(cfg: Config, st: Store, item: Item, couponId: string, couponCode: string, discount: string)
    requires StoreInv(st)
    requires LineItemKey(item.lineId) in st.data || ToI(item.lineId) <= st.counter
    ensures var r := SetCouponFields(cfg, st, item, couponId, couponCode, discount);
      var k := LineItemKey(item.lineId);
      && StoreInv(r)
      && HGet(r, k, "coupon_id") == Some(couponId)
      && HGet(r, k, "coupon_code") == Some(couponCode)
      && HGet(r, k, "discount") == Some(discount)
      && NilToI(HGet(r, k, VersionField)) == NilToI(HGet(st, k, VersionField)) + 3
      && Version(r, item.uid) == Version(st, item.uid) + 3
      && (forall j :: SMembers(r, j) == SMembers(st, j))
  {
    var s1 := SetItemField(cfg, st, item, "coupon_id", couponId);
    var s2 := SetItemField(cfg, s1, item, "coupon_code", couponCode);
    SetItemFieldEffects(cfg, st, item, "coupon_id", couponId);
    SetItemFieldInv(cfg, st, item, "coupon_id", couponId);
    SetItemFieldSets(cfg, st, item, "coupon_id", couponId);
    SetItemFieldEffects(cfg, s1, item, "coupon_code", couponCode);
    SetItemFieldInv(cfg, s1, item, "coupon_code", couponCode);
    SetItemFieldSets(cfg, s1, item, "coupon_code", couponCode);
    SetItemFieldEffects(cfg, s2, item, "discount", discount);
    SetItemFieldInv(cfg, s2, item, "discount", discount);
    SetItemFieldSets(cfg, s2, item, "discount", discount);
  }

  /** A found item is a member of the cart, so its id came from the counter. */
  lemma FoundItemAllocated(st: Store, uid: string, order: seq<string>, productId: string, productType: string)
    requires StoreInv(st)
    requires Enumerates(order, CartMembers(st, uid))
    ensures var found := FindItemByProduct(st, uid, order, productId, productType);
      found.Some? ==> found.value.uid == uid && ToI(found.value.lineId) <= st.counter
  {
  }

  /** `apply_coupon?`: false when no item matches or the item already has
      this coupon id, and then nothing changes; otherwise the three coupon
      fields are written, the discount is returned, and the cart's version
      rises by three (one `touch` per field write). */
  lemma ApplyCouponEffects(cfg: Config, st: Store, uid: string, order: seq<string>,
                           couponId: string, couponCode: string, productId: string, productType: string,
                           discount: string)
    requires StoreInv(st)
    requires Enumerates(order, CartMembers(st, uid))
    ensures var (r, res) := ApplyCoupon(cfg, st, uid, order, couponId, couponCode, productId, productType, discount);
      var found := FindItemByProduct(st, uid, order, productId, productType);
      && StoreInv(r)
      && (found.None? ==> r == st && res.None?)
      && (found.Some? && Field(found.value, "coupon_id") == Some(couponId) ==> r == st && res.None?)
      && (found.Some? && Field(found.value, "coupon_id") != Some(couponId) ==>
            var k := LineItemKey(found.value.lineId);
            && res == Some(discount)
            && HGet(r, k, "coupon_id") == Some(couponId)
            && HGet(r, k, "coupon_code") == Some(couponCode)
            && HGet(r, k, "discount") == Some(discount)
            && NilToI(HGet(r, k, VersionField)) == NilToI(HGet(st, k, VersionField)) + 3
            && Version(r, uid) == Version(st, uid) + 3
            && CartMembers(r, uid) == CartMembers(st, uid))
  {
    var found := FindItemByProduct(st, uid, order, productId, productType);
    FoundItemAllocated(st, uid, order, productId, productType);
    if found.Some? && Field(found.value, "coupon_id") != Some(couponId) {
      SetCouponFieldsEffects(cfg, st, found.value, couponId, couponCode, discount);
    }
  }

  /** After a successful `apply_coupon?` with a non-blank coupon id,
      `any_coupons?` holds; after a successful `remove_coupon?` the item
      it found no longer counts towards `any_coupons?`. */
  lemma CouponsSeenByAnyCoupons(cfg: Config, st: Store, uid: string, order: seq<string>,
                                couponId: string, couponCode: string, productId: string, productType: string,
                                discount: string)
    requires StoreInv(st)
    requires Enumerates(order, CartMembers(st, uid))
    ensures var (r, res) := ApplyCoupon(cfg, st, uid, order, couponId, couponCode, productId, productType, discount);
      res.Some? && !Blank(Some(couponId)) ==> AnyCoupons(r, uid)
    ensures var (r, res) := RemoveCoupon(cfg, st, uid, order, productId, productType);
      var found := FindItemByProduct(st, uid, order, productId, productType);
      res ==> found.Some? && found.value.lineId in CartMembers(r, uid)
              && Blank(HGet(r, LineItemKey(found.value.lineId), "coupon_id"))
  {
    var found := FindItemByProduct(st, uid, order, productId, productType);
    ApplyCouponEffects(cfg, st, uid, order, couponId, couponCode, productId, productType, discount);
    RemoveCouponEffects(cfg, st, uid, order, productId, productType);
    if found.Some? && Field(found.value, "coupon_id") != Some(couponId) {
      var r := ApplyCoupon(cfg, st, uid, order, couponId, couponCode, productId, productType, discount).0;
      assert found.value.lineId in CartMembers(r, uid);
    }
  }

  /** `remove_coupon?`: false with nothing changed when no item matches;
      otherwise the three coupon fields are emptied (blank) and it returns
      true. */
  lemma RemoveCouponEffects(cfg: Config, st: Store, uid: string, order: seq<string>,
                            productId: string, productType: string)
    requires StoreInv(st)
    requires Enumerates(order, CartMembers(st, uid))
    ensures var (r, res) := RemoveCoupon(cfg, st, uid, order, productId, productType);
      var found := FindItemByProduct(st, uid, order, productId, productType);
      && StoreInv(r)
      && (found.None? <==> !res)
      && (found.None? ==> r == st)
      && (found.Some? ==>
            var k := LineItemKey(found.value.lineId);
            && HGet(r, k, "coupon_id") == Some("")
            && HGet(r, k, "coupon_code") == Some("")
            && HGet(r, k, "discount") == Some("")
            && Blank(HGet(r, k, "coupon_id"))
            && Version(r, uid) == Version(st, uid) + 3
            && CartMembers(r, uid) == CartMembers(st, uid))
  {
    var found := FindItemByProduct(st, uid, order, productId, productType);
    FoundItemAllocated(st, uid, order, productId, productType);
    if found.Some? {
      SetCouponFieldsEffects(cfg, st, found.value, "", "", "");
    }
  }
}
