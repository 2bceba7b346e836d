/** `Cartman::Cart`: one shopping cart spread over several Redis keys. Each
    public method of the class is a pure transition on the abstract store:
    it takes the store and the cart's uid and returns the new store and
    whatever the Ruby method returns. */
module Cart {
  import opened Wrappers
  import opened RubyText
  import opened KeySpace
  import opened Store

  /** The configuration the cart reads (`Cartman.config`). */
  datatype Config = Config(cartExpiresIn: nat, quantityField: string, unitCostField: string)

  /** A loaded line item (`Cartman::Item`): its line-item id `_id`, the uid of
      the cart that loaded it, and a snapshot of its hash taken at load time. */
  datatype Item = Item(lineId: string, uid: string, fields: map<string, string>)

  /** The outcome of `reassign`: the store, the cart's uid afterwards, and
      the Redis error that stopped it, if any. */
  datatype Reassigned = Reassigned(store: Store, uid: string, failure: Option<string>)

  const MissingIdentity: string := "Must specify both :id and :type"
  const NoSuchKey: string := "ERR no such key"
  const VersionField: string := "_version"

  function Field(item: Item, name: string): Option<string> {
    if name in item.fields then Some(item.fields[name]) else None
  }

  /** `item.type` */
  function ItemType(item: Item): Option<string> {
    Field(item, "type")
  }

  /** `item.id`: the product id, not the line-item id. */
  function ItemProductId(item: Item): Option<string> {
    Field(item, "id")
  }

  /** `line_item_ids`: the membership set. */
  function CartMembers(st: Store, uid: string): set<string> {
    SMembers(st, CartKey(uid))
  }

  /** The members of the index set. */
  function Tokens(st: Store, uid: string): set<string> {
    SMembers(st, IndexKey(uid))
  }

  /** `line_item_keys` */
  function LineItemKeys(st: Store, uid: string): set<Key> {
    set m | m in CartMembers(st, uid) :: LineItemKey(m)
  }

  /** `get_item(id)` */
  function GetItem(st: Store, uid: string, lineId: string): Item {
    Item(lineId, uid, HGetAll(st, LineItemKey(lineId)))
  }

  /** `index_key_for(item, id)` for an `Item`: nil parts interpolate as "". */
  function DetailKeyOfItem(item: Item, uid: string): Key {
    DetailKey(uid, Interpolate(ItemType(item)), Interpolate(ItemProductId(item)))
  }

  // ---------------------------------------------------------------------
  // touch, version, ttl, count, cache_key

  /** The keys `touch` expires: every line-item key and the cart key, and
      the index key with every detail key only when the index key exists. */
  function TouchedKeys(st: Store, uid: string): set<Key> {
    LineItemKeys(st, uid) + {CartKey(uid)}
      + (if Exists(st, IndexKey(uid)) then {IndexKey(uid)} + DetailKeysOf(st, uid) else {})
  }

  /** `touch`: re-applies the expiry, then bumps the cart's version. */
  function Touch(cfg: Config, st: Store, uid: string): Store {
    HIncrBy(ExpireAll(st, TouchedKeys(st, uid), cfg.cartExpiresIn), VersionsKey, uid, 1)
  }

  /** `version`: the cart's field of the versions hash; 0 when unseen. */
  function Version(st: Store, uid: string): (v: int)
    ensures HGet(st, VersionsKey, uid).None? ==> v == 0
  {
    NilToI(HGet(st, VersionsKey, uid))
  }

  /** `ttl` */
  function Ttl(st: Store, uid: string): int {
    TtlOf(st, CartKey(uid))
  }

  /** `count` */
  function Count(st: Store, uid: string): nat {
    |CartMembers(st, uid)|
  }

  /** `cache_key` */
  function CacheKey(st: Store, uid: string): string {
    "cart/" + uid + "-" + IntToString(Version(st, uid))
  }

  // ---------------------------------------------------------------------
  // add_item, remove_item

  /** `add_item(options)`: options are the caller's fields, already
      stringified as Redis stores them. */
  function AddItem(cfg: Config, st: Store, uid: string, options: map<string, string>): (r: (Store, Result<Item>))
    ensures !("id" in options && "type" in options) ==> r == (st, Raised(MissingIdentity))
    ensures "id" in options && "type" in options ==>
              r.1.Ok? && r.1.value.lineId == NatToString(st.counter + 1) && r.1.value.uid == uid
  {
    if !("id" in options && "type" in options) then (st, Raised(MissingIdentity))
    else
      var lineId := NatToString(st.counter + 1);
      var s := Touch(cfg, AddItemWrites(st, uid, options), uid);
      (s, Ok(GetItem(s, uid, lineId)))
  }

  /** The store after the pipelined writes of `add_item`, before `touch`. */
  function AddItemWrites(st: Store, uid: string, options: map<string, string>): Store
    requires "id" in options && "type" in options
  {
    var s1 := Incr(st);
    var lineId := NatToString(s1.counter);
    var t, p := options["type"], options["id"];
    var s2 := HMSet(s1, LineItemKey(lineId), options);
    var s3 := HIncrBy(s2, LineItemKey(lineId), VersionField, 1);
    var s4 := SAdd(s3, CartKey(uid), lineId);
    var s5 := SAdd(s4, IndexKey(uid), Token(t, p));
    SetString(s5, DetailKey(uid, t, p), lineId)
  }

  /** The store after the deletions of `remove_item`, before `touch`. */
  function RemoveItemWrites(st: Store, uid: string, item: Item): Store {
    var t, p := Interpolate(ItemType(item)), Interpolate(ItemProductId(item));
    var s1 := Del(st, LineItemKey(item.lineId));
    var s2 := SRem(s1, CartKey(uid), item.lineId);
    var s3 := SRem(s2, IndexKey(uid), Token(t, p));
    Del(s3, DetailKey(uid, t, p))
  }

  /** `remove_item(item)`: uses the item's `_id` and its snapshot `type`/`id`. */
  function RemoveItem(cfg: Config, st: Store, uid: string, item: Item): Store {
    Touch(cfg, RemoveItemWrites(st, uid, item), uid)
  }

  // ---------------------------------------------------------------------
  // items, contains?, find, find_item_by_product

  /** Whether `items(type)` keeps an item: always without a type, otherwise
      when the item's `type` is exactly that string. */
  predicate KeptBy(item: Item, typeFilter: Option<string>) {
    typeFilter.None? || ItemType(item) == typeFilter
  }

  function ItemsIn(st: Store, uid: string, ids: seq<string>, typeFilter: Option<string>): (r: seq<Item>)
    ensures |r| <= |ids|
    ensures typeFilter.None? ==> |r| == |ids|
    ensures forall j :: 0 <= j < |r| ==>
              r[j].lineId in ids && r[j] == GetItem(st, uid, r[j].lineId)
              && (typeFilter.Some? ==> ItemType(r[j]) == typeFilter)
    ensures forall i :: 0 <= i < |ids| && KeptBy(GetItem(st, uid, ids[i]), typeFilter)
              ==> GetItem(st, uid, ids[i]) in r
  {
    if |ids| == 0 then []
    else
      var it := GetItem(st, uid, ids[0]);
      var rest := ItemsIn(st, uid, ids[1..], typeFilter);
      if KeptBy(it, typeFilter) then [it] + rest else rest
  }

  /** `items(type)`: every member loaded, in SMEMBERS order, keeping only the
      exact `type` when a filter is given. */
  function Items(st: Store, uid: string, order: seq<string>, typeFilter: Option<string>): (r: seq<Item>)
    requires Enumerates(order, CartMembers(st, uid))
    ensures typeFilter.None? ==> |r| == Count(st, uid)
    ensures forall j :: 0 <= j < |r| ==>
              r[j].lineId in CartMembers(st, uid) && r[j] == GetItem(st, uid, r[j].lineId)
              && (typeFilter.Some? ==> ItemType(r[j]) == typeFilter)
    ensures forall m :: m in CartMembers(st, uid)
              && KeptBy(GetItem(st, uid, m), typeFilter)
              ==> GetItem(st, uid, m) in r
    ensures |r| == |set m | m in CartMembers(st, uid) && KeptBy(GetItem(st, uid, m), typeFilter)|
  {
    EnumeratesFacts(order, CartMembers(st, uid));
    EnumerationDistinct(order, CartMembers(st, uid));
    ItemsInCount(st, uid, order, typeFilter);
    assert KeptIds(st, uid, order, typeFilter)
        == (set m | m in CartMembers(st, uid) && KeptBy(GetItem(st, uid, m), typeFilter));
    ItemsIn(st, uid, order, typeFilter)
  }

  /** The ids of `ids` whose items `items(type)` keeps. */
  function KeptIds(st: Store, uid: string, ids: seq<string>, typeFilter: Option<string>): set<string> {
    set m | m in ids && KeptBy(GetItem(st, uid, m), typeFilter)
  }

  /** Over a list without repeats, `items(type)` has one entry per kept id. */
  lemma {:induction false} ItemsInCount(st: Store, uid: string, ids: seq<string>, typeFilter: Option<string>)
    requires Distinct(ids)
    ensures |ItemsIn(st, uid, ids, typeFilter)| == |KeptIds(st, uid, ids, typeFilter)|
  {
    if |ids| > 0 {
      DistinctTail(ids);
      ItemsInCount(st, uid, ids[1..], typeFilter);
      KeptIdsStep(st, uid, ids, typeFilter);
    }
  }

  /** Over a list whose head does not recur, the kept ids grow by one exactly
      when the head is kept. */
  lemma KeptIdsStep(st: Store, uid: string, ids: seq<string>, typeFilter: Option<string>)
    requires |ids| > 0 && ids[0] !in ids[1..]
    ensures |KeptIds(st, uid, ids, typeFilter)|
            == (if KeptBy(GetItem(st, uid, ids[0]), typeFilter) then 1 else 0) + |KeptIds(st, uid, ids[1..], typeFilter)|
  {
    assert ids == [ids[0]] + ids[1..];
    if KeptBy(GetItem(st, uid, ids[0]), typeFilter) {
      assert KeptIds(st, uid, ids, typeFilter) == KeptIds(st, uid, ids[1..], typeFilter) + {ids[0]};
    } else {
      assert KeptIds(st, uid, ids, typeFilter) == KeptIds(st, uid, ids[1..], typeFilter);
    }
  }

  /** `items(type)` walks its ids in order: over a concatenation it returns
      the two results one after the other.  With `ItemsInOne` this makes it
      the in-order filter of the ids. */
  lemma {:induction false} ItemsInAppend(st: Store, uid: string, a: seq<string>, b: seq<string>, typeFilter: Option<string>)
    ensures ItemsIn(st, uid, a + b, typeFilter) == ItemsIn(st, uid, a, typeFilter) + ItemsIn(st, uid, b, typeFilter)
  {
    if |a| == 0 {
      assert a + b == b;
    } else {
      assert (a + b)[0] == a[0];
      assert (a + b)[1..] == a[1..] + b;
      ItemsInAppend(st, uid, a[1..], b, typeFilter);
    }
  }

  /** A single id yields its item when the item is kept, nothing otherwise. */
  lemma ItemsInOne(st: Store, uid: string, m: string, typeFilter: Option<string>)
    ensures ItemsIn(st, uid, [m], typeFilter) == if KeptBy(GetItem(st, uid, m), typeFilter) then [GetItem(st, uid, m)] else []
  {
    assert [m][1..] == [];
  }

  /** `contains?(object)`: the token `"#{object.class}:#{object.id}"` is in
      the index set; exact and case-sensitive. */
  predicate Contains(st: Store, uid: string, className: string, productId: string) {
    Token(className, productId) in Tokens(st, uid)
  }

  /** `find(object)`: when the token is present, the item whose id the detail
      key holds (`get_item(redis.get(...).to_i)`); nil otherwise. */
  function Find(st: Store, uid: string, className: string, productId: string): (r: Option<Item>)
    ensures r.Some? <==> Contains(st, uid, className, productId)
  {
    if Contains(st, uid, className, productId) then
      Some(GetItem(st, uid, IntToString(NilToI(Get(st, DetailKey(uid, className, productId))))))
    else None
  }

  /** The matching rule of `find_item_by_product`: product ids equal after
      `to_i`, types equal after `downcase`. */
  predicate MatchesProduct(item: Item, productId: string, productType: string) {
    && NilToI(ItemProductId(item)) == ToI(productId)
    && Downcase(Interpolate(ItemType(item))) == Downcase(productType)
  }

  function FindIn(st: Store, uid: string, ids: seq<string>, productId: string, productType: string): (r: Option<Item>)
    ensures r.None? <==> forall i :: 0 <= i < |ids| ==> !MatchesProduct(GetItem(st, uid, ids[i]), productId, productType)
    ensures r.Some? ==> r.value.lineId in ids && r.value == GetItem(st, uid, r.value.lineId)
                        && MatchesProduct(r.value, productId, productType)
  {
    if |ids| == 0 then None
    else if MatchesProduct(GetItem(st, uid, ids[0]), productId, productType) then Some(GetItem(st, uid, ids[0]))
    else FindIn(st, uid, ids[1..], productId, productType)
  }

  /** `find` stops at the FIRST match: the item it returns sits at a position
      before which no item matches. */
  lemma {:induction false} FindInFirst(st: Store, uid: string, ids: seq<string>, productId: string, productType: string)
    ensures FindIn(st, uid, ids, productId, productType).Some? ==>
              exists i :: 0 <= i < |ids|
                && FindIn(st, uid, ids, productId, productType).value == GetItem(st, uid, ids[i])
                && forall j :: 0 <= j < i ==> !MatchesProduct(GetItem(st, uid, ids[j]), productId, productType)
  {
    if |ids| > 0 && !MatchesProduct(GetItem(st, uid, ids[0]), productId, productType) {
      var r := FindIn(st, uid, ids[1..], productId, productType);
      FindInFirst(st, uid, ids[1..], productId, productType);
      if r.Some? {
        var i :| 0 <= i < |ids[1..]| && r.value == GetItem(st, uid, ids[1..][i])
                 && forall j :: 0 <= j < i ==> !MatchesProduct(GetItem(st, uid, ids[1..][j]), productId, productType);
        assert ids[1..][i] == ids[i + 1];
        forall j | 0 <= j < i + 1
          ensures !MatchesProduct(GetItem(st, uid, ids[j]), productId, productType)
        {
          if j > 0 {
            assert ids[j] == ids[1..][j - 1];
          }
        }
      }
    }
  }

  /** `find_item_by_product(product_id, product_type)`: the first item in
      SMEMBERS order that matches. */
  function FindItemByProduct(st: Store, uid: string, order: seq<string>, productId: string, productType: string): (r: Option<Item>)
    requires Enumerates(order, CartMembers(st, uid))
    ensures r.None? <==> forall m :: m in CartMembers(st, uid) ==> !MatchesProduct(GetItem(st, uid, m), productId, productType)
    ensures r.Some? ==> r.value.lineId in CartMembers(st, uid) && r.value == GetItem(st, uid, r.value.lineId)
                        && MatchesProduct(r.value, productId, productType)
    ensures r.Some? ==> exists i :: 0 <= i < |order| && r.value == GetItem(st, uid, order[i])
                          && forall j :: 0 <= j < i ==> !MatchesProduct(GetItem(st, uid, order[j]), productId, productType)
  {
    EnumeratesFacts(order, CartMembers(st, uid));
    FindInFirst(st, uid, order, productId, productType);
    FindIn(st, uid, order, productId, productType)
  }

  // ---------------------------------------------------------------------
  // coupons

  /** An `Item` setter: HSET of the field, HINCRBY of `_version`, then a
      `touch` of the item's cart. */
  function SetItemField(cfg: Config, st: Store, item: Item, name: string, value: string): Store {
    var k := LineItemKey(item.lineId);
    Touch(cfg, HIncrBy(HSet(st, k, name, value), k, VersionField, 1), item.uid)
  }

  /** The three coupon setters in the order both coupon methods call them. */
  function SetCouponFields(cfg: Config, st: Store, item: Item, couponId: string, couponCode: string, discount: string): Store {
    var s1 := SetItemField(cfg, st, item, "coupon_id", couponId);
    var s2 := SetItemField(cfg, s1, item, "coupon_code", couponCode);
    SetItemField(cfg, s2, item, "discount", discount)
  }

  /** `apply_coupon?`: None stands for `false`; otherwise the value of the
      method's last expression, the discount. */
  function ApplyCoupon(cfg: Config, st: Store, uid: string, order: seq<string>,
                       couponId: string, couponCode: string, productId: string, productType: string,
                       discount: string): (r: (Store, Option<string>))
    requires Enumerates(order, CartMembers(st, uid))
  {
    match FindItemByProduct(st, uid, order, productId, productType)
    case None => (st, None)
    case Some(item) =>
      if Field(item, "coupon_id") == Some(couponId) then (st, None)
      else
        (SetCouponFields(cfg, st, item, couponId, couponCode, discount), Some(discount))
  }

  /** `remove_coupon?`: the three fields are set to nil, which Redis stores
      as the empty string. */
  function RemoveCoupon(cfg: Config, st: Store, uid: string, order: seq<string>,
                        productId: string, productType: string): (r: (Store, bool))
    requires Enumerates(order, CartMembers(st, uid))
  {
    match FindItemByProduct(st, uid, order, productId, productType)
    case None => (st, false)
    case Some(item) =>
      (SetCouponFields(cfg, st, item, "", "", ""), true)
  }

  /** `any_coupons?` */
  predicate AnyCoupons(st: Store, uid: string) {
    exists m :: m in CartMembers(st, uid) && !Blank(HGet(st, LineItemKey(m), "coupon_id"))
  }

  // ---------------------------------------------------------------------
  // quantity, total

  /** `inject(0) { |sum, x| sum + f(x) }` */
  function SumOver(f: string -> int, ids: seq<string>): int {
    if |ids| == 0 then 0 else f(ids[0]) + SumOver(f, ids[1..])
  }

  /** The quantity field of a line item, `to_i`, nil as 0. */
  function ItemQuantity(cfg: Config, st: Store, lineId: string): int {
    NilToI(HGet(st, LineItemKey(lineId), cfg.quantityField))
  }

  /** `Item#cost`: unit cost times quantity, both read as integers. */
  function ItemCost(cfg: Config, st: Store, lineId: string): int {
    NilToI(HGet(st, LineItemKey(lineId), cfg.unitCostField)) * ItemQuantity(cfg, st, lineId)
  }

  function QuantityOf(cfg: Config, st: Store): string -> int {
    m => ItemQuantity(cfg, st, m)
  }

  function CostOf(cfg: Config, st: Store): string -> int {
    m => ItemCost(cfg, st, m)
  }

  /** `quantity`: the quantity fields of the members, in SMEMBERS order. */
  function Quantity(cfg: Config, st: Store, uid: string, order: seq<string>): int
    requires Enumerates(order, CartMembers(st, uid))
  {
    SumOver(QuantityOf(cfg, st), order)
  }

  /** `total`: the costs of the items, in SMEMBERS order. */
  function Total(cfg: Config, st: Store, uid: string, order: seq<string>): int
    requires Enumerates(order, CartMembers(st, uid))
  {
    SumOver(CostOf(cfg, st), order)
  }

  // ---------------------------------------------------------------------
  // destroy!, reassign

  /** The keys `destroy!` deletes. */
  function DestroyedKeys(st: Store, uid: string): set<Key> {
    LineItemKeys(st, uid) + {CartKey(uid), IndexKey(uid)} + DetailKeysOf(st, uid)
  }

  /** `destroy!` */
  function Destroy(st: Store, uid: string): Store {
    DelAll(st, DestroyedKeys(st, uid))
  }

  /** `items.collect { |item| index_key_for(item, new_id) }` */
  function NewDetailKeys(st: Store, uid: string, newUid: string, ids: seq<string>): (r: seq<Key>)
    ensures |r| == |ids|
  {
    seq(|ids|, i requires 0 <= i < |ids| => DetailKeyOfItem(GetItem(st, uid, ids[i]), newUid))
  }

  /** `index_keys.zip(new_index_keys).each { |key, value| redis.rename key, value }`:
      one RENAME after the other, stopping at the first error. Once `news`
      runs out, `zip` pairs the remaining old keys with `nil`, which the
      client sends as the empty key name: each of them is renamed onto
      BlankKey. */
  function RenameZip(st: Store, olds: seq<Key>, news: seq<Key>): (r: (Store, Option<string>))
    decreases |olds|
  {
    if |olds| == 0 then (st, None)
    else if |news| == 0 then
      match Rename(st, olds[0], BlankKey)
      case None => (st, Some(NoSuchKey))
      case Some(s1) => RenameZip(s1, olds[1..], news)
    else
      match Rename(st, olds[0], news[0])
      case None => (st, Some(NoSuchKey))
      case Some(s1) => RenameZip(s1, olds[1..], news[1..])
  }

  /** The renames of `reassign(new_id)` once the cart key is known to
      exist: the cart key, then the index key, then the detail keys listed
      by `olds`, each to the name at the same position of `news`. */
  function RenameCart(st: Store, uid: string, newUid: string, olds: seq<Key>, news: seq<Key>): (r: Reassigned)
    requires Exists(st, CartKey(uid))
    ensures r.failure.None? ==> r.uid == newUid
    ensures r.failure.Some? ==> r.uid == uid
  {
    var s1 := Rename(st, CartKey(uid), CartKey(newUid)).value;
    match Rename(s1, IndexKey(uid), IndexKey(newUid))
    case None => Reassigned(s1, uid, Some(NoSuchKey))
    case Some(s2) =>
      var (s3, failure) := RenameZip(s2, olds, news);
      Reassigned(s3, if failure.None? then newUid else uid, failure)
  }

  /** `reassign(new_id)` as written. `memberOrder` is the order SMEMBERS
      lists the cart (used by `items`), `keyOrder` the order KEYS lists its
      detail keys; the new names come from the first, the old names from the
      second, and the two are zipped position by position. */
  function Reassign(st: Store, uid: string, newUid: string, memberOrder: seq<string>, keyOrder: seq<Key>): (r: Reassigned)
    requires Enumerates(memberOrder, CartMembers(st, uid))
    requires Enumerates(keyOrder, DetailKeysOf(st, uid))
    ensures !Exists(st, CartKey(uid)) ==> r == Reassigned(st, newUid, None)
  {
    if !Exists(st, CartKey(uid)) then Reassigned(st, newUid, None)
    else RenameCart(st, uid, newUid, keyOrder, NewDetailKeys(st, uid, newUid, memberOrder))
  }

  /** The name a detail key takes under another uid: same type, same id. */
  function MovedKey(k: Key, newUid: string): (r: Key)
    ensures k.DetailKey? ==> r.DetailKey? && r.uid == newUid
  {
    match k
    case DetailKey(_, t, p) => DetailKey(newUid, t, p)
    case _ => k
  }

  function MovedKeys(ks: seq<Key>, newUid: string): (r: seq<Key>)
    ensures |r| == |ks|
    ensures forall i :: 0 <= i < |ks| ==> r[i] == MovedKey(ks[i], newUid)
  {
    seq(|ks|, i requires 0 <= i < |ks| => MovedKey(ks[i], newUid))
  }

  /** `reassign(new_id)` with every detail key renamed to its own name under
      the new uid, which needs no second listing of the cart. */
  function ReassignAligned(st: Store, uid: string, newUid: string, keyOrder: seq<Key>): (r: Reassigned)
    requires Enumerates(keyOrder, DetailKeysOf(st, uid))
    ensures !Exists(st, CartKey(uid)) ==> r == Reassigned(st, newUid, None)
  {
    if !Exists(st, CartKey(uid)) then Reassigned(st, newUid, None)
    else RenameCart(st, uid, newUid, keyOrder, MovedKeys(keyOrder, newUid))
  }
}
