# Cartman cart, modelled in Dafny

Cartman keeps each shopping cart in Redis, spread over several keys that must agree with each other:

- the membership set `cartman:cart:<uid>`, holding line-item ids;
- the index set `cartman:cart:<uid>:index`, holding `"<type>:<id>"` tokens;
- one detail key `cartman:cart:<uid>:index:<type>:<id>` per token, holding the line-item id;
- one hash `cartman:line_item:<n>` per line item, holding its fields and `_version`;
- the id counter `cartman:line_item:id`;
- the versions hash `cartman:cart:versions`, with one field per uid.

This project models the `Cartman::Cart` class of `lib/cartman/cart.rb`. Each method is a pure function on an abstract Redis store, and lemmas state what each method does to the keys it touches.

Files and modules:

- `wrappers.dfy` (`Wrappers`): `Option` (Ruby's `nil`), `Result` (a call that returns or raises), and `Enumerates`. `Enumerates` states that a sequence lists a set's elements once each. SMEMBERS and KEYS reply in an unspecified order, so every operation that iterates them takes that order as an argument.
- `ruby_text.dfy` (`RubyText`): integer rendering `"#{n}"`, `String#to_i`, `nil.to_i`, ASCII `downcase`, and `blank?`.
- `key_space.dfy` (`KeySpace`): the structured `Key` datatype and its rendering to the key names of `lib/cartman/cart.rb:153-182`, plus `BlankKey`, the empty name a `nil` key is sent as. Proves rendering is injective when no part holds a `:`, the uid is not `versions` and no line-item id is `id`, and exhibits the collisions otherwise.
- `store.dfy` (`Store`): the abstract Redis store and each command the cart issues (GET, SET, SADD, SREM, SMEMBERS, HSET, HMSET, HINCRBY, HGETALL, DEL, EXPIRE, TTL, RENAME, KEYS, INCR).
  - An empty set is not stored.
  - RENAME fails on a missing source and overwrites its destination.
  - EXPIRE on a missing key does nothing.
- `cart.dfy` (`Cart`): the cart's methods, read from the Ruby source.
- `cart_effects.dfy` (`CartEffects`): what each writing method does to the store. Also proves the store invariant `StoreInv`, which says every key holds the kind of value the cart writes and every id is at most the counter.
- `cart_index.dfy` (`CartIndex`): the index invariant `Consistent` and which operations keep it. It states that every member is indexed, with a type free of `:`, and every token and detail key belongs to a member. Also covers `find` against `find_item_by_product`.
- `cart_totals.dfy` (`CartTotals`): `count`, `quantity` and `total`. Shows they do not depend on SMEMBERS order, and how adding or removing an item changes them.
- `reassign.dfy` (`CartReassign`): `reassign`, its renames, and the mislabelling described under Findings.

Four facts the proofs expose about the code as written:

- **Duplicates break the index.** `add_item` does not check whether a product is already in the cart. Adding the same `(type, id)` twice repoints the detail key at the new line item, and the old line item stays a member whose detail key no longer names it (`CartIndex.DuplicateAddBreaksConsistency`). Removing the new item then drops the token, while the old item is still in the cart (`CartIndex.DuplicateThenRemoveHidesItem`). Removing the old item instead drops the token and the detail key the two share, while the new item is still in the cart (`CartIndex.DuplicateThenRemoveOldHidesNew`). Either way `contains?` is false and `find` is nil for a product the cart still holds. Every consistency lemma for `add_item` therefore requires that the product not be in the cart yet.
- **Reassigning onto an existing cart replaces it.** `reassign` onto a uid that already has a cart replaces that cart's membership and index sets rather than merging them. The destination's old detail keys stay behind (`CartReassign.ReassignClobbers`).
- **Surplus detail keys land on the empty key name.** A cart can hold more detail keys than members, as `ReassignClobbers` leaves a destination. `zip` then pairs the surplus old detail keys with `nil`, which redis-rb before version 5 sends as the empty string. Each surplus key is renamed onto the key `""`, only the last one survives there, and the reassign succeeds and changes the uid (`CartReassign.RenameZipPastEnd`, `CartReassign.SurplusDetailKeyOntoBlank`). The model names that key `BlankKey`.
- **Reassigning to the same uid can lose a detail key.** `reassign` does not skip a new uid equal to the current one. The cart key and index key rename onto themselves. The detail keys are still zipped crosswise, so when the two listings disagree one detail key is renamed onto another and back, and the other's id is lost (`CartReassign.SameUidLosesDetailKey`).

## Model

| member | source | states |
|---|---|---|
| KeySpace.RenderInjective | lib/cartman/cart.rb:153-182 | two well-formed keys with equal names are the same key. Well-formed means no `:` in any part, a uid other than `versions` and a line-item id other than `id`. |
| KeySpace.VersionsUidCollides | lib/cartman/cart.rb:153-167 | the cart key of uid `versions` has the same name as the global versions hash |
| KeySpace.ColonInTypeCollides | lib/cartman/cart.rb:173-182 | a `:` in a type lets two different products share both their detail key and their index token |
| KeySpace.ColonInUidCollides | lib/cartman/cart.rb:153-159 | the cart key of uid `1:index` is the index key of uid `1` |
| KeySpace.LineIdCollidesWithCounter | lib/cartman/cart.rb:3 | the line-item key of id `id` is the id counter's key |
| KeySpace.TokenRoundTrip | lib/cartman/cart.rb:46 | a `type:id` token splits back into its type and id when the type has no `:` |
| KeySpace.KeysPatternMatchesDetailKeys | lib/cartman/cart.rb:169-171 | every well-formed key the pattern `<index_key>:*` matches is a detail key of that uid |
| KeySpace.DetailKeyMatchesKeysPattern | lib/cartman/cart.rb:169-176 | every detail key of the uid matches the pattern `<index_key>:*` |
| RubyText.ToIOfIntToString | lib/cartman/cart.rb:76 | `to_i` reads back every integer that string interpolation renders |
| Store.RenameMoves | lib/cartman/cart.rb:138-141 | RENAME of an existing key moves its value to the destination, overwriting it, and leaves every other key alone |
| Cart.AddItem | lib/cartman/cart.rb:39-51 | without both `id` and `type` it raises "Must specify both :id and :type" and leaves the store, counter included, unchanged. Otherwise it returns the item under the next counter value. |
| Cart.Items | lib/cartman/cart.rb:61-68 | lists each member's item, keeping exactly the items whose type equals the filter, or all of them without one. It has one entry per kept member, so with a filter its size is the number of members of that type. |
| Cart.ItemsInCount | lib/cartman/cart.rb:61-68 | over a list of ids without repeats, `items(type)` has one entry per id whose item it keeps |
| Cart.ItemsInAppend | lib/cartman/cart.rb:61-68 | `items(type)` over two lists of ids, one after the other, is the result for the first followed by the result for the second. Together with `Cart.ItemsInOne`, it is the filter of the listed ids in their listed order. |
| Cart.Find | lib/cartman/cart.rb:70-78 | returns an item exactly when the index holds the token `class:id` |
| Cart.FindItemByProduct | lib/cartman/cart.rb:32-37 | returns nil exactly when no member's item has that id under `to_i` and that type under `downcase`. Otherwise it returns such an item of the cart: the first one in SMEMBERS order, since no item listed before it matches. |
| Cart.FindInFirst | lib/cartman/cart.rb:33-34 | the item `find_item_by_product` returns stands at a position of the listing before which no item matches |
| Cart.Version | lib/cartman/cart.rb:129-131 | a uid with no field in the versions hash has version 0 |
| Cart.Reassign | lib/cartman/cart.rb:133-145 | when the cart key does not exist, the store is unchanged and only the uid changes |
| CartEffects.EmptyStoreInv | lib/cartman/cart.rb:41-47 | the empty store satisfies the store invariant |
| CartEffects.AddItemFreshId | lib/cartman/cart.rb:41 | the id `add_item` allocates is above every id in any cart, and its hash does not exist yet |
| CartEffects.AddItemEffects | lib/cartman/cart.rb:41-50 | after `add_item`: the counter rises by one and the new hash holds the options with `_version` 1. The cart gains the id, so `count` grows by one. The index gains the token, the detail key holds the id, and the returned item is the one stored. |
| CartEffects.AddItemFrame | lib/cartman/cart.rb:41-50 | `add_item` writes only the new hash, the cart key, the index key, the detail key and the versions hash |
| CartEffects.AddItemTouches | lib/cartman/cart.rb:39-51 | `add_item` raises the cart's version by exactly one and sets the expiry of the cart key and of the new line item's hash, as spec/cart_spec.rb:43-46 expects |
| CartEffects.AddItemInv | lib/cartman/cart.rb:39-51 | `add_item` keeps the store invariant, in the raising case too |
| CartEffects.TouchExpiry | lib/cartman/cart.rb:113-125 | `touch` expires each existing line-item key and the cart key. It expires the index key and every detail key only when the index key exists, and otherwise leaves the detail keys' expiry as it was. |
| CartEffects.TouchVersion | lib/cartman/cart.rb:126-131 | `touch` raises this cart's version by exactly one and no other cart's |
| CartEffects.TouchData | lib/cartman/cart.rb:113-127 | `touch` changes no value except the versions hash, and not the counter |
| CartEffects.CacheKeyChangesOnTouch | lib/cartman/cart.rb:147-149 | `cache_key` differs before and after a `touch` |
| CartEffects.RemoveItemEffects | lib/cartman/cart.rb:53-59 | `remove_item` deletes the item's hash, its id from the cart, its token and its detail key. It raises the version by one and leaves every other key as it was. |
| CartEffects.DestroyEffects | lib/cartman/cart.rb:100-111 | after `destroy!` no line-item key, cart key, index key or detail key of the uid exists. Every version is unchanged and every other key is as it was. |
| CartEffects.SetItemFieldEffects | spec/item_spec.rb:15-30 | an item setter writes the field, raises `_version` by one and the cart's version by one, and changes no other field or key |
| CartEffects.ApplyCouponEffects | lib/cartman/cart.rb:14-21 | `apply_coupon?` is false and the store unchanged when no item matches or its `coupon_id` already equals the argument. Otherwise it writes the three coupon fields and evaluates to the discount. |
| CartEffects.RemoveCouponEffects | lib/cartman/cart.rb:23-30 | `remove_coupon?` is false exactly when no item matches, and then the store is unchanged. Otherwise the three coupon fields become blank and the members stay. |
| CartEffects.CouponsSeenByAnyCoupons | lib/cartman/cart.rb:9-30 | after a successful `apply_coupon?` with a non-blank coupon id, `any_coupons?` holds. After a successful `remove_coupon?`, the matched item is a member with a blank `coupon_id`. |
| CartIndex.ColonTypeNotIndexed | lib/cartman/cart.rb:45-47 | a member whose type holds a `:` is not indexed, so its cart is not consistent: the index invariant excludes namespaced class names |
| CartIndex.EmptyConsistent | lib/cartman/cart.rb:45-47 | a cart with no keys satisfies the index invariant |
| CartIndex.AddItemConsistent | lib/cartman/cart.rb:39-51 | `add_item` of a product not yet in the cart, with a type free of `:`, keeps the index invariant |
| CartIndex.DuplicateAddBreaksConsistency | lib/cartman/cart.rb:43-47 | `add_item` of a product already in the cart repoints its detail key at the new id, and the index invariant fails |
| CartIndex.DuplicateThenRemoveHidesItem | lib/cartman/cart.rb:53-59 | after a duplicate add and removal of the new item, the old item is still a member but `contains?` is false and `find` is nil |
| CartIndex.DuplicateThenRemoveOldHidesNew | lib/cartman/cart.rb:53-59 | after a duplicate add and removal of the old item, the new item is still a member but the shared detail key is gone, `contains?` is false and `find` is nil |
| CartIndex.RemoveSharedProduct | lib/cartman/cart.rb:53-59 | removing an item takes its product's token and detail key even when another member of the same product stays |
| CartIndex.RemoveItemConsistent | lib/cartman/cart.rb:53-59 | `remove_item` of a member keeps the index invariant |
| CartIndex.CouponsConsistent | lib/cartman/cart.rb:14-30 | `apply_coupon?` and `remove_coupon?` keep the index invariant |
| CartIndex.DestroyConsistent | lib/cartman/cart.rb:100-111 | after `destroy!` the uid trivially satisfies the index invariant |
| CartIndex.FindExact | lib/cartman/cart.rb:70-78 | in a consistent cart, for a class name free of `:`, `contains?` holds exactly when some member's detail key is that of `(class, id)`, and `find` returns that member's item |
| CartIndex.FindImpliesFindItemByProduct | lib/cartman/cart.rb:32-37 | in a consistent cart, whatever `find` finds, `find_item_by_product` finds something too |
| CartIndex.FindItemByProductFoldsCase | lib/cartman/cart.rb:32-37 | `find_item_by_product` finds a `Book` by type `book`, where `contains?` with `book` does not |
| CartIndex.FindItemByProductReadsIdAsInteger | lib/cartman/cart.rb:34 | `find_item_by_product` finds product `7` by id `07`, where `contains?` does not |
| CartIndex.AddItemReturnsNewItem | spec/cart_spec.rb:59-63 | `add_item` returns an item whose id is new to the cart and whose type and id are the ones given |
| CartTotals.TotalsIndependentOfOrder | lib/cartman/cart.rb:84-94 | `quantity` and `total` are the same for every SMEMBERS order |
| CartTotals.EmptyCartTotals | spec/cart_spec.rb:183-185 | an empty cart has quantity 0 and total 0 |
| CartTotals.AddItemRaisesTotals | lib/cartman/cart.rb:39-51 | `add_item` raises `quantity` and `total` by exactly the new item's quantity and cost |
| CartTotals.AddItemAddsShare | lib/cartman/cart.rb:84-94 | when the options carry quantity and unit cost, `add_item` raises `quantity` by that quantity and `total` by unit cost times quantity |
| CartTotals.RemoveItemLowersTotals | lib/cartman/cart.rb:53-59 | `remove_item` lowers `quantity` and `total` by exactly the removed item's quantity and cost |
| CartTotals.TwoAddsTotals | spec/cart_spec.rb:162-180 | two adds to an empty cart give the sum of their quantities and of their costs |
| CartTotals.TwoBottlesTotal | spec/cart_spec.rb:193-203 | two bottles of quantity 2 at 9212 cents each total 36848 cents, with quantity 4 |
| Cart.ReassignAligned | lib/cartman/cart.rb:133-145 | the corrected `reassign`, which renames each detail key to its own moved name. Leaves the store unchanged when the cart key is absent. |
| CartReassign.ReassignAlignedMoves | lib/cartman/cart.rb:133-145 | the corrected `reassign` moves the membership set, and the moved cart is consistent under the new uid. The old uid keeps no cart, index or detail key. Every line-item hash and the versions hash are unchanged. |
| CartReassign.ReassignConsistentIffAligned | lib/cartman/cart.rb:135-142 | `reassign` as written succeeds and moves the membership set. The old uid keeps no member, token or detail key. The new uid's detail keys are exactly the old ones moved there. The moved cart is consistent exactly when the SMEMBERS order and the KEYS order list the items alike. |
| CartReassign.WrittenDetailKeys | lib/cartman/cart.rb:135-142 | whatever the two listings, `reassign` as written leaves no detail key under the old uid, and under a new uid that had none exactly the old detail keys moved there |
| CartReassign.WrittenNewsAreMoved | lib/cartman/cart.rb:135-137 | the new names computed from the items are, as a set, the cart's detail keys moved to the new uid, in whichever order SMEMBERS lists the members |
| CartReassign.MisalignedMislabels | lib/cartman/cart.rb:135-142 | when the two orders disagree at some position, the member listed there is no longer indexed under the new uid |
| CartReassign.OneItemAligned | lib/cartman/cart.rb:135-142 | a cart of one item is always aligned, so `reassign` moves it correctly |
| CartReassign.TwoItemsSwapped | lib/cartman/cart.rb:135-142 | in a two-item cart whose SMEMBERS order is the reverse of its KEYS order, each moved detail key holds the other item's id. `find` for the first product returns the second item. |
| CartReassign.ReassignKeepsTotals | spec/cart_spec.rb:243-250 | after `reassign`, `count`, `quantity` and `total` under the new uid equal the old ones, and the old uid counts 0 |
| CartReassign.ReassignClobbers | lib/cartman/cart.rb:138-139 | `reassign` onto an existing cart replaces its membership and index sets with the moved ones. Members and tokens the destination had alone are gone, and its old detail keys stay behind. |
| CartReassign.RenameCartKeepsHashes | lib/cartman/cart.rb:138-142 | `reassign` does not change any line-item hash or the versions hash |
| CartReassign.DetailKeysCount | lib/cartman/cart.rb:169-171 | a consistent cart has as many detail keys as members |
| CartReassign.RenameZipPastEnd | lib/cartman/cart.rb:140-142 | once `zip` runs out of new names, each remaining old key is renamed onto the empty key name without error. Every old key is gone, the empty name holds what the last one held, and every other key is unchanged. |
| CartReassign.SurplusDetailKeyOntoBlank | lib/cartman/cart.rb:133-145 | on a cart with one member and two detail keys, `reassign` succeeds and the uid changes. The first detail key takes the member's new name, the second lands on the empty key name, and neither old key remains. |
| CartReassign.RenameSelf | lib/cartman/cart.rb:138-139 | RENAME of a present key onto itself leaves the store unchanged |
| CartReassign.SameUidAlignedKeepsStore | lib/cartman/cart.rb:133-145 | the corrected `reassign`, to the uid the cart already has, returns the store unchanged with no error |
| CartReassign.SameUidLosesDetailKey | lib/cartman/cart.rb:133-142 | `reassign` as written, to the cart's own uid, on two items listed crosswise, succeeds. Afterwards the first detail key holds the first item's id, the second detail key is gone, the second item is not indexed and the cart is not consistent. |

## Left out

- `Cartman::Item` and `ItemCollection` are not part of this model. A setter is modelled as HSET of the field, HINCRBY of `_version`, then the cart's `touch`, as the item tests describe. `cost` is modelled as unit cost times quantity.
- Unit costs are integers read with `to_i`, such as cents. Float and BigDecimal parsing of values like `92.12` is not modelled.
- `to_i` skips no leading whitespace and takes no `_` between digits: Ruby reads `"1_000".to_i` as 1000, the model as 1. `downcase` folds ASCII letters only.
- `blank?` counts only ASCII whitespace (space, tab, newline, carriage return, form feed, vertical tab) as blank. ActiveSupport also counts Unicode spaces.
- HINCRBY on a non-integer field reads it with `to_i` instead of raising the Redis error.
- WRONGTYPE errors are not modelled: under `StoreInv` every key holds the kind of value the cart uses.
- A member whose hash has no `type` field: `find_item_by_product` reads its type as `""`, as `index_key_for` interpolates nil, so it matches an empty product type. Ruby calls `downcase` on nil and raises NoMethodError once that item's id matches. Under `Consistent` every member has a type, so this does not arise there.
- Cart.ApplyCoupon: compares the coupon id as a string. Ruby compares the argument with the String that Redis returns, so an Integer coupon id never equals it. With an Integer id that is already applied, Ruby writes the three fields again and returns the discount, where the model returns false (`CartEffects.ApplyCouponEffects` states the model's behaviour).
- `cart_expires_in` is assumed positive. Redis deletes a key on EXPIRE with 0, while the model records 0 as the key's expiry.
- A RENAME of a key onto itself succeeds and changes nothing, as in Redis 3.2 and later. Older servers refused it with an error.
- CartIndex.Consistent: counts a member as indexed only when its `type` holds no `:`. A cart holding an item of a namespaced class such as `Spree::Product` is therefore never consistent. Every lemma that assumes or concludes `Consistent` says nothing about such carts. This includes `CartIndex.FindExact`, `CartIndex.AddItemConsistent`, `CartIndex.RemoveItemConsistent`, `CartIndex.CouponsConsistent`, `CartReassign.ReassignAlignedMoves`, `CartReassign.ReassignConsistentIffAligned` and `CartReassign.TwoItemsSwapped`. The reason is `KeySpace.ColonInTypeCollides`: with a `:` in the type, two different products share one token and one detail key in Redis, so the index cannot tell them apart.
- CartIndex.FindExact: requires the class name to be free of `:` for the same reason.
- CartIndex.AddItemConsistent: requires the added `type` to be free of `:` for the same reason.
- The store is a map over structured keys, so two keys whose names Redis sees as one stay two separate entries in the model. `DetailKey("1", "A", "B:1")` and `DetailKey("1", "A:B", "1")` are an example. Results about the store carry over to Redis only while the keys involved satisfy `KeySpace.KeyOk`, under which `KeySpace.RenderInjective` proves the names distinct.
- CartReassign.ReassignAlignedMoves, CartReassign.ReassignConsistentIffAligned and the other reassign lemmas, except the `SameUid` ones, require the new uid to differ from the old one. Reassigning to the same uid is covered by `CartReassign.SameUidLosesDetailKey` and `CartReassign.SameUidAlignedKeepsStore`.
- A RENAME that Redis refuses is not raised: `reassign` returns the store as far as it got, the old uid, and the error message. The only refusal the model meets is a missing source key.
- A `nil` RENAME destination, which `zip` supplies when KEYS lists more detail keys than SMEMBERS lists members, is sent as the empty key name, as redis-rb before version 5 does (and as `remove_coupon?` relies on for its nil fields). redis-rb 5 raises on a nil argument instead; that is not modelled.
- `find` and `contains?` are modelled for plain objects only: `Cart.Contains` and `Cart.Find` take the class name and id, the `else` branch of `index_key_for`. For a `Cartman::Item` argument, `contains?` builds the token from `object.class` while `index_key_for` builds the detail key from `object.type`. A Hash argument raises NoMethodError on `.id`.
- Expiry is the value last assigned to each key. The real-time countdown and eviction are not modelled.
- Pipelining and atomicity are not modelled: each method is one sequential transition.
- `set_discounted` and `discounted` have no implementation in `lib/cartman/cart.rb` and are not modelled.
- Ruby integers passed as ids are taken as their decimal strings, as Redis stores them.
- KEYS glob characters (`*`, `?`, `[`) inside a uid are not modelled: the pattern is a plain prefix match.
- The return value of `remove_item` (that of `touch`) is not modelled.
- `redis.exists` is read as a boolean.
- The Redis connection and `Cartman.config` are parameters: `Config` carries `cart_expires_in`, `quantity_field` and `unit_cost_field`.
- The SMEMBERS and KEYS reply orders are arguments, constrained only to list the set once each.

## Findings

| source | as written | input that shows it | evidently intended | confidence | as-written member | corrected member |
|---|---|---|---|---|---|---|
| lib/cartman/cart.rb:135-142 | `reassign` computes the new detail-key names in SMEMBERS order and zips them with the old detail keys in KEYS order. Nothing ties the two orders together. | a consistent cart of two items whose SMEMBERS reply lists them in the reverse of the KEYS reply. Each item's new detail key receives the other item's id, so `find` returns the wrong item. | each old detail key is renamed to the same name under the new uid, so every item stays indexed | not executed | CartReassign.TwoItemsSwapped | CartReassign.ReassignAlignedMoves |
| lib/cartman/cart.rb:133-142 | `reassign(new_id)` runs its renames even when `new_id` is the current uid, and zips the detail keys in two unrelated orders | a consistent cart of two items, reassigned to its own uid, whose SMEMBERS reply lists them in the reverse of the KEYS reply. The first detail key is renamed onto the second and back, so the second item's detail key is lost. | reassigning a cart to its own uid changes nothing | not executed | CartReassign.SameUidLosesDetailKey | CartReassign.SameUidAlignedKeepsStore |
