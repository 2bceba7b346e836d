/** `Cart#reassign`: moving a cart to another uid by renaming its keys.
    `reassign` takes the new names of the detail keys from one listing of
    the cart (SMEMBERS, through `items`) and the old names from another
    (KEYS), and pairs them by position. Redis promises no order for either
    reply, so the pairing is right only when the two listings happen to
    agree; these lemmas say exactly when that is, what goes wrong otherwise,
    and that renaming each detail key to its own new name (ReassignAligned)
    moves a consistent cart intact. */
module CartReassign {
  import opened Wrappers
  import opened RubyText
  import opened KeySpace
  import opened Store
  import opened Cart
  import opened CartEffects
  import opened CartIndex
  import opened CartTotals

  /** RENAME of each key of `olds` to the key at the same position of
      `news`, all of them distinct and the two lists disjoint: nothing
      fails, each new key holds what its old key held, the old keys are
      gone and every other key is as it was. */
  lemma {:induction false} RenameZipMoves(st: Store, olds: seq<Key>, news: seq<Key>)
    requires |olds| == |news|
    requires Distinct(olds) && Distinct(news)
    requires forall i :: 0 <= i < |olds| ==> olds[i] in st.data
    requires forall i, j :: 0 <= i < |olds| && 0 <= j < |news| ==> olds[i] != news[j]
    ensures RenameZip(st, olds, news).1.None?
    ensures var r := RenameZip(st, olds, news).0;
      && r.counter == st.counter
      && (forall i :: 0 <= i < |news| ==> news[i] in r.data && r.data[news[i]] == st.data[olds[i]])
      && (forall k :: k in r.data <==> (k in st.data && k !in olds) || k in news)
      && (forall k :: k in st.data && k !in olds && k !in news ==> r.data[k] == st.data[k])
      && (forall k :: k in r.ttl ==> (k in st.ttl && k !in olds) || k in news)
    decreases |olds|
  {
    if |olds| > 0 {
      RenameMoves(st, olds[0], news[0]);
      var s1 := Rename(st, olds[0], news[0]).value;
      forall i | 0 <= i < |olds[1..]|
        ensures olds[1..][i] in s1.data
      {
        assert olds[1..][i] == olds[i + 1] != olds[0];
        assert olds[i + 1] != news[0];
      }
      RenameZipMoves(s1, olds[1..], news[1..]);
      var r := RenameZip(st, olds, news).0;
      assert r == RenameZip(s1, olds[1..], news[1..]).0;
      RenameZipStepValues(st, s1, r, olds, news);
      RenameZipStepDomain(st, s1, r, olds, news);
    }
  }

  /** One step of RenameZipMoves, for the values: a store `r` reached
      from `s1` by the remaining renames, where `s1` is `st` after the
      first rename, holds at each new key what `st` held at the old one
      and leaves the untouched keys as `st` had them. */
  lemma RenameZipStepValues(st: Store, s1: Store, r: Store, olds: seq<Key>, news: seq<Key>)
    requires |olds| == |news| > 0
    requires Distinct(olds) && Distinct(news)
    requires forall i :: 0 <= i < |olds| ==> olds[i] in st.data
    requires forall i, j :: 0 <= i < |olds| && 0 <= j < |news| ==> olds[i] != news[j]
    requires s1.data.Keys == st.data.Keys - {olds[0]} + {news[0]}
    requires s1.data[news[0]] == st.data[olds[0]]
    requires forall k :: k in st.data && k != olds[0] && k != news[0] ==> s1.data[k] == st.data[k]
    requires forall i :: 0 <= i < |news[1..]| ==> news[1..][i] in r.data && r.data[news[1..][i]] == s1.data[olds[1..][i]]
    requires forall k :: k in r.data <==> (k in s1.data && k !in olds[1..]) || k in news[1..]
    requires forall k :: k in s1.data && k !in olds[1..] && k !in news[1..] ==> r.data[k] == s1.data[k]
    ensures forall i :: 0 <= i < |news| ==> news[i] in r.data && r.data[news[i]] == st.data[olds[i]]
    ensures forall k :: k in st.data && k !in olds && k !in news ==> k in r.data && r.data[k] == st.data[k]
  {
    forall i | 0 <= i < |news|
      ensures news[i] in r.data && r.data[news[i]] == st.data[olds[i]]
    {
      if i == 0 {
        assert news[0] !in olds[1..];
        assert news[0] !in news[1..];
      } else {
        assert news[i] == news[1..][i - 1];
        assert olds[i] == olds[1..][i - 1];
      }
    }
    forall k | k in st.data && k !in olds && k !in news
      ensures k in r.data && r.data[k] == st.data[k]
    {
      assert k !in olds[1..] && k !in news[1..];
    }
  }

  /** One step of RenameZipMoves, for the key set and the expiries: after
      the whole zip the old keys are gone, the new ones exist, and only
      surviving or new keys carry an expiry. */
  lemma RenameZipStepDomain(st: Store, s1: Store, r: Store, olds: seq<Key>, news: seq<Key>)
    requires |olds| == |news| > 0
    requires Distinct(olds) && Distinct(news)
    requires forall i, j :: 0 <= i < |olds| && 0 <= j < |news| ==> olds[i] != news[j]
    requires s1.data.Keys == st.data.Keys - {olds[0]} + {news[0]}
    requires s1.ttl.Keys <= st.ttl.Keys - {olds[0]} + {news[0]}
    requires forall k :: k in r.data <==> (k in s1.data && k !in olds[1..]) || k in news[1..]
    requires forall k :: k in r.ttl ==> (k in s1.ttl && k !in olds[1..]) || k in news[1..]
    ensures forall k :: k in r.data <==> (k in st.data && k !in olds) || k in news
    ensures forall k :: k in r.ttl ==> (k in st.ttl && k !in olds) || k in news
  {
    assert olds == [olds[0]] + olds[1..];
    assert news == [news[0]] + news[1..];
    forall k
      ensures k in r.data <==> (k in st.data && k !in olds) || k in news
    {
      assert k in olds <==> k == olds[0] || k in olds[1..];
      assert k in news <==> k == news[0] || k in news[1..];
    }
  }

  /** The first two renames of `reassign`: the cart key and the index key
      move to the new uid, overwriting whatever was there; the detail keys,
      the line items and the versions stay. */
  lemma HeadRenames(st: Store, uid: string, newUid: string)
    requires StoreInv(st)
    requires CartKey(uid) in st.data && IndexKey(uid) in st.data && uid != newUid
    ensures var s1 := Rename(st, CartKey(uid), CartKey(newUid)).value;
      Rename(s1, IndexKey(uid), IndexKey(newUid)).Some?
    ensures var s2 := Rename(Rename(st, CartKey(uid), CartKey(newUid)).value, IndexKey(uid), IndexKey(newUid)).value;
      && StoreInv(s2)
      && s2.counter == st.counter
      && CartMembers(s2, newUid) == CartMembers(st, uid)
      && Tokens(s2, newUid) == Tokens(st, uid)
      && CartKey(uid) !in s2.data && IndexKey(uid) !in s2.data
      && (forall k: Key :: !k.CartKey? && !k.IndexKey? ==> (k in s2.data <==> k in st.data))
      && (forall k :: k in st.data && !k.CartKey? && !k.IndexKey? ==> s2.data[k] == st.data[k])
  {
    RenameMoves(st, CartKey(uid), CartKey(newUid));
    RenamePreservesWellTyped(st, CartKey(uid), CartKey(newUid));
    var s1 := Rename(st, CartKey(uid), CartKey(newUid)).value;
    RenameMoves(s1, IndexKey(uid), IndexKey(newUid));
    RenamePreservesWellTyped(s1, IndexKey(uid), IndexKey(newUid));
    var s2 := Rename(s1, IndexKey(uid), IndexKey(newUid)).value;
    assert Allocated(s2) by {
      forall k | k in s2.data && k.CartKey?
        ensures forall m :: m in SMembers(s2, k) ==> ToI(m) <= s2.counter
      {
        if k == CartKey(newUid) {
          assert s2.data[k] == st.data[CartKey(uid)];
        } else {
          assert s2.data[k] == st.data[k];
        }
      }
    }
  }

  /** The detail-key renames that follow, on any store whose old keys all
      exist under `uid` and whose new names all lie under `newUid`. */
  lemma TailRenames(s2: Store, uid: string, newUid: string, olds: seq<Key>, news: seq<Key>)
    requires StoreInv(s2) && uid != newUid
    requires |olds| == |news| && Distinct(olds) && Distinct(news)
    requires forall i :: 0 <= i < |olds| ==> olds[i] in DetailKeysOf(s2, uid)
    requires forall i :: 0 <= i < |news| ==> news[i].DetailKey? && news[i].uid == newUid
    ensures RenameZip(s2, olds, news).1.None?
    ensures var r := RenameZip(s2, olds, news).0;
      && StoreInv(r)
      && r.counter == s2.counter
      && (forall i :: 0 <= i < |news| ==> Get(r, news[i]) == Get(s2, olds[i]))
      && (forall k: Key :: k.DetailKey? ==> (k in r.data <==> (k in s2.data && k !in olds) || k in news))
      && (forall k: Key :: !k.DetailKey? ==> (k in r.data <==> k in s2.data))
      && (forall k :: k in s2.data && !k.DetailKey? ==> r.data[k] == s2.data[k])
  {
    forall i, j | 0 <= i < |olds| && 0 <= j < |news|
      ensures olds[i] != news[j]
    {
      assert olds[i].uid == uid;
    }
    RenameZipMoves(s2, olds, news);
    var r := RenameZip(s2, olds, news).0;
    forall i | 0 <= i < |news|
      ensures Get(r, news[i]) == Get(s2, olds[i])
    {
    }
    assert WellTyped(r) by {
      forall k | k in r.data
        ensures KindOk(k, r.data[k])
      {
        if k in news {
          var i :| 0 <= i < |news| && news[i] == k;
          assert r.data[k] == s2.data[olds[i]];
        }
      }
    }
  }

  /** The renames of `reassign` on a cart whose cart and index keys exist,
      with distinct old detail keys of the cart paired with distinct names
      under the new uid: every rename succeeds; the new uid gets the
      membership and index sets (whatever it had before is overwritten) and
      the old uid keeps neither. */
  lemma RenameCartMoves(st: Store, uid: string, newUid: string, olds: seq<Key>, news: seq<Key>)
    requires StoreInv(st)
    requires CartKey(uid) in st.data && IndexKey(uid) in st.data && uid != newUid
    requires |olds| == |news| && Distinct(olds) && Distinct(news)
    requires forall i :: 0 <= i < |olds| ==> olds[i] in DetailKeysOf(st, uid)
    requires forall i :: 0 <= i < |news| ==> news[i].DetailKey? && news[i].uid == newUid
    ensures var r := RenameCart(st, uid, newUid, olds, news);
      && r.failure.None? && r.uid == newUid
      && StoreInv(r.store)
      && r.store.counter == st.counter
      && CartMembers(r.store, newUid) == CartMembers(st, uid)
      && Tokens(r.store, newUid) == Tokens(st, uid)
      && CartMembers(r.store, uid) == {} && Tokens(r.store, uid) == {}
  {
    HeadRenames(st, uid, newUid);
    var s2 := Rename(Rename(st, CartKey(uid), CartKey(newUid)).value, IndexKey(uid), IndexKey(newUid)).value;
    forall i | 0 <= i < |olds|
      ensures olds[i] in DetailKeysOf(s2, uid)
    {
    }
    TailRenames(s2, uid, newUid, olds, news);
  }

  /** In the same renames, each new name holds what its old key held, and
      the detail keys are the old ones less `olds` plus `news`. */
  lemma RenameCartCarries(st: Store, uid: string, newUid: string, olds: seq<Key>, news: seq<Key>)
    requires StoreInv(st)
    requires CartKey(uid) in st.data && IndexKey(uid) in st.data && uid != newUid
    requires |olds| == |news| && Distinct(olds) && Distinct(news)
    requires forall i :: 0 <= i < |olds| ==> olds[i] in DetailKeysOf(st, uid)
    requires forall i :: 0 <= i < |news| ==> news[i].DetailKey? && news[i].uid == newUid
    ensures var r := RenameCart(st, uid, newUid, olds, news).store;
      && (forall i :: 0 <= i < |news| ==> Get(r, news[i]) == Get(st, olds[i]))
      && (forall k: Key :: k.DetailKey? ==> (k in r.data <==> (k in st.data && k !in olds) || k in news))
  {
    HeadRenames(st, uid, newUid);
    var s2 := Rename(Rename(st, CartKey(uid), CartKey(newUid)).value, IndexKey(uid), IndexKey(newUid)).value;
    forall i | 0 <= i < |olds|
      ensures olds[i] in DetailKeysOf(s2, uid)
    {
    }
    TailRenames(s2, uid, newUid, olds, news);
  }

  /** In the same renames the line items and the versions are untouched. */
  lemma RenameCartKeepsHashes(st: Store, uid: string, newUid: string, olds: seq<Key>, news: seq<Key>)
    requires StoreInv(st)
    requires CartKey(uid) in st.data && IndexKey(uid) in st.data && uid != newUid
    requires |olds| == |news| && Distinct(olds) && Distinct(news)
    requires forall i :: 0 <= i < |olds| ==> olds[i] in DetailKeysOf(st, uid)
    requires forall i :: 0 <= i < |news| ==> news[i].DetailKey? && news[i].uid == newUid
    ensures var r := RenameCart(st, uid, newUid, olds, news).store;
      && (forall m :: LineItemKey(m) in r.data <==> LineItemKey(m) in st.data)
      && (forall m :: HGetAll(r, LineItemKey(m)) == HGetAll(st, LineItemKey(m)))
      && HGetAll(r, VersionsKey) == HGetAll(st, VersionsKey)
  {
    HeadRenames(st, uid, newUid);
    var s2 := Rename(Rename(st, CartKey(uid), CartKey(newUid)).value, IndexKey(uid), IndexKey(newUid)).value;
    forall i | 0 <= i < |olds|
      ensures olds[i] in DetailKeysOf(s2, uid)
    {
    }
    TailRenames(s2, uid, newUid, olds, news);
    var r := RenameZip(s2, olds, news).0;
    forall m
      ensures LineItemKey(m) in r.data <==> LineItemKey(m) in st.data
      ensures HGetAll(r, LineItemKey(m)) == HGetAll(st, LineItemKey(m))
    {
      var k := LineItemKey(m);
      assert k in r.data <==> k in st.data;
      if k in st.data {
        assert r.data[k] == s2.data[k] == st.data[k];
      }
    }
    assert HGetAll(r, VersionsKey) == HGetAll(st, VersionsKey) by {
      assert VersionsKey in r.data <==> VersionsKey in st.data;
      if VersionsKey in st.data {
        assert r.data[VersionsKey] == s2.data[VersionsKey];
      }
    }
  }

  // ---------------------------------------------------------------------
  // The moved cart

  /** The detail key of a member under another uid is its old detail key
      moved. */
  lemma MovedDetailKey(item: Item, uid: string, newUid: string)
    ensures MovedKey(DetailKeyOfItem(item, uid), newUid) == DetailKeyOfItem(item, newUid)
  {
  }

  /** Moving the distinct detail keys of one uid gives distinct keys. */
  lemma MovedKeysDistinct(keyOrder: seq<Key>, uid: string, newUid: string)
    requires Distinct(keyOrder)
    requires forall i :: 0 <= i < |keyOrder| ==> keyOrder[i].DetailKey? && keyOrder[i].uid == uid
    ensures Distinct(MovedKeys(keyOrder, newUid))
  {
  }

  /** `r` holds, under `newUid`, the sets of the cart `uid` of `st`, the
      same line items, each old detail key's id under the key's moved name,
      and no other detail key of `newUid`. */
  ghost predicate MovedFrom(st: Store, r: Store, uid: string, newUid: string, keyOrder: seq<Key>) {
    && CartMembers(r, newUid) == CartMembers(st, uid) && Tokens(r, newUid) == Tokens(st, uid)
    && (forall m :: LineItemKey(m) in r.data <==> LineItemKey(m) in st.data)
    && (forall m :: HGetAll(r, LineItemKey(m)) == HGetAll(st, LineItemKey(m)))
    && (forall i :: 0 <= i < |keyOrder| ==> Get(r, MovedKey(keyOrder[i], newUid)) == Get(st, keyOrder[i]))
    && (forall k :: k in DetailKeysOf(r, newUid) ==> k in MovedKeys(keyOrder, newUid))
  }

  /** A line item that reads back the same after the move has the moved
      detail key of what it had before. */
  lemma MovedItemKey(st: Store, r: Store, uid: string, newUid: string, m: string)
    requires HGetAll(r, LineItemKey(m)) == HGetAll(st, LineItemKey(m))
    ensures GetItem(r, newUid, m).fields == GetItem(st, uid, m).fields
    ensures DetailKeyOfItem(GetItem(r, newUid, m), newUid) == MovedKey(DetailKeyOfItem(GetItem(st, uid, m), uid), newUid)
  {
    MovedDetailKey(GetItem(st, uid, m), uid, newUid);
  }

  lemma MovedIndexed(st: Store, r: Store, uid: string, newUid: string, keyOrder: seq<Key>, m: string)
    requires Indexed(st, uid, m)
    requires Enumerates(keyOrder, DetailKeysOf(st, uid))
    requires MovedFrom(st, r, uid, newUid, keyOrder)
    ensures Indexed(r, newUid, m)
  {
    EnumeratesFacts(keyOrder, DetailKeysOf(st, uid));
    var dk := DetailKeyOfItem(GetItem(st, uid, m), uid);
    assert dk in DetailKeysOf(st, uid);
    var i :| 0 <= i < |keyOrder| && keyOrder[i] == dk;
    MovedItemKey(st, r, uid, newUid, m);
  }

  lemma MovedTokensCovered(st: Store, r: Store, uid: string, newUid: string, keyOrder: seq<Key>, tok: string)
    requires Consistent(st, uid)
    requires MovedFrom(st, r, uid, newUid, keyOrder)
    requires tok in Tokens(r, newUid)
    ensures exists m :: m in CartMembers(r, newUid) && ItemToken(GetItem(r, newUid, m)) == tok
  {
    var m :| m in CartMembers(st, uid) && ItemToken(GetItem(st, uid, m)) == tok;
    assert GetItem(r, newUid, m).fields == GetItem(st, uid, m).fields;
  }

  lemma MovedDetailKeysCovered(st: Store, r: Store, uid: string, newUid: string, keyOrder: seq<Key>, k: Key)
    requires forall k :: k in DetailKeysOf(st, uid) ==>
               exists m :: m in CartMembers(st, uid) && DetailKeyOfItem(GetItem(st, uid, m), uid) == k
    requires Enumerates(keyOrder, DetailKeysOf(st, uid))
    requires MovedFrom(st, r, uid, newUid, keyOrder)
    requires k in DetailKeysOf(r, newUid)
    ensures exists m :: m in CartMembers(r, newUid) && DetailKeyOfItem(GetItem(r, newUid, m), newUid) == k
  {
    EnumeratesFacts(keyOrder, DetailKeysOf(st, uid));
    var i :| 0 <= i < |keyOrder| && MovedKeys(keyOrder, newUid)[i] == k;
    assert keyOrder[i] in DetailKeysOf(st, uid);
    var m :| m in CartMembers(st, uid) && DetailKeyOfItem(GetItem(st, uid, m), uid) == keyOrder[i];
    MovedItemKey(st, r, uid, newUid, m);
  }

  /** A store that holds a consistent cart moved to `newUid` holds a
      consistent cart there. */
  lemma MovedConsistent(st: Store, r: Store, uid: string, newUid: string, keyOrder: seq<Key>)
    requires Consistent(st, uid)
    requires Enumerates(keyOrder, DetailKeysOf(st, uid))
    requires MovedFrom(st, r, uid, newUid, keyOrder)
    ensures Consistent(r, newUid)
  {
    forall m | m in CartMembers(r, newUid)
      ensures Indexed(r, newUid, m)
    {
      assert Indexed(st, uid, m);
      MovedIndexed(st, r, uid, newUid, keyOrder, m);
    }
    forall tok | tok in Tokens(r, newUid)
      ensures exists m :: m in CartMembers(r, newUid) && ItemToken(GetItem(r, newUid, m)) == tok
    {
      MovedTokensCovered(st, r, uid, newUid, keyOrder, tok);
    }
    forall k | k in DetailKeysOf(r, newUid)
      ensures exists m :: m in CartMembers(r, newUid) && DetailKeyOfItem(GetItem(r, newUid, m), newUid) == k
    {
      MovedDetailKeysCovered(st, r, uid, newUid, keyOrder, k);
    }
  }

  /** A consistent cart whose membership set exists has its index set too. */
  lemma IndexKeyExists(st: Store, uid: string)
    requires StoreInv(st) && Consistent(st, uid) && CartKey(uid) in st.data
    ensures IndexKey(uid) in st.data
  {
    assert KindOk(CartKey(uid), st.data[CartKey(uid)]);
    var m :| m in CartMembers(st, uid);
    assert Indexed(st, uid, m);
  }

  /** What the aligned renames need of a cart's listed detail keys: they
      and their moved names are each distinct and lie under the old and the
      new uid. */
  lemma AlignedRenamesApply(st: Store, uid: string, newUid: string, keyOrder: seq<Key>)
    requires Enumerates(keyOrder, DetailKeysOf(st, uid))
    ensures Distinct(keyOrder) && Distinct(MovedKeys(keyOrder, newUid))
    ensures forall i :: 0 <= i < |keyOrder| ==> keyOrder[i] in DetailKeysOf(st, uid)
    ensures forall i :: 0 <= i < |keyOrder| ==> MovedKeys(keyOrder, newUid)[i].DetailKey? && MovedKeys(keyOrder, newUid)[i].uid == newUid
  {
    EnumeratesFacts(keyOrder, DetailKeysOf(st, uid));
    EnumerationDistinct(keyOrder, DetailKeysOf(st, uid));
    forall i | 0 <= i < |keyOrder|
      ensures keyOrder[i] in DetailKeysOf(st, uid)
    {
      assert keyOrder[i] in keyOrder;
    }
    MovedKeysDistinct(keyOrder, uid, newUid);
  }

  /** The aligned `reassign` of a consistent cart to a uid with no detail
      keys of its own yields a store that holds the cart moved. */
  lemma AlignedMovedFrom(st: Store, uid: string, newUid: string, keyOrder: seq<Key>)
    requires StoreInv(st) && Consistent(st, uid) && CartKey(uid) in st.data
    requires uid != newUid && DetailKeysOf(st, newUid) == {}
    requires Enumerates(keyOrder, DetailKeysOf(st, uid))
    ensures var r := RenameCart(st, uid, newUid, keyOrder, MovedKeys(keyOrder, newUid)).store;
      && MovedFrom(st, r, uid, newUid, keyOrder)
      && DetailKeysOf(r, uid) == {}
  {
    var news := MovedKeys(keyOrder, newUid);
    IndexKeyExists(st, uid);
    AlignedRenamesApply(st, uid, newUid, keyOrder);
    RenameCartMoves(st, uid, newUid, keyOrder, news);
    RenameCartCarries(st, uid, newUid, keyOrder, news);
    RenameCartKeepsHashes(st, uid, newUid, keyOrder, news);
    var r := RenameCart(st, uid, newUid, keyOrder, news).store;
    forall k | k in DetailKeysOf(r, newUid)
      ensures k in news
    {
      assert k !in DetailKeysOf(st, newUid);
    }
    forall k | k in DetailKeysOf(r, uid)
      ensures false
    {
      if k !in news {
        assert k in DetailKeysOf(st, uid);
        EnumeratesFacts(keyOrder, DetailKeysOf(st, uid));
      }
    }
  }

  /** `reassign` with aligned renames moves a consistent cart to a uid
      holding no detail keys: it succeeds, the cart under the new uid has
      the same line items and is consistent, the old uid is left with no
      keys of its own, and the line items, the versions and the id counter
      are untouched. */
  lemma ReassignAlignedMoves(st: Store, uid: string, newUid: string, keyOrder: seq<Key>)
    requires StoreInv(st) && Consistent(st, uid) && Exists(st, CartKey(uid))
    requires uid != newUid && DetailKeysOf(st, newUid) == {}
    requires Enumerates(keyOrder, DetailKeysOf(st, uid))
    ensures var r := ReassignAligned(st, uid, newUid, keyOrder);
      && r.failure.None? && r.uid == newUid
      && StoreInv(r.store) && r.store.counter == st.counter
      && CartMembers(r.store, newUid) == CartMembers(st, uid)
      && Consistent(r.store, newUid)
      && CartMembers(r.store, uid) == {} && Tokens(r.store, uid) == {} && DetailKeysOf(r.store, uid) == {}
      && (forall m :: HGetAll(r.store, LineItemKey(m)) == HGetAll(st, LineItemKey(m)))
      && HGetAll(r.store, VersionsKey) == HGetAll(st, VersionsKey)
  {
    var news := MovedKeys(keyOrder, newUid);
    IndexKeyExists(st, uid);
    AlignedRenamesApply(st, uid, newUid, keyOrder);
    RenameCartMoves(st, uid, newUid, keyOrder, news);
    RenameCartKeepsHashes(st, uid, newUid, keyOrder, news);
    AlignedMovedFrom(st, uid, newUid, keyOrder);
    MovedConsistent(st, RenameCart(st, uid, newUid, keyOrder, news).store, uid, newUid, keyOrder);
  }

  // ---------------------------------------------------------------------
  // reassign as written

  /** The two listings agree: the i-th detail key KEYS lists belongs to the
      i-th member SMEMBERS lists. */
  predicate Aligned(st: Store, uid: string, memberOrder: seq<string>, keyOrder: seq<Key>) {
    && |memberOrder| == |keyOrder|
    && forall i :: 0 <= i < |keyOrder| ==> keyOrder[i] == DetailKeyOfItem(GetItem(st, uid, memberOrder[i]), uid)
  }

  /** When the listings agree, the new names `reassign` computes are the
      moved old names, so it does what ReassignAligned does. */
  lemma AlignedAgrees(st: Store, uid: string, newUid: string, memberOrder: seq<string>, keyOrder: seq<Key>)
    requires Enumerates(memberOrder, CartMembers(st, uid))
    requires Enumerates(keyOrder, DetailKeysOf(st, uid))
    requires Aligned(st, uid, memberOrder, keyOrder)
    ensures Reassign(st, uid, newUid, memberOrder, keyOrder) == ReassignAligned(st, uid, newUid, keyOrder)
  {
    var news := NewDetailKeys(st, uid, newUid, memberOrder);
    forall i | 0 <= i < |keyOrder|
      ensures news[i] == MovedKeys(keyOrder, newUid)[i]
    {
      MovedDetailKey(GetItem(st, uid, memberOrder[i]), uid, newUid);
    }
    assert news == MovedKeys(keyOrder, newUid);
  }

  /** A set has as many elements as its image under a function that is
      injective on it. */
  lemma {:induction false} InjectiveImageSize(s: set<string>, f: string -> Key)
    requires forall x, y :: x in s && y in s && x != y ==> f(x) != f(y)
    ensures |set x | x in s :: f(x)| == |s|
    decreases s
  {
    if s != {} {
      var x :| x in s;
      var rest := s - {x};
      InjectiveImageSize(rest, f);
      assert (set y | y in s :: f(y)) == (set y | y in rest :: f(y)) + {f(x)};
      assert f(x) !in (set y | y in rest :: f(y));
    }
  }

  /** A consistent cart has one detail key per member. */
  lemma DetailKeysCount(st: Store, uid: string)
    requires Consistent(st, uid)
    ensures |DetailKeysOf(st, uid)| == |CartMembers(st, uid)|
  {
    var f := m => DetailKeyOfItem(GetItem(st, uid, m), uid);
    var members := CartMembers(st, uid);
    forall x, y | x in members && y in members && x != y
      ensures f(x) != f(y)
    {
      IndexedDistinct(st, uid, x, y);
    }
    InjectiveImageSize(members, f);
    assert DetailKeysOf(st, uid) == set m | m in members :: f(m) by {
      forall m | m in members
        ensures f(m) in DetailKeysOf(st, uid)
      {
        assert Indexed(st, uid, m);
      }
    }
  }

  /** The members of a consistent cart have distinct detail keys under any
      uid. */
  lemma NewDetailKeysDistinct(st: Store, uid: string, newUid: string, memberOrder: seq<string>)
    requires Consistent(st, uid)
    requires Enumerates(memberOrder, CartMembers(st, uid))
    ensures Distinct(NewDetailKeys(st, uid, newUid, memberOrder))
  {
    var news := NewDetailKeys(st, uid, newUid, memberOrder);
    EnumeratesFacts(memberOrder, CartMembers(st, uid));
    EnumerationDistinct(memberOrder, CartMembers(st, uid));
    forall i, j | 0 <= i < j < |news|
      ensures news[i] != news[j]
    {
      assert memberOrder[i] in memberOrder && memberOrder[j] in memberOrder;
      IndexedDistinct(st, uid, memberOrder[i], memberOrder[j]);
    }
  }

  /** What the renames of `reassign` as written need of a consistent cart:
      the new names are as many as the listed detail keys, and each list is
      free of repeats and lies under its uid. */
  lemma WrittenRenamesApply(st: Store, uid: string, newUid: string, memberOrder: seq<string>, keyOrder: seq<Key>)
    requires Consistent(st, uid)
    requires Enumerates(memberOrder, CartMembers(st, uid))
    requires Enumerates(keyOrder, DetailKeysOf(st, uid))
    ensures var news := NewDetailKeys(st, uid, newUid, memberOrder);
      && |keyOrder| == |news| && Distinct(keyOrder) && Distinct(news)
      && (forall i :: 0 <= i < |keyOrder| ==> keyOrder[i] in DetailKeysOf(st, uid))
      && (forall i :: 0 <= i < |news| ==> news[i].DetailKey? && news[i].uid == newUid)
  {
    assert |keyOrder| == |memberOrder| by {
      EnumeratesFacts(memberOrder, CartMembers(st, uid));
      EnumeratesFacts(keyOrder, DetailKeysOf(st, uid));
      DetailKeysCount(st, uid);
    }
    NewDetailKeysDistinct(st, uid, newUid, memberOrder);
    ListedKeys(st, uid, keyOrder);
  }

  /** The detail keys KEYS lists are the cart's, each once. */
  lemma ListedKeys(st: Store, uid: string, keyOrder: seq<Key>)
    requires Enumerates(keyOrder, DetailKeysOf(st, uid))
    ensures Distinct(keyOrder)
    ensures forall i :: 0 <= i < |keyOrder| ==> keyOrder[i] in DetailKeysOf(st, uid)
  {
    EnumeratesFacts(keyOrder, DetailKeysOf(st, uid));
    EnumerationDistinct(keyOrder, DetailKeysOf(st, uid));
    forall i | 0 <= i < |keyOrder|
      ensures keyOrder[i] in DetailKeysOf(st, uid)
    {
      assert keyOrder[i] in keyOrder;
    }
  }

  /** Where the listings disagree at position `i`, `reassign` leaves the
      moved `i`-th member's detail key holding another member's id. */
  lemma MisalignedMislabels(st: Store, uid: string, newUid: string, memberOrder: seq<string>, keyOrder: seq<Key>, i: int)
    requires StoreInv(st) && Consistent(st, uid) && CartKey(uid) in st.data && uid != newUid
    requires Enumerates(memberOrder, CartMembers(st, uid))
    requires Enumerates(keyOrder, DetailKeysOf(st, uid))
    requires 0 <= i < |memberOrder| && i < |keyOrder|
    requires keyOrder[i] != DetailKeyOfItem(GetItem(st, uid, memberOrder[i]), uid)
    ensures var r := Reassign(st, uid, newUid, memberOrder, keyOrder).store;
      !Indexed(r, newUid, memberOrder[i])
  {
    var news := NewDetailKeys(st, uid, newUid, memberOrder);
    IndexKeyExists(st, uid);
    WrittenRenamesApply(st, uid, newUid, memberOrder, keyOrder);
    RenameCartCarries(st, uid, newUid, keyOrder, news);
    RenameCartKeepsHashes(st, uid, newUid, keyOrder, news);
    var r := Reassign(st, uid, newUid, memberOrder, keyOrder).store;
    var m := memberOrder[i];
    var m' :| m' in CartMembers(st, uid) && DetailKeyOfItem(GetItem(st, uid, m'), uid) == keyOrder[i];
    assert Indexed(st, uid, m');
    assert GetItem(r, newUid, m).fields == GetItem(st, uid, m).fields;
    assert Get(r, DetailKeyOfItem(GetItem(r, newUid, m), newUid)) == Some(m');
  }

  /** `reassign` as written on a consistent cart, to a uid holding no
      detail keys: every rename succeeds and the members move, but the
      cart under the new uid is consistent exactly when the SMEMBERS and
      KEYS listings agree. */
  lemma ReassignConsistentIffAligned(st: Store, uid: string, newUid: string, memberOrder: seq<string>, keyOrder: seq<Key>)
    requires StoreInv(st) && Consistent(st, uid) && Exists(st, CartKey(uid))
    requires uid != newUid && DetailKeysOf(st, newUid) == {}
    requires Enumerates(memberOrder, CartMembers(st, uid))
    requires Enumerates(keyOrder, DetailKeysOf(st, uid))
    ensures var r := Reassign(st, uid, newUid, memberOrder, keyOrder);
      && r.failure.None? && r.uid == newUid
      && StoreInv(r.store)
      && CartMembers(r.store, newUid) == CartMembers(st, uid)
      && CartMembers(r.store, uid) == {} && Tokens(r.store, uid) == {} && DetailKeysOf(r.store, uid) == {}
      && DetailKeysOf(r.store, newUid) == (set k0 | k0 in DetailKeysOf(st, uid) :: MovedKey(k0, newUid))
      && (Consistent(r.store, newUid) <==> Aligned(st, uid, memberOrder, keyOrder))
  {
    var news := NewDetailKeys(st, uid, newUid, memberOrder);
    IndexKeyExists(st, uid);
    WrittenRenamesApply(st, uid, newUid, memberOrder, keyOrder);
    RenameCartMoves(st, uid, newUid, keyOrder, news);
    WrittenDetailKeys(st, uid, newUid, memberOrder, keyOrder);
    if Aligned(st, uid, memberOrder, keyOrder) {
      AlignedAgrees(st, uid, newUid, memberOrder, keyOrder);
      ReassignAlignedMoves(st, uid, newUid, keyOrder);
    } else {
      var i :| 0 <= i < |keyOrder| && keyOrder[i] != DetailKeyOfItem(GetItem(st, uid, memberOrder[i]), uid);
      MisalignedMislabels(st, uid, newUid, memberOrder, keyOrder, i);
      EnumeratesFacts(memberOrder, CartMembers(st, uid));
      assert memberOrder[i] in CartMembers(st, uid);
    }
  }

  /** The new names `reassign` computes are, as a set, the cart's detail keys
      moved to the new uid, whichever order the members are listed in. */
  lemma WrittenNewsAreMoved(st: Store, uid: string, newUid: string, memberOrder: seq<string>)
    requires Consistent(st, uid)
    requires Enumerates(memberOrder, CartMembers(st, uid))
    ensures (set k | k in NewDetailKeys(st, uid, newUid, memberOrder))
            == set k0 | k0 in DetailKeysOf(st, uid) :: MovedKey(k0, newUid)
  {
    EnumeratesFacts(memberOrder, CartMembers(st, uid));
    NewsAreMoved(st, uid, newUid, memberOrder);
    MovedAreNews(st, uid, newUid, memberOrder);
  }

  /** Each new name is a detail key of the cart moved to the new uid. */
  lemma NewsAreMoved(st: Store, uid: string, newUid: string, memberOrder: seq<string>)
    requires forall m :: m in CartMembers(st, uid) ==> Indexed(st, uid, m)
    requires forall i :: 0 <= i < |memberOrder| ==> memberOrder[i] in CartMembers(st, uid)
    ensures (set k | k in NewDetailKeys(st, uid, newUid, memberOrder))
            <= set k0 | k0 in DetailKeysOf(st, uid) :: MovedKey(k0, newUid)
  {
    var news := NewDetailKeys(st, uid, newUid, memberOrder);
    var moved := set k0 | k0 in DetailKeysOf(st, uid) :: MovedKey(k0, newUid);
    forall i | 0 <= i < |news|
      ensures news[i] in moved
    {
      var item := GetItem(st, uid, memberOrder[i]);
      assert Indexed(st, uid, memberOrder[i]);
      assert DetailKeyOfItem(item, uid) in DetailKeysOf(st, uid);
      NewDetailKeyAt(st, uid, newUid, memberOrder, i);
      MovedDetailKey(item, uid, newUid);
    }
  }

  /** Each detail key of the cart, moved to the new uid, is a new name. */
  lemma MovedAreNews(st: Store, uid: string, newUid: string, memberOrder: seq<string>)
    requires forall k :: k in DetailKeysOf(st, uid) ==>
               exists m :: m in CartMembers(st, uid) && DetailKeyOfItem(GetItem(st, uid, m), uid) == k
    requires forall m :: m in CartMembers(st, uid) ==> m in memberOrder
    ensures (set k0 | k0 in DetailKeysOf(st, uid) :: MovedKey(k0, newUid))
            <= set k | k in NewDetailKeys(st, uid, newUid, memberOrder)
  {
    var news := NewDetailKeys(st, uid, newUid, memberOrder);
    forall k0 | k0 in DetailKeysOf(st, uid)
      ensures MovedKey(k0, newUid) in news
    {
      var m :| m in CartMembers(st, uid) && DetailKeyOfItem(GetItem(st, uid, m), uid) == k0;
      var i :| 0 <= i < |memberOrder| && memberOrder[i] == m;
      var item := GetItem(st, uid, m);
      NewDetailKeyAt(st, uid, newUid, memberOrder, i);
      MovedDetailKey(item, uid, newUid);
      assert news[i] == MovedKey(k0, newUid);
      IndexedIn(news, i);
    }
  }

  /** The i-th new name is the detail key of the i-th listed member under
      the new uid. */
  lemma NewDetailKeyAt(st: Store, uid: string, newUid: string, ids: seq<string>, i: int)
    requires 0 <= i < |ids|
    ensures NewDetailKeys(st, uid, newUid, ids)[i] == DetailKeyOfItem(GetItem(st, uid, ids[i]), newUid)
  {
  }

  /** `reassign` as written, whatever the listings, leaves no detail key
      under the old uid and, under a new uid that had none, exactly the old
      detail keys moved there: the names are right even where the ids they
      hold are not. */
  lemma WrittenDetailKeys(st: Store, uid: string, newUid: string, memberOrder: seq<string>, keyOrder: seq<Key>)
    requires StoreInv(st) && Consistent(st, uid) && Exists(st, CartKey(uid))
    requires uid != newUid && DetailKeysOf(st, newUid) == {}
    requires Enumerates(memberOrder, CartMembers(st, uid))
    requires Enumerates(keyOrder, DetailKeysOf(st, uid))
    ensures var r := Reassign(st, uid, newUid, memberOrder, keyOrder).store;
      && DetailKeysOf(r, uid) == {}
      && DetailKeysOf(r, newUid) == set k0 | k0 in DetailKeysOf(st, uid) :: MovedKey(k0, newUid)
  {
    var news := NewDetailKeys(st, uid, newUid, memberOrder);
    IndexKeyExists(st, uid);
    WrittenRenamesApply(st, uid, newUid, memberOrder, keyOrder);
    RenameCartCarries(st, uid, newUid, keyOrder, news);
    WrittenNewsAreMoved(st, uid, newUid, memberOrder);
    EnumeratesFacts(keyOrder, DetailKeysOf(st, uid));
    RenamedDetailKeys(st, RenameCart(st, uid, newUid, keyOrder, news).store, uid, newUid, keyOrder, news);
  }

  /** After renaming every detail key of `uid` (listed in `olds`) to names
      under a `newUid` that had none, `uid` has no detail key left and
      `newUid` has exactly the new names. */
  lemma RenamedDetailKeys(st: Store, r: Store, uid: string, newUid: string, olds: seq<Key>, news: seq<Key>)
    requires uid != newUid && DetailKeysOf(st, newUid) == {}
    requires forall k :: k in DetailKeysOf(st, uid) ==> k in olds
    requires forall i :: 0 <= i < |news| ==> news[i].DetailKey? && news[i].uid == newUid
    requires forall k: Key :: k.DetailKey? ==> (k in r.data <==> (k in st.data && k !in olds) || k in news)
    ensures DetailKeysOf(r, uid) == {}
    ensures DetailKeysOf(r, newUid) == set k | k in news
  {
    forall k: Key | k.DetailKey? && k.uid == uid
      ensures k !in r.data
    {
      assert k !in news;
    }
    forall k | k in news
      ensures k in DetailKeysOf(r, newUid)
    {
    }
    forall k | k in DetailKeysOf(r, newUid)
      ensures k in news
    {
      assert k !in DetailKeysOf(st, newUid);
    }
  }

  /** A cart moved with its line items untouched keeps its `count`,
      `quantity` and `total`, read in the same SMEMBERS order. */
  lemma MovedTotals(cfg: Config, st: Store, r: Store, uid: string, newUid: string, order: seq<string>)
    requires CartMembers(r, newUid) == CartMembers(st, uid)
    requires forall m :: HGetAll(r, LineItemKey(m)) == HGetAll(st, LineItemKey(m))
    requires Enumerates(order, CartMembers(st, uid))
    ensures Count(r, newUid) == Count(st, uid)
    ensures Quantity(cfg, r, newUid, order) == Quantity(cfg, st, uid, order)
    ensures Total(cfg, r, newUid, order) == Total(cfg, st, uid, order)
  {
    SharesUnchanged(cfg, st, r, order);
    SumOverCongruent(QuantityOf(cfg, r), QuantityOf(cfg, st), order);
    SumOverCongruent(CostOf(cfg, r), CostOf(cfg, st), order);
  }

  /** `reassign` as written, on a consistent cart, whatever the listings:
      the cart under the new uid has the old `count`, `quantity` and
      `total` (the line items themselves never move), and the old uid
      has none left. */
  lemma ReassignKeepsTotals(cfg: Config, st: Store, uid: string, newUid: string,
                            memberOrder: seq<string>, keyOrder: seq<Key>, order: seq<string>)
    requires StoreInv(st) && Consistent(st, uid) && Exists(st, CartKey(uid)) && uid != newUid
    requires Enumerates(memberOrder, CartMembers(st, uid))
    requires Enumerates(keyOrder, DetailKeysOf(st, uid))
    requires Enumerates(order, CartMembers(st, uid))
    ensures var r := Reassign(st, uid, newUid, memberOrder, keyOrder).store;
      && Enumerates(order, CartMembers(r, newUid))
      && Count(r, newUid) == Count(st, uid) && Count(r, uid) == 0
      && Quantity(cfg, r, newUid, order) == Quantity(cfg, st, uid, order)
      && Total(cfg, r, newUid, order) == Total(cfg, st, uid, order)
  {
    var news := NewDetailKeys(st, uid, newUid, memberOrder);
    IndexKeyExists(st, uid);
    WrittenRenamesApply(st, uid, newUid, memberOrder, keyOrder);
    RenameCartMoves(st, uid, newUid, keyOrder, news);
    RenameCartKeepsHashes(st, uid, newUid, keyOrder, news);
    MovedTotals(cfg, st, Reassign(st, uid, newUid, memberOrder, keyOrder).store, uid, newUid, order);
  }

  /** `reassign` to a uid that already has a cart replaces that cart
      rather than merging with it: the new uid's membership and index sets
      become the moved cart's, so its former members drop out, while its
      former detail keys are left behind unless a new name overwrites them. */
  lemma ReassignClobbers(st: Store, uid: string, newUid: string, memberOrder: seq<string>, keyOrder: seq<Key>)
    requires StoreInv(st) && Consistent(st, uid) && Exists(st, CartKey(uid)) && uid != newUid
    requires Enumerates(memberOrder, CartMembers(st, uid))
    requires Enumerates(keyOrder, DetailKeysOf(st, uid))
    ensures var r := Reassign(st, uid, newUid, memberOrder, keyOrder).store;
      && CartMembers(r, newUid) == CartMembers(st, uid)
      && Tokens(r, newUid) == Tokens(st, uid)
      && (forall m :: m in CartMembers(st, newUid) && m !in CartMembers(st, uid) ==> m !in CartMembers(r, newUid))
      && (forall tok :: tok in Tokens(st, newUid) && tok !in Tokens(st, uid) ==> tok !in Tokens(r, newUid))
      && DetailKeysOf(st, newUid) <= DetailKeysOf(r, newUid)
  {
    var news := NewDetailKeys(st, uid, newUid, memberOrder);
    IndexKeyExists(st, uid);
    WrittenRenamesApply(st, uid, newUid, memberOrder, keyOrder);
    RenameCartMoves(st, uid, newUid, keyOrder, news);
    RenameCartCarries(st, uid, newUid, keyOrder, news);
    var r := Reassign(st, uid, newUid, memberOrder, keyOrder).store;
    forall k | k in DetailKeysOf(st, newUid)
      ensures k in DetailKeysOf(r, newUid)
    {
      assert k !in keyOrder;
    }
  }

  /** A set of one element is that element's singleton. */
  lemma SingletonSet<T>(s: set<T>, x: T)
    requires |s| == 1 && x in s
    ensures s == {x}
  {
    assert |s - {x}| == 0;
  }

  /** The only enumeration of a singleton. */
  lemma SingletonEnumeration<T>(order: seq<T>, s: set<T>, x: T)
    requires Enumerates(order, s) && s == {x}
    ensures order == [x]
  {
    EnumeratesFacts(order, s);
    assert order[0] in order;
  }

  /** A cart of one line item is listed the same way by SMEMBERS and KEYS,
      so `reassign` as written moves it consistently. */
  lemma OneItemAligned(st: Store, uid: string, memberOrder: seq<string>, keyOrder: seq<Key>)
    requires Consistent(st, uid) && |CartMembers(st, uid)| == 1
    requires Enumerates(memberOrder, CartMembers(st, uid))
    requires Enumerates(keyOrder, DetailKeysOf(st, uid))
    ensures Aligned(st, uid, memberOrder, keyOrder)
  {
    var m :| m in CartMembers(st, uid);
    SingletonSet(CartMembers(st, uid), m);
    var dk := DetailKeyOfItem(GetItem(st, uid, m), uid);
    assert dk in DetailKeysOf(st, uid) by {
      assert Indexed(st, uid, m);
    }
    DetailKeysCount(st, uid);
    SingletonSet(DetailKeysOf(st, uid), dk);
    SingletonEnumeration(memberOrder, CartMembers(st, uid), m);
    SingletonEnumeration(keyOrder, DetailKeysOf(st, uid), dk);
  }

  /** A set of two elements holding `x` and `y` is `{x, y}`. */
  lemma PairSet<T>(s: set<T>, x: T, y: T)
    requires |s| == 2 && x in s && y in s && x != y
    ensures s == {x, y}
  {
    assert |s - {x, y}| == 0;
  }

  /** A two-element set is listed by either order of its elements. */
  lemma PairEnumerations<T>(x: T, y: T)
    requires x != y
    ensures Enumerates([x, y], {x, y}) && Enumerates([y, x], {x, y})
  {
    assert multiset([x, y]) == multiset{x, y} == multiset({x, y});
    assert multiset([y, x]) == multiset{x, y};
  }

  /** A set as large as a two-element set, holding two distinct elements,
      is those two. */
  lemma PairOfPair<A, B>(s: set<A>, t: set<B>, x: A, y: A, u: B, v: B)
    requires s == {x, y} && x != y && |t| == |s|
    requires u in t && v in t && u != v
    ensures t == {u, v}
  {
    assert |s| == 2 by {
      assert s == {x} + {y} && {x} !! {y};
    }
    PairSet(t, u, v);
  }

  /** A consistent cart of two line items has the two detail keys of its
      items, and may be listed by SMEMBERS in one order while KEYS lists
      the items' keys in the other. */
  lemma TwoItemListings(st: Store, uid: string, m1: string, m2: string)
    requires Consistent(st, uid) && CartMembers(st, uid) == {m1, m2} && m1 != m2
    ensures var k1, k2 := DetailKeyOfItem(GetItem(st, uid, m1), uid), DetailKeyOfItem(GetItem(st, uid, m2), uid);
      && Enumerates([m2, m1], CartMembers(st, uid))
      && Enumerates([k1, k2], DetailKeysOf(st, uid))
      && k1 != k2
  {
    var k1, k2 := DetailKeyOfItem(GetItem(st, uid, m1), uid), DetailKeyOfItem(GetItem(st, uid, m2), uid);
    assert Indexed(st, uid, m1) && Indexed(st, uid, m2);
    IndexedDistinct(st, uid, m1, m2);
    DetailKeysCount(st, uid);
    assert k1 in DetailKeysOf(st, uid) && k2 in DetailKeysOf(st, uid);
    PairOfPair(CartMembers(st, uid), DetailKeysOf(st, uid), m1, m2, k1, k2);
    PairEnumerations(m1, m2);
    PairEnumerations(k1, k2);
  }

  /** `reassign` as written on a consistent cart, whatever the listings:
      the i-th new name holds what the i-th listed detail key held, and the
      index set and the line items move intact. */
  lemma ReassignCarries(st: Store, uid: string, newUid: string, memberOrder: seq<string>, keyOrder: seq<Key>)
    requires StoreInv(st) && Consistent(st, uid) && CartKey(uid) in st.data && uid != newUid
    requires Enumerates(memberOrder, CartMembers(st, uid))
    requires Enumerates(keyOrder, DetailKeysOf(st, uid))
    ensures var news := NewDetailKeys(st, uid, newUid, memberOrder);
      var r := Reassign(st, uid, newUid, memberOrder, keyOrder).store;
      && |news| == |keyOrder|
      && (forall i :: 0 <= i < |news| ==> Get(r, news[i]) == Get(st, keyOrder[i]))
      && Tokens(r, newUid) == Tokens(st, uid)
      && (forall m :: HGetAll(r, LineItemKey(m)) == HGetAll(st, LineItemKey(m)))
  {
    var news := NewDetailKeys(st, uid, newUid, memberOrder);
    IndexKeyExists(st, uid);
    WrittenRenamesApply(st, uid, newUid, memberOrder, keyOrder);
    RenameCartMoves(st, uid, newUid, keyOrder, news);
    RenameCartCarries(st, uid, newUid, keyOrder, news);
    RenameCartKeepsHashes(st, uid, newUid, keyOrder, news);
  }

  /** The renames of `reassign` as written on a consistent cart of two
      line items, listed by SMEMBERS in the reverse of the order KEYS lists
      their detail keys: each moved detail key holds the other item's id,
      while the sets and the line items move intact. */
  lemma TwoItemsRenamed(st: Store, uid: string, newUid: string, m1: string, m2: string)
    requires StoreInv(st) && Consistent(st, uid) && CartMembers(st, uid) == {m1, m2} && m1 != m2
    requires uid != newUid
    ensures var item1, item2 := GetItem(st, uid, m1), GetItem(st, uid, m2);
      var k1, k2 := DetailKeyOfItem(item1, uid), DetailKeyOfItem(item2, uid);
      Enumerates([m2, m1], CartMembers(st, uid)) && Enumerates([k1, k2], DetailKeysOf(st, uid)) &&
      var r := Reassign(st, uid, newUid, [m2, m1], [k1, k2]).store;
      && Get(r, DetailKeyOfItem(item1, newUid)) == Get(st, k2)
      && Get(r, DetailKeyOfItem(item2, newUid)) == Get(st, k1)
      && Tokens(r, newUid) == Tokens(st, uid)
      && GetItem(r, newUid, m1).fields == item1.fields
      && GetItem(r, newUid, m2).fields == item2.fields
  {
    var item1, item2 := GetItem(st, uid, m1), GetItem(st, uid, m2);
    var k1, k2 := DetailKeyOfItem(item1, uid), DetailKeyOfItem(item2, uid);
    TwoItemListings(st, uid, m1, m2);
    var r := Reassign(st, uid, newUid, [m2, m1], [k1, k2]).store;
    assert Get(r, DetailKeyOfItem(item2, newUid)) == Get(st, k1)
        && Get(r, DetailKeyOfItem(item1, newUid)) == Get(st, k2)
        && Tokens(r, newUid) == Tokens(st, uid)
        && HGetAll(r, LineItemKey(m1)) == HGetAll(st, LineItemKey(m1))
        && HGetAll(r, LineItemKey(m2)) == HGetAll(st, LineItemKey(m2)) by {
      var news := NewDetailKeys(st, uid, newUid, [m2, m1]);
      assert news[0] == DetailKeyOfItem(item2, newUid);
      assert news[1] == DetailKeyOfItem(item1, newUid);
      assert CartKey(uid) in st.data;
      ReassignCarries(st, uid, newUid, [m2, m1], [k1, k2]);
      PairedGets(st, r, news, [k1, k2]);
    }
  }

  /** Positionwise equal reads on two-element lists, spelled out. */
  lemma PairedGets(st: Store, r: Store, news: seq<Key>, olds: seq<Key>)
    requires |news| == |olds| == 2
    requires forall i :: 0 <= i < |news| ==> Get(r, news[i]) == Get(st, olds[i])
    ensures Get(r, news[0]) == Get(st, olds[0]) && Get(r, news[1]) == Get(st, olds[1])
  {
  }

  /** `find` of a product whose moved detail key holds the id of another
      line item returns that other item. */
  lemma FindReturnsHeldItem(st: Store, r: Store, uid: string, newUid: string, m1: string, m2: string)
    requires Indexed(st, uid, m1) && Indexed(st, uid, m2)
    requires Tokens(r, newUid) == Tokens(st, uid)
    requires Get(r, DetailKeyOfItem(GetItem(st, uid, m1), newUid)) == Some(m2)
    ensures var item1 := GetItem(st, uid, m1);
      Find(r, newUid, Interpolate(ItemType(item1)), Interpolate(ItemProductId(item1))) == Some(GetItem(r, newUid, m2))
  {
  }

  /** `reassign` as written on a consistent cart of two line items, with
      SMEMBERS listing them in the reverse of the order KEYS lists their
      detail keys: the two moved detail keys hold each other's ids, so
      `find` of the first item's product returns the second item, and the
      moved cart is not consistent. */
  lemma TwoItemsSwapped(st: Store, uid: string, newUid: string, m1: string, m2: string)
    requires StoreInv(st) && Consistent(st, uid) && CartMembers(st, uid) == {m1, m2} && m1 != m2
    requires uid != newUid
    ensures var item1, item2 := GetItem(st, uid, m1), GetItem(st, uid, m2);
      var k1, k2 := DetailKeyOfItem(item1, uid), DetailKeyOfItem(item2, uid);
      Enumerates([m2, m1], CartMembers(st, uid)) && Enumerates([k1, k2], DetailKeysOf(st, uid)) &&
      var r := Reassign(st, uid, newUid, [m2, m1], [k1, k2]).store;
      && Get(r, DetailKeyOfItem(item1, newUid)) == Some(m2)
      && Get(r, DetailKeyOfItem(item2, newUid)) == Some(m1)
      && Find(r, newUid, Interpolate(ItemType(item1)), Interpolate(ItemProductId(item1))) == Some(GetItem(r, newUid, m2))
      && GetItem(r, newUid, m2).fields == item2.fields
      && !Indexed(r, newUid, m1)
  {
    var item1, item2 := GetItem(st, uid, m1), GetItem(st, uid, m2);
    var k1, k2 := DetailKeyOfItem(item1, uid), DetailKeyOfItem(item2, uid);
    TwoItemsRenamed(st, uid, newUid, m1, m2);
    var r := Reassign(st, uid, newUid, [m2, m1], [k1, k2]).store;
    assert Indexed(st, uid, m1) && Indexed(st, uid, m2);
    FindReturnsHeldItem(st, r, uid, newUid, m1, m2);
    assert GetItem(r, newUid, m1).fields == item1.fields;
  }

  // ---------------------------------------------------------------------
  // reassign to the uid the cart already has

  /** A RENAME of a present key onto itself leaves the store as it was. */
  lemma RenameSelf(st: Store, k: Key)
    requires k in st.data
    ensures Rename(st, k, k) == Some(st)
  {
    var s := Rename(st, k, k).value;
    assert s.data == st.data;
    assert s.ttl == st.ttl;
  }

  /** Renaming each of a list of present keys onto itself fails nowhere and
      changes nothing. */
  lemma {:induction false} RenameZipSelf(st: Store, ks: seq<Key>)
    requires forall i :: 0 <= i < |ks| ==> ks[i] in st.data
    ensures RenameZip(st, ks, ks) == (st, None)
  {
    if |ks| > 0 {
      RenameSelf(st, ks[0]);
      RenameZipSelf(st, ks[1..]);
    }
  }

  /** The renames of `reassign` to the same uid, with every listed key
      present and renamed onto itself, fail nowhere and change nothing. */
  lemma RenameCartSelf(st: Store, uid: string, ks: seq<Key>)
    requires CartKey(uid) in st.data && IndexKey(uid) in st.data
    requires forall i :: 0 <= i < |ks| ==> ks[i] in st.data
    ensures RenameCart(st, uid, uid, ks, ks) == Reassigned(st, uid, None)
  {
    RenameSelf(st, CartKey(uid));
    RenameSelf(st, IndexKey(uid));
    RenameZipSelf(st, ks);
  }

  /** Reassigning a consistent cart to the uid it already has, with every
      detail key renamed to its own name, changes nothing. */
  lemma SameUidAlignedKeepsStore(st: Store, uid: string, keyOrder: seq<Key>)
    requires StoreInv(st) && Consistent(st, uid)
    requires Enumerates(keyOrder, DetailKeysOf(st, uid))
    ensures ReassignAligned(st, uid, uid, keyOrder) == Reassigned(st, uid, None)
  {
    if Exists(st, CartKey(uid)) {
      IndexKeyExists(st, uid);
      EnumeratesFacts(keyOrder, DetailKeysOf(st, uid));
      forall i | 0 <= i < |keyOrder|
        ensures keyOrder[i] in st.data && MovedKeys(keyOrder, uid)[i] == keyOrder[i]
      {
        assert keyOrder[i] in DetailKeysOf(st, uid);
      }
      assert MovedKeys(keyOrder, uid) == keyOrder;
      RenameCartSelf(st, uid, keyOrder);
    }
  }

  /** Two renames, the first key onto the second and the second back onto
      the first, leave only the first key, holding its own value. */
  lemma RenameThereAndBack(st: Store, k1: Key, k2: Key)
    requires k1 in st.data && k1 != k2
    ensures Rename(st, k1, k2).Some?
    ensures var s1 := Rename(st, k1, k2).value;
      && Rename(s1, k2, k1).Some?
      && var s2 := Rename(s1, k2, k1).value;
      && s2.counter == st.counter
      && s2.data == (st.data - {k2})[k1 := st.data[k1]]
  {
    var s1 := Rename(st, k1, k2).value;
    var s2 := Rename(s1, k2, k1).value;
    assert s2.data == (st.data - {k2})[k1 := st.data[k1]];
  }

  /** The renames of `reassign` to the same uid when the detail keys are
      zipped crosswise: the cart and index keys stay, the first detail key
      goes onto the second and comes back, and the second is lost. */
  lemma RenameCartThereAndBack(st: Store, uid: string, k1: Key, k2: Key, news: seq<Key>)
    requires CartKey(uid) in st.data && IndexKey(uid) in st.data
    requires k1 in st.data && k1 != k2
    requires |news| == 2 && news[0] == k2 && news[1] == k1
    ensures var r := RenameCart(st, uid, uid, [k1, k2], news);
      && r.failure.None? && r.uid == uid
      && r.store.data == (st.data - {k2})[k1 := st.data[k1]]
  {
    assert news == [k2, k1];
    RenameSelf(st, CartKey(uid));
    RenameSelf(st, IndexKey(uid));
    RenameThereAndBack(st, k1, k2);
    var s1 := Rename(st, k1, k2).value;
    var s2 := Rename(s1, k2, k1).value;
    assert RenameZip(s2, [], []) == (s2, None);
    assert RenameZip(s1, [k2], [k1]) == (s2, None) by {
      assert [k2][1..] == [] && [k1][1..] == [];
    }
    assert RenameZip(st, [k1, k2], [k2, k1]) == (s2, None) by {
      assert [k1, k2][1..] == [k2] && [k2, k1][1..] == [k1];
    }
  }

  /** `reassign` as written, to the uid the cart already has, on a
      consistent cart of two line items listed by SMEMBERS in the reverse of
      the order KEYS lists their detail keys: the cart key and the index key
      rename onto themselves, then the first detail key is renamed onto the
      second and the second back onto the first. The call succeeds, but the
      second item's detail key is gone and the cart is no longer
      consistent. */
  lemma SameUidLosesDetailKey(st: Store, uid: string, m1: string, m2: string)
    requires StoreInv(st) && Consistent(st, uid) && CartMembers(st, uid) == {m1, m2} && m1 != m2
    ensures var k1, k2 := DetailKeyOfItem(GetItem(st, uid, m1), uid), DetailKeyOfItem(GetItem(st, uid, m2), uid);
      Enumerates([m2, m1], CartMembers(st, uid)) && Enumerates([k1, k2], DetailKeysOf(st, uid)) &&
      var r := Reassign(st, uid, uid, [m2, m1], [k1, k2]);
      && r.failure.None? && r.uid == uid
      && CartMembers(r.store, uid) == {m1, m2}
      && Get(r.store, k1) == Some(m1)
      && k2 !in r.store.data
      && !Indexed(r.store, uid, m2)
      && !Consistent(r.store, uid)
  {
    var k1, k2 := DetailKeyOfItem(GetItem(st, uid, m1), uid), DetailKeyOfItem(GetItem(st, uid, m2), uid);
    assert && Enumerates([m2, m1], CartMembers(st, uid)) && Enumerates([k1, k2], DetailKeysOf(st, uid))
           && k1 != k2 && Get(st, k1) == Some(m1) && k1 in st.data
           && CartKey(uid) in st.data && IndexKey(uid) in st.data by {
      TwoItemListings(st, uid, m1, m2);
      assert Indexed(st, uid, m1);
      IndexKeyExists(st, uid);
    }
    var news := NewDetailKeys(st, uid, uid, [m2, m1]);
    NewDetailKeyAt(st, uid, uid, [m2, m1], 0);
    NewDetailKeyAt(st, uid, uid, [m2, m1], 1);
    RenameCartThereAndBack(st, uid, k1, k2, news);
    LostDetailKey(st, Reassign(st, uid, uid, [m2, m1], [k1, k2]).store, uid, m1, m2);
  }

  /** A store that is `st` with the second item's detail key dropped: the
      members and the first detail key read as before, the second item is
      no longer indexed and the cart is not consistent. */
  lemma LostDetailKey(st: Store, r: Store, uid: string, m1: string, m2: string)
    requires CartMembers(st, uid) == {m1, m2} && Get(st, DetailKeyOfItem(GetItem(st, uid, m1), uid)) == Some(m1)
    requires var k1, k2 := DetailKeyOfItem(GetItem(st, uid, m1), uid), DetailKeyOfItem(GetItem(st, uid, m2), uid);
      k1 in st.data && k1 != k2 && r.data == (st.data - {k2})[k1 := st.data[k1]]
    ensures var k1, k2 := DetailKeyOfItem(GetItem(st, uid, m1), uid), DetailKeyOfItem(GetItem(st, uid, m2), uid);
      && CartMembers(r, uid) == {m1, m2}
      && Get(r, k1) == Some(m1)
      && k2 !in r.data
      && !Indexed(r, uid, m2)
      && !Consistent(r, uid)
  {
    assert HGetAll(r, LineItemKey(m2)) == HGetAll(st, LineItemKey(m2));
    assert GetItem(r, uid, m2) == GetItem(st, uid, m2);
    assert !Indexed(r, uid, m2);
    assert m2 in CartMembers(r, uid);
  }

  // ---------------------------------------------------------------------
  // more detail keys than members

  /** The renames `zip` issues once the new names have run out: each old
      key goes to BlankKey, the name the client sends for `nil`. Nothing
      fails, every old key is gone, BlankKey holds what the last of them
      held, and every other key is as it was. */
  lemma {:induction false} RenameZipPastEnd(st: Store, olds: seq<Key>)
    requires |olds| > 0 && Distinct(olds) && BlankKey !in olds
    requires forall i :: 0 <= i < |olds| ==> olds[i] in st.data
    ensures RenameZip(st, olds, []).1.None?
    ensures var r := RenameZip(st, olds, []).0;
      && r.counter == st.counter
      && (forall k :: k in r.data <==> (k in st.data && k !in olds) || k == BlankKey)
      && r.data[BlankKey] == st.data[olds[|olds| - 1]]
      && (forall k :: k in st.data && k !in olds && k != BlankKey ==> r.data[k] == st.data[k])
    decreases |olds|
  {
    RenameMoves(st, olds[0], BlankKey);
    var s1 := Rename(st, olds[0], BlankKey).value;
    if |olds| > 1 {
      DistinctTail(olds);
      TailStillPresent(st, s1, olds);
      RenameZipPastEnd(s1, olds[1..]);
      assert RenameZip(st, olds, []) == RenameZip(s1, olds[1..], []);
      IndexedIn(olds, |olds| - 1);
      assert olds[1..][|olds[1..]| - 1] == olds[|olds| - 1] != olds[0];
      PastEndStep(st, s1, RenameZip(s1, olds[1..], []).0, olds);
    }
  }

  /** After the first rename onto BlankKey the other old keys still exist. */
  lemma TailStillPresent(st: Store, s1: Store, olds: seq<Key>)
    requires |olds| > 1 && olds[0] !in olds[1..] && BlankKey !in olds
    requires forall i :: 0 <= i < |olds| ==> olds[i] in st.data
    requires s1.data.Keys == st.data.Keys - {olds[0]} + {BlankKey}
    ensures forall i :: 0 <= i < |olds[1..]| ==> olds[1..][i] in s1.data
  {
    forall i | 0 <= i < |olds[1..]|
      ensures olds[1..][i] in s1.data
    {
      assert olds[1..][i] == olds[i + 1];
      IndexedIn(olds[1..], i);
    }
  }

  /** One step of RenameZipPastEnd: a store `r` reached from `s1` by the
      remaining renames, where `s1` is `st` after the first one, has lost
      every old key and otherwise keeps what `st` held. */
  lemma PastEndStep(st: Store, s1: Store, r: Store, olds: seq<Key>)
    requires |olds| > 1
    requires s1.data.Keys == st.data.Keys - {olds[0]} + {BlankKey}
    requires forall k :: k in st.data && k != olds[0] && k != BlankKey ==> s1.data[k] == st.data[k]
    requires olds[0] !in olds[1..] && BlankKey !in olds && olds[|olds| - 1] in st.data
    requires olds[|olds| - 1] in s1.data && olds[|olds| - 1] != olds[0]
    requires forall k :: k in r.data <==> (k in s1.data && k !in olds[1..]) || k == BlankKey
    requires r.data[BlankKey] == s1.data[olds[|olds| - 1]]
    requires forall k :: k in s1.data && k !in olds[1..] && k != BlankKey ==> r.data[k] == s1.data[k]
    ensures forall k :: k in r.data <==> (k in st.data && k !in olds) || k == BlankKey
    ensures r.data[BlankKey] == st.data[olds[|olds| - 1]]
    ensures forall k :: k in st.data && k !in olds && k != BlankKey ==> r.data[k] == st.data[k]
  {
    assert olds == [olds[0]] + olds[1..];
  }

  /** The zip of two old keys with one new name: the first moves to the
      new name, the second to BlankKey, and nothing fails. */
  lemma SurplusRenames(s2: Store, k1: Key, k2: Key, n: Key)
    requires k1 in s2.data && k2 in s2.data && k1 != k2
    requires n != k1 && n != k2 && n != BlankKey && k1 != BlankKey && k2 != BlankKey
    ensures RenameZip(s2, [k1, k2], [n]).1.None?
    ensures var r := RenameZip(s2, [k1, k2], [n]).0;
      && k1 !in r.data && k2 !in r.data
      && Get(r, n) == Get(s2, k1)
      && Get(r, BlankKey) == Get(s2, k2)
      && (forall k :: k in s2.data && k != k1 && k != k2 && k != n && k != BlankKey ==> k in r.data && r.data[k] == s2.data[k])
  {
    RenameMoves(s2, k1, n);
    var s3 := Rename(s2, k1, n).value;
    RenameZipPastEnd(s3, [k2]);
    assert RenameZip(s2, [k1, k2], [n]) == RenameZip(s3, [k2], []);
  }

  /** A cart left with two detail keys and one member, as ReassignClobbers
      can leave a destination: `zip` pairs the second detail key with `nil`.
      The RENAME onto the empty name succeeds, so the reassign goes through
      and the uid changes; the first detail key takes the member's new name
      and the second lands on BlankKey. */
  lemma SurplusDetailKeyOntoBlank(st: Store, uid: string, newUid: string, m: string, k1: Key, k2: Key)
    requires StoreInv(st) && uid != newUid
    requires CartMembers(st, uid) == {m} && IndexKey(uid) in st.data
    requires DetailKeysOf(st, uid) == {k1, k2} && k1 != k2
    ensures Enumerates([m], CartMembers(st, uid)) && Enumerates([k1, k2], DetailKeysOf(st, uid))
    ensures var r := Reassign(st, uid, newUid, [m], [k1, k2]);
      && r.failure.None? && r.uid == newUid
      && CartMembers(r.store, newUid) == {m}
      && k1 !in r.store.data && k2 !in r.store.data
      && Get(r.store, DetailKeyOfItem(GetItem(st, uid, m), newUid)) == Get(st, k1)
      && Get(r.store, BlankKey) == Get(st, k2)
  {
    assert CartKey(uid) in st.data && k1 in DetailKeysOf(st, uid) && k2 in DetailKeysOf(st, uid);
    assert Enumerates([k1, k2], DetailKeysOf(st, uid)) by {
      assert multiset([k1, k2]) == multiset({k1, k2});
    }
    var n := DetailKeyOfItem(GetItem(st, uid, m), newUid);
    assert NewDetailKeys(st, uid, newUid, [m]) == [n];
    HeadRenames(st, uid, newUid);
    var s2 := Rename(Rename(st, CartKey(uid), CartKey(newUid)).value, IndexKey(uid), IndexKey(newUid)).value;
    assert k1 in s2.data && s2.data[k1] == st.data[k1] && k2 in s2.data && s2.data[k2] == st.data[k2];
    SurplusRenames(s2, k1, k2, n);
    var r := Reassign(st, uid, newUid, [m], [k1, k2]);
    assert r.store == RenameZip(s2, [k1, k2], [n]).0;
    assert CartKey(newUid) in s2.data && r.store.data[CartKey(newUid)] == s2.data[CartKey(newUid)];
  }
}
