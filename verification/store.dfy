/** An abstract Redis holding the cart's keys: every existing key with its
    value, the expiry last assigned to each key, and the line-item id
    counter. Each function is one Redis command as the cart issues it. */
module Store {
  import opened Wrappers
  import opened RubyText
  import opened KeySpace

  /** A Redis value of the three kinds the cart uses. */
  datatype Value =
    | Str(text: string)
    | Members(elems: set<string>)
    | Fields(fields: map<string, string>)

  /** `data` holds every existing key; `ttl` the expiry (in seconds) last
      set on a key that still exists; `counter` the value at
      `cartman:line_item:id`. */
  datatype Store = Store(data: map<Key, Value>, ttl: map<Key, nat>, counter: nat)

  const EmptyStore: Store := Store(map[], map[], 0)

  /** The kind of value each key of the key-space holds. An empty set is not
      stored: Redis removes a set when its last member goes. */
  predicate KindOk(k: Key, v: Value) {
    match k
    case CartKey(_) => v.Members? && v.elems != {}
    case IndexKey(_) => v.Members? && v.elems != {}
    case DetailKey(_, _, _) => v.Str?
    case LineItemKey(_) => v.Fields?
    case VersionsKey => v.Fields?
    case CounterKey => false
    case BlankKey => v.Str?
  }

  /** Every key holds the kind of value the cart writes there, and only
      existing keys carry an expiry. Under this the commands below never
      meet a WRONGTYPE error. */
  predicate WellTyped(st: Store) {
    && st.ttl.Keys <= st.data.Keys
    && forall k :: k in st.data ==> KindOk(k, st.data[k])
  }

  /** EXISTS. */
  predicate Exists(st: Store, k: Key) {
    k in st.data
  }

  /** GET: the string at `k`, or nil. */
  function Get(st: Store, k: Key): Option<string> {
    if k in st.data && st.data[k].Str? then Some(st.data[k].text) else None
  }

  /** SET: overwrites the value and clears any expiry. */
  function SetString(st: Store, k: Key, v: string): Store {
    st.(data := st.data[k := Str(v)], ttl := st.ttl - {k})
  }

  /** SMEMBERS as a set; a missing key is the empty set. */
  function SMembers(st: Store, k: Key): set<string> {
    if k in st.data && st.data[k].Members? then st.data[k].elems else {}
  }

  /** SADD of one member. */
  function SAdd(st: Store, k: Key, m: string): Store {
    st.(data := st.data[k := Members(SMembers(st, k) + {m})])
  }

  /** SREM of one member; the key goes away with its last member. */
  function SRem(st: Store, k: Key, m: string): Store {
    var rest := SMembers(st, k) - {m};
    if rest == {} then Del(st, k) else st.(data := st.data[k := Members(rest)])
  }

  /** DEL of one key, with its expiry. */
  function Del(st: Store, k: Key): Store {
    st.(data := st.data - {k}, ttl := st.ttl - {k})
  }

  /** DEL of each key of a set. */
  function DelAll(st: Store, ks: set<Key>): Store {
    st.(data := st.data - ks, ttl := st.ttl - ks)
  }

  /** EXPIRE on each key of a set; a missing key is left alone. */
  function ExpireAll(st: Store, ks: set<Key>, seconds: nat): Store {
    st.(ttl := map k | k in st.ttl.Keys + (ks * st.data.Keys) :: if k in ks then seconds else st.ttl[k])
  }

  /** TTL: -2 for a missing key, -1 for a key without expiry. */
  function TtlOf(st: Store, k: Key): int {
    if k !in st.data then -2 else if k !in st.ttl then -1 else st.ttl[k]
  }

  /** HGETALL; a missing key is the empty hash. */
  function HGetAll(st: Store, k: Key): map<string, string> {
    if k in st.data && st.data[k].Fields? then st.data[k].fields else map[]
  }

  /** HGET: one field, or nil. */
  function HGet(st: Store, k: Key, f: string): Option<string> {
    var h := HGetAll(st, k);
    if f in h then Some(h[f]) else None
  }

  /** HMSET: writes every given field, keeping the others. */
  function HMSet(st: Store, k: Key, fields: map<string, string>): Store {
    st.(data := st.data[k := Fields(HGetAll(st, k) + fields)])
  }

  /** HSET of one field. */
  function HSet(st: Store, k: Key, f: string, v: string): Store {
    st.(data := st.data[k := Fields(HGetAll(st, k)[f := v])])
  }

  /** HINCRBY: a missing field counts as 0. */
  function HIncrBy(st: Store, k: Key, f: string, delta: int): Store {
    HSet(st, k, f, IntToString(NilToI(HGet(st, k, f)) + delta))
  }

  /** INCR on the id counter; the new value is `counter` of the result. */
  function Incr(st: Store): Store {
    st.(counter := st.counter + 1)
  }

  /** RENAME: fails (None) when `src` is missing; otherwise `dst` is
      overwritten by the value and expiry of `src`, and `src` goes away. */
  function Rename(st: Store, src: Key, dst: Key): Option<Store> {
    if src !in st.data then None
    else
      var ttl := st.ttl - {src, dst};
      Some(Store((st.data - {src})[dst := st.data[src]],
                 if src in st.ttl then ttl[dst := st.ttl[src]] else ttl,
                 st.counter))
  }

  /** `KEYS cartman:cart:<uid>:index:*`: the detail keys of a cart (see
      KeySpace.KeysPatternMatchesDetailKeys). */
  function DetailKeysOf(st: Store, uid: string): set<Key> {
    set k | k in st.data && k.DetailKey? && k.uid == uid
  }

  /** A rename moves the value and leaves every other key as it was. */
  lemma RenameMoves(st: Store, src: Key, dst: Key)
    requires src in st.data
    ensures Rename(st, src, dst).Some?
    ensures var r := Rename(st, src, dst).value;
      && r.data.Keys == st.data.Keys - {src} + {dst}
      && r.data[dst] == st.data[src]
      && (forall k :: k in st.data && k != src && k != dst ==> r.data[k] == st.data[k])
      && r.counter == st.counter
  {
  }

  /** RENAME keeps the store well typed when source and destination hold
      the same kind of value. */
  lemma RenamePreservesWellTyped(st: Store, src: Key, dst: Key)
    requires WellTyped(st) && src in st.data
    requires KindOk(dst, st.data[src])
    ensures WellTyped(Rename(st, src, dst).value)
  {
  }
}
