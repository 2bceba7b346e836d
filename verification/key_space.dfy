/** The cart's key-space: every Redis key the cart touches, as a structured
    value, and the string each one renders to (`key`, `index_key`,
    `index_key_for`, `versions_key` and the line-item key builders of
    lib/cartman/cart.rb). The store model is keyed by the structured value;
    the lemmas here say when that is faithful to Redis, which only sees the
    rendered strings. */
module KeySpace {

  datatype Key =
    | CartKey(uid: string)                                           // cartman:cart:<uid>
    | IndexKey(uid: string)                                          // cartman:cart:<uid>:index
    | DetailKey(uid: string, productType: string, productId: string) // cartman:cart:<uid>:index:<type>:<id>
    | LineItemKey(lineId: string)                                    // cartman:line_item:<n>
    | CounterKey                                                     // cartman:line_item:id
    | VersionsKey                                                    // cartman:cart:versions
    | BlankKey                                                       // the empty name, sent for a nil key

  /** `key(id)`: the membership set of line-item ids. */
  function CartKeyName(uid: string): string {
    "cartman:cart:" + uid
  }

  /** `index_key(id)`: the set of `type:id` tokens. */
  function IndexKeyName(uid: string): string {
    CartKeyName(uid) + ":index"
  }

  /** `index_key_for(object, id)`: the detail key holding one line-item id. */
  function IndexKeyForName(uid: string, productType: string, productId: string): string {
    IndexKeyName(uid) + ":" + productType + ":" + productId
  }

  /** `"cartman:line_item:#{id}"`. */
  function LineItemKeyName(lineId: string): string {
    "cartman:line_item:" + lineId
  }

  /** `CART_LINE_ITEM_ID_KEY`. */
  const CounterKeyName: string := "cartman:line_item:id"

  /** `Cart.versions_key`. */
  const VersionsKeyName: string := "cartman:cart:versions"

  /** The index-set member `"#{type}:#{id}"`. */
  function Token(productType: string, productId: string): string {
    productType + ":" + productId
  }

  /** The string Redis sees for a structured key. */
  function Render(k: Key): string {
    match k
    case CartKey(u) => CartKeyName(u)
    case IndexKey(u) => IndexKeyName(u)
    case DetailKey(u, t, p) => IndexKeyForName(u, t, p)
    case LineItemKey(n) => LineItemKeyName(n)
    case CounterKey => CounterKeyName
    case VersionsKey => VersionsKeyName
    case BlankKey => ""
  }

  predicate NoColon(s: string) {
    ':' !in s
  }

  /** The conditions under which a key's rendering cannot be confused with
      another key's: no `:` inside any interpolated part, a cart uid other
      than `versions`, and a line-item id other than `id`. */
  predicate KeyOk(k: Key) {
    match k
    case CartKey(u) => NoColon(u) && u != "versions"
    case IndexKey(u) => NoColon(u)
    case DetailKey(u, t, p) => NoColon(u) && NoColon(t) && NoColon(p)
    case LineItemKey(n) => NoColon(n) && n != "id"
    case CounterKey => true
    case VersionsKey => true
    case BlankKey => true
  }

  /** The `:`-separated parts of a rendered key. */
  function Segments(k: Key): seq<string> {
    match k
    case CartKey(u) => ["cartman", "cart", u]
    case IndexKey(u) => ["cartman", "cart", u, "index"]
    case DetailKey(u, t, p) => ["cartman", "cart", u, "index", t, p]
    case LineItemKey(n) => ["cartman", "line_item", n]
    case CounterKey => ["cartman", "line_item", "id"]
    case VersionsKey => ["cartman", "cart", "versions"]
    case BlankKey => [""]
  }

  function Join(segs: seq<string>): string
    requires |segs| > 0
  {
    if |segs| == 1 then segs[0] else segs[0] + ":" + Join(segs[1..])
  }

  /** Position of the first `:` in a string that has one. */
  function FirstColon(s: string): (i: nat)
    requires ':' in s
    ensures i < |s| && s[i] == ':' && ':' !in s[..i]
  {
    if s[0] == ':' then 0 else 1 + FirstColon(s[1..])
  }

  /** Cuts a string at every `:`. */
  function Split(s: string): (r: seq<string>)
    ensures |r| > 0
    decreases |s|
  {
    if ':' in s then
      var i := FirstColon(s);
      [s[..i]] + Split(s[i + 1..])
    else [s]
  }

  /** The type part of an index token: everything before the first `:`. */
  function TokenType(tok: string): string {
    if ':' in tok then tok[..FirstColon(tok)] else tok
  }

  /** The product-id part of an index token: everything after the first `:`. */
  function TokenProductId(tok: string): string {
    if ':' in tok then tok[FirstColon(tok) + 1..] else ""
  }

  lemma FirstColonAfter(x: string, rest: string)
    requires NoColon(x)
    ensures ':' in x + ":" + rest
    ensures FirstColon(x + ":" + rest) == |x|
  {
    var s := x + ":" + rest;
    assert s[|x|] == ':';
    if |x| > 0 {
      assert s[1..] == x[1..] + ":" + rest;
      FirstColonAfter(x[1..], rest);
    }
  }

  /** A token whose type has no `:` splits back into its type and id. */
  lemma TokenRoundTrip(productType: string, productId: string)
    requires NoColon(productType)
    ensures TokenType(Token(productType, productId)) == productType
    ensures TokenProductId(Token(productType, productId)) == productId
  {
    var tok := Token(productType, productId);
    FirstColonAfter(productType, productId);
    assert tok[..|productType|] == productType;
    assert tok[|productType| + 1..] == productId;
  }

  lemma TokenInjective(t1: string, p1: string, t2: string, p2: string)
    requires NoColon(t1) && NoColon(t2)
    requires Token(t1, p1) == Token(t2, p2)
    ensures t1 == t2 && p1 == p2
  {
    TokenRoundTrip(t1, p1);
    TokenRoundTrip(t2, p2);
  }

  /** Splitting at a first part free of `:` peels that part off. */
  lemma SplitAfterColonFree(x: string, tail: string)
    requires NoColon(x)
    ensures Split(x + ":" + tail) == [x] + Split(tail)
  {
    var s := x + ":" + tail;
    FirstColonAfter(x, tail);
    assert s[..|x|] == x;
    assert s[|x| + 1..] == tail;
  }

  lemma JoinThenUnfold(segs: seq<string>, rest: string)
    requires |segs| > 1
    ensures Join(segs) + ":" + rest == segs[0] + ":" + (Join(segs[1..]) + ":" + rest)
  {
  }

  lemma ConsThenAppend<T>(segs: seq<T>, whole: seq<T>, tail: seq<T>, rest: seq<T>)
    requires |segs| > 0
    requires whole == [segs[0]] + tail && tail == segs[1..] + rest
    ensures whole == segs + rest
  {
    assert segs == [segs[0]] + segs[1..];
  }

  /** One step of `SplitJoinThen`: a colon-free head part splits off in
      front of the split of the rest. */
  lemma SplitJoinStep(segs: seq<string>, rest: string)
    requires |segs| > 1 && NoColon(segs[0])
    requires Split(Join(segs[1..]) + ":" + rest) == segs[1..] + Split(rest)
    ensures Split(Join(segs) + ":" + rest) == segs + Split(rest)
  {
    var tail := Join(segs[1..]) + ":" + rest;
    JoinThenUnfold(segs, rest);
    SplitAfterColonFree(segs[0], tail);
    ConsThenAppend(segs, Split(Join(segs) + ":" + rest), Split(tail), Split(rest));
  }

  /** Splitting a joined list of colon-free parts followed by `:rest` gives
      the parts back, then the parts of `rest`. */
  lemma {:induction false} SplitJoinThen(segs: seq<string>, rest: string)
    requires |segs| > 0
    requires forall i :: 0 <= i < |segs| ==> NoColon(segs[i])
    ensures Split(Join(segs) + ":" + rest) == segs + Split(rest)
  {
    assert NoColon(segs[0]);
    if |segs| == 1 {
      assert Join(segs) == segs[0] && segs == [segs[0]];
      SplitAfterColonFree(segs[0], rest);
    } else {
      SplitJoinThen(segs[1..], rest);
      SplitJoinStep(segs, rest);
    }
  }

  lemma {:induction false} SplitJoin(segs: seq<string>)
    requires |segs| > 0
    requires forall i :: 0 <= i < |segs| ==> NoColon(segs[i])
    ensures Split(Join(segs)) == segs
  {
    if |segs| > 1 {
      SplitJoinThen([segs[0]], Join(segs[1..]));
      SplitJoin(segs[1..]);
      assert segs == [segs[0]] + segs[1..];
    }
  }

  lemma JoinCons(x: string, rest: seq<string>)
    requires |rest| > 0
    ensures Join([x] + rest) == x + ":" + Join(rest)
  {
    assert ([x] + rest)[1..] == rest;
  }

  lemma JoinOfIndexParts(u: string)
    ensures Join(["cartman", "cart", u, "index"]) == IndexKeyName(u)
  {
    JoinCons(u, ["index"]);
    JoinCons("cart", [u, "index"]);
    JoinCons("cartman", ["cart", u, "index"]);
  }

  lemma JoinOfDetailParts(u: string, t: string, p: string)
    ensures Join(["cartman", "cart", u, "index", t, p]) == IndexKeyForName(u, t, p)
  {
    JoinCons(t, [p]);
    JoinCons("index", [t, p]);
    assert ["cartman", "cart", u, "index", t, p] == ["cartman", "cart", u, "index"] + [t, p];
    JoinAppend(["cartman", "cart", u, "index"], [t, p]);
    JoinOfIndexParts(u);
  }

  lemma {:induction false} JoinAppend(a: seq<string>, b: seq<string>)
    requires |a| > 0 && |b| > 0
    ensures Join(a + b) == Join(a) + ":" + Join(b)
  {
    if |a| > 1 {
      assert (a + b)[1..] == a[1..] + b;
      JoinAppend(a[1..], b);
    } else {
      JoinCons(a[0], b);
      assert a + b == [a[0]] + b;
    }
  }

  lemma JoinOfThree(x: string, y: string, z: string)
    ensures Join([x, y, z]) == x + ":" + y + ":" + z
  {
    JoinCons(y, [z]);
    JoinCons(x, [y, z]);
  }

  lemma JoinOfCartParts(u: string)
    ensures Join(["cartman", "cart", u]) == CartKeyName(u)
  {
    JoinOfThree("cartman", "cart", u);
    assert "cartman" + ":" + "cart" + ":" == "cartman:cart:";
  }

  lemma JoinOfLineItemParts(n: string)
    ensures Join(["cartman", "line_item", n]) == LineItemKeyName(n)
  {
    JoinOfThree("cartman", "line_item", n);
    assert "cartman" + ":" + "line_item" + ":" == "cartman:line_item:";
  }

  /** Rendering a key joins its parts with `:`. */
  lemma RenderIsJoin(k: Key)
    ensures Render(k) == Join(Segments(k))
  {
    match k
    case CartKey(u) => JoinOfCartParts(u);
    case IndexKey(u) => JoinOfIndexParts(u);
    case DetailKey(u, t, p) => JoinOfDetailParts(u, t, p);
    case LineItemKey(n) => JoinOfLineItemParts(n);
    case CounterKey => JoinOfLineItemParts("id");
    case VersionsKey => JoinOfCartParts("versions");
    case BlankKey =>
  }

  lemma SegmentsColonFree(k: Key)
    requires KeyOk(k)
    ensures forall i :: 0 <= i < |Segments(k)| ==> NoColon(Segments(k)[i])
  {
  }

  /** Under `KeyOk`, a rendered key splits back into its parts. */
  lemma SegmentsOfRendering(k: Key) returns (segs: seq<string>)
    requires KeyOk(k)
    ensures segs == Segments(k) == Split(Render(k))
  {
    RenderIsJoin(k);
    SegmentsColonFree(k);
    SplitJoin(Segments(k));
    segs := Segments(k);
  }

  /** Under `KeyOk`, two keys with the same rendering are the same key: the
      structured store then agrees with Redis's flat key-space. */
  lemma RenderInjective(k1: Key, k2: Key)
    requires KeyOk(k1) && KeyOk(k2)
    requires Render(k1) == Render(k2)
    ensures k1 == k2
  {
    var s1 := SegmentsOfRendering(k1);
    var s2 := SegmentsOfRendering(k2);
    assert s1 == s2;
    assert "cart" != "line_item";
    match k1
    case CartKey(u) =>
      assert s2[1] == "cart" && s2[2] == u && |s2| == 3;
    case LineItemKey(n) =>
      assert s2[1] == "line_item" && s2[2] == n && |s2| == 3;
    case _ =>
  }

  /** A uid called `versions` puts its membership set on the versions hash. */
  lemma VersionsUidCollides()
    ensures Render(CartKey("versions")) == Render(VersionsKey)
    ensures CartKey("versions") != VersionsKey
  {
  }

  /** A `:` inside the product type lets two products share a detail key. */
  lemma ColonInTypeCollides()
    ensures Render(DetailKey("1", "a:b", "c")) == Render(DetailKey("1", "a", "b:c"))
    ensures Token("a:b", "c") == Token("a", "b:c")
  {
  }

  /** A `:` inside the uid lets a cart's set land on another cart's index. */
  lemma ColonInUidCollides()
    ensures Render(CartKey("1:index")) == Render(IndexKey("1"))
  {
  }

  /** A line-item id `id` would be the id counter. */
  lemma LineIdCollidesWithCounter()
    ensures Render(LineItemKey("id")) == Render(CounterKey)
  {
  }

  /** `KEYS cartman:cart:<uid>:index:*` matches exactly the detail keys of
      that uid, among keys whose rendering is unambiguous. */
  lemma KeysPatternMatchesDetailKeys(uid: string, k: Key, rest: string)
    requires NoColon(uid) && KeyOk(k)
    requires Render(k) == IndexKeyName(uid) + ":" + rest
    ensures k.DetailKey? && k.uid == uid
  {
    var pre := ["cartman", "cart", uid, "index"];
    JoinOfIndexParts(uid);
    SplitJoinThen(pre, rest);
    var segs := SegmentsOfRendering(k);
    assert segs == pre + Split(rest);
    assert |segs| >= 5 && segs[2] == uid;
  }

  lemma DetailKeyMatchesKeysPattern(uid: string, productType: string, productId: string)
    ensures Render(DetailKey(uid, productType, productId))
         == IndexKeyName(uid) + ":" + (productType + ":" + productId)
  {
  }
}
