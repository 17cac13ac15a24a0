/** Merging a guest cart into a customer's cart: a keyed, saturating, order-independent transaction. */
module CartMerge {
  import opened Basics
  import opened SortedLists
  import opened Tables

  datatype MergeItem = MergeItem(product: nat, quantity: int)

  const MAX_QUANTITY := 1000

  /** The gate in front of the merge: every quantity lies between 1 and 1000. */
  predicate ValidItems(items: seq<MergeItem>) {
    forall i | 0 <= i < |items| :: 1 <= items[i].quantity <= MAX_QUANTITY
  }

  function QuantityOf(p: nat): MergeItem -> int {
    (i: MergeItem) => if i.product == p then i.quantity else 0
  }

  function Products(items: seq<MergeItem>): set<nat> {
    set i | 0 <= i < |items| :: items[i].product
  }

  function Min(a: int, b: int): int {
    if a < b then a else b
  }

  /** What the guest cart asks for: the sum per product, at most 1000. */
  function Aggregate(items: seq<MergeItem>, p: nat): int {
    Min(MAX_QUANTITY, Sum(items, QuantityOf(p)))
  }

  function Wanted(products: seq<Product>, cart: map<CartKey, int>, user: nat, items: seq<MergeItem>, p: nat): int
    requires p < |products|
  {
    Min(products[p].stock, CartQuantity(cart, user, p) + Aggregate(items, p))
  }

  /** Whether a merge of the products in ids writes row k. */
  predicate Writes(products: seq<Product>, cart: map<CartKey, int>, user: nat, items: seq<MergeItem>, ids: set<nat>,
                   k: CartKey)
  {
    k.user == user && k.product in ids && k.product < |products| && Wanted(products, cart, user, items, k.product) > 0
  }

  /** The cart after a merge of the products in ids. */
  function MergedCart(products: seq<Product>, cart: map<CartKey, int>, user: nat, items: seq<MergeItem>,
                      ids: set<nat>): (merged: map<CartKey, int>)
    ensures forall k :: k in merged <==> k in cart || Writes(products, cart, user, items, ids, k)
  {
    map k | k in cart.Keys + (set p | p in ids :: CartKey(user, p))
            && (k in cart || Writes(products, cart, user, items, ids, k))
      :: if Writes(products, cart, user, items, ids, k) then Wanted(products, cart, user, items, k.product) else cart[k]
  }

  /** The warning, if any, that product p gives rise to. */
  function WarningFor(products: seq<Product>, cart: map<CartKey, int>, user: nat, items: seq<MergeItem>, p: nat)
    : seq<Warning>
  {
    if p >= |products| then [ProductMissing]
    else if CartQuantity(cart, user, p) + Aggregate(items, p) > products[p].stock then [ClampedToStock(products[p].name)]
    else []
  }

  function Warnings(products: seq<Product>, cart: map<CartKey, int>, user: nat, items: seq<MergeItem>,
                    ids: seq<nat>): seq<Warning>
  {
    if ids == [] then []
    else Warnings(products, cart, user, items, ids[..|ids| - 1])
         + WarningFor(products, cart, user, items, ids[|ids| - 1])
  }

  // ----- ascending product ids

  function Id(): nat -> int {
    (x: nat) => x
  }

  predicate Ascending(ids: seq<nat>) {
    AscendingBy(ids, Id())
  }

  /** The ascending listing of a finite set of products. */
  ghost function SortedIds(ids: set<nat>): (r: seq<nat>)
    ensures Ascending(r)
    ensures forall x :: x in r <==> x in ids
  {
    if ids == {} then []
    else
      var x :| x in ids;
      InsertBy(SortedIds(ids - {x}), x, Id())
  }

  // ----- what the merge promises

  /** Capping after each addition, as the loop does, is the same as capping the sum. */
  lemma CappedStep(items: seq<MergeItem>, i: nat, p: nat)
    requires i < |items| && ValidItems(items)
    ensures Aggregate(items[..i + 1], p)
            == Min(MAX_QUANTITY, Aggregate(items[..i], p) + (if items[i].product == p then items[i].quantity else 0))
  {
    assert items[..i + 1] == items[..i] + [items[i]];
    SumAppend(items[..i], items[i], QuantityOf(p));
  }

  lemma AggregateOfOthers(items: seq<MergeItem>, p: nat)
    requires p !in Products(items)
    ensures Aggregate(items, p) == 0
  {
    forall i | 0 <= i < |items| ensures QuantityOf(p)(items[i]) == 0 {
      assert items[i].product in Products(items);
    }
    SumZero(items, QuantityOf(p));
  }

  lemma AggregateIsPositive(items: seq<MergeItem>, p: nat)
    requires ValidItems(items) && p in Products(items)
    ensures 1 <= Aggregate(items, p) <= MAX_QUANTITY
  {
    var i :| 0 <= i < |items| && items[i].product == p;
    SumNonNegative(items, QuantityOf(p));
    assert QuantityOf(p)(items[i]) >= 1;
  }

  lemma RemovingAMember<T>(s: seq<T>, x: T) returns (rest: seq<T>, i: nat)
    requires x in multiset(s)
    ensures i < |s| && s[i] == x && rest == s[..i] + s[i + 1..]
    ensures multiset(rest) == multiset(s) - multiset{x}
  {
    i :| 0 <= i < |s| && s[i] == x;
    rest := s[..i] + s[i + 1..];
    assert s == s[..i] + [x] + s[i + 1..];
  }

  /** Sums do not depend on the order of their terms. */
  lemma {:induction false} SumOfPermutation<T>(s: seq<T>, t: seq<T>, f: T -> int)
    requires multiset(s) == multiset(t)
    ensures Sum(s, f) == Sum(t, f)
    decreases |s|
  {
    if s == [] {
      assert |multiset(t)| == 0;
    } else {
      var last, init := s[|s| - 1], s[..|s| - 1];
      assert s == init + [last];
      assert multiset(init) == multiset(s) - multiset{last};
      var rest, i := RemovingAMember(t, last);
      SumOfPermutation(init, rest, f);
      RemovingATerm(t, i, f);
    }
  }

  lemma {:induction false} RemovingATerm<T>(t: seq<T>, i: nat, f: T -> int)
    requires i < |t|
    ensures Sum(t, f) == Sum(t[..i] + t[i + 1..], f) + f(t[i])
    decreases |t|
  {
    var n := |t| - 1;
    if i == n {
      assert t[..i] + t[i + 1..] == t[..n];
    } else {
      RemovingATerm(t[..n], i, f);
      assert t[..n][..i] + t[..n][i + 1..] + [t[n]] == t[..i] + t[i + 1..];
      SumAppend(t[..n][..i] + t[..n][i + 1..], t[n], f);
    }
  }

  lemma SameCart(products: seq<Product>, cart: map<CartKey, int>, user: nat,
                 a: seq<MergeItem>, b: seq<MergeItem>, ids: set<nat>)
    requires forall p: nat :: Aggregate(a, p) == Aggregate(b, p)
    ensures MergedCart(products, cart, user, a, ids) == MergedCart(products, cart, user, b, ids)
  {
    forall p | p in ids && p < |products|
      ensures Wanted(products, cart, user, a, p) == Wanted(products, cart, user, b, p)
    {
      assert Aggregate(a, p) == Aggregate(b, p);
    }
  }

  /** Two guest carts with the same items, in whatever order, merge alike and warn alike. */
  lemma MergeDependsOnlyOnTheItems(products: seq<Product>, cart: map<CartKey, int>, user: nat,
                                   a: seq<MergeItem>, b: seq<MergeItem>)
    requires multiset(a) == multiset(b)
    ensures Products(a) == Products(b)
    ensures MergedCart(products, cart, user, a, Products(a)) == MergedCart(products, cart, user, b, Products(b))
    ensures Warnings(products, cart, user, a, SortedIds(Products(a)))
            == Warnings(products, cart, user, b, SortedIds(Products(b)))
  {
    SameProducts(a, b);
    SameProducts(b, a);
    forall p: nat ensures Aggregate(a, p) == Aggregate(b, p) {
      SumOfPermutation(a, b, QuantityOf(p));
    }
    SameCart(products, cart, user, a, b, Products(a));
    SameWarnings(products, cart, user, a, b, SortedIds(Products(a)));
  }

  lemma SameProducts(a: seq<MergeItem>, b: seq<MergeItem>)
    requires multiset(a) == multiset(b)
    ensures Products(a) <= Products(b)
  {
    forall i | 0 <= i < |a| ensures a[i].product in Products(b) {
      assert a[i] in multiset(a);
      assert a[i] in b;
    }
  }

  lemma {:induction false} SameWarnings(products: seq<Product>, cart: map<CartKey, int>, user: nat,
                                        a: seq<MergeItem>, b: seq<MergeItem>, ids: seq<nat>)
    requires forall p: nat :: Aggregate(a, p) == Aggregate(b, p)
    ensures Warnings(products, cart, user, a, ids) == Warnings(products, cart, user, b, ids)
  {
    if ids != [] {
      SameWarnings(products, cart, user, a, b, ids[..|ids| - 1]);
    }
  }

  /**
   * Every merged product in stock ends at min(stock, current + min(1000, sum)); every other row of
   * the cart, and the row of a product out of stock, stays as it was.
   */
  lemma MergeOutcome(products: seq<Product>, cart: map<CartKey, int>, user: nat, items: seq<MergeItem>, k: CartKey)
    requires ValidItems(items) && forall c | c in cart :: 0 < cart[c]
    ensures var after := MergedCart(products, cart, user, items, Products(items));
            if k.user == user && k.product in Products(items) && k.product < |products|
               && products[k.product].stock > 0
            then k in after && after[k] == Min(products[k.product].stock,
                                               CartQuantity(cart, user, k.product) + Aggregate(items, k.product))
            else (k in after <==> k in cart) && (k in cart ==> after[k] == cart[k])
  {
    if k.product in Products(items) {
      AggregateIsPositive(items, k.product);
    }
  }

  // ----- merging one product after another

  /** The first i products of the list. */
  ghost function FirstIds(ids: seq<nat>, i: nat): set<nat>
    requires i <= |ids|
  {
    set j | 0 <= j < i :: ids[j]
  }

  lemma FirstIdsGrow(ids: seq<nat>, i: nat)
    requires i < |ids| && Ascending(ids)
    ensures FirstIds(ids, i + 1) == FirstIds(ids, i) + {ids[i]}
    ensures ids[i] !in FirstIds(ids, i)
  {
  }

  lemma MergingOneMore(products: seq<Product>, cart: map<CartKey, int>, user: nat, items: seq<MergeItem>,
                       ids: set<nat>, p: nat)
    requires p !in ids
    ensures var before := MergedCart(products, cart, user, items, ids);
            && CartQuantity(before, user, p) == CartQuantity(cart, user, p)
            && MergedCart(products, cart, user, items, ids + {p})
               == if p < |products| && Wanted(products, cart, user, items, p) > 0
                  then before[CartKey(user, p) := Wanted(products, cart, user, items, p)] else before
  {
  }

  /** Merging a quantity of one product into a cart: the cart and the warning, if any. */
  function MergeOne(products: seq<Product>, cart: map<CartKey, int>, user: nat, p: nat, quantity: int)
    : (map<CartKey, int>, seq<Warning>)
  {
    if p >= |products| then (cart, [ProductMissing])
    else
      var sum := CartQuantity(cart, user, p) + quantity;
      var wanted := Min(products[p].stock, sum);
      (if wanted > 0 then cart[CartKey(user, p) := wanted] else cart,
       if sum > products[p].stock then [ClampedToStock(products[p].name)] else [])
  }

  /** One round of the merge loop: product ids[i] after the ids before it. */
  lemma MergeRound(products: seq<Product>, cart: map<CartKey, int>, user: nat, items: seq<MergeItem>, ids: seq<nat>, i: nat)
    requires i < |ids| && Ascending(ids)
    ensures MergeOne(products, MergedCart(products, cart, user, items, FirstIds(ids, i)), user, ids[i],
                     Aggregate(items, ids[i]))
            == (MergedCart(products, cart, user, items, FirstIds(ids, i + 1)),
                WarningFor(products, cart, user, items, ids[i]))
  {
    FirstIdsGrow(ids, i);
    MergingOneMore(products, cart, user, items, FirstIds(ids, i), ids[i]);
  }

  lemma WarningsGrow(products: seq<Product>, cart: map<CartKey, int>, user: nat, items: seq<MergeItem>, ids: seq<nat>, i: nat)
    requires i < |ids|
    ensures Warnings(products, cart, user, items, ids[..i + 1])
            == Warnings(products, cart, user, items, ids[..i]) + WarningFor(products, cart, user, items, ids[i])
  {
    assert ids[..i + 1][..i] == ids[..i];
  }

  // ----- the loops

  /** The aggregation loop over the posted items. */
  method AggregateItems(items: seq<MergeItem>) returns (quantities: map<nat, int>)
    requires ValidItems(items)
    ensures quantities.Keys == Products(items)
    ensures forall p | p in quantities :: quantities[p] == Aggregate(items, p)
  {
    quantities := map[];
    for i := 0 to |items|
      invariant quantities.Keys == Products(items[..i])
      invariant forall p | p in quantities :: quantities[p] == Aggregate(items[..i], p)
    {
      var p := items[i].product;
      assert Products(items[..i + 1]) == Products(items[..i]) + {p} by {
        assert items[..i + 1] == items[..i] + [items[i]];
        assert items[..i + 1][i] == items[i];
        assert forall j | 0 <= j < i :: items[..i + 1][j] == items[..i][j];
      }
      forall q: nat ensures Aggregate(items[..i + 1], q)
        == Min(MAX_QUANTITY, Aggregate(items[..i], q) + (if items[i].product == q then items[i].quantity else 0))
      {
        CappedStep(items, i, q);
      }
      if p !in quantities {
        AggregateOfOthers(items[..i], p);
      }
      var sum := (if p in quantities then quantities[p] else 0) + items[i].quantity;
      forall q | q in quantities ensures Aggregate(items[..i], q) <= MAX_QUANTITY {
      }
      quantities := quantities[p := if sum > MAX_QUANTITY then MAX_QUANTITY else sum];
    }
    assert items[..|items|] == items;
  }

  method SortIds(ids: set<nat>) returns (sorted: seq<nat>)
    ensures sorted == SortedIds(ids)
  {
    sorted := [];
    var rest := ids;
    while rest != {}
      invariant rest <= ids && Ascending(sorted)
      invariant forall x :: x in sorted <==> x in ids - rest
      decreases rest
    {
      var x :| x in rest;
      assert x !in sorted;
      sorted := InsertBy(sorted, x, Id());
      rest := rest - {x};
    }
    AscendingIsUnique(sorted, SortedIds(ids), Id());
  }
}
