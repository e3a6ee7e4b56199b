/** The cart's list rules: an ordered sequence of line items keyed by
    publication id, the updates `addItem`, `removeItem` and `updateQuantity`,
    and the two totals, which are left folds over the lines. */
module Cart {
  import opened Wrappers
  import opened Schema

  /** What `addItem` receives: a cart item without its quantity. */
  datatype NewItem = NewItem(publicationId: string, title: string, imageUrl: string, monthlyPrice: nat)

  predicate HasId(items: seq<CartItem>, id: string)
  {
    exists k :: 0 <= k < |items| && items[k].publicationId == id
  }

  predicate UniqueIds(items: seq<CartItem>)
  {
    forall j, k :: 0 <= j < k < |items| ==> items[j].publicationId != items[k].publicationId
  }

  predicate AllPositive(items: seq<CartItem>)
  {
    forall k :: 0 <= k < |items| ==> items[k].quantity >= 1
  }

  /** The cart invariant: at most one line per publication and no line with a quantity below 1. */
  predicate Valid(items: seq<CartItem>)
  {
    UniqueIds(items) && AllPositive(items)
  }

  /** Where `items.find(i => i.publicationId === id)` stops: the first line with that id, or |items|. */
  function IndexOf(items: seq<CartItem>, id: string): (k: nat)
    ensures k <= |items|
    ensures forall j :: 0 <= j < k ==> items[j].publicationId != id
    ensures k < |items| ==> items[k].publicationId == id
    decreases |items|
  {
    if items == [] || items[0].publicationId == id then 0 else 1 + IndexOf(items[1..], id)
  }

  lemma IndexOfFound(items: seq<CartItem>, id: string)
    ensures HasId(items, id) <==> IndexOf(items, id) < |items|
  {
    if HasId(items, id) {
      var k :| 0 <= k < |items| && items[k].publicationId == id;
      assert IndexOf(items, id) <= k;
    }
  }

  lemma HasIdCons(items: seq<CartItem>, id: string)
    requires items != []
    ensures HasId(items, id) <==> items[0].publicationId == id || HasId(items[1..], id)
  {
    if HasId(items[1..], id) {
      var k :| 0 <= k < |items[1..]| && items[1..][k].publicationId == id;
      assert items[k + 1].publicationId == id;
    }
    if HasId(items, id) && items[0].publicationId != id {
      var k :| 0 <= k < |items| && items[k].publicationId == id;
      assert items[1..][k - 1].publicationId == id;
    }
  }

  /** A cart has unique ids exactly when its tail does and its first id is not in the tail. */
  lemma UniqueCons(items: seq<CartItem>)
    requires items != []
    ensures UniqueIds(items) <==> UniqueIds(items[1..]) && !HasId(items[1..], items[0].publicationId)
  {
    assert forall k :: 0 <= k < |items[1..]| ==> items[1..][k] == items[k + 1];
  }

  /** The quantity the cart holds for a publication: that of its first line, or
      0 when it has none. */
  function QuantityOf(items: seq<CartItem>, id: string): (q: int)
    ensures !HasId(items, id) ==> q == 0
  {
    var k := IndexOf(items, id);
    if k < |items| then items[k].quantity else 0
  }

  /** The number of lines with that id. */
  function CountOf(items: seq<CartItem>, id: string): nat
    decreases |items|
  {
    if items == [] then 0 else (if items[0].publicationId == id then 1 else 0) + CountOf(items[1..], id)
  }

  /** With unique ids, exactly one line holds each publication that is in the cart. */
  lemma {:induction false} CountOfUnique(items: seq<CartItem>, id: string)
    requires UniqueIds(items)
    ensures CountOf(items, id) == if HasId(items, id) then 1 else 0
    decreases |items|
  {
    if items != [] {
      UniqueCons(items);
      HasIdCons(items, id);
      CountOfUnique(items[1..], id);
    }
  }

  /** Two carts whose lines carry the same ids in the same order find an id at the same place. */
  lemma IndexOfSameIds(a: seq<CartItem>, b: seq<CartItem>, id: string)
    requires |a| == |b|
    requires forall k :: 0 <= k < |a| ==> a[k].publicationId == b[k].publicationId
    ensures IndexOf(a, id) == IndexOf(b, id)
  {
    var ka, kb := IndexOf(a, id), IndexOf(b, id);
    assert ka < |a| ==> b[ka].publicationId == id;
    assert kb < |b| ==> a[kb].publicationId == id;
  }

  /** The quantity of a publication in a cart with one more line at the end. */
  lemma QuantityOfAppend(items: seq<CartItem>, x: CartItem, id: string)
    ensures QuantityOf(items + [x], id) ==
      if HasId(items, id) then QuantityOf(items, id) else if x.publicationId == id then x.quantity else 0
  {
    var r := items + [x];
    IndexOfFound(items, id);
    var k, kr := IndexOf(items, id), IndexOf(r, id);
    assert forall j :: 0 <= j < |items| ==> r[j] == items[j];
    if k < |items| {
      assert r[k].publicationId == id;
      assert kr == k;
    } else if x.publicationId == id {
      assert r[|items|].publicationId == id;
      assert kr == |items|;
    } else {
      assert kr == |r|;
    }
  }

  /** With unique ids, the line that holds an id is the only one that does. */
  lemma OnlyAt(items: seq<CartItem>, id: string)
    requires UniqueIds(items) && HasId(items, id)
    ensures IndexOf(items, id) < |items|
    ensures forall j :: 0 <= j < |items| && j != IndexOf(items, id) ==> items[j].publicationId != id
  {
    IndexOfFound(items, id);
  }

  /** With unique ids, the id at position k is held neither before nor after it. */
  lemma NotElsewhere(items: seq<CartItem>, k: nat)
    requires UniqueIds(items) && k < |items|
    ensures !HasId(items[..k], items[k].publicationId)
    ensures !HasId(items[k + 1..], items[k].publicationId)
  {
    var before, after := items[..k], items[k + 1..];
    assert forall j :: 0 <= j < |before| ==> before[j] == items[j];
    assert forall j :: 0 <= j < |after| ==> after[j] == items[k + 1 + j];
  }

  // ---------------------------------------------------------------------------
  // addItem
  // ---------------------------------------------------------------------------

  /** A line with one more unit. */
  function Bump(line: CartItem): CartItem
  {
    line.(quantity := line.quantity + 1)
  }

  /** `prev.map(...)` in `addItem`: each line with that id gets one more unit; the others stay as they are. */
  function Increment(items: seq<CartItem>, id: string): (r: seq<CartItem>)
    ensures |r| == |items|
    ensures forall k :: 0 <= k < |items| ==>
      r[k] == if items[k].publicationId == id then Bump(items[k]) else items[k]
    decreases |items|
  {
    if items == [] then []
    else
      var head := if items[0].publicationId == id then Bump(items[0]) else items[0];
      [head] + Increment(items[1..], id)
  }

  /** `addItem`: when the publication is already in the cart, its line gets one
      more unit and nothing else changes (length, order, the other lines, the
      line's own price and title); otherwise a line with quantity 1 is appended. */
  function AddItem(items: seq<CartItem>, item: NewItem): (r: seq<CartItem>)
    ensures HasId(items, item.publicationId) ==>
      && |r| == |items|
      && forall k :: 0 <= k < |items| ==>
           r[k] == if items[k].publicationId == item.publicationId then Bump(items[k]) else items[k]
    ensures !HasId(items, item.publicationId) ==>
      r == items + [CartItem(item.publicationId, item.title, item.imageUrl, item.monthlyPrice, 1)]
  {
    IndexOfFound(items, item.publicationId);
    if IndexOf(items, item.publicationId) < |items| then Increment(items, item.publicationId)
    else items + [CartItem(item.publicationId, item.title, item.imageUrl, item.monthlyPrice, 1)]
  }

  /** Adding keeps the cart invariant. */
  lemma AddItemKeepsValid(items: seq<CartItem>, item: NewItem)
    requires Valid(items)
    ensures Valid(AddItem(items, item))
  {
    var r := AddItem(items, item);
    if HasId(items, item.publicationId) {
      assert forall k :: 0 <= k < |r| ==> r[k].publicationId == items[k].publicationId;
    }
  }

  /** After adding, the cart holds the added publication. */
  lemma HasIdAfterAdd(items: seq<CartItem>, item: NewItem)
    ensures HasId(AddItem(items, item), item.publicationId)
  {
    var r := AddItem(items, item);
    if HasId(items, item.publicationId) {
      var k :| 0 <= k < |items| && items[k].publicationId == item.publicationId;
      assert r[k].publicationId == item.publicationId;
    } else {
      assert r[|items|].publicationId == item.publicationId;
    }
  }

  /** With unique ids, adding raises the added publication's quantity by exactly 1
      (from 0 to 1 when it was absent) and leaves every other quantity as it was. */
  lemma AddItemQuantity(items: seq<CartItem>, item: NewItem)
    requires UniqueIds(items)
    ensures QuantityOf(AddItem(items, item), item.publicationId) == QuantityOf(items, item.publicationId) + 1
    ensures forall other :: other != item.publicationId ==>
      QuantityOf(AddItem(items, item), other) == QuantityOf(items, other)
  {
    var id := item.publicationId;
    var r := AddItem(items, item);
    IndexOfFound(items, id);
    if HasId(items, id) {
      forall other ensures IndexOf(r, other) == IndexOf(items, other) {
        IndexOfSameIds(r, items, other);
      }
    } else {
      forall other ensures QuantityOf(r, other) == (if other == id then 1 else QuantityOf(items, other)) {
        QuantityOfAppend(items, r[|items|], other);
        IndexOfFound(items, other);
      }
    }
  }

  /** `addItem` called n times with the same item; like a single call, it keeps the cart invariant. */
  function AddTimes(items: seq<CartItem>, item: NewItem, n: nat): (r: seq<CartItem>)
    ensures Valid(items) ==> Valid(r)
    decreases n
  {
    if n == 0 then items
    else
      var before := AddTimes(items, item, n - 1);
      ValidAfterAdd(before, item);
      AddItem(before, item)
  }

  /** `AddItemKeepsValid` for any cart, valid or not. */
  lemma ValidAfterAdd(items: seq<CartItem>, item: NewItem)
    ensures Valid(items) ==> Valid(AddItem(items, item))
  {
    if Valid(items) {
      AddItemKeepsValid(items, item);
    }
  }

  /** Adding raises the added publication's quantity (that of its first line)
      by exactly 1, whatever the cart. */
  lemma AddedQuantity(items: seq<CartItem>, item: NewItem)
    ensures QuantityOf(AddItem(items, item), item.publicationId) == QuantityOf(items, item.publicationId) + 1
  {
    var id := item.publicationId;
    var r := AddItem(items, item);
    IndexOfFound(items, id);
    if HasId(items, id) {
      IndexOfSameIds(r, items, id);
    } else {
      QuantityOfAppend(items, r[|items|], id);
    }
  }

  /** n calls of `addItem` raise the publication's quantity by n. */
  lemma {:induction false} AddTimesQuantity(items: seq<CartItem>, item: NewItem, n: nat)
    ensures QuantityOf(AddTimes(items, item, n), item.publicationId) == QuantityOf(items, item.publicationId) + n
    decreases n
  {
    if n > 0 {
      var before := AddTimes(items, item, n - 1);
      assert AddTimes(items, item, n) == AddItem(before, item);
      AddTimesQuantity(items, item, n - 1);
      AddedQuantity(before, item);
    }
  }

  /** A publication a valid cart holds a positive quantity of is held on exactly one line. */
  lemma HeldOnce(items: seq<CartItem>, id: string)
    requires Valid(items) && QuantityOf(items, id) >= 1
    ensures CountOf(items, id) == 1
  {
    IndexOfFound(items, id);
    CountOfUnique(items, id);
  }

  /** After at least one `addItem` with it, the publication is on exactly one line. */
  lemma AddTimesCount(items: seq<CartItem>, item: NewItem, n: nat)
    requires Valid(items) && n >= 1
    ensures CountOf(AddTimes(items, item, n), item.publicationId) == 1
  {
    AddTimesQuantity(items, item, n);
    var id := item.publicationId;
    IndexOfFound(items, id);
    assert QuantityOf(items, id) >= 0;
    HeldOnce(AddTimes(items, item, n), id);
  }

  // ---------------------------------------------------------------------------
  // removeItem
  // ---------------------------------------------------------------------------

  /** `prev.filter(i => i.publicationId !== id)`: the lines without that id, in their order. */
  function RemoveItem(items: seq<CartItem>, id: string): (r: seq<CartItem>)
    ensures |r| <= |items|
    ensures forall k :: 0 <= k < |r| ==> r[k].publicationId != id
    decreases |items|
  {
    if items == [] then []
    else (if items[0].publicationId == id then [] else [items[0]]) + RemoveItem(items[1..], id)
  }

  /** The lines left are exactly those of the cart without that id. */
  lemma {:induction false} RemoveItemMembers(items: seq<CartItem>, id: string)
    ensures forall x :: x in RemoveItem(items, id) <==> x in items && x.publicationId != id
    decreases |items|
  {
    if items != [] {
      RemoveItemMembers(items[1..], id);
      assert items == [items[0]] + items[1..];
    }
  }

  /** Filtering distributes over concatenation. */
  lemma {:induction false} RemoveAppend(a: seq<CartItem>, b: seq<CartItem>, id: string)
    ensures RemoveItem(a + b, id) == RemoveItem(a, id) + RemoveItem(b, id)
    decreases |a|
  {
    if a == [] {
      assert a + b == b;
    } else {
      assert (a + b)[0] == a[0];
      assert (a + b)[1..] == a[1..] + b;
      RemoveAppend(a[1..], b, id);
    }
  }

  /** Removing an id the cart does not hold changes nothing. */
  lemma {:induction false} RemoveAbsent(items: seq<CartItem>, id: string)
    requires !HasId(items, id)
    ensures RemoveItem(items, id) == items
    decreases |items|
  {
    if items != [] {
      HasIdCons(items, id);
      RemoveAbsent(items[1..], id);
      assert [items[0]] + items[1..] == items;
    }
  }

  /** Removing an id held by one line only leaves the lines around it. */
  lemma RemoveOnly(before: seq<CartItem>, x: CartItem, after: seq<CartItem>)
    requires !HasId(before, x.publicationId) && !HasId(after, x.publicationId)
    ensures RemoveItem(before + ([x] + after), x.publicationId) == before + after
  {
    var id := x.publicationId;
    RemoveAppend(before, [x] + after, id);
    RemoveAppend([x], after, id);
    RemoveSingle(x);
    RemoveAbsent(before, id);
    RemoveAbsent(after, id);
    assert RemoveItem([x] + after, id) == after;
  }

  lemma RemoveSingle(x: CartItem)
    ensures RemoveItem([x], x.publicationId) == []
  {
    assert [x][1..] == [];
  }

  /** With unique ids, removing the line at position k leaves exactly the lines
      before and after it, in their order. */
  lemma RemoveAt(items: seq<CartItem>, id: string, k: nat)
    requires UniqueIds(items)
    requires k < |items| && items[k].publicationId == id
    ensures RemoveItem(items, id) == items[..k] + items[k + 1..]
  {
    NotElsewhere(items, k);
    assert items == items[..k] + ([items[k]] + items[k + 1..]);
    RemoveOnly(items[..k], items[k], items[k + 1..]);
  }

  /** Removing keeps the cart invariant. */
  lemma {:induction false} RemoveItemKeepsValid(items: seq<CartItem>, id: string)
    requires Valid(items)
    ensures Valid(RemoveItem(items, id))
    decreases |items|
  {
    if items != [] {
      UniqueCons(items);
      var rest := RemoveItem(items[1..], id);
      RemoveItemKeepsValid(items[1..], id);
      var r := RemoveItem(items, id);
      RemoveItemMembers(items, id);
      RemoveItemMembers(items[1..], id);
      if items[0].publicationId != id {
        assert r == [items[0]] + rest;
        assert r[1..] == rest;
        forall k | 0 <= k < |rest| ensures rest[k].publicationId != items[0].publicationId {
          assert rest[k] in items[1..];
        }
        UniqueCons(r);
      }
      forall k | 0 <= k < |r| ensures r[k].quantity >= 1 {
        assert r[k] in items;
      }
    }
  }

  // ---------------------------------------------------------------------------
  // updateQuantity
  // ---------------------------------------------------------------------------

  /** A line with another quantity. */
  function WithQuantity(line: CartItem, quantity: int): CartItem
  {
    line.(quantity := quantity)
  }

  /** `prev.map(...)` in `updateQuantity`: each line with that id gets the new quantity. */
  function SetQuantity(items: seq<CartItem>, id: string, quantity: int): (r: seq<CartItem>)
    ensures |r| == |items|
    ensures forall k :: 0 <= k < |items| ==>
      r[k] == if items[k].publicationId == id then WithQuantity(items[k], quantity) else items[k]
    decreases |items|
  {
    if items == [] then []
    else
      var head := if items[0].publicationId == id then WithQuantity(items[0], quantity) else items[0];
      [head] + SetQuantity(items[1..], id, quantity)
  }

  /** `updateQuantity`: a quantity of zero or less is exactly `removeItem`; a
      positive one changes only the quantity of the matching line, keeping the
      length, the order and every other field. */
  function UpdateQuantity(items: seq<CartItem>, id: string, quantity: int): (r: seq<CartItem>)
    ensures quantity <= 0 ==> r == RemoveItem(items, id)
    ensures quantity > 0 ==>
      && |r| == |items|
      && forall k :: 0 <= k < |items| ==>
           r[k] == if items[k].publicationId == id then WithQuantity(items[k], quantity) else items[k]
  {
    if quantity <= 0 then RemoveItem(items, id) else SetQuantity(items, id, quantity)
  }

  /** Updating keeps the cart invariant, and updating an absent id changes nothing. */
  lemma UpdateQuantityKeepsValid(items: seq<CartItem>, id: string, quantity: int)
    requires Valid(items)
    ensures Valid(UpdateQuantity(items, id, quantity))
    ensures !HasId(items, id) ==> UpdateQuantity(items, id, quantity) == items
  {
    if quantity <= 0 {
      RemoveItemKeepsValid(items, id);
      if !HasId(items, id) { RemoveAbsent(items, id); }
    } else {
      var r := UpdateQuantity(items, id, quantity);
      assert forall k :: 0 <= k < |r| ==> r[k].publicationId == items[k].publicationId;
    }
  }

  /** With unique ids, a positive update sets that publication's quantity to the given value. */
  lemma UpdateQuantitySets(items: seq<CartItem>, id: string, quantity: int)
    requires UniqueIds(items) && HasId(items, id) && quantity > 0
    ensures QuantityOf(UpdateQuantity(items, id, quantity), id) == quantity
  {
    IndexOfSameIds(UpdateQuantity(items, id, quantity), items, id);
    IndexOfFound(items, id);
  }

  // ---------------------------------------------------------------------------
  // Totals
  // ---------------------------------------------------------------------------

  /** `items.reduce((sum, item) => sum + item.quantity, 0)`, folded from the
      left. With quantities of at least 1, every line counts at least once. */
  function TotalItems(items: seq<CartItem>): (n: int)
    ensures AllPositive(items) ==> n >= |items|
    decreases |items|
  {
    if items == [] then 0 else TotalItems(items[..|items| - 1]) + items[|items| - 1].quantity
  }

  /** The price of one line in cents: unit price times quantity. */
  function LinePrice(item: CartItem): int
  {
    item.monthlyPrice * item.quantity
  }

  /** `items.reduce((sum, item) => sum + price * item.quantity, 0)`, in cents.
      With quantities of at least 1 it is never negative. */
  function TotalPrice(items: seq<CartItem>): (p: int)
    ensures AllPositive(items) ==> p >= 0
    decreases |items|
  {
    if items == [] then 0 else TotalPrice(items[..|items| - 1]) + LinePrice(items[|items| - 1])
  }

  /** Both totals add up over a concatenation. */
  lemma {:induction false} TotalsAppend(a: seq<CartItem>, b: seq<CartItem>)
    ensures TotalItems(a + b) == TotalItems(a) + TotalItems(b)
    ensures TotalPrice(a + b) == TotalPrice(a) + TotalPrice(b)
    decreases |b|
  {
    if b == [] {
      assert a + b == a;
    } else {
      var b' := b[..|b| - 1];
      TotalsAppend(a, b');
      assert (a + b)[..|a + b| - 1] == a + b';
    }
  }

  lemma TotalsSingle(x: CartItem)
    ensures TotalItems([x]) == x.quantity && TotalPrice([x]) == LinePrice(x)
  {
    assert [x][..0] == [];
  }

  /** The totals of a cart split around position k: the line there counts once. */
  lemma TotalsAround(before: seq<CartItem>, x: CartItem, after: seq<CartItem>)
    ensures TotalItems(before + [x] + after) == TotalItems(before) + x.quantity + TotalItems(after)
    ensures TotalPrice(before + [x] + after) == TotalPrice(before) + LinePrice(x) + TotalPrice(after)
  {
    TotalsAppend(before + [x], after);
    TotalsAppend(before, [x]);
    TotalsSingle(x);
  }

  /** Taking out the line at position k takes one copy of it out of the multiset. */
  lemma RemoveOne(b: seq<CartItem>, k: nat)
    requires k < |b|
    ensures multiset(b[..k] + b[k + 1..]) == multiset(b) - multiset{b[k]}
  {
    SplitAt(b, k);
    assert multiset(b) == multiset(b[..k]) + multiset{b[k]} + multiset(b[k + 1..]);
  }

  /** The last line of a non-empty cart is one copy more than the rest. */
  lemma DropLast(a: seq<CartItem>)
    requires a != []
    ensures multiset(a[..|a| - 1]) == multiset(a) - multiset{a[|a| - 1]}
  {
    assert a == a[..|a| - 1] + [a[|a| - 1]];
  }

  /** The totals do not depend on the order of the lines, only on which lines there are. */
  lemma {:induction false} TotalsIgnoreOrder(a: seq<CartItem>, b: seq<CartItem>)
    requires multiset(a) == multiset(b)
    ensures TotalItems(a) == TotalItems(b) && TotalPrice(a) == TotalPrice(b)
    decreases |a|
  {
    if a != [] {
      var x := a[|a| - 1];
      var a' := a[..|a| - 1];
      DropLast(a);
      assert x in multiset(b);
      var k :| 0 <= k < |b| && b[k] == x;
      RemoveOne(b, k);
      TotalsIgnoreOrder(a', b[..k] + b[k + 1..]);
      TotalsAround(b[..k], x, b[k + 1..]);
      SplitAt(b, k);
      TotalsAppend(b[..k], b[k + 1..]);
    }
  }

  /** A cart that differs from another only at position k is the other with that line replaced. */
  lemma ReplacedAt(items: seq<CartItem>, r: seq<CartItem>, k: nat)
    requires |r| == |items| && k < |items|
    requires forall j :: 0 <= j < |items| && j != k ==> r[j] == items[j]
    ensures r == items[..k] + [r[k]] + items[k + 1..]
    ensures items == items[..k] + [items[k]] + items[k + 1..]
  {
  }

  lemma SplitAt(items: seq<CartItem>, k: nat)
    requires k < |items|
    ensures items == items[..k] + [items[k]] + items[k + 1..]
  {
  }

  /** One more unit costs one more unit price. */
  lemma BumpPrice(line: CartItem)
    ensures LinePrice(Bump(line)) == LinePrice(line) + line.monthlyPrice
  {
    assert line.monthlyPrice * (line.quantity + 1) == line.monthlyPrice * line.quantity + line.monthlyPrice;
  }

  /** With unique ids, adding a held publication replaces its line by one with one more unit. */
  lemma AddItemAt(items: seq<CartItem>, item: NewItem)
    requires UniqueIds(items) && HasId(items, item.publicationId)
    ensures var k := IndexOf(items, item.publicationId);
            k < |items| &&
            AddItem(items, item) == items[..k] + [Bump(items[k])] + items[k + 1..]
  {
    OnlyAt(items, item.publicationId);
    ReplacedAt(items, AddItem(items, item), IndexOf(items, item.publicationId));
  }

  /** With unique ids, adding raises the item total by 1 and the price total by
      the unit price of the publication's line: the price already in the cart
      when there is one, the added item's price otherwise. */
  lemma AddItemTotals(items: seq<CartItem>, item: NewItem)
    requires UniqueIds(items)
    ensures TotalItems(AddItem(items, item)) == TotalItems(items) + 1
    ensures var unit := if HasId(items, item.publicationId) then items[IndexOf(items, item.publicationId)].monthlyPrice
                        else item.monthlyPrice;
            TotalPrice(AddItem(items, item)) == TotalPrice(items) + unit
  {
    IndexOfFound(items, item.publicationId);
    if HasId(items, item.publicationId) {
      AddHeldTotals(items, item, IndexOf(items, item.publicationId));
    } else {
      var line := CartItem(item.publicationId, item.title, item.imageUrl, item.monthlyPrice, 1);
      TotalsAppend(items, [line]);
      TotalsSingle(line);
    }
  }

  lemma AddHeldTotals(items: seq<CartItem>, item: NewItem, k: nat)
    requires UniqueIds(items) && HasId(items, item.publicationId)
    requires k == IndexOf(items, item.publicationId) && k < |items|
    ensures TotalItems(AddItem(items, item)) == TotalItems(items) + 1
    ensures TotalPrice(AddItem(items, item)) == TotalPrice(items) + items[k].monthlyPrice
  {
    AddItemAt(items, item);
    var line := items[k];
    var before, after := items[..k], items[k + 1..];
    BumpPrice(line);
    TotalsAround(before, Bump(line), after);
    TotalsAround(before, line, after);
    SplitAt(items, k);
  }

  /** With unique ids, removing a publication lowers the item total by its
      quantity and the price total by its line's price; an absent id changes neither. */
  lemma RemoveItemTotals(items: seq<CartItem>, id: string)
    requires UniqueIds(items)
    ensures TotalItems(RemoveItem(items, id)) == TotalItems(items) - QuantityOf(items, id)
    ensures HasId(items, id) ==>
      TotalPrice(RemoveItem(items, id)) == TotalPrice(items) - LinePrice(items[IndexOf(items, id)])
    ensures !HasId(items, id) ==> TotalPrice(RemoveItem(items, id)) == TotalPrice(items)
  {
    IndexOfFound(items, id);
    if HasId(items, id) {
      RemoveHeldTotals(items, id, IndexOf(items, id));
    } else {
      RemoveAbsent(items, id);
    }
  }

  lemma RemoveHeldTotals(items: seq<CartItem>, id: string, k: nat)
    requires UniqueIds(items) && HasId(items, id)
    requires k == IndexOf(items, id) && k < |items|
    ensures TotalItems(RemoveItem(items, id)) == TotalItems(items) - items[k].quantity
    ensures TotalPrice(RemoveItem(items, id)) == TotalPrice(items) - LinePrice(items[k])
  {
    var before, after := items[..k], items[k + 1..];
    RemoveAt(items, id, k);
    TotalsAppend(before, after);
    SplitAt(items, k);
    TotalsAround(before, items[k], after);
  }

  /** With unique ids, a positive update of a held publication replaces its
      quantity in the item total and its line's price in the price total. */
  lemma UpdateQuantityTotals(items: seq<CartItem>, id: string, quantity: int)
    requires UniqueIds(items) && HasId(items, id) && quantity > 0
    ensures var line := items[IndexOf(items, id)];
            && TotalItems(UpdateQuantity(items, id, quantity)) == TotalItems(items) - line.quantity + quantity
            && TotalPrice(UpdateQuantity(items, id, quantity))
               == TotalPrice(items) - LinePrice(line) + line.monthlyPrice * quantity
  {
    OnlyAt(items, id);
    var k := IndexOf(items, id);
    var r := UpdateQuantity(items, id, quantity);
    ReplacedAt(items, r, k);
    TotalsAround(items[..k], r[k], items[k + 1..]);
    TotalsAround(items[..k], items[k], items[k + 1..]);
  }
}

/** The cart provider: the `items` state, replaced through `setItems` by each
    cart operation and written to the browser's local storage after every change. */
module CartContext {
  import opened Wrappers
  import opened Schema
  import Cart

  class CartProvider {
    /** The provider's `items` state. */
    var items: seq<CartItem>
    /** The `cart` entry of local storage: the last snapshot written (its JSON text is not modelled). */
    var stored: Option<seq<CartItem>>

    ghost predicate Valid()
      reads this
    {
      Cart.Valid(items)
    }

    /** The initial-load rule: with no stored cart (no entry, or an empty one) the
        cart starts empty; a stored cart is taken as it is, without being checked.
        The storage effect then writes the state back. */
    constructor (saved: Option<seq<CartItem>>)
      ensures saved.None? ==> items == []
      ensures saved.Some? ==> items == saved.value
      ensures stored == Some(items)
    {
      items := match saved case Some(s) => s case None => [];
      stored := Some(items);
    }

    method AddItem(item: Cart.NewItem)
      modifies this
      ensures items == Cart.AddItem(old(items), item)
      ensures stored == Some(items)
      ensures old(Valid()) ==> Valid()
    {
      if Valid() { Cart.AddItemKeepsValid(items, item); }
      items := Cart.AddItem(items, item);
      stored := Some(items);
    }

    method RemoveItem(publicationId: string)
      modifies this
      ensures items == Cart.RemoveItem(old(items), publicationId)
      ensures stored == Some(items)
      ensures old(Valid()) ==> Valid()
    {
      if Valid() { Cart.RemoveItemKeepsValid(items, publicationId); }
      items := Cart.RemoveItem(items, publicationId);
      stored := Some(items);
    }

    /** A quantity of zero or less goes through `removeItem`, as `updateQuantity` does. */
    method UpdateQuantity(publicationId: string, quantity: int)
      modifies this
      ensures items == Cart.UpdateQuantity(old(items), publicationId, quantity)
      ensures stored == Some(items)
      ensures old(Valid()) ==> Valid()
    {
      if quantity <= 0 {
        RemoveItem(publicationId);
        return;
      }
      if Valid() { Cart.UpdateQuantityKeepsValid(items, publicationId, quantity); }
      items := Cart.SetQuantity(items, publicationId, quantity);
      stored := Some(items);
    }

    /** `clearCart`: the cart is empty afterwards, and so both totals are 0. */
    method ClearCart()
      modifies this
      ensures items == [] && stored == Some([])
      ensures Cart.TotalItems(items) == 0 && Cart.TotalPrice(items) == 0
      ensures Valid()
    {
      items := [];
      stored := Some(items);
    }
  }
}
