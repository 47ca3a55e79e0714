/**
 * The cart updaters of src/components/pos/POSInterface.jsx, as functions from
 * the previous list of cart lines to the next one. A line is a product record
 * spread together with a quantity.
 */
module Cart {
  import opened Sequences
  import Catalog

  datatype Line = Line(item: Catalog.Product, quantity: int)

  /** Some line carries the id `id` (the `prev.find` test). */
  predicate HasId(cart: seq<Line>, id: Catalog.Value)
  {
    exists i :: 0 <= i < |cart| && cart[i].item.id == id
  }

  /** The invariant every reachable cart keeps: ids are pairwise distinct and every quantity is at least 1. */
  ghost predicate ValidCart(cart: seq<Line>)
  {
    && (forall i, j :: 0 <= i < j < |cart| ==> cart[i].item.id != cart[j].item.id)
    && (forall i :: 0 <= i < |cart| ==> cart[i].quantity >= 1)
  }

  /** `addToCart`: raise the quantity of the product's line, or append a new line of quantity 1. */
  function AddToCart(cart: seq<Line>, product: Catalog.Product): (r: seq<Line>)
    ensures HasId(r, product.id)
  {
    if HasId(cart, product.id) then
      var r := seq(|cart|, i requires 0 <= i < |cart| =>
        if cart[i].item.id == product.id then cart[i].(quantity := cart[i].quantity + 1) else cart[i]);
      assert forall i :: 0 <= i < |cart| ==> r[i].item == cart[i].item;
      r
    else
      assert (cart + [Line(product, 1)])[|cart|].item.id == product.id;
      cart + [Line(product, 1)]
  }

  /** `removeFromCart`: keep the lines whose id differs. */
  function RemoveFromCart(cart: seq<Line>, id: Catalog.Value): (r: seq<Line>)
    ensures |r| <= |cart|
    ensures forall i :: 0 <= i < |r| ==> r[i].item.id != id
  {
    if cart == [] then []
    else if cart[0].item.id != id then [cart[0]] + RemoveFromCart(cart[1..], id)
    else RemoveFromCart(cart[1..], id)
  }

  /** `updateQuantity`: below 1 nothing happens; otherwise the lines with that id get the new quantity. */
  function UpdateQuantity(cart: seq<Line>, id: Catalog.Value, newQuantity: int): (r: seq<Line>)
    ensures |r| == |cart|
    ensures forall i :: 0 <= i < |r| ==> r[i].item == cart[i].item
  {
    if newQuantity < 1 then cart
    else
      seq(|cart|, i requires 0 <= i < |cart| =>
        if cart[i].item.id == id then cart[i].(quantity := newQuantity) else cart[i])
  }

  /** The amount one line contributes to the total. */
  function Amount(line: Line): real
  {
    line.item.price * line.quantity as real
  }

  /** `calculateTotal`: the `reduce` from the left, starting at 0, adding price times quantity. */
  function Total(cart: seq<Line>): real
  {
    if cart == [] then 0.0 else Total(cart[..|cart| - 1]) + Amount(cart[|cart| - 1])
  }

  // ---------------------------------------------------------------- addToCart

  /** A product whose id is absent gets exactly one new line, of quantity 1, at the end. */
  lemma AddAbsentAppends(cart: seq<Line>, product: Catalog.Product)
    requires !HasId(cart, product.id)
    ensures var r := AddToCart(cart, product);
            && |r| == |cart| + 1
            && r[..|cart|] == cart
            && r[|cart|] == Line(product, 1)
  {
  }

  /** A product whose id is present raises that one line by exactly 1; every other line is unchanged. */
  lemma AddPresentIncrements(cart: seq<Line>, product: Catalog.Product, j: nat)
    requires ValidCart(cart)
    requires j < |cart| && cart[j].item.id == product.id
    ensures var r := AddToCart(cart, product);
            && |r| == |cart|
            && r[j] == Line(cart[j].item, cart[j].quantity + 1)
            && (forall i :: 0 <= i < |cart| && i != j ==> r[i] == cart[i])
  {
  }

  /** `addToCart` keeps the invariant. */
  lemma AddKeepsValid(cart: seq<Line>, product: Catalog.Product)
    requires ValidCart(cart)
    ensures ValidCart(AddToCart(cart, product))
  {
  }

  // ----------------------------------------------------------- removeFromCart

  /** No line with the removed id is left, and the lines kept are exactly the others, in their order. */
  lemma {:induction false} RemoveFromCartSpec(cart: seq<Line>, id: Catalog.Value)
    ensures !HasId(RemoveFromCart(cart, id), id)
    ensures IsSubsequence(RemoveFromCart(cart, id), cart)
    ensures forall line :: line in RemoveFromCart(cart, id) <==> line in cart && line.item.id != id
  {
    if cart != [] {
      RemoveFromCartSpec(cart[1..], id);
      assert cart == [cart[0]] + cart[1..];
    }
  }

  /** Removing an id that is absent changes nothing. */
  lemma {:induction false} RemoveAbsent(cart: seq<Line>, id: Catalog.Value)
    requires !HasId(cart, id)
    ensures RemoveFromCart(cart, id) == cart
  {
    if cart != [] {
      assert cart[0].item.id != id;
      forall i | 0 <= i < |cart[1..]|
        ensures cart[1..][i].item.id != id
      {
        assert cart[1..][i] == cart[i + 1];
      }
      RemoveAbsent(cart[1..], id);
    }
  }

  /** On a valid cart, removing the id of line `j` deletes exactly that line. */
  lemma {:induction false} RemoveDeletesOneLine(cart: seq<Line>, j: nat)
    requires ValidCart(cart)
    requires j < |cart|
    ensures RemoveFromCart(cart, cart[j].item.id) == cart[..j] + cart[j + 1..]
  {
    var id := cart[j].item.id;
    if j == 0 {
      forall i | 0 <= i < |cart[1..]|
        ensures cart[1..][i].item.id != id
      {
        assert cart[1..][i] == cart[i + 1];
      }
      RemoveAbsent(cart[1..], id);
    } else {
      RemoveDeletesOneLine(cart[1..], j - 1);
      assert cart[1..][j - 1] == cart[j];
      assert cart[..j] + cart[j + 1..] == [cart[0]] + (cart[1..][..j - 1] + cart[1..][j..]);
    }
  }

  /** A line whose id is new, put in front of a valid cart, gives a valid cart. */
  lemma ValidCons(x: Line, rest: seq<Line>)
    requires ValidCart(rest) && x.quantity >= 1
    requires forall k :: 0 <= k < |rest| ==> rest[k].item.id != x.item.id
    ensures ValidCart([x] + rest)
  {
    var c := [x] + rest;
    forall i, j | 0 <= i < j < |c|
      ensures c[i].item.id != c[j].item.id
    {
      assert c[j] == rest[j - 1];
      if i > 0 {
        assert c[i] == rest[i - 1];
      }
    }
  }

  /** `removeFromCart` keeps the invariant. */
  lemma {:induction false} RemoveKeepsValid(cart: seq<Line>, id: Catalog.Value)
    requires ValidCart(cart)
    ensures ValidCart(RemoveFromCart(cart, id))
  {
    if cart != [] {
      var tail := cart[1..];
      assert ValidCart(tail) by {
        forall i, j | 0 <= i < j < |tail|
          ensures tail[i].item.id != tail[j].item.id
        {
          assert tail[i] == cart[i + 1] && tail[j] == cart[j + 1];
        }
      }
      RemoveKeepsValid(tail, id);
      if cart[0].item.id != id {
        var rest := RemoveFromCart(tail, id);
        RemoveFromCartSpec(tail, id);
        forall k | 0 <= k < |rest|
          ensures rest[k].item.id != cart[0].item.id
        {
          assert rest[k] in tail;
          var m :| 0 <= m < |tail| && tail[m] == rest[k];
          assert tail[m] == cart[m + 1];
        }
        ValidCons(cart[0], rest);
      }
    }
  }

  // ----------------------------------------------------------- updateQuantity

  /** A new quantity below 1 leaves the cart exactly as it was. */
  lemma UpdateBelowOneIsNoOp(cart: seq<Line>, id: Catalog.Value, newQuantity: int)
    requires newQuantity < 1
    ensures UpdateQuantity(cart, id, newQuantity) == cart
  {
  }

  /** The minus button on a line of quantity 1 passes 0, which changes nothing. */
  lemma MinusOnSingleUnitIsNoOp(cart: seq<Line>, j: nat)
    requires j < |cart| && cart[j].quantity == 1
    ensures UpdateQuantity(cart, cart[j].item.id, cart[j].quantity - 1) == cart
  {
  }

  /** A quantity of at least 1 is set on the matching line; length, order and every other line are unchanged. */
  lemma UpdateSetsQuantity(cart: seq<Line>, j: nat, newQuantity: int)
    requires ValidCart(cart)
    requires j < |cart| && newQuantity >= 1
    ensures var r := UpdateQuantity(cart, cart[j].item.id, newQuantity);
            && |r| == |cart|
            && r[j] == Line(cart[j].item, newQuantity)
            && (forall i :: 0 <= i < |cart| && i != j ==> r[i] == cart[i])
  {
  }

  /** `updateQuantity` keeps the invariant. */
  lemma UpdateKeepsValid(cart: seq<Line>, id: Catalog.Value, newQuantity: int)
    requires ValidCart(cart)
    ensures ValidCart(UpdateQuantity(cart, id, newQuantity))
  {
  }

  // ----------------------------------------------------------- calculateTotal

  /** The total of a concatenation is the sum of the totals. */
  lemma {:induction false} TotalAppend(a: seq<Line>, b: seq<Line>)
    ensures Total(a + b) == Total(a) + Total(b)
  {
    if b == [] {
      assert a + b == a;
    } else {
      TotalAppend(a, b[..|b| - 1]);
      assert (a + b)[..|a + b| - 1] == a + b[..|b| - 1];
    }
  }

  /** The total of a single line is its amount. */
  lemma TotalOfOne(line: Line)
    ensures Total([line]) == Amount(line)
  {
    assert [line][..0] == [];
  }

  /** The cart of 2 at price 10 and 1 at price 5.5 totals 25.5. */
  lemma TotalExample(p: Catalog.Product, q: Catalog.Product)
    requires p.price == 10.0 && q.price == 5.5
    ensures Total([Line(p, 2), Line(q, 1)]) == 25.5
  {
    TotalAppend([Line(p, 2)], [Line(q, 1)]);
    TotalOfOne(Line(p, 2));
    TotalOfOne(Line(q, 1));
  }

  /** With non-negative prices and positive quantities the total is not negative. */
  lemma {:induction false} TotalNonNegative(cart: seq<Line>)
    ensures (forall i :: 0 <= i < |cart| ==> cart[i].item.price >= 0.0 && cart[i].quantity >= 1) ==> Total(cart) >= 0.0
  {
    if cart != [] {
      TotalNonNegative(cart[..|cart| - 1]);
    }
  }

  /** The total splits around any position. */
  lemma TotalSplit(cart: seq<Line>, j: nat)
    requires j < |cart|
    ensures Total(cart) == Total(cart[..j]) + Amount(cart[j]) + Total(cart[j + 1..])
  {
    var upTo := cart[..j + 1];
    assert upTo[..j] == cart[..j] && upTo[j] == cart[j];
    assert Total(upTo) == Total(cart[..j]) + Amount(cart[j]);
    assert upTo + cart[j + 1..] == cart;
    TotalAppend(upTo, cart[j + 1..]);
  }

  /** Two carts that differ only at position `j` differ in total by the difference of the two lines. */
  lemma ReplaceLineTotal(a: seq<Line>, b: seq<Line>, j: nat)
    requires |a| == |b| && j < |a|
    requires forall i :: 0 <= i < |a| && i != j ==> a[i] == b[i]
    ensures Total(b) == Total(a) - Amount(a[j]) + Amount(b[j])
  {
    assert a[..j] == b[..j];
    assert a[j + 1..] == b[j + 1..];
    TotalSplit(a, j);
    TotalSplit(b, j);
  }

  /** Scaling distributes over a difference of quantities. */
  lemma ScaleDifference(p: real, x: int, y: int)
    ensures p * y as real - p * x as real == p * (y - x) as real
  {
  }

  /** Two lines of the same product differ in amount by the price times the difference in quantity. */
  lemma AmountChange(x: Line, y: Line)
    requires x.item == y.item
    ensures Amount(y) - Amount(x) == x.item.price * (y.quantity - x.quantity) as real
  {
    ScaleDifference(x.item.price, x.quantity, y.quantity);
  }

  /** Setting line `j` alone to quantity `n` changes the total by its price times the change. */
  lemma ChangeQuantityTotal(a: seq<Line>, b: seq<Line>, j: nat, n: int)
    requires |a| == |b| && j < |a|
    requires forall i :: 0 <= i < |a| && i != j ==> a[i] == b[i]
    requires b[j] == Line(a[j].item, n)
    ensures Total(b) == Total(a) + a[j].item.price * (n - a[j].quantity) as real
  {
    var d := a[j].item.price * (n - a[j].quantity) as real;
    ReplaceLineTotal(a, b, j);
    AmountChange(a[j], b[j]);
    assert Amount(b[j]) == Amount(a[j]) + d;
  }

  /** Raising line `j` alone by one unit raises the total by its price. */
  lemma IncrementTotal(a: seq<Line>, b: seq<Line>, j: nat)
    requires |a| == |b| && j < |a|
    requires forall i :: 0 <= i < |a| && i != j ==> a[i] == b[i]
    requires b[j] == a[j].(quantity := a[j].quantity + 1)
    ensures Total(b) == Total(a) + a[j].item.price
  {
    ChangeQuantityTotal(a, b, j, a[j].quantity + 1);
    assert (a[j].quantity + 1 - a[j].quantity) as real == 1.0;
  }

  /** Adding a product whose id is absent raises the total by the product's price. */
  lemma AddAbsentRaisesTotal(cart: seq<Line>, product: Catalog.Product)
    requires !HasId(cart, product.id)
    ensures Total(AddToCart(cart, product)) == Total(cart) + product.price
  {
    TotalAppend(cart, [Line(product, 1)]);
    TotalOfOne(Line(product, 1));
    assert Amount(Line(product, 1)) == product.price;
  }

  /** Adding a product whose id is on line `j` raises the total by that line's price. */
  lemma AddPresentRaisesTotal(cart: seq<Line>, product: Catalog.Product, j: nat)
    requires ValidCart(cart)
    requires j < |cart| && cart[j].item.id == product.id
    ensures Total(AddToCart(cart, product)) == Total(cart) + cart[j].item.price
  {
    AddPresentIncrements(cart, product, j);
    IncrementTotal(cart, AddToCart(cart, product), j);
  }

  /** Removing the line `j` of a valid cart lowers the total by that line's amount. */
  lemma RemoveLowersTotal(cart: seq<Line>, j: nat)
    requires ValidCart(cart)
    requires j < |cart|
    ensures Total(RemoveFromCart(cart, cart[j].item.id)) == Total(cart) - Amount(cart[j])
  {
    RemoveDeletesOneLine(cart, j);
    TotalSplit(cart, j);
    TotalAppend(cart[..j], cart[j + 1..]);
  }

  /** Setting line `j` to quantity `n >= 1` changes the total by its price times the change in quantity. */
  lemma UpdateChangesTotal(cart: seq<Line>, j: nat, newQuantity: int)
    requires ValidCart(cart)
    requires j < |cart| && newQuantity >= 1
    ensures Total(UpdateQuantity(cart, cart[j].item.id, newQuantity)) ==
            Total(cart) + cart[j].item.price * (newQuantity - cart[j].quantity) as real
  {
    UpdateSetsQuantity(cart, j, newQuantity);
    ChangeQuantityTotal(cart, UpdateQuantity(cart, cart[j].item.id, newQuantity), j, newQuantity);
  }

  // -------------------------------------------------------- sequences of actions

  /** What the cart panel can do to the cart. */
  datatype Action =
    | Add(product: Catalog.Product)
    | Remove(id: Catalog.Value)
    | SetQuantity(id: Catalog.Value, newQuantity: int)

  function Apply(cart: seq<Line>, action: Action): seq<Line>
  {
    match action
    case Add(p) => AddToCart(cart, p)
    case Remove(id) => RemoveFromCart(cart, id)
    case SetQuantity(id, n) => UpdateQuantity(cart, id, n)
  }

  /** The cart after the actions, applied in order. */
  function Replay(cart: seq<Line>, actions: seq<Action>): seq<Line>
    decreases |actions|
  {
    if actions == [] then cart else Replay(Apply(cart, actions[0]), actions[1..])
  }

  /** Every action keeps the invariant. */
  lemma ApplyKeepsValid(cart: seq<Line>, action: Action)
    requires ValidCart(cart)
    ensures ValidCart(Apply(cart, action))
  {
    match action
    case Add(p) => AddKeepsValid(cart, p);
    case Remove(id) => RemoveKeepsValid(cart, id);
    case SetQuantity(id, n) => UpdateKeepsValid(cart, id, n);
  }

  /** From any valid cart, any sequence of actions leaves distinct ids and quantities of at least 1. */
  lemma {:induction false} ReplayKeepsValid(cart: seq<Line>, actions: seq<Action>)
    requires ValidCart(cart)
    ensures ValidCart(Replay(cart, actions))
    decreases |actions|
  {
    if actions != [] {
      ApplyKeepsValid(cart, actions[0]);
      ReplayKeepsValid(Apply(cart, actions[0]), actions[1..]);
    }
  }

  /** The empty cart the component starts with is valid, so every reachable cart is. */
  lemma ReachableCartsValid(actions: seq<Action>)
    ensures ValidCart(Replay([], actions))
  {
    ReplayKeepsValid([], actions);
  }
}
