/**
 * The state of the POSInterface component of src/components/pos/POSInterface.jsx:
 * the cart lines, whether the cart panel is open, and the loaded products.
 * Each handler is one atomic state update.
 */
module PosInterface {
  import opened Wrappers
  import Catalog
  import Cart

  class Interface {
    var cartItems: seq<Cart.Line>
    var isCartOpen: bool
    var products: seq<Catalog.Product>

    /** The cart invariant: distinct ids, quantities of at least 1. */
    ghost predicate Valid()
      reads this
    {
      Cart.ValidCart(cartItems)
    }

    /** The initial state of the `useState` hooks. */
    constructor ()
      ensures Valid()
      ensures cartItems == [] && !isCartOpen && products == []
    {
      cartItems := [];
      isCartOpen := false;
      products := [];
    }

    /**
     * `fetchProducts` of the component: on a normalised response the products
     * are replaced wholesale; on any error they are left as they were.
     */
    method LoadProducts(outcome: Result<Catalog.Response, Catalog.FetchError>, parse: Catalog.Parser)
      requires Valid()
      modifies this`products
      ensures Valid()
      ensures Catalog.FetchProducts(outcome, parse).Ok? ==> products == Catalog.FetchProducts(outcome, parse).value
      ensures Catalog.FetchProducts(outcome, parse).Err? ==> products == old(products)
    {
      var result := Catalog.FetchProducts(outcome, parse);
      if result.Ok? {
        products := result.value;
      }
    }

    /** `addToCart`: the cart is updated and the cart panel opens. */
    method AddToCart(product: Catalog.Product)
      requires Valid()
      modifies this`cartItems, this`isCartOpen
      ensures Valid()
      ensures cartItems == Cart.AddToCart(old(cartItems), product)
      ensures isCartOpen
    {
      Cart.AddKeepsValid(cartItems, product);
      cartItems := Cart.AddToCart(cartItems, product);
      isCartOpen := true;
    }

    /** `removeFromCart`. */
    method RemoveFromCart(productId: Catalog.Value)
      requires Valid()
      modifies this`cartItems
      ensures Valid()
      ensures cartItems == Cart.RemoveFromCart(old(cartItems), productId)
    {
      Cart.RemoveKeepsValid(cartItems, productId);
      cartItems := Cart.RemoveFromCart(cartItems, productId);
    }

    /** `updateQuantity`: the early return below 1 leaves the state untouched. */
    method UpdateQuantity(productId: Catalog.Value, newQuantity: int)
      requires Valid()
      modifies this`cartItems
      ensures Valid()
      ensures newQuantity < 1 ==> cartItems == old(cartItems)
      ensures cartItems == Cart.UpdateQuantity(old(cartItems), productId, newQuantity)
    {
      if newQuantity < 1 {
        return;
      }
      Cart.UpdateKeepsValid(cartItems, productId, newQuantity);
      cartItems := Cart.UpdateQuantity(cartItems, productId, newQuantity);
    }

    /** `calculateTotal`: 0 for the empty cart, and never negative when no price is. */
    function CalculateTotal(): (total: real)
      reads this
      ensures total == Cart.Total(cartItems)
      ensures cartItems == [] ==> total == 0.0
      ensures Valid() && (forall i :: 0 <= i < |cartItems| ==> cartItems[i].item.price >= 0.0) ==> total >= 0.0
    {
      Cart.TotalNonNegative(cartItems);
      Cart.Total(cartItems)
    }
  }
}
