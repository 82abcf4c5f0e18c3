/** What the cart page decides and computes (src/components/Cart.jsx):
    which action a quantity change dispatches, and the cart total. The
    cart store that applies those actions is not part of this model. */
module Cart {

  /** A cart line: product id, unit price in cents, quantity. */
  datatype CartLine = CartLine(id: int, price: int, quantity: int)

  /** The actions the page dispatches to the cart store. */
  datatype CartAction = RemoveFromCart(id: int) | UpdateQuantity(id: int, quantity: int)

  /** handleQuantityChange: a quantity below 1 removes the line. */
  function QuantityChange(id: int, quantity: int): CartAction
  {
    if quantity < 1 then RemoveFromCart(id) else UpdateQuantity(id, quantity)
  }

  /** handleRemoveItem. */
  function RemoveItem(id: int): CartAction
  {
    RemoveFromCart(id)
  }

  /** The minus button. */
  function Decrement(line: CartLine): CartAction
  {
    QuantityChange(line.id, line.quantity - 1)
  }

  /** The plus button. */
  function Increment(line: CartLine): CartAction
  {
    QuantityChange(line.id, line.quantity + 1)
  }

  /** A quantity below 1 dispatches a removal of that id and never an
      update; any other quantity dispatches one update carrying it. */
  lemma QuantityChangeSpec(id: int, quantity: int)
    ensures QuantityChange(id, quantity).id == id
    ensures QuantityChange(id, quantity).RemoveFromCart? <==> quantity < 1
    ensures QuantityChange(id, quantity).UpdateQuantity? ==>
      QuantityChange(id, quantity).quantity == quantity >= 1
  {
  }

  /** Decrementing a line at quantity 1 removes it, exactly as the trash button does. */
  lemma DecrementAtOneRemoves(line: CartLine)
    requires line.quantity <= 1
    ensures Decrement(line) == RemoveItem(line.id)
  {
  }

  /** Incrementing a line with a positive quantity always updates it, to at least 2. */
  lemma IncrementUpdates(line: CartLine)
    requires line.quantity >= 1
    ensures Increment(line) == UpdateQuantity(line.id, line.quantity + 1)
    ensures Increment(line).quantity >= 2
  {
  }

  /** totalPrice: `reduce((sum, item) => sum + item.price * item.quantity, 0)`,
      folding from the first line. */
  function TotalPrice(items: seq<CartLine>): int
    decreases |items|
  {
    if |items| == 0 then 0
    else TotalPrice(items[..|items| - 1]) + items[|items| - 1].price * items[|items| - 1].quantity
  }

  /** The total of two runs of lines is the sum of their totals; in
      particular appending a line adds its price times its quantity. */
  lemma {:induction false} TotalPriceAppend(a: seq<CartLine>, b: seq<CartLine>)
    ensures TotalPrice(a + b) == TotalPrice(a) + TotalPrice(b)
    decreases |b|
  {
    if |b| > 0 {
      assert (a + b)[..|a + b| - 1] == a + b[..|b| - 1];
      TotalPriceAppend(a, b[..|b| - 1]);
    } else {
      assert a + b == a;
    }
  }

  lemma {:induction false} TotalPriceNonNegative(items: seq<CartLine>)
    requires forall i :: 0 <= i < |items| ==> items[i].price >= 0 && items[i].quantity >= 0
    ensures TotalPrice(items) >= 0
    decreases |items|
  {
    if |items| > 0 {
      TotalPriceNonNegative(items[..|items| - 1]);
      var last := items[|items| - 1];
      assert last.price * last.quantity >= 0;
    }
  }

  /** The lines' price-times-quantity, summed from the last line: the same
      total however the sum is grouped. */
  function LineSum(items: seq<CartLine>): int
    decreases |items|
  {
    if |items| == 0 then 0 else items[0].price * items[0].quantity + LineSum(items[1..])
  }

  lemma {:induction false} TotalPriceIsLineSum(items: seq<CartLine>)
    ensures TotalPrice(items) == LineSum(items)
    decreases |items|
  {
    if |items| > 0 {
      TotalPriceIsLineSum(items[1..]);
      assert items == [items[0]] + items[1..];
      TotalPriceAppend([items[0]], items[1..]);
      assert [items[0]][..0] == [];
    }
  }

  /** The "your cart is empty" message: shown iff there are no lines. */
  predicate ShowsEmptyMessage(items: seq<CartLine>)
  {
    |items| == 0
  }

  lemma EmptyMessageSpec(items: seq<CartLine>)
    ensures ShowsEmptyMessage(items) <==> items == []
    ensures ShowsEmptyMessage(items) ==> TotalPrice(items) == 0
  {
  }
}
