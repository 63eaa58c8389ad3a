/** The cart page (`/cart`): the cart loaded from `GET /api/cart`, quantity
    changes and removals sent to the item routes and mirrored locally with
    the total recomputed, and the checkout button. The server's answer to
    each request is a parameter `ok`. */
module CartPage {
  import opened Domain
  import Seqs
  import Cart

  /** The requests the page sends. */
  datatype Request = PatchItem(itemId: Id, quantity: int) | DeleteItem(itemId: Id) | PostCheckout(orderId: Option<Id>)

  /** `orderItems.map(item => item.id === itemId ? { ...item, quantity } : item)`. */
  function WithQuantity(items: seq<OrderItem>, itemId: Id, quantity: int): (r: seq<OrderItem>)
    ensures |r| == |items|
    ensures forall i :: 0 <= i < |r| ==>
      r[i] == if items[i].id == itemId then items[i].(quantity := quantity) else items[i]
  {
    seq(|items|, i requires 0 <= i < |items| =>
      if items[i].id == itemId then items[i].(quantity := quantity) else items[i])
  }

  /** `orderItems.filter(item => item.id !== itemId)`. */
  function WithoutItem(items: seq<OrderItem>, itemId: Id): (r: seq<OrderItem>)
    ensures forall x :: x in r <==> x in items && x.id != itemId
  {
    Seqs.Filter(items, (x: OrderItem) => x.id != itemId)
  }

  /** The lines a removal takes away. */
  function ItemsWithId(items: seq<OrderItem>, itemId: Id): (r: seq<OrderItem>)
    ensures forall x :: x in r <==> x in items && x.id == itemId
  {
    Seqs.Filter(items, (x: OrderItem) => x.id == itemId)
  }

  /** Line ids are distinct (they are primary keys). */
  ghost predicate DistinctLineIds(items: seq<OrderItem>)
  {
    forall i, k :: 0 <= i < |items| && 0 <= k < |items| && items[i].id == items[k].id ==> i == k
  }

  /** A removal keeps the other lines in their order. */
  lemma RemovalKeepsOrder(items: seq<OrderItem>, itemId: Id)
    ensures Seqs.Subsequence(WithoutItem(items, itemId), items)
  {
    Seqs.FilterIsSubsequence(items, (x: OrderItem) => x.id != itemId);
  }

  lemma TotalCons(x: OrderItem, rest: seq<OrderItem>)
    ensures Total([x] + rest) == LineAmount(x) + Total(rest)
  {
    TotalConcat([x], rest);
    TotalSingle(x);
  }

  /** The lines kept and the lines removed together carry the whole total. */
  lemma {:induction false} TotalSplit(items: seq<OrderItem>, itemId: Id)
    ensures Total(WithoutItem(items, itemId)) + Total(ItemsWithId(items, itemId)) == Total(items)
  {
    if items != [] {
      TotalSplit(items[1..], itemId);
      assert items == [items[0]] + items[1..];
      TotalCons(items[0], items[1..]);
      if items[0].id == itemId {
        TotalCons(items[0], ItemsWithId(items[1..], itemId));
      } else {
        TotalCons(items[0], WithoutItem(items[1..], itemId));
      }
    }
  }

  /** With distinct line ids, removing line `j` lowers the total by exactly
      that line's price × quantity. */
  lemma RemoveLineTotal(items: seq<OrderItem>, j: nat)
    requires DistinctLineIds(items) && j < |items|
    ensures Total(WithoutItem(items, items[j].id)) == Total(items) - LineAmount(items[j])
  {
    var removed := ItemsWithId(items, items[j].id);
    TotalSplit(items, items[j].id);
    assert removed == [items[j]] by {
      OnlyLine(items, j);
    }
    TotalSingle(items[j]);
  }

  lemma {:induction false} OnlyLine(items: seq<OrderItem>, j: nat)
    requires DistinctLineIds(items) && j < |items|
    ensures ItemsWithId(items, items[j].id) == [items[j]]
  {
    var id := items[j].id;
    if j == 0 {
      var rest := items[1..];
      assert forall i :: 0 <= i < |rest| ==> rest[i].id != id by {
        forall i | 0 <= i < |rest| ensures rest[i].id != id {
          assert rest[i] == items[i + 1];
        }
      }
      Seqs.FilterNone(rest, (x: OrderItem) => x.id == id);
    } else {
      var rest := items[1..];
      assert rest[j - 1] == items[j];
      assert DistinctLineIds(rest) by {
        forall i, k | 0 <= i < |rest| && 0 <= k < |rest| && rest[i].id == rest[k].id ensures i == k {
          assert items[i + 1].id == items[k + 1].id;
        }
      }
      assert items[0].id != id;
      OnlyLine(rest, j - 1);
    }
  }

  /** With distinct line ids, a quantity change on line `j` replaces that
      line's amount in the total by price × the new quantity. */
  lemma UpdateLineTotal(items: seq<OrderItem>, j: nat, quantity: int)
    requires DistinctLineIds(items) && j < |items|
    ensures Total(WithQuantity(items, items[j].id, quantity))
      == Total(items) - LineAmount(items[j]) + items[j].price * quantity
  {
    var x := items[j].(quantity := quantity);
    var r := WithQuantity(items, items[j].id, quantity);
    forall i | 0 <= i < |items| ensures r[i] == items[j := x][i] {
      if i != j {
        assert items[i].id != items[j].id;
      }
    }
    assert r == items[j := x];
    TotalUpdate(items, j, x);
  }

  /** The page's state: the cart as loaded (or `None` before it is, or when
      loading failed), the error flag, the requests sent and the pages
      pushed onto the router. */
  class CartPageState {
    var order: Option<Cart.CartView>
    var error: bool
    var sent: seq<Request>
    var pushed: seq<string>

    /** The effect of `fetchCart`: the reply of `GET /api/cart`, `None` when
        the request failed. */
    constructor (loaded: Option<Cart.CartView>)
      ensures order == loaded && error == loaded.None?
      ensures sent == [] && pushed == []
    {
      order := loaded;
      error := loaded.None?;
      sent := [];
      pushed := [];
    }

    /** `handleUpdateQuantity`. */
    method UpdateQuantity(itemId: Id, newQuantity: int, ok: bool)
      modifies this
      ensures newQuantity < 1 ==> sent == old(sent)
      ensures newQuantity >= 1 ==> sent == old(sent) + [PatchItem(itemId, newQuantity)]
      ensures newQuantity >= 1 && ok && old(order).Some? ==>
        var items := WithQuantity(old(order).value.items, itemId, newQuantity);
        order == Some(old(order).value.(items := items, totalAmount := Total(items)))
      ensures !(newQuantity >= 1 && ok) || old(order).None? ==> order == old(order)
      ensures error == old(error) && pushed == old(pushed)
    {
      if newQuantity < 1 {
        return;
      }
      sent := sent + [PatchItem(itemId, newQuantity)];
      if !ok {
        return;
      }
      if order.Some? {
        var updated := WithQuantity(order.value.items, itemId, newQuantity);
        var total := Cart.SumLines(updated);
        order := Some(order.value.(items := updated, totalAmount := total));
      }
    }

    /** `handleRemoveItem`. */
    method RemoveItem(itemId: Id, ok: bool)
      modifies this
      ensures sent == old(sent) + [DeleteItem(itemId)]
      ensures ok && old(order).Some? ==>
        var items := WithoutItem(old(order).value.items, itemId);
        order == Some(old(order).value.(items := items, totalAmount := Total(items)))
      ensures !ok || old(order).None? ==> order == old(order)
      ensures error == old(error) && pushed == old(pushed)
    {
      sent := sent + [DeleteItem(itemId)];
      if !ok {
        return;
      }
      if order.Some? {
        var updated := WithoutItem(order.value.items, itemId);
        var total := Cart.SumLines(updated);
        order := Some(order.value.(items := updated, totalAmount := total));
      }
    }

    /** `handleCheckout`: nothing is sent for a missing or empty cart; on
        success the browser goes to the order history. */
    method Checkout(ok: bool)
      modifies this
      ensures old(order).None? || old(order).value.items == [] ==> sent == old(sent) && pushed == old(pushed)
      ensures old(order).Some? && old(order).value.items != [] ==>
        sent == old(sent) + [PostCheckout(old(order).value.id)]
        && pushed == old(pushed) + (if ok then ["/profile/orders"] else [])
      ensures order == old(order) && error == old(error)
    {
      if order.None? || |order.value.items| == 0 {
        return;
      }
      sent := sent + [PostCheckout(order.value.id)];
      if ok {
        pushed := pushed + ["/profile/orders"];
      }
    }
  }
}
