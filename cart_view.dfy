/** The cart drawer's own arithmetic (app/components/Cart.tsx): the total it
    shows and how its list changes when a line is removed. */
module CartView {

  import opened Common
  import Tables
  import opened CartStore

  /** `cartItems.reduce((sum, item) => sum + item.price * item.quantity, 0)`,
      a left fold. */
  function Total(items: seq<CartLine>): (t: int)
    ensures items == [] ==> t == 0
    ensures (forall i :: 0 <= i < |items| ==> items[i].price >= 0 && items[i].quantity >= 0) ==> t >= 0
  {
    if items == [] then 0
    else
      var last := items[|items| - 1];
      assert forall i :: 0 <= i < |items| - 1 ==> items[..|items| - 1][i] == items[i];
      Total(items[..|items| - 1]) + last.price * last.quantity
  }

  /** The total adds up over any split of the list. */
  lemma {:induction false} TotalAppend(a: seq<CartLine>, b: seq<CartLine>)
    ensures Total(a + b) == Total(a) + Total(b)
  {
    if b == [] {
      assert a + b == a;
    } else {
      var last := b[|b| - 1];
      assert (a + b)[..|a + b| - 1] == a + b[..|b| - 1];
      assert (a + b)[|a + b| - 1] == last;
      TotalAppend(a, b[..|b| - 1]);
    }
  }

  /** One line contributes its price times its quantity. */
  lemma TotalSingle(l: CartLine)
    ensures Total([l]) == l.price * l.quantity
  {
    assert [l][..0] == [];
  }

  /** `item => item.id !== id`. */
  function Others(id: Id): CartLine -> bool {
    (l: CartLine) => l.id != id
  }

  function Matching(id: Id): CartLine -> bool {
    (l: CartLine) => l.id == id
  }

  /** `removeFromCart`: on an ok response the list keeps the items whose id
      differs, in their order; otherwise it is unchanged. */
  function AfterRemove(items: seq<CartLine>, id: Id, ok: bool): (r: seq<CartLine>)
    ensures !ok ==> r == items
    ensures ok ==> forall l :: l in r <==> l in items && l.id != id
    ensures ok ==> |r| <= |items|
  {
    if ok then Tables.Filter(items, Others(id)) else items
  }

  /** Keeping the order: removal commutes with splitting the list, and on a
      single item it keeps or drops just that item. */
  lemma AfterRemoveAppend(a: seq<CartLine>, b: seq<CartLine>, id: Id)
    ensures AfterRemove(a + b, id, true) == AfterRemove(a, id, true) + AfterRemove(b, id, true)
    ensures forall l :: AfterRemove([l], id, true) == if l.id != id then [l] else []
  {
    Tables.FilterAppend(a, b, Others(id));
    forall l ensures AfterRemove([l], id, true) == if l.id != id then [l] else [] {
      assert [l][1..] == [];
    }
  }

  /** After a successful removal the total drops by the removed lines'
      amounts; with unique ids, by that one line's. */
  lemma {:induction false} TotalAfterRemove(items: seq<CartLine>, id: Id)
    ensures Total(AfterRemove(items, id, true)) == Total(items) - Total(Tables.Filter(items, Matching(id)))
  {
    var keep := Others(id);
    var drop := Matching(id);
    if items != [] {
      var n := |items| - 1;
      var front := items[..n];
      var last := items[n];
      assert items == front + [last];
      TotalAfterRemove(front, id);
      AfterRemoveAppend(front, [last], id);
      Tables.FilterAppend(front, [last], drop);
      TotalAppend(Tables.Filter(front, keep), Tables.Filter([last], keep));
      TotalAppend(Tables.Filter(front, drop), Tables.Filter([last], drop));
      TotalAppend(front, [last]);
      TotalSingle(last);
      assert Tables.Filter([last], keep) == if last.id != id then [last] else [] by {
        assert [last][1..] == [];
      }
      assert Tables.Filter([last], drop) == if last.id == id then [last] else [] by {
        assert [last][1..] == [];
      }
      assert Total([]) == 0;
    }
  }

  /** Whether the drawer shows its footer with the total and the checkout
      button: exactly when the cart has a line. */
  function ShowsCheckout(items: seq<CartLine>): (shown: bool)
    ensures shown <==> items != []
    ensures !shown ==> Total(items) == 0
    ensures shown ==> exists l :: l in items
  {
    if |items| > 0 then assert items[0] in items; true else false
  }
}
