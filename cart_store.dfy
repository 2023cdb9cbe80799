/** The shared shopping cart (app/api/cart/route.ts): one global table of
    lines, merged on (cakeName, cakeType); it is not scoped to a user. */
module CartStore {

  import opened Common
  import Tables

  /** One cart line; `createdAt` is the time of the insert, in milliseconds. */
  datatype CartLine = CartLine(id: Id, cakeName: string, cakeType: string, price: int, image: string, quantity: int, createdAt: int)

  predicate SameCake(l: CartLine, cakeName: string, cakeType: string) {
    l.cakeName == cakeName && l.cakeType == cakeType
  }

  /** At most one line per (cakeName, cakeType). */
  ghost predicate OneLinePerCake(rows: map<Id, CartLine>) {
    forall a, b :: (a in rows && b in rows && SameCake(rows[b], rows[a].cakeName, rows[a].cakeType)) ==> a == b
  }

  ghost predicate WellFormed(rows: map<Id, CartLine>, nextId: Id) {
    (forall k :: k in rows ==> rows[k].id == k && k < nextId)
    && OneLinePerCake(rows)
  }

  /** The number of items in the cart: the quantities of the lines with ids below `n`. */
  function TotalQuantity(rows: map<Id, CartLine>, n: nat): int {
    if n == 0 then 0
    else TotalQuantity(rows, n - 1) + (if n - 1 in rows then rows[n - 1].quantity else 0)
  }

  /** Rows at or above `n` do not enter the sum below `n`. */
  lemma {:induction false} TotalQuantityBelow(rows: map<Id, CartLine>, n: nat, id: Id, l: CartLine)
    requires n <= id
    ensures TotalQuantity(rows[id := l], n) == TotalQuantity(rows, n)
  {
    if n > 0 {
      TotalQuantityBelow(rows, n - 1, id, l);
    }
  }

  /** Changing one line's quantity by `d` changes the total by `d`. */
  lemma {:induction false} TotalQuantityAdjust(rows: map<Id, CartLine>, n: nat, id: Id, l: CartLine)
    requires id in rows && id < n
    ensures TotalQuantity(rows[id := l], n) == TotalQuantity(rows, n) + l.quantity - rows[id].quantity
  {
    if n - 1 == id {
      TotalQuantityBelow(rows, n - 1, id, l);
    } else {
      TotalQuantityAdjust(rows, n - 1, id, l);
    }
  }

  /** A line added under a fresh id at the top adds its quantity. */
  lemma TotalQuantityInsert(rows: map<Id, CartLine>, n: nat, l: CartLine)
    requires forall k :: k in rows ==> k < n
    ensures TotalQuantity(rows[n := l], n + 1) == TotalQuantity(rows, n) + l.quantity
  {
    TotalQuantityBelow(rows, n, n, l);
  }

  /** Removing a line takes away its quantity. */
  lemma {:induction false} TotalQuantityRemove(rows: map<Id, CartLine>, n: nat, id: Id)
    requires id in rows && id < n
    ensures TotalQuantity(rows - {id}, n) == TotalQuantity(rows, n) - rows[id].quantity
  {
    if n - 1 == id {
      TotalQuantityUnaffected(rows, n - 1, id);
    } else {
      TotalQuantityRemove(rows, n - 1, id);
    }
  }

  lemma {:induction false} TotalQuantityUnaffected(rows: map<Id, CartLine>, n: nat, id: Id)
    requires n <= id
    ensures TotalQuantity(rows - {id}, n) == TotalQuantity(rows, n)
  {
    if n > 0 {
      TotalQuantityUnaffected(rows, n - 1, id);
    }
  }

  datatype AddReply = Added(line: CartLine) | AddRefused(httpStatus: int, error: string)

  datatype RemoveReply = Removed(message: string) | RemoveRefused(httpStatus: int, error: string)

  class CartTable {
    var rows: map<Id, CartLine>
    var nextId: Id

    ghost predicate Valid()
      reads this
    {
      WellFormed(rows, nextId)
    }

    constructor ()
      ensures Valid() && rows == map[] && nextId == 0
    {
      rows := map[];
      nextId := 0;
    }

    /** `findFirst({ where: { cakeName, cakeType } })`. */
    function FindCake(cakeName: string, cakeType: string): (r: Option<Id>)
      reads this
      requires Valid()
      ensures r.Some? ==> r.value in rows && SameCake(rows[r.value], cakeName, cakeType)
      ensures r.None? <==> forall k :: k in rows ==> !SameCake(rows[k], cakeName, cakeType)
    {
      Tables.Find(rows, nextId, (l: CartLine) => SameCake(l, cakeName, cakeType))
    }

    /** POST /api/cart at time `now`: a second add of the same cake raises the
        quantity of its line instead of adding one. */
    method Add(cakeName: Option<string>, cakeType: Option<string>, price: Option<int>, image: Option<string>, now: int)
      returns (r: AddReply)
      requires Valid()
      modifies this
      ensures Valid()
      ensures !(Present(cakeName) && Present(cakeType) && NonZero(price) && Present(image)) ==>
                r == AddRefused(400, "Missing required fields") && rows == old(rows) && nextId == old(nextId)
      ensures r.Added? ==>
                && Present(cakeName) && Present(cakeType) && NonZero(price) && Present(image)
                && TotalQuantity(rows, nextId) == old(TotalQuantity(rows, nextId)) + 1
                && r.line.id in rows && rows[r.line.id] == r.line
                && SameCake(r.line, cakeName.value, cakeType.value)
      // Merge: the existing line's quantity goes up by one and nothing else changes.
      ensures Present(cakeName) && Present(cakeType) && NonZero(price) && Present(image)
              && old(FindCake(cakeName.value, cakeType.value)).Some? ==>
                var k := old(FindCake(cakeName.value, cakeType.value)).value;
                && r == Added(old(rows)[k].(quantity := old(rows)[k].quantity + 1))
                && rows == old(rows)[k := r.line] && nextId == old(nextId)
      // Insert: a new line with quantity one under a fresh id.
      ensures Present(cakeName) && Present(cakeType) && NonZero(price) && Present(image)
              && old(FindCake(cakeName.value, cakeType.value)).None? ==>
                && r == Added(CartLine(old(nextId), cakeName.value, cakeType.value, price.value, image.value, 1, now))
                && old(nextId) !in old(rows)
                && rows == old(rows)[old(nextId) := r.line] && nextId == old(nextId) + 1
    {
      if !(Present(cakeName) && Present(cakeType) && NonZero(price) && Present(image)) {
        return AddRefused(400, "Missing required fields");
      }
      var existing := FindCake(cakeName.value, cakeType.value);
      if existing.Some? {
        var k := existing.value;
        var line := rows[k].(quantity := rows[k].quantity + 1);
        TotalQuantityAdjust(rows, nextId, k, line);
        rows := rows[k := line];
        return Added(line);
      }
      var line := CartLine(nextId, cakeName.value, cakeType.value, price.value, image.value, 1, now);
      TotalQuantityInsert(rows, nextId, line);
      rows := rows[nextId := line];
      nextId := nextId + 1;
      return Added(line);
    }

    /** DELETE /api/cart?id=…: an unknown id makes the delete throw. */
    method Remove(id: Option<Id>) returns (r: RemoveReply)
      requires Valid()
      modifies this
      ensures Valid() && nextId == old(nextId)
      ensures id.None? ==> r == RemoveRefused(400, "Cart item ID is required") && rows == old(rows)
      ensures id.Some? && id.value !in old(rows) ==> r == RemoveRefused(500, "Failed to remove from cart") && rows == old(rows)
      ensures id.Some? && id.value in old(rows) ==>
                && r == Removed("Item removed from cart")
                && rows == old(rows) - {id.value}
                && TotalQuantity(rows, nextId) == old(TotalQuantity(rows, nextId) - rows[id.value].quantity)
    {
      if id.None? {
        return RemoveRefused(400, "Cart item ID is required");
      }
      if id.value !in rows {
        return RemoveRefused(500, "Failed to remove from cart");
      }
      TotalQuantityRemove(rows, nextId, id.value);
      rows := rows - {id.value};
      return Removed("Item removed from cart");
    }

    /** GET /api/cart: every line, newest first. */
    function List(): (r: seq<CartLine>)
      reads this
      requires Valid()
      ensures forall l :: l in r <==> l in rows.Values
      ensures Tables.Distinct(r)
      ensures Tables.SortedBy(r, (l: CartLine) => l.createdAt, false)
    {
      var all := (l: CartLine) => true;
      var key := (l: CartLine) => l.createdAt;
      Tables.QueryContents(rows, nextId, (l: CartLine) => l.id, all, key, false);
      Tables.SortBy(Tables.Filter(Tables.InIdOrder(rows, nextId, (l: CartLine) => l.id), all), key, false)
    }
  }
}
