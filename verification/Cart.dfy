/** The shop's carts and orders (examples/nextjs/src/lib/cart.ts and
    examples/nextjs/src/app/(shop)/actions.ts) over the tables of
    examples/nextjs/src/db/schema/commerce.ts. Money is whole cents. */
module Cart {
  import opened Common

  type CartId = nat
  type ProductId = nat
  type OrderId = nat

  datatype Owner = User(id: nat) | Guest(token: nat)

  datatype Product = Product(name: string, priceCents: int)

  datatype Slot = Slot(cart: CartId, product: ProductId)

  datatype Line = Line(product: ProductId, unitPriceCents: int, quantity: int)

  datatype Item = Item(product: ProductId, name: string, unitPriceCents: int, quantity: int)

  datatype Order = Order(userId: nat, totalCents: int, items: seq<Item>)

  function LinesTotal(lines: seq<Line>): int {
    if lines == [] then 0 else LinesTotal(lines[..|lines| - 1]) + Last(lines).unitPriceCents * Last(lines).quantity
  }

  function Last<T>(s: seq<T>): T
    requires s != []
  {
    s[|s| - 1]
  }

  function ItemsTotal(items: seq<Item>): int {
    if items == [] then 0 else ItemsTotal(items[..|items| - 1]) + Last(items).unitPriceCents * Last(items).quantity
  }

  /** What an order lists: the lines whose product is still sold, at today's name and price. */
  function Agreed(lines: seq<Line>, catalogue: map<ProductId, Product>): seq<Item> {
    if lines == [] then []
    else Agreed(lines[..|lines| - 1], catalogue)
         + if Last(lines).product !in catalogue then []
           else
             var now := catalogue[Last(lines).product];
             [Item(Last(lines).product, now.name, now.priceCents, Last(lines).quantity)]
  }

  function Products(lines: seq<Line>): set<ProductId> {
    if lines == [] then {} else Products(lines[..|lines| - 1]) + {Last(lines).product}
  }

  function Billed(items: seq<Item>): set<ProductId> {
    if items == [] then {} else Billed(items[..|items| - 1]) + {Last(items).product}
  }

  function ProductsIn(slots: map<Slot, int>, cart: CartId): set<ProductId> {
    set s | s in slots && s.cart == cart :: s.product
  }

  ghost predicate LineFor(line: Line, cart: CartId, slots: map<Slot, int>, catalogue: map<ProductId, Product>) {
    && Slot(cart, line.product) in slots && slots[Slot(cart, line.product)] == line.quantity
    && line.product in catalogue && catalogue[line.product].priceCents == line.unitPriceCents
  }

  /** A list of lines that holds every slot of a cart, each once. */
  ghost predicate Lists(lines: seq<Line>, cart: CartId, slots: map<Slot, int>, catalogue: map<ProductId, Product>) {
    && Products(lines) == ProductsIn(slots, cart) && |Products(lines)| == |lines|
    && forall l | l in lines :: LineFor(l, cart, slots, catalogue)
  }

  ghost predicate BillsFor(item: Item, cart: CartId, slots: map<Slot, int>, now: map<ProductId, Product>) {
    && item.product in now && item.unitPriceCents == now[item.product].priceCents && item.name == now[item.product].name
    && Slot(cart, item.product) in slots && item.quantity == slots[Slot(cart, item.product)]
  }

  /** A bill for a cart: each product of the cart that is still sold, once, with the cart's
      quantity and the price and name it has now; and nothing else. */
  ghost predicate IsBill(items: seq<Item>, cart: CartId, slots: map<Slot, int>, now: map<ProductId, Product>) {
    && Billed(items) == ProductsIn(slots, cart) * now.Keys && |Billed(items)| == |items|
    && forall t | t in items :: BillsFor(t, cart, slots, now)
  }

  function At(slots: map<Slot, int>, slot: Slot): int {
    if slot in slots then slots[slot] else 0
  }

  function Quantity(carts: map<Owner, CartId>, slots: map<Slot, int>, owner: Owner, product: ProductId): int {
    if owner in carts then At(slots, Slot(carts[owner], product)) else 0
  }

  function Add(slots: map<Slot, int>, slot: Slot, quantity: int): map<Slot, int> {
    slots[slot := At(slots, slot) + quantity]
  }

  function Without(slots: map<Slot, int>, cart: CartId): map<Slot, int> {
    map s | s in slots && s.cart != cart :: slots[s]
  }

  /** Dropping a cart, and its lines with it by the foreign key, changes no other cart. */
  lemma Dropping(carts: map<Owner, CartId>, slots: map<Slot, int>, gone: Owner)
    requires gone in carts
    requires forall a, b | a in carts && b in carts && carts[a] == carts[b] :: a == b
    requires forall s | s in slots :: s.cart in carts.Values
    ensures forall o, p :: (Quantity(carts - {gone}, Without(slots, carts[gone]), o, p)
      == if o == gone then 0 else Quantity(carts, slots, o, p))
    ensures forall s | s in Without(slots, carts[gone]) :: s.cart in (carts - {gone}).Values
  {
    forall s | s in Without(slots, carts[gone]) ensures s.cart in (carts - {gone}).Values {
      var o :| o in carts && carts[o] == s.cart;
      assert (carts - {gone})[o] == s.cart;
    }
  }

  /** The lines list the cart but for the products pending. */
  ghost predicate PartlyLists(lines: seq<Line>, pending: set<ProductId>, cart: CartId, slots: map<Slot, int>,
      catalogue: map<ProductId, Product>) {
    && Products(lines) + pending == ProductsIn(slots, cart) && Products(lines) !! pending
      && |Products(lines)| == |lines|
    && forall l | l in lines :: LineFor(l, cart, slots, catalogue)
  }

  lemma ListsOneMore(lines: seq<Line>, pending: set<ProductId>, line: Line, cart: CartId, slots: map<Slot, int>,
      catalogue: map<ProductId, Product>)
    requires PartlyLists(lines, pending, cart, slots, catalogue) && line.product in pending
      && LineFor(line, cart, slots, catalogue)
    ensures PartlyLists(lines + [line], pending - {line.product}, cart, slots, catalogue)
  {
    var before, after := Products(lines), Products(lines + [line]);
    ProductsGrow(lines, line);
    assert after + (pending - {line.product}) == before + pending;
    forall l | l in lines + [line] ensures LineFor(l, cart, slots, catalogue) {
      assert l in lines || l == line;
    }
  }

  lemma ProductsGrow(lines: seq<Line>, line: Line)
    requires line.product !in Products(lines)
    ensures Products(lines + [line]) == Products(lines) + {line.product}
    ensures |Products(lines + [line])| == |Products(lines)| + 1
  {
    assert (lines + [line])[..|lines|] == lines;
  }

  class Shop {
    var carts: map<Owner, CartId>
    var slots: map<Slot, int>
    var catalogue: map<ProductId, Product>
    var orders: map<OrderId, Order>
    var cookie: Option<nat>

    /** The unique indexes and foreign keys of the schema, and what an order promises. */
    ghost predicate Valid()
      reads this
    {
      && (forall a, b | a in carts && b in carts && carts[a] == carts[b] :: a == b)
      && (forall s | s in slots :: s.cart in carts.Values && s.product in catalogue)
      && (forall o | o in orders :: orders[o].totalCents == ItemsTotal(orders[o].items))
    }

    constructor (catalogue: map<ProductId, Product>, cookie: Option<nat>)
      ensures Valid() && carts == map[] && slots == map[] && orders == map[]
      ensures this.catalogue == catalogue && this.cookie == cookie
    {
      carts, slots, orders := map[], map[], map[];
      this.catalogue := catalogue;
      this.cookie := cookie;
    }

    method EnsureCart(owner: Owner, unused: CartId) returns (cart: CartId)
      requires Valid() && unused !in carts.Values
      modifies this`carts
      ensures Valid() && owner in carts && carts[owner] == cart
      ensures carts == if owner in old(carts) then old(carts) else old(carts)[owner := unused]
      ensures forall o, p :: Quantity(carts, slots, o, p) == Quantity(old(carts), slots, o, p)
    {
      if owner in carts {
        return carts[owner];
      }
      carts := carts[owner := unused];
      cart := unused;
      assert forall a | a in old(carts) :: carts[a] == old(carts)[a] && carts[a] in carts.Values;
    }

    /** addItem: the increment is one upsert; a product that does not exist breaks a foreign key. */
    method AddItem(owner: Owner, product: ProductId, quantity: int, unused: CartId) returns (answer: Result<(), ()>)
      requires Valid() && unused !in carts.Values
      modifies this`carts, this`slots
      ensures Valid()
      ensures answer.Ok? <==> product in catalogue
      ensures forall o, p :: (Quantity(carts, slots, o, p)
        == Quantity(old(carts), old(slots), o, p) + if answer.Ok? && o == owner && p == product then quantity else 0)
    {
      var cart := EnsureCart(owner, unused);
      if product !in catalogue {
        return Err(());
      }
      slots := Add(slots, Slot(cart, product), quantity);
      return Ok(());
    }

    /** setQuantity: changes a line that is there, and removes it at zero or below. */
    method SetQuantity(owner: Owner, product: ProductId, quantity: int)
      requires Valid()
      modifies this`slots
      ensures Valid()
      ensures forall o, p :: (Quantity(carts, slots, o, p)
        == if o == owner && p == product && owner in carts && Slot(carts[owner], product) in old(slots)
           then if quantity <= 0 then 0 else quantity
           else Quantity(carts, old(slots), o, p))
    {
      if owner in carts {
        var slot := Slot(carts[owner], product);
        if quantity <= 0 {
          slots := slots - {slot};
        } else if slot in slots {
          slots := slots[slot := quantity];
        }
      }
    }

    /** mergeGuestCart. Every product's quantity becomes the user's plus the guest's; the guest's
        cart and cookie go; nobody else's cart changes. */
    method MergeGuestCart(user: nat, unused: CartId)
      requires Valid() && unused !in carts.Values
      modifies this`carts, this`slots, this`cookie
      ensures Valid() && cookie == None
      ensures old(cookie) == None ==> carts == old(carts) && slots == old(slots)
      ensures old(cookie).Some? ==>
                var guest := Guest(old(cookie).value);
                && guest !in carts
                && (forall p :: Quantity(carts, slots, User(user), p)
                     == Quantity(old(carts), old(slots), User(user), p) + Quantity(old(carts), old(slots), guest, p))
                && (forall o, p | o != User(user) && o != guest ::
                  Quantity(carts, slots, o, p) == Quantity(old(carts), old(slots), o, p))
                && (forall o | o != User(user) && o != guest :: o in carts <==> o in old(carts))
    {
      if cookie.None? {
        return;
      }
      var guest := Guest(cookie.value);
      cookie := None;
      if guest !in carts {
        return;
      }
      if exists s :: s in slots && s.cart == carts[guest] {
        FoldInto(guest, User(user), unused);
      }
      DropCart(guest);
    }

    method FoldInto(guest: Owner, user: Owner, unused: CartId)
      requires Valid() && guest in carts && guest != user && unused !in carts.Values
      modifies this`carts, this`slots
      ensures Valid() && guest in carts
      ensures forall o, p :: (Quantity(carts, slots, o, p)
        == Quantity(old(carts), old(slots), o, p) + if o == user then Quantity(old(carts), old(slots), guest, p) else 0)
      ensures forall o | o != user :: o in carts <==> o in old(carts)
    {
      var userCart := EnsureCart(user, unused);
      ghost var before := slots;
      assert userCart != carts[guest];
      FoldLines(carts[guest], userCart);
      assert carts[user] in carts.Values;
      forall o, p
        ensures Quantity(carts, slots, o, p)
          == Quantity(carts, before, o, p) + if o == user then Quantity(carts, before, guest, p) else 0
      {
        assert o in carts && carts[o] == userCart ==> o == user;
      }
    }

    /** The loop of mergeGuestCart: one upsert for each line of the guest's cart. */
    method FoldLines(guestCart: CartId, userCart: CartId)
      requires guestCart != userCart
      requires forall s | s in slots :: s.product in catalogue
      modifies this`slots
      ensures forall s ::
        At(slots, s) == At(old(slots), s) + if s.cart == userCart then At(old(slots), Slot(guestCart, s.product)) else 0
      ensures forall s | s in slots :: s in old(slots) || (s.cart == userCart && s.product in catalogue)
    {
      var pending := set s | s in slots && s.cart == guestCart :: s.product;
      forall s: Slot | s.product !in pending ensures At(slots, Slot(guestCart, s.product)) == 0 {
        assert Slot(guestCart, s.product) in slots ==> Slot(guestCart, s.product).product in pending;
      }
      while pending != {}
        invariant forall p | p in pending :: Slot(guestCart, p) in old(slots)
        invariant forall s | s in slots :: s in old(slots) || (s.cart == userCart && s.product in catalogue)
        invariant forall s {:trigger At(slots, s)} :: (At(slots, s)
          == At(old(slots), s)
             + if s.cart == userCart && s.product !in pending then At(old(slots), Slot(guestCart, s.product)) else 0)
        decreases |pending|
      {
        var product :| product in pending;
        pending := pending - {product};
        ghost var before := slots;
        slots := Add(slots, Slot(userCart, product), At(slots, Slot(guestCart, product)));
        assert forall s ::
          At(slots, s)
          == At(before, s) + if s == Slot(userCart, product) then At(before, Slot(guestCart, product)) else 0;
      }
    }

    /** The join of a cart's rows with the catalogue, in any order. */
    method ReadLines(cart: CartId) returns (lines: seq<Line>)
      requires Valid()
      ensures Lists(lines, cart, slots, catalogue)
    {
      lines := [];
      var pending := ProductsIn(slots, cart);
      while pending != {}
        invariant PartlyLists(lines, pending, cart, slots, catalogue)
        decreases |pending|
      {
        var product :| product in pending;
        var line := Line(product, catalogue[product].priceCents, slots[Slot(cart, product)]);
        ListsOneMore(lines, pending, line, cart, slots, catalogue);
        pending := pending - {product};
        lines := lines + [line];
      }
    }

    /** readCart: the lines of a cart, and their total. */
    method ReadCart(owner: Owner) returns (lines: seq<Line>, totalCents: int)
      requires Valid()
      ensures owner in carts ==> Lists(lines, carts[owner], slots, catalogue)
      ensures owner !in carts ==> lines == []
      ensures totalCents == LinesTotal(lines)
    {
      lines, totalCents := [], 0;
      if owner !in carts {
        return;
      }
      lines := ReadLines(carts[owner]);
      for i := 0 to |lines|
        invariant totalCents == LinesTotal(lines[..i])
      {
        assert lines[..i + 1][..i] == lines[..i];
        totalCents := totalCents + lines[i].unitPriceCents * lines[i].quantity;
      }
      assert lines[..|lines|] == lines;
    }

    /** The shop edits its catalogue; lines of products that go, go with them. */
    method Restock(catalogue: map<ProductId, Product>)
      requires Valid()
      modifies this`catalogue, this`slots
      ensures Valid() && this.catalogue == catalogue
      ensures forall o, p ::
        Quantity(carts, slots, o, p) == if p in catalogue then Quantity(carts, old(slots), o, p) else 0
    {
      this.catalogue := catalogue;
      slots := map s | s in slots && s.product in catalogue :: slots[s];
    }

    /** The two loops of checkoutAction: one adds up, the other inserts. */
    method PlaceOrder(user: nat, lines: seq<Line>, orderId: OrderId)
      requires Valid() && orderId !in orders
      modifies this`orders
      ensures Valid()
      ensures orders == old(orders)[orderId :=
        Order(user, ItemsTotal(Agreed(lines, catalogue)), Agreed(lines, catalogue))]
    {
      var totalCents := 0;
      for i := 0 to |lines|
        invariant totalCents == ItemsTotal(Agreed(lines[..i], catalogue)) && orders == old(orders)
      {
        OneMoreLine(lines, i, catalogue);
        if lines[i].product in catalogue {
          totalCents := totalCents + catalogue[lines[i].product].priceCents * lines[i].quantity;
        }
      }
      assert lines[..|lines|] == lines;
      var items := [];
      for i := 0 to |lines|
        invariant items == Agreed(lines[..i], catalogue) && orders == old(orders)
      {
        OneMoreLine(lines, i, catalogue);
        if lines[i].product in catalogue {
          var current := catalogue[lines[i].product];
          items := items + [Item(lines[i].product, current.name, current.priceCents, lines[i].quantity)];
        }
      }
      orders := orders[orderId := Order(user, totalCents, items)];
    }

    /** clearCart, then the cart's own row. */
    method DropCart(owner: Owner)
      requires Valid()
      modifies this`carts, this`slots
      ensures Valid() && carts == old(carts) - {owner}
      ensures forall o, p ::
        (Quantity(carts, slots, o, p) == if o == owner then 0 else Quantity(old(carts), old(slots), o, p))
    {
      if owner in carts {
        Dropping(carts, slots, owner);
        slots := Without(slots, carts[owner]);
        carts := carts - {owner};
      }
    }

    /** What checkoutAction does with the lines it read, however the catalogue has changed since. */
    method Settle(user: nat, lines: seq<Line>, later: map<ProductId, Product>, orderId: OrderId)
      requires Valid() && orderId !in orders
      modifies this`carts, this`slots, this`catalogue, this`orders
      ensures Valid() && catalogue == later && carts == old(carts) - {User(user)}
      ensures orders == old(orders)[orderId := Order(user, ItemsTotal(Agreed(lines, later)), Agreed(lines, later))]
      ensures forall o, p | o != User(user) && p in later ::
        Quantity(carts, slots, o, p) == Quantity(old(carts), old(slots), o, p)
    {
      Restock(later);
      PlaceOrder(user, lines, orderId);
      DropCart(User(user));
    }

    /** checkoutAction. It places an order exactly when the cart holds something; the order is a
        bill for the cart as it was read, its stored total is the sum over the items inserted with
        it, the cart is gone and no other changes. */
    method Checkout(user: nat, later: map<ProductId, Product>, orderId: OrderId) returns (placed: Option<Order>)
      requires Valid() && orderId !in orders
      modifies this`carts, this`slots, this`catalogue, this`orders
      ensures Valid()
      ensures placed.Some? <==> User(user) in old(carts) && ProductsIn(old(slots), old(carts)[User(user)]) != {}
      ensures placed == None ==> carts == old(carts) && slots == old(slots) && orders == old(orders)
      ensures placed.Some? ==>
                && orders == old(orders)[orderId := placed.value]
                && placed.value.userId == user && placed.value.totalCents == ItemsTotal(placed.value.items)
                && IsBill(placed.value.items, old(carts)[User(user)], old(slots), later)
                && carts == old(carts) - {User(user)}
                && forall o, p | o != User(user) && p in later ::
                  Quantity(carts, slots, o, p) == Quantity(old(carts), old(slots), o, p)
    {
      var lines, _ := ReadCart(User(user));
      if |lines| == 0 {
        return None;
      }
      var cart := carts[User(user)];
      BillOfLines(lines, cart, slots, catalogue, later);
      BilledOnce(lines, later);
      assert Last(lines).product in ProductsIn(slots, cart);
      Settle(user, lines, later, orderId);
      placed := Some(orders[orderId]);
    }
  }

  lemma OneMoreLine(lines: seq<Line>, i: nat, catalogue: map<ProductId, Product>)
    requires i < |lines|
    ensures var before := Agreed(lines[..i], catalogue);
      var after := Agreed(lines[..i + 1], catalogue);
      if lines[i].product !in catalogue then after == before
      else
        var now := catalogue[lines[i].product];
        && after == before + [Item(lines[i].product, now.name, now.priceCents, lines[i].quantity)]
        && ItemsTotal(after) == ItemsTotal(before) + now.priceCents * lines[i].quantity
  {
    assert lines[..i + 1][..i] == lines[..i];
    var after := Agreed(lines[..i + 1], catalogue);
    if lines[i].product in catalogue {
      assert after[..|after| - 1] == Agreed(lines[..i], catalogue);
    }
  }

  lemma {:induction false} AtMostOnce(lines: seq<Line>)
    ensures |Products(lines)| <= |lines|
  {
    if lines != [] {
      AtMostOnce(lines[..|lines| - 1]);
    }
  }

  /** The items of an order are a bill for the lines it was made from. */
  lemma {:induction false} BillOfLines(lines: seq<Line>, cart: CartId, slots: map<Slot, int>,
      before: map<ProductId, Product>, now: map<ProductId, Product>)
    requires forall l | l in lines :: LineFor(l, cart, slots, before)
    ensures forall t | t in Agreed(lines, now) :: BillsFor(t, cart, slots, now)
  {
    if lines != [] {
      assert LineFor(Last(lines), cart, slots, before);
      BillOfLines(lines[..|lines| - 1], cart, slots, before, now);
    }
  }

  lemma LastIsNew(lines: seq<Line>)
    requires lines != [] && |Products(lines)| == |lines|
    ensures Last(lines).product !in Products(lines[..|lines| - 1])
    ensures |Products(lines[..|lines| - 1])| == |lines| - 1
  {
    AtMostOnce(lines[..|lines| - 1]);
  }

  lemma BilledGrows(items: seq<Item>, item: Item)
    requires |Billed(items)| == |items| && item.product !in Billed(items)
    ensures Billed(items + [item]) == Billed(items) + {item.product}
    ensures |Billed(items + [item])| == |items| + 1
  {
    assert (items + [item])[..|items|] == items;
  }

  lemma OneMoreSold(products: set<ProductId>, product: ProductId, sold: set<ProductId>)
    ensures (products + {product}) * sold == products * sold + if product in sold then {product} else {}
  {
  }

  lemma {:induction false} BilledOnce(lines: seq<Line>, now: map<ProductId, Product>)
    requires |Products(lines)| == |lines|
    ensures Billed(Agreed(lines, now)) == Products(lines) * now.Keys
    ensures |Billed(Agreed(lines, now))| == |Agreed(lines, now)|
  {
    if lines != [] {
      var n := |lines| - 1;
      var rest, product := lines[..n], lines[n].product;
      LastIsNew(lines);
      BilledOnce(rest, now);
      OneMoreLine(lines, n, now);
      assert lines[..n + 1] == lines;
      var set0 := Products(rest);
      assert Products(lines) == set0 + {product};
      OneMoreSold(set0, product, now.Keys);
      if product in now {
        BilledGrows(Agreed(rest, now), Item(product, now[product].name, now[product].priceCents, lines[n].quantity));
      }
    }
  }

  /** The order costs what the cart page showed whenever no price changed in between and nothing
      was withdrawn. */
  lemma {:induction false} BillIsWhatWasShown(lines: seq<Line>, now: map<ProductId, Product>)
    requires forall i | 0 <= i < |lines| ::
      lines[i].product in now && now[lines[i].product].priceCents == lines[i].unitPriceCents
    ensures ItemsTotal(Agreed(lines, now)) == LinesTotal(lines) && |Agreed(lines, now)| == |lines|
  {
    if lines != [] {
      BillIsWhatWasShown(lines[..|lines| - 1], now);
      OneMoreLine(lines, |lines| - 1, now);
      assert lines[..|lines|] == lines;
    }
  }

  /** Totals add: what is bought costs its price as often as it is bought, whatever else is. */
  lemma {:induction false} TotalsAdd(a: seq<Item>, b: seq<Item>, product: ProductId, name: string, price: int,
      quantity: int)
    ensures ItemsTotal(a + b) == ItemsTotal(a) + ItemsTotal(b)
    ensures ItemsTotal([Item(product, name, price, quantity)]) == price * quantity
    decreases |b|
  {
    var one := [Item(product, name, price, quantity)];
    assert one[..0] == [] && ItemsTotal(one) == ItemsTotal([]) + price * quantity;
    if b == [] {
      assert a + b == a;
    } else {
      assert (a + b)[..|a + b| - 1] == a + b[..|b| - 1] && Last(a + b) == Last(b);
      TotalsAdd(a, b[..|b| - 1], product, name, price, quantity);
    }
  }
}
