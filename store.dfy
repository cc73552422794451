/**
 * The database the repositories read and write: one table per entity and
 * the id sequence they all draw from (`GenerationType.AUTO`). Items and
 * orders are objects, because the services change them in place; members,
 * images, carts and cart lines are rows held by value.
 */
module Store {
  import opened Common
  import opened Seqs
  import opened Queries
  import opened Items
  import opened Members
  import opened Carts
  import opened Orders

  /** The tables as values: what a transaction rollback restores. */
  datatype Tables = Tables(
    members: map<int, Member>,
    items: map<int, Item>,
    itemImgs: map<int, ItemImg>,
    carts: map<int, Cart>,
    cartItems: map<int, CartItem>,
    orders: map<int, Order>)

  /** Two cart lines hold the same item in the same cart. */
  predicate SameSlot(x: CartItem, y: CartItem) {
    x.cartId == y.cartId && x.itemId == y.itemId
  }

  /** `img` is a representative image of item `itemId`. */
  predicate IsRepImg(img: ItemImg, itemId: int) {
    img.itemId == itemId && img.repimgYn == REPRESENTATIVE
  }

  /** The emails of a member table. */
  ghost function EmailsOf(table: map<int, Member>): set<string> {
    set k | k in table :: table[k].email
  }

  /** Adding a row under a new key adds exactly its email. */
  lemma EmailsOfInsert(table: map<int, Member>, k: int, m: Member)
    requires k !in table
    ensures EmailsOf(table[k := m]) == EmailsOf(table) + {m.email}
  {
    var t := table[k := m];
    assert m.email == t[k].email;
    forall e | e in EmailsOf(table) ensures e in EmailsOf(t) {
      var j :| j in table && table[j].email == e;
      assert t[j] == table[j];
    }
  }

  /**
   * Integrity of the tables: every row sits under its own id, drawn from the
   * sequence (below `bound`); foreign keys point at existing rows; emails
   * are unique; a member has at most one cart and a cart at most one line
   * per item.
   */
  ghost predicate TablesOk(t: Tables, bound: int) {
    && 1 <= bound
    && MemberTableOk(t.members, bound)
    && ItemTableOk(t.items, bound)
    && ImgTableOk(t.itemImgs, t.items, bound)
    && CartTableOk(t.carts, t.members, bound)
    && CartItemTableOk(t.cartItems, t.carts, t.items, bound)
    && (forall k :: k in t.orders ==> 0 < k < bound)
  }

  ghost predicate MemberTableOk(members: map<int, Member>, bound: int) {
    && (forall k :: k in members ==> members[k].id == k && 0 < k < bound)
    && (forall a, b :: a in members && b in members && members[a].email == members[b].email ==> a == b)
  }

  ghost predicate ItemTableOk(items: map<int, Item>, bound: int) {
    forall k :: k in items ==> items[k].id == k && 0 < k < bound
  }

  ghost predicate ImgTableOk(itemImgs: map<int, ItemImg>, items: map<int, Item>, bound: int) {
    forall k :: k in itemImgs ==> itemImgs[k].id == k && 0 < k < bound && itemImgs[k].itemId in items
  }

  ghost predicate CartTableOk(carts: map<int, Cart>, members: map<int, Member>, bound: int) {
    && (forall k :: k in carts ==> carts[k].id == k && 0 < k < bound && carts[k].memberId in members)
    && (forall a, b :: a in carts && b in carts && carts[a].memberId == carts[b].memberId ==> a == b)
  }

  ghost predicate CartItemTableOk(
    cartItems: map<int, CartItem>, carts: map<int, Cart>, items: map<int, Item>, bound: int)
  {
    && (forall k :: k in cartItems ==>
          cartItems[k].id == k && 0 < k < bound && cartItems[k].cartId in carts && cartItems[k].itemId in items)
    && (forall a, b :: a in cartItems && b in cartItems && SameSlot(cartItems[a], cartItems[b]) ==> a == b)
  }

  /** Raising the bound keeps the tables valid. */
  lemma TablesOkGrow(t: Tables, bound: int, bound': int)
    requires TablesOk(t, bound) && bound <= bound'
    ensures TablesOk(t, bound')
  {
  }

  /** A member saved under the next id, with an email not yet taken, keeps the tables valid. */
  lemma InsertMemberOk(t: Tables, bound: int, m: Member)
    requires TablesOk(t, bound) && m.id == bound && m.email !in EmailsOf(t.members)
    ensures TablesOk(t.(members := t.members[bound := m]), bound + 1)
  {
    assert forall k :: k in t.members ==> t.members[k].email in EmailsOf(t.members);
  }

  /** An order saved under the next id keeps the tables valid. */
  lemma InsertOrderOk(t: Tables, bound: int, o: Order)
    requires TablesOk(t, bound)
    ensures TablesOk(t.(orders := t.orders[bound := o]), bound + 1)
  {
  }

  class Shop {
    var members: map<int, Member>
    var items: map<int, Item>
    var itemImgs: map<int, ItemImg>
    var carts: map<int, Cart>
    var cartItems: map<int, CartItem>
    var orders: map<int, Order>
    /** The next value of the shared id sequence. */
    var nextId: nat

    /** An empty database. */
    constructor ()
      ensures Valid()
      ensures Snapshot() == Tables(map[], map[], map[], map[], map[], map[])
    {
      members, items, itemImgs := map[], map[], map[];
      carts, cartItems, orders := map[], map[], map[];
      nextId := 1;
    }

    function Snapshot(): Tables
      reads this
    {
      Tables(members, items, itemImgs, carts, cartItems, orders)
    }

    /** The item table's rows, read through the item objects. */
    function ItemRows(): (r: map<int, ItemData>)
      reads this, items.Values
      ensures ItemsAre(r)
    {
      map k | k in items :: items[k].Data()
    }

    /** The item objects hold exactly the rows `rows`. */
    ghost predicate ItemsAre(rows: map<int, ItemData>)
      reads this, items.Values
    {
      items.Keys == rows.Keys && forall k :: k in items ==> items[k].Data() == rows[k]
    }

    /**
     * A transaction rollback on the item table: every item object gets back
     * the fields of its row in `rows`. Nothing else changes.
     */
    method RestoreItems(rows: map<int, ItemData>)
      requires ItemTableOk(items, nextId)
      requires items.Keys == rows.Keys && forall k :: k in rows ==> rows[k].id == k
      modifies items.Values
      ensures ItemsAre(rows)
    {
      var keys := KeysBelow(items.Keys, nextId);
      for i := 0 to |keys|
        invariant forall j :: 0 <= j < i ==> items[keys[j]].Data() == rows[keys[j]]
      {
        items[keys[i]].Restore(rows[keys[i]]);
      }
      forall k | k in items ensures items[k].Data() == rows[k] {
        var j :| 0 <= j < |keys| && keys[j] == k;
      }
    }

    /** Integrity of the database: the tables satisfy `TablesOk` under the sequence's next value. */
    ghost predicate Valid()
      reads this
    {
      TablesOk(Snapshot(), nextId)
    }

    /** The emails members are registered under. */
    ghost function Emails(): set<string>
      reads this
    {
      EmailsOf(members)
    }

    /** Some member is registered under `email`. */
    ghost predicate Registered(email: string)
      reads this
    {
      email in Emails()
    }

    /** `memberRepository.findByEmail`: unique emails make it never throw. */
    function FindByEmail(email: string): (r: Result<Option<Member>>)
      reads this
      requires MemberTableOk(members, nextId)
      ensures r.Ok?
      ensures r.value.Some? <==> Registered(email)
      ensures r.value.Some? ==> r.value.value.email == email && r.value.value.id in members && members[r.value.value.id] == r.value.value
    {
      FindOne(members, nextId, (m: Member) => m.email == email)
    }

    /** The member registered under `email`. */
    function MemberOf(email: string): (m: Member)
      reads this
      requires MemberTableOk(members, nextId) && Registered(email)
      ensures m.id in members && members[m.id] == m && m.email == email
    {
      FindByEmail(email).value.value
    }

    /**
     * `itemImgRepository.findByItemIdAndRepimgYn(itemId, "Y")`: null when the
     * item has no representative image, IncorrectResultSize when it has two.
     */
    method FindRepImg(itemId: int) returns (r: Result<Option<ItemImg>>)
      requires ImgTableOk(itemImgs, items, nextId)
      ensures r == Ok(None) <==> NoRepImg(itemId)
      ensures r.Ok? && r.value.Some? ==>
        exists k :: k in itemImgs && IsRepImg(itemImgs[k], itemId) && r.value.value == itemImgs[k]
      ensures r.Err? <==> SeveralRepImgs(itemId)
      ensures r.Err? ==> r.error == IncorrectResultSize
    {
      r := FindOne(itemImgs, nextId, (img: ItemImg) => IsRepImg(img, itemId));
    }

    /** No image is marked representative for item `itemId`. */
    ghost predicate NoRepImg(itemId: int)
      reads this
    {
      forall k :: k in itemImgs ==> !IsRepImg(itemImgs[k], itemId)
    }

    /** Exactly one image is marked representative for item `itemId`. */
    ghost predicate OneRepImg(itemId: int)
      reads this
    {
      !NoRepImg(itemId) && !SeveralRepImgs(itemId)
    }

    /** Two distinct images are both marked representative for item `itemId`. */
    ghost predicate SeveralRepImgs(itemId: int)
      reads this
    {
      exists a, b :: a in itemImgs && b in itemImgs && a < b && IsRepImg(itemImgs[a], itemId) && IsRepImg(itemImgs[b], itemId)
    }

    /** `cartRepository.findByMemberId`: one cart per member makes it never throw. */
    method FindCartByMember(memberId: int) returns (r: Result<Option<Cart>>)
      requires CartTableOk(carts, members, nextId)
      ensures r.Ok?
      ensures r.value.Some? <==> exists k :: k in carts && carts[k].memberId == memberId
      ensures r.value.Some? ==> r.value.value.memberId == memberId && r.value.value.id in carts && carts[r.value.value.id] == r.value.value
    {
      r := FindOne(carts, nextId, (c: Cart) => c.memberId == memberId);
    }

    /** `cartItemRepository.findByCartIdAndItemId`: one line per cart and item makes it never throw. */
    method FindCartItem(cartId: int, itemId: int) returns (r: Result<Option<CartItem>>)
      requires CartItemTableOk(cartItems, carts, items, nextId)
      ensures r.Ok?
      ensures r.value.Some? <==> exists k :: k in cartItems && cartItems[k].cartId == cartId && cartItems[k].itemId == itemId
      ensures r.value.Some? ==>
        && r.value.value.cartId == cartId && r.value.value.itemId == itemId
        && r.value.value.id in cartItems && cartItems[r.value.value.id] == r.value.value
    {
      r := FindOne(cartItems, nextId, (line: CartItem) => line.cartId == cartId && line.itemId == itemId);
    }
  }
}
