/**
 * What placing an order does to the item table, as a function of the
 * rows: the reference the order services are proved against.
 */
module Batches {
  import opened Common
  import opened Items

  /** One requested line: `OrderDto` (item id and count). */
  datatype OrderDto = OrderDto(itemId: int, count: Int32)

  /**
   * One request against the current rows: `findById`, which throws
   * EntityNotFound for an unknown id, then `removeStock`, which throws
   * OutOfStock with the current stock when its guard refuses.
   */
  function DeductOne(rows: map<int, ItemData>, d: OrderDto): (r: Result<map<int, ItemData>>)
    ensures d.itemId !in rows ==> r == Err(EntityNotFound)
    ensures d.itemId in rows ==>
      (r.Err? <==> Sub32(rows[d.itemId].stockNumber, d.count) < 0)
      && (r.Err? ==> r.error == OutOfStock(rows[d.itemId].stockNumber))
    ensures r.Ok? ==>
      && r.value.Keys == rows.Keys && 0 <= r.value[d.itemId].stockNumber
      && r.value[d.itemId] == rows[d.itemId].(stockNumber := r.value[d.itemId].stockNumber)
      && forall k :: k in rows && k != d.itemId ==> r.value[k] == rows[k]
    ensures d.itemId in rows && 0 <= d.count <= rows[d.itemId].stockNumber ==>
      r.Ok? && r.value[d.itemId].stockNumber == rows[d.itemId].stockNumber - d.count
  {
    if d.itemId !in rows then Err(EntityNotFound)
    else
      var row := rows[d.itemId];
      var rest := Sub32(row.stockNumber, d.count);
      if rest < 0 then Err(OutOfStock(row.stockNumber))
      else Ok(rows[d.itemId := row.(stockNumber := rest)])
  }

  /**
   * The requests applied one after another in list order: the rows
   * afterwards, or the exception of the first request that fails.
   */
  function Deduct(rows: map<int, ItemData>, dtos: seq<OrderDto>): (r: Result<map<int, ItemData>>)
    ensures r.Ok? ==> r.value.Keys == rows.Keys
    ensures r.Ok? ==> forall k :: k in rows ==> r.value[k] == rows[k].(stockNumber := r.value[k].stockNumber)
  {
    if dtos == [] then Ok(rows)
    else
      match Deduct(rows, dtos[..|dtos| - 1])
      case Err(e) => Err(e)
      case Ok(m) => DeductOne(m, dtos[|dtos| - 1])
  }

  /** The total count the requests ask of item `id` (exact sum). */
  function Requested(dtos: seq<OrderDto>, id: int): int {
    if dtos == [] then 0
    else
      var last := dtos[|dtos| - 1];
      Requested(dtos[..|dtos| - 1], id) + (if last.itemId == id then last.count else 0)
  }

  /** Deducting one more request is one more step on the prefix's rows. */
  lemma DeductStep(rows: map<int, ItemData>, dtos: seq<OrderDto>, i: nat)
    requires i < |dtos|
    ensures Deduct(rows, dtos[..i + 1]) ==
      match Deduct(rows, dtos[..i])
      case Err(e) => Err(e)
      case Ok(m) => DeductOne(m, dtos[i])
  {
    assert dtos[..i + 1][..i] == dtos[..i];
  }

  /** A batch of one request is that request. */
  lemma DeductSingle(rows: map<int, ItemData>, d: OrderDto)
    ensures Deduct(rows, [d]) == DeductOne(rows, d)
  {
    assert [d][..0] == [];
  }

  /** Once a prefix fails, the whole batch fails with the same exception. */
  lemma {:induction false} DeductErrSticks(rows: map<int, ItemData>, dtos: seq<OrderDto>, i: nat)
    requires i <= |dtos| && Deduct(rows, dtos[..i]).Err?
    ensures Deduct(rows, dtos) == Deduct(rows, dtos[..i])
    decreases |dtos| - i
  {
    if i == |dtos| {
      assert dtos[..i] == dtos;
    } else {
      DeductStep(rows, dtos, i);
      DeductErrSticks(rows, dtos, i + 1);
    }
  }

  /** The stock of item `id`, starting from `s0`, after each request for it is subtracted with Java `-`. */
  function Remaining(s0: Int32, dtos: seq<OrderDto>, id: int): Int32 {
    if dtos == [] then s0
    else
      var last := dtos[|dtos| - 1];
      var prev := Remaining(s0, dtos[..|dtos| - 1], id);
      if last.itemId == id then Sub32(prev, last.count) else prev
  }

  /** Subtracting the requests one at a time is subtracting their exact sum, wrapped once. */
  lemma {:induction false} RemainingIsWrapped(s0: Int32, dtos: seq<OrderDto>, id: int)
    ensures Remaining(s0, dtos, id) == Wrap32(s0 - Requested(dtos, id))
  {
    if dtos != [] {
      var front := dtos[..|dtos| - 1];
      RemainingIsWrapped(s0, front, id);
      if dtos[|dtos| - 1].itemId == id {
        Wrap32Sub(s0 - Requested(front, id), dtos[|dtos| - 1].count);
      }
    }
  }

  /** After a successful batch, an item's stock is what its requests leave of the old one. */
  lemma {:induction false} DeductRemaining(rows: map<int, ItemData>, dtos: seq<OrderDto>, k: int)
    requires Deduct(rows, dtos).Ok? && k in rows
    ensures Deduct(rows, dtos).value[k].stockNumber == Remaining(rows[k].stockNumber, dtos, k)
  {
    if dtos != [] {
      DeductRemaining(rows, dtos[..|dtos| - 1], k);
    }
  }

  /**
   * After a successful batch every item is either untouched or left with a
   * non-negative stock: each deduction passed the guard.
   */
  lemma {:induction false} DeductLeavesNonNegative(rows: map<int, ItemData>, dtos: seq<OrderDto>)
    requires Deduct(rows, dtos).Ok?
    ensures forall k :: k in rows ==>
      Deduct(rows, dtos).value[k] == rows[k] || Deduct(rows, dtos).value[k].stockNumber >= 0
  {
    if dtos != [] {
      DeductLeavesNonNegative(rows, dtos[..|dtos| - 1]);
    }
  }

  /** A batch naming an item that is not in the table fails. */
  lemma {:induction false} DeductMissing(rows: map<int, ItemData>, dtos: seq<OrderDto>, j: nat)
    requires j < |dtos| && dtos[j].itemId !in rows
    ensures Deduct(rows, dtos).Err?
  {
    DeductStep(rows, dtos, j);
    DeductErrSticks(rows, dtos, j + 1);
  }

  /** Requests with non-negative counts ask at least as much of every item as any prefix. */
  lemma {:induction false} RequestedPrefix(dtos: seq<OrderDto>, i: nat, id: int)
    requires i <= |dtos|
    requires forall j :: 0 <= j < |dtos| ==> dtos[j].count >= 0
    ensures Requested(dtos[..i], id) <= Requested(dtos, id)
    decreases |dtos| - i
  {
    if i == |dtos| {
      assert dtos[..i] == dtos;
    } else {
      RequestedPrefix(dtos, i + 1, id);
      assert dtos[..i + 1][..i] == dtos[..i];
      assert Requested(dtos[..i + 1], id)
        == Requested(dtos[..i], id) + (if dtos[i].itemId == id then dtos[i].count else 0);
    }
  }

  /** Non-negative counts add up to a non-negative request. */
  lemma {:induction false} RequestedNonNegative(dtos: seq<OrderDto>, id: int)
    requires forall j :: 0 <= j < |dtos| ==> dtos[j].count >= 0
    ensures Requested(dtos, id) >= 0
  {
    if dtos != [] {
      RequestedNonNegative(dtos[..|dtos| - 1], id);
    }
  }

  /**
   * A batch succeeds when every item exists, every count is non-negative and
   * no item is asked for more than its non-negative stock in total.
   */
  lemma DeductSucceeds(rows: map<int, ItemData>, dtos: seq<OrderDto>)
    requires forall j :: 0 <= j < |dtos| ==> dtos[j].itemId in rows && dtos[j].count >= 0
    requires forall k :: k in rows ==> 0 <= Requested(dtos, k) <= rows[k].stockNumber
    ensures Deduct(rows, dtos).Ok?
  {
    PrefixSucceeds(rows, dtos, |dtos|);
    assert dtos[..|dtos|] == dtos;
  }

  /**
   * The converse of `DeductSucceeds` for a short item: with non-negative
   * counts and stocks, a batch that asks more of an item than it holds in
   * total fails.
   */
  lemma {:induction false} DeductShort(rows: map<int, ItemData>, dtos: seq<OrderDto>, k: int)
    requires forall j :: 0 <= j < |dtos| ==> dtos[j].count >= 0
    requires forall x :: x in rows ==> rows[x].stockNumber >= 0
    requires k in rows && Requested(dtos, k) > rows[k].stockNumber
    ensures Deduct(rows, dtos).Err?
  {
    var front, last := dtos[..|dtos| - 1], dtos[|dtos| - 1];
    assert forall j :: 0 <= j < |front| ==> front[j] == dtos[j];
    if Requested(front, k) > rows[k].stockNumber {
      DeductShort(rows, front, k);
    } else if Deduct(rows, front).Ok? {
      assert last.itemId == k;
      RequestedNonNegative(front, k);
      DeductRemaining(rows, front, k);
      RemainingIsWrapped(rows[k].stockNumber, front, k);
      var left := rows[k].stockNumber - Requested(front, k);
      assert Deduct(rows, front).value[k].stockNumber == left;
      assert Sub32(left, last.count) == left - last.count < 0;
    }
  }

  /** Under the same conditions every prefix of the batch succeeds, each item down by what the prefix asks of it. */
  lemma {:induction false} PrefixSucceeds(rows: map<int, ItemData>, dtos: seq<OrderDto>, i: nat)
    requires i <= |dtos|
    requires forall j :: 0 <= j < |dtos| ==> dtos[j].itemId in rows && dtos[j].count >= 0
    requires forall k :: k in rows ==> 0 <= Requested(dtos, k) <= rows[k].stockNumber
    ensures Deduct(rows, dtos[..i]).Ok?
    ensures forall k :: k in rows ==>
      Deduct(rows, dtos[..i]).value[k].stockNumber == rows[k].stockNumber - Requested(dtos[..i], k)
  {
    if i > 0 {
      PrefixSucceeds(rows, dtos, i - 1);
      DeductStep(rows, dtos, i - 1);
      var d := dtos[i - 1];
      RequestedPrefix(dtos, i, d.itemId);
      RequestedPrefix(dtos, i - 1, d.itemId);
      assert dtos[..i][..i - 1] == dtos[..i - 1];
      RequestedNonNegative(dtos[..i - 1], d.itemId);
      forall k | k in rows
        ensures Deduct(rows, dtos[..i]).value[k].stockNumber == rows[k].stockNumber - Requested(dtos[..i], k)
      {
        assert Requested(dtos[..i], k)
          == Requested(dtos[..i - 1], k) + (if d.itemId == k then d.count else 0);
      }
    }
  }
}
