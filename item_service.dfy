/**
 * `service/ItemService.java`: registering an item with its images, reading
 * an item with its images, and updating an item and its images. The file
 * service behind `ItemImgService` is not modelled: each uploaded file
 * carries the name under which that service would store it, or nothing
 * when it would throw.
 */
module ItemService {
  import opened Common
  import opened Seqs
  import opened Queries
  import opened Items
  import opened Store

  /** The URL prefix under which stored images are served. */
  const IMG_URL_PREFIX: string := "/images/item/"

  /**
   * An uploaded image file: its original name, whether it has no content,
   * and the name the file service stores it under (None when the file
   * service throws, on upload or on deleting the file it replaces).
   */
  datatype ImgFile = ImgFile(originalFilename: string, isEmpty: bool, stored: Option<string>)

  /** The `repimgYn` flag of the `i`-th uploaded image: only the first is representative. */
  function RepFlag(i: int): string {
    if i == 0 then REPRESENTATIVE else NOT_REPRESENTATIVE
  }

  /** `saveItemImg` calls the file service only for a file with a name, and then it must not throw. */
  predicate Uploads(f: ImgFile) {
    f.originalFilename == "" || f.stored.Some?
  }

  /**
   * How many files `saveItem` saves before the file service throws: all of
   * them, or the index of the first file whose upload fails.
   */
  function UploadedPrefix(files: seq<ImgFile>): (n: nat)
    ensures n <= |files|
    ensures forall i :: 0 <= i < n ==> Uploads(files[i])
    ensures n < |files| ==> !Uploads(files[n])
  {
    if |files| == 0 || !Uploads(files[0]) then 0 else 1 + UploadedPrefix(files[1..])
  }

  /**
   * The row `saveItemImg` saves under `id`: a file without a name is saved
   * with empty stored name and URL, any other under its stored name.
   */
  function NewImg(id: int, itemId: int, repimgYn: string, f: ImgFile): (img: ItemImg)
    ensures img.id == id && img.itemId == itemId && img.repimgYn == repimgYn
    ensures img.oriImgName == f.originalFilename
    ensures f.originalFilename == "" ==> img.imgName == "" && img.imgUrl == ""
    ensures f.originalFilename != "" && Uploads(f) ==>
      img.imgName == f.stored.value && img.imgUrl == IMG_URL_PREFIX + f.stored.value
  {
    if f.originalFilename != "" && f.stored.Some? then
      ItemImg(id, itemId, f.originalFilename, f.stored.value, IMG_URL_PREFIX + f.stored.value, repimgYn)
    else
      ItemImg(id, itemId, f.originalFilename, "", "", repimgYn)
  }

  /** The image rows `saveItem` adds for item `itemId`: file `i` under key `first + i`. */
  function NewImgs(itemId: int, files: seq<ImgFile>, first: int): map<int, ItemImg> {
    FirstImgs(itemId, files, first, |files|)
  }

  /** The rows of the first `n` files, file `i` under key `first + i`. */
  function FirstImgs(itemId: int, files: seq<ImgFile>, first: int, n: nat): map<int, ItemImg>
    requires n <= |files|
  {
    if n == 0 then map[]
    else FirstImgs(itemId, files, first, n - 1)[first + n - 1 := NewImg(first + n - 1, itemId, RepFlag(n - 1), files[n - 1])]
  }

  /** The first `n` files occupy exactly the keys `first .. first + n - 1`, file `k - first` under key `k`. */
  lemma {:induction false} FirstImgsRows(itemId: int, files: seq<ImgFile>, first: int, n: nat)
    requires n <= |files|
    ensures forall k :: k in FirstImgs(itemId, files, first, n) <==> first <= k < first + n
    ensures forall k :: k in FirstImgs(itemId, files, first, n) ==>
      FirstImgs(itemId, files, first, n)[k] == NewImg(k, itemId, RepFlag(k - first), files[k - first])
  {
    if n > 0 {
      FirstImgsRows(itemId, files, first, n - 1);
    }
  }

  /**
   * After `saveItem` the new item's representative images are exactly the
   * first uploaded one: no earlier image can belong to an item id that was
   * not yet in use.
   */
  lemma RepImgsOfNewItem(t: Tables, bound: int, files: seq<ImgFile>)
    requires TablesOk(t, bound)
    ensures var imgs := t.itemImgs + NewImgs(bound, files, bound + 1);
      forall k :: k in imgs ==> (IsRepImg(imgs[k], bound) <==> |files| > 0 && k == bound + 1)
  {
    var imgs := t.itemImgs + NewImgs(bound, files, bound + 1);
    FirstImgsRows(bound, files, bound + 1, |files|);
    forall k | k in imgs ensures IsRepImg(imgs[k], bound) <==> |files| > 0 && k == bound + 1 {
      if k in NewImgs(bound, files, bound + 1) {
        assert imgs[k] == NewImg(k, bound, RepFlag(k - bound - 1), files[k - bound - 1]);
      } else {
        assert k in t.itemImgs && imgs[k] == t.itemImgs[k];
        assert t.itemImgs[k].itemId in t.items;
      }
    }
  }

  /** In the database `saveItem` leaves, the new item has one representative image exactly when a file was uploaded. */
  lemma NewItemRepImg(t: Tables, bound: int, files: seq<ImgFile>, shop: Shop)
    requires TablesOk(t, bound) && shop.itemImgs == t.itemImgs + NewImgs(bound, files, bound + 1)
    ensures shop.OneRepImg(bound) <==> |files| > 0
    ensures shop.NoRepImg(bound) <==> |files| == 0
  {
    RepImgsOfNewItem(t, bound, files);
    if |files| > 0 {
      FirstImgsRows(bound, files, bound + 1, |files|);
      assert bound + 1 in shop.itemImgs && IsRepImg(shop.itemImgs[bound + 1], bound);
    }
  }

  /** Saving file `n` under the next key extends the rows of the first `n` files. */
  lemma ImgsGrow(before: map<int, ItemImg>, itemId: int, files: seq<ImgFile>, first: int, n: nat)
    requires n < |files|
    ensures (before + FirstImgs(itemId, files, first, n))[first + n := NewImg(first + n, itemId, RepFlag(n), files[n])]
         == before + FirstImgs(itemId, files, first, n + 1)
  {
  }

  /** An item saved under the next id keeps the tables valid. */
  lemma InsertItemOk(t: Tables, bound: int, item: Item)
    requires TablesOk(t, bound) && item.id == bound
    ensures TablesOk(t.(items := t.items[bound := item]), bound + 1)
  {
  }

  /** An image of a saved item, saved under the next id, keeps the tables valid. */
  lemma InsertImgOk(t: Tables, bound: int, img: ItemImg)
    requires TablesOk(t, bound) && img.id == bound && img.itemId in t.items
    ensures TablesOk(t.(itemImgs := t.itemImgs[bound := img]), bound + 1)
  {
  }

  /**
   * `saveItem`: the item is saved first, under the next id, then one image
   * row per file, in file order, only the first flagged representative.
   * The file service fails with a checked exception, which does not roll
   * the transaction back: the item and the images saved before the failing
   * file stay in the database.
   */
  method SaveItem(shop: Shop, form: ItemForm, files: seq<ImgFile>) returns (r: Result<int>)
    requires shop.Valid()
    modifies shop
    ensures shop.Valid()
    ensures r.Ok? <==> forall i :: 0 <= i < |files| ==> Uploads(files[i])
    ensures r.Ok? ==> r.value == old(shop.nextId)
    ensures r.Err? ==> r.error == ImageServiceFailure && !RollsBack(r.error)
    ensures var id, k := old(shop.nextId), UploadedPrefix(files);
      && shop.nextId == id + 1 + k
      && id !in old(shop.items) && id in shop.items
      && fresh(shop.items[id]) && shop.items[id].Data() == FormData(id, form)
      && shop.Snapshot() == old(shop.Snapshot()).(
           items := old(shop.items)[id := shop.items[id]],
           itemImgs := old(shop.itemImgs) + FirstImgs(id, files, id + 1, k))
    ensures r.Ok? ==> (shop.OneRepImg(r.value) <==> |files| > 0) && (shop.NoRepImg(r.value) <==> |files| == 0)
  {
    ghost var t0 := shop.Snapshot();
    var id := shop.nextId;
    var item := new Item(id, form);
    InsertItemOk(t0, id, item);
    shop.items := shop.items[id := item];
    shop.nextId := shop.nextId + 1;
    var saved := SaveItemImgs(shop, id, files);
    if !saved {
      return Err(ImageServiceFailure);
    }
    NewItemRepImg(t0, id, files, shop);
    r := Ok(id);
  }

  /**
   * The image loop of `saveItem` for the saved item `itemId`: file `i` is
   * saved under the next id with flag `RepFlag(i)`, until the file service
   * throws.
   */
  method SaveItemImgs(shop: Shop, itemId: int, files: seq<ImgFile>) returns (saved: bool)
    requires shop.Valid() && itemId in shop.items
    modifies shop
    ensures shop.Valid()
    ensures saved <==> UploadedPrefix(files) == |files|
    ensures shop.nextId == old(shop.nextId) + UploadedPrefix(files)
    ensures shop.Snapshot() == old(shop.Snapshot()).(
      itemImgs := old(shop.itemImgs) + FirstImgs(itemId, files, old(shop.nextId), UploadedPrefix(files)))
  {
    ghost var t0, b0 := shop.Snapshot(), shop.nextId;
    for i := 0 to |files|
      invariant shop.Valid() && shop.nextId == b0 + i
      invariant shop.Snapshot() == t0.(itemImgs := shop.itemImgs)
      invariant shop.itemImgs == t0.itemImgs + FirstImgs(itemId, files, b0, i)
      invariant forall j :: 0 <= j < i ==> Uploads(files[j])
    {
      if !Uploads(files[i]) {
        assert UploadedPrefix(files) == i;
        return false;
      }
      SaveItemImg(shop, itemId, files, b0, i, t0.itemImgs);
    }
    saved := true;
  }

  /** Round `i` of the image loop of `saveItem`: file `i` saved under the next id. */
  method SaveItemImg(shop: Shop, itemId: int, files: seq<ImgFile>, ghost first: int, i: nat, ghost before: map<int, ItemImg>)
    requires i < |files| && shop.Valid() && itemId in shop.items && shop.nextId == first + i
    requires shop.itemImgs == before + FirstImgs(itemId, files, first, i)
    modifies shop
    ensures shop.Valid() && shop.nextId == first + i + 1
    ensures shop.Snapshot() == old(shop.Snapshot()).(itemImgs := shop.itemImgs)
    ensures shop.itemImgs == before + FirstImgs(itemId, files, first, i + 1)
  {
    var img := NewImg(shop.nextId, itemId, RepFlag(i), files[i]);
    ghost var t := shop.Snapshot();
    InsertImgOk(t, shop.nextId, img);
    ImgsGrow(before, itemId, files, first, i);
    shop.itemImgs := shop.itemImgs[shop.nextId := img];
    shop.nextId := shop.nextId + 1;
    assert shop.Snapshot() == t.(itemImgs := t.itemImgs[first + i := img]);
  }

  /** `ItemImgDto.of(itemImg)`. */
  datatype ItemImgDto = ItemImgDto(id: int, imgName: string, oriImgName: string, imgUrl: string, repImgYn: string)

  function ImgDto(img: ItemImg): ItemImgDto {
    ItemImgDto(img.id, img.imgName, img.oriImgName, img.imgUrl, img.repimgYn)
  }

  /** `ItemFormDto.of(item)`: the item's fields; its list of image ids stays empty. */
  function FormOf(row: ItemData): ItemForm {
    ItemForm(row.id, row.itemNm, row.price, row.stockNumber, row.itemDetail, row.itemSellStatus, [])
  }

  /** What `getItemDtl` returns: the item as a form, with its images. */
  datatype ItemDtl = ItemDtl(form: ItemForm, itemImgDtoList: seq<ItemImgDto>)

  /** The keys `findByItemIdOrderByIdAsc(itemId)` reads: the item's image keys, ascending. */
  function ImgKeysOf(itemImgs: map<int, ItemImg>, bound: nat, itemId: int): (r: seq<int>)
    ensures Increasing(r)
    ensures forall k :: k in r <==> k in itemImgs && 0 <= k < bound && itemImgs[k].itemId == itemId
  {
    var keys := KeysBelow(itemImgs.Keys, bound);
    FilterIncreasing(keys, k => k in itemImgs && itemImgs[k].itemId == itemId);
    Filter(keys, k => k in itemImgs && itemImgs[k].itemId == itemId)
  }

  /** `itemImgRepository.findByItemIdOrderByIdAsc(itemId)`. */
  function ImgsOf(itemImgs: map<int, ItemImg>, bound: nat, itemId: int): (r: seq<ItemImg>)
    ensures |r| == |ImgKeysOf(itemImgs, bound, itemId)|
    ensures forall i :: 0 <= i < |r| ==> r[i] == itemImgs[ImgKeysOf(itemImgs, bound, itemId)[i]]
  {
    var keys := ImgKeysOf(itemImgs, bound, itemId);
    seq(|keys|, i requires 0 <= i < |keys| => assert keys[i] in keys; itemImgs[keys[i]])
  }

  /** The image query lists exactly the item's stored images, in strictly ascending id order. */
  lemma ImgsOfSorted(itemImgs: map<int, ItemImg>, bound: nat, itemId: int)
    requires forall k :: k in itemImgs ==> itemImgs[k].id == k
    ensures var r := ImgsOf(itemImgs, bound, itemId);
      && (forall i, j :: 0 <= i < j < |r| ==> r[i].id < r[j].id)
      && (forall img :: img in r <==> Stored(img, itemImgs, bound) && img.itemId == itemId)
  {
    var keys := ImgKeysOf(itemImgs, bound, itemId);
    var r := ImgsOf(itemImgs, bound, itemId);
    forall i | 0 <= i < |r| ensures r[i].id == keys[i] {
      assert keys[i] in keys;
    }
    forall img | Stored(img, itemImgs, bound) && img.itemId == itemId ensures img in r {
      var k :| k in itemImgs && 0 <= k < bound && itemImgs[k] == img;
      assert k in keys;
      var i :| 0 <= i < |keys| && keys[i] == k;
      assert r[i] == img;
    }
    forall img | img in r ensures Stored(img, itemImgs, bound) && img.itemId == itemId {
      var i :| 0 <= i < |r| && r[i] == img;
      assert keys[i] in keys;
    }
  }

  /**
   * `getItemDtl`: the item's images as DTOs, in the query's order, and the
   * item as a form; an unknown item throws EntityNotFound.
   */
  method GetItemDtl(shop: Shop, itemId: int) returns (r: Result<ItemDtl>)
    ensures r.Err? <==> itemId !in shop.items
    ensures r.Err? ==> r.error == EntityNotFound
    ensures r.Ok? ==>
      var imgs := ImgsOf(shop.itemImgs, shop.nextId, itemId);
      && r.value.form == FormOf(shop.items[itemId].Data())
      && |r.value.itemImgDtoList| == |imgs|
      && forall i :: 0 <= i < |imgs| ==> r.value.itemImgDtoList[i] == ImgDto(imgs[i])
  {
    var imgs := ImgsOf(shop.itemImgs, shop.nextId, itemId);
    var dtos: seq<ItemImgDto> := [];
    for i := 0 to |imgs|
      invariant |dtos| == i
      invariant forall j :: 0 <= j < i ==> dtos[j] == ImgDto(imgs[j])
    {
      dtos := dtos + [ImgDto(imgs[i])];
    }
    var item := FindById(shop.items, itemId);
    if item.Err? {
      return Err(item.error);
    }
    r := Ok(ItemDtl(FormOf(item.value.Data()), dtos));
  }

  /**
   * `updateItemImg(id, file)` on the image table: an empty file changes
   * nothing; otherwise the image must exist (EntityNotFound) and the file
   * service must not throw, and the row takes the new file's names.
   */
  function UpdateImg(itemImgs: map<int, ItemImg>, id: int, f: ImgFile): (r: Result<map<int, ItemImg>>)
    ensures r.Err? <==> !f.isEmpty && (id !in itemImgs || f.stored.None?)
    ensures r.Ok? ==> r.value.Keys == itemImgs.Keys
  {
    if f.isEmpty then Ok(itemImgs)
    else if id !in itemImgs then Err(EntityNotFound)
    else if f.stored.None? then Err(ImageServiceFailure)
    else
      var name := f.stored.value;
      Ok(itemImgs[id := itemImgs[id].(oriImgName := f.originalFilename, imgName := name, imgUrl := IMG_URL_PREFIX + name)])
  }

  /**
   * The first `n` rounds of `updateItem`'s image loop: round `i` pairs
   * image id `ids[i]` with file `i`, and `ids.get(i)` past the end of the
   * id list throws IndexOutOfBounds.
   */
  function ImgUpdates(itemImgs: map<int, ItemImg>, ids: seq<int>, files: seq<ImgFile>, n: nat)
    : (r: Result<map<int, ItemImg>>)
    requires n <= |files|
    ensures r.Ok? ==> r.value.Keys == itemImgs.Keys
    ensures r.Err? ==> r.error == EntityNotFound || r.error == ImageServiceFailure || r.error == IndexOutOfBounds
    ensures r.Err? && r.error == IndexOutOfBounds ==> |ids| < n
  {
    if n == 0 then Ok(itemImgs)
    else
      match ImgUpdates(itemImgs, ids, files, n - 1)
      case Err(e) => Err(e)
      case Ok(m) => if n - 1 < |ids| then UpdateImg(m, ids[n - 1], files[n - 1]) else Err(IndexOutOfBounds)
  }

  /** Once a round throws, the loop's outcome is that exception. */
  lemma {:induction false} UpdatesStopAtError(
    itemImgs: map<int, ItemImg>, ids: seq<int>, files: seq<ImgFile>, n: nat, m: nat)
    requires n <= m <= |files| && ImgUpdates(itemImgs, ids, files, n).Err?
    ensures ImgUpdates(itemImgs, ids, files, m) == ImgUpdates(itemImgs, ids, files, n)
    decreases m
  {
    if m > n {
      UpdatesStopAtError(itemImgs, ids, files, n, m - 1);
    }
  }

  /** A loop that completes had an image id for every file. */
  lemma {:induction false} UpdatesNeedIds(itemImgs: map<int, ItemImg>, ids: seq<int>, files: seq<ImgFile>, n: nat)
    requires n <= |files| && ImgUpdates(itemImgs, ids, files, n).Ok?
    ensures n <= |ids|
  {
    if n > 0 {
      UpdatesNeedIds(itemImgs, ids, files, n - 1);
    }
  }

  /**
   * Updating images keeps every row under its key, with its id, its item
   * and its representative flag: `updateItem` never changes which image
   * is representative.
   */
  lemma {:induction false} UpdatesKeepRows(itemImgs: map<int, ItemImg>, ids: seq<int>, files: seq<ImgFile>, n: nat)
    requires n <= |files| && ImgUpdates(itemImgs, ids, files, n).Ok?
    ensures var m := ImgUpdates(itemImgs, ids, files, n).value;
      && m.Keys == itemImgs.Keys
      && forall k :: k in m ==>
           m[k].id == itemImgs[k].id && m[k].itemId == itemImgs[k].itemId && m[k].repimgYn == itemImgs[k].repimgYn
  {
    if n > 0 {
      UpdatesKeepRows(itemImgs, ids, files, n - 1);
    }
  }

  /**
   * With distinct image ids, a completed loop leaves image `ids[i]` with
   * the stored name of file `i` for every non-empty file `i`.
   */
  lemma {:induction false} UpdatesPairByIndex(itemImgs: map<int, ItemImg>, ids: seq<int>, files: seq<ImgFile>, n: nat)
    requires n <= |files| && ImgUpdates(itemImgs, ids, files, n).Ok?
    requires forall i, j :: 0 <= i < j < |ids| ==> ids[i] != ids[j]
    ensures n <= |ids|
    ensures var m := ImgUpdates(itemImgs, ids, files, n).value;
      forall i :: 0 <= i < n && !files[i].isEmpty ==>
        && files[i].stored.Some? && ids[i] in m
        && m[ids[i]].imgName == files[i].stored.value
        && m[ids[i]].oriImgName == files[i].originalFilename
  {
    UpdatesNeedIds(itemImgs, ids, files, n);
    if n > 0 {
      UpdatesPairByIndex(itemImgs, ids, files, n - 1);
    }
  }

  /**
   * The image table as the first `n` rounds of `updateItem`'s image loop
   * leave it: after the last round that completed. A round that throws
   * writes nothing, since `updateItemImg` changes the row last.
   */
  function LoopImgs(itemImgs: map<int, ItemImg>, ids: seq<int>, files: seq<ImgFile>, n: nat): (m: map<int, ItemImg>)
    requires n <= |files|
    ensures m.Keys == itemImgs.Keys
    ensures ImgUpdates(itemImgs, ids, files, n).Ok? ==> m == ImgUpdates(itemImgs, ids, files, n).value
  {
    if n == 0 then itemImgs
    else
      var prev := LoopImgs(itemImgs, ids, files, n - 1);
      if ImgUpdates(itemImgs, ids, files, n - 1).Err? || n - 1 >= |ids| then prev
      else
        match UpdateImg(prev, ids[n - 1], files[n - 1])
        case Ok(next) => next
        case Err(_) => prev
  }

  /** Once a round throws, later rounds do not run and the table stays as that round left it. */
  lemma {:induction false} LoopStopsAtError(
    itemImgs: map<int, ItemImg>, ids: seq<int>, files: seq<ImgFile>, n: nat, m: nat)
    requires n <= m <= |files| && ImgUpdates(itemImgs, ids, files, n).Err?
    ensures LoopImgs(itemImgs, ids, files, m) == LoopImgs(itemImgs, ids, files, n)
    decreases m
  {
    if m > n {
      UpdatesStopAtError(itemImgs, ids, files, n, m - 1);
      LoopStopsAtError(itemImgs, ids, files, n, m - 1);
    }
  }

  /** A completed round of image updates keeps the tables valid. */
  lemma UpdateImgOk(t: Tables, bound: int, id: int, f: ImgFile)
    requires TablesOk(t, bound) && UpdateImg(t.itemImgs, id, f).Ok?
    ensures TablesOk(t.(itemImgs := UpdateImg(t.itemImgs, id, f).value), bound)
  {
  }

  /**
   * `updateItem`: EntityNotFound for an unknown item; otherwise the item
   * takes the form's fields and the image loop runs. An unchecked exception
   * (an unknown image id, fewer image ids than files) rolls the item and
   * the images back. The file service's checked exception does not: the
   * item's new fields and the images updated before it commit.
   */
  method UpdateItem(shop: Shop, form: ItemForm, files: seq<ImgFile>) returns (r: Result<int>)
    requires shop.Valid()
    modifies shop, shop.items.Values
    ensures shop.Valid() && shop.nextId == old(shop.nextId)
    ensures r.Err? <==> form.id !in old(shop.items) || ImgUpdates(old(shop.itemImgs), form.itemImgIds, files, |files|).Err?
    ensures r.Err? && form.id !in old(shop.items) ==> r.error == EntityNotFound
    ensures r.Err? && form.id in old(shop.items) ==>
      r.error == ImgUpdates(old(shop.itemImgs), form.itemImgIds, files, |files|).error
    ensures r.Err? && RollsBack(r.error) ==> shop.Snapshot() == old(shop.Snapshot()) && shop.ItemsAre(old(shop.ItemRows()))
    ensures r.Ok? || !RollsBack(r.error) ==>
      && form.id in old(shop.items)
      && shop.Snapshot() == old(shop.Snapshot()).(itemImgs := LoopImgs(old(shop.itemImgs), form.itemImgIds, files, |files|))
      && shop.ItemsAre(old(shop.ItemRows())[form.id := FormData(form.id, form)])
    ensures r.Ok? ==>
      && r.value == form.id
      && shop.itemImgs == ImgUpdates(old(shop.itemImgs), form.itemImgIds, files, |files|).value
  {
    ghost var rows0 := shop.ItemRows();
    ghost var t0 := shop.Snapshot();
    var imgs0 := shop.itemImgs;
    var found := FindById(shop.items, form.id);
    if found.Err? {
      return Err(found.error);
    }
    var item := found.value;
    var saved := item.Data();
    item.UpdateItem(form);
    assert shop.ItemsAre(rows0[form.id := FormData(form.id, form)]);
    var done := UpdateItemImgs(shop, form.itemImgIds, files);
    if done.Fail? {
      if RollsBack(done.error) {
        item.Restore(saved);
        shop.itemImgs := imgs0;
        assert shop.Snapshot() == t0;
        assert shop.ItemsAre(rows0);
      }
      return Err(done.error);
    }
    r := Ok(item.id);
  }

  /**
   * The image loop of `updateItem`: `updateItemImg(ids[i], files[i])` for
   * every file, up to the first exception, which leaves the rows updated
   * before it in place.
   */
  method UpdateItemImgs(shop: Shop, ids: seq<int>, files: seq<ImgFile>) returns (r: Outcome)
    requires shop.Valid()
    modifies shop
    ensures shop.Valid() && shop.nextId == old(shop.nextId)
    ensures r.Fail? <==> ImgUpdates(old(shop.itemImgs), ids, files, |files|).Err?
    ensures r.Fail? ==> r.error == ImgUpdates(old(shop.itemImgs), ids, files, |files|).error
    ensures shop.Snapshot() == old(shop.Snapshot()).(itemImgs := LoopImgs(old(shop.itemImgs), ids, files, |files|))
  {
    ghost var t0 := shop.Snapshot();
    for i := 0 to |files|
      invariant shop.Valid()
      invariant shop.Snapshot() == t0.(itemImgs := shop.itemImgs) && shop.nextId == old(shop.nextId)
      invariant ImgUpdates(t0.itemImgs, ids, files, i) == Ok(shop.itemImgs)
    {
      var step := if i < |ids| then UpdateImg(shop.itemImgs, ids[i], files[i]) else Err(IndexOutOfBounds);
      if step.Err? {
        UpdatesStopAtError(t0.itemImgs, ids, files, i + 1, |files|);
        LoopStopsAtError(t0.itemImgs, ids, files, i + 1, |files|);
        return Fail(step.error);
      }
      UpdateImgOk(shop.Snapshot(), shop.nextId, ids[i], files[i]);
      shop.itemImgs := step.value;
    }
    r := Pass;
  }
}
