/**
 * The catalog, user and transaction store behind server/server.js, with its handlers as
 * operations on in-memory tables, and the pure rules of its listing and report routes.
 */
module Server {
  import opened Wrappers
  import opened Seqs
  import opened Catalog
  import opened ServerDocs
  import TopSelling

  datatype HttpError = HttpError(status: int, message: string)

  /**
   * Whether a handler answers at all: `new ObjectId(id)` throws on an id that is not a valid
   * ObjectId, and the handlers that call it without a check then send no answer.
   */
  datatype Reply<T> = Replied(body: T) | NoReply

  /**
   * A product as bulk import receives it: its own fields, and the category id when the
   * product has a `category` whose `id` is present and a valid ObjectId.
   */
  datatype ProductInput = ProductInput(fields: Doc, categoryId: Option<Id>)

  /** `{ ...p, categoryId }`, before `insertMany` gives it an id. */
  datatype ProductDraft = ProductDraft(fields: Doc, categoryId: Id)

  datatype StoredProduct = StoredProduct(id: Id, fields: Doc, categoryId: Id)

  /** One element of a transaction's `items`, as far as the report reads it. */
  datatype TxItem = TxItem(id: Id, name: string, price: int, quantity: int)

  datatype TransactionBody = TransactionBody(items: seq<TxItem>, fields: Doc)

  datatype StoredTransaction = StoredTransaction(id: Id, items: seq<TxItem>, fields: Doc, timestamp: int)

  ghost predicate UniqueCategoryNames(cs: seq<Category>) {
    forall i, j :: 0 <= i < j < |cs| ==> cs[i].name != cs[j].name
  }

  ghost predicate UniqueCategoryIds(cs: seq<Category>) {
    forall i, j :: 0 <= i < j < |cs| ==> cs[i].id != cs[j].id
  }

  predicate UserIdBelow(d: Doc, bound: Id) {
    "_id" in d && d["_id"].Ref? && d["_id"].id < bound
  }

  predicate HasValidCategory(p: ProductInput) {
    p.categoryId.Some?
  }

  function ToDraft(p: ProductInput): ProductDraft {
    ProductDraft(p.fields, p.categoryId.GetOr(0))
  }

  /** The bulk import's `filter` then `map`. */
  function ProductsToInsert(inputs: seq<ProductInput>): seq<ProductDraft> {
    MapSeq(Filter(inputs, HasValidCategory), ToDraft)
  }

  /**
   * The products inserted are, in their order, exactly those with a valid category id, each
   * with its own fields and that id; none are left exactly when no product has one.
   */
  lemma ProductsToInsertFacts(inputs: seq<ProductInput>)
    ensures var r := ProductsToInsert(inputs);
      && |r| <= |inputs|
      && IsSubsequence(r, MapSeq(inputs, ToDraft))
      && (forall j :: 0 <= j < |inputs| && HasValidCategory(inputs[j]) ==>
            ProductDraft(inputs[j].fields, inputs[j].categoryId.value) in r)
      && (forall k :: 0 <= k < |r| ==> exists j :: 0 <= j < |inputs| && HasValidCategory(inputs[j]) && r[k] == ToDraft(inputs[j]))
      && (r == [] <==> forall j :: 0 <= j < |inputs| ==> !HasValidCategory(inputs[j]))
  {
    var kept := Filter(inputs, HasValidCategory);
    SubsequenceMap(kept, inputs, ToDraft);
    forall j | 0 <= j < |inputs| && HasValidCategory(inputs[j])
      ensures ProductDraft(inputs[j].fields, inputs[j].categoryId.value) in ProductsToInsert(inputs)
    {
      KeptIsInserted(inputs, j);
    }
    forall k | 0 <= k < |ProductsToInsert(inputs)|
      ensures exists j :: 0 <= j < |inputs| && HasValidCategory(inputs[j]) && ProductsToInsert(inputs)[k] == ToDraft(inputs[j])
    {
      InsertedHasOrigin(inputs, k);
    }
    if kept != [] {
      assert kept[0] in inputs;
    }
  }

  lemma KeptIsInserted(inputs: seq<ProductInput>, j: nat)
    requires j < |inputs| && HasValidCategory(inputs[j])
    ensures ProductDraft(inputs[j].fields, inputs[j].categoryId.value) in ProductsToInsert(inputs)
  {
    var kept := Filter(inputs, HasValidCategory);
    assert inputs[j] in kept;
    var k :| 0 <= k < |kept| && kept[k] == inputs[j];
    assert ProductsToInsert(inputs)[k] == ToDraft(inputs[j]);
  }

  lemma InsertedHasOrigin(inputs: seq<ProductInput>, k: nat)
    requires k < |ProductsToInsert(inputs)|
    ensures exists j :: 0 <= j < |inputs| && HasValidCategory(inputs[j]) && ProductsToInsert(inputs)[k] == ToDraft(inputs[j])
  {
    var kept := Filter(inputs, HasValidCategory);
    assert kept[k] in inputs;
    var j :| 0 <= j < |inputs| && inputs[j] == kept[k];
    assert HasValidCategory(inputs[j]) && ProductsToInsert(inputs)[k] == ToDraft(inputs[j]);
  }

  /** `insertMany` gives the drafts consecutive fresh ids. */
  function StoreDrafts(drafts: seq<ProductDraft>, firstId: Id): (r: seq<StoredProduct>)
    ensures |r| == |drafts|
    ensures forall i :: 0 <= i < |r| ==>
      r[i].id == firstId + i && r[i].fields == drafts[i].fields && r[i].categoryId == drafts[i].categoryId
  {
    seq(|drafts|, i requires 0 <= i < |drafts| => StoredProduct(firstId + i, drafts[i].fields, drafts[i].categoryId))
  }

  /** The fields `$set` by a user update: the body without the PIN, plus the PIN when one is supplied. */
  function UserUpdate(body: Doc): Doc {
    var data := body - {"pin", "_id"};
    if Truthy(Field(body, "pin")) then data["pin" := body["pin"]] else data
  }

  predicate HasId(d: Doc, id: Id) {
    Field(d, "_id") == Some(Ref(id))
  }

  /** The user table after `updateOne({ _id }, { $set })`. */
  function UpdateUsers(users: seq<Doc>, id: Id, body: Doc): seq<Doc> {
    var found := FirstIndex(users, (d: Doc) => HasId(d, id));
    if found.None? then users else users[found.value := users[found.value] + UserUpdate(body)]
  }

  /**
   * An update changes only the user with that id: its PIN is replaced exactly when the body
   * supplies a non-empty one, every other field of the body is set, the rest is kept.
   */
  lemma UpdateUsersFacts(users: seq<Doc>, id: Id, body: Doc, k: nat)
    requires k < |users| && HasId(users[k], id)
    requires forall j :: 0 <= j < k ==> !HasId(users[j], id)
    ensures var r := UpdateUsers(users, id, body);
      && |r| == |users|
      && (forall j :: 0 <= j < |users| && j != k ==> r[j] == users[j])
      && HasId(r[k], id)
      && Field(r[k], "pin") == (if Truthy(Field(body, "pin")) then Field(body, "pin") else Field(users[k], "pin"))
      && (forall f :: f in body && f != "pin" && f != "_id" ==> Field(r[k], f) == Some(body[f]))
      && (forall f :: f in users[k] && f !in body ==> Field(r[k], f) == Some(users[k][f]))
  {
    var found := FirstIndex(users, (d: Doc) => HasId(d, id));
    assert found == Some(k);
  }

  /** The stored user for a create: the body as sent, with a fresh `_id`. */
  function NewUser(body: Doc, id: Id): Doc {
    body["_id" := Ref(id)]
  }

  /** A user created with a username and PIN can log in with them at once, and the answer shows no PIN. */
  lemma CreatedUserCanLogIn(users: seq<Doc>, body: Doc, id: Id, username: string, pin: string)
    requires Field(body, "username") == Some(Str(username)) && Field(body, "pin") == Some(Str(pin))
    ensures Login(users + [NewUser(body, id)], username, pin).Some?
    ensures "pin" !in Public(NewUser(body, id))
  {
    var all := users + [NewUser(body, id)];
    assert Matches(all[|users|], username, pin);
    LoginFacts(all, username, pin);
  }

  /** `GET /api/transactions`: those with `start <= timestamp <= end`, newest first. */
  function TransactionsInRange(txs: seq<StoredTransaction>, start: int, end: int): seq<StoredTransaction> {
    SortDescBy(Filter(txs, (t: StoredTransaction) => start <= t.timestamp <= end), Stamp)
  }

  function Stamp(t: StoredTransaction): int {
    t.timestamp
  }

  /** The listing holds exactly the stored transactions in the range, each once as stored, newest first. */
  lemma {:induction false} TransactionsInRangeFacts(txs: seq<StoredTransaction>, start: int, end: int)
    ensures var r := TransactionsInRange(txs, start, end);
      && SortedDescBy(r, Stamp)
      && |r| <= |txs|
      && (forall t :: t in r <==> t in txs && start <= t.timestamp <= end)
      && multiset(r) == multiset(Filter(txs, (t: StoredTransaction) => start <= t.timestamp <= end))
  {
    var keep := (t: StoredTransaction) => start <= t.timestamp <= end;
    var kept := Filter(txs, keep);
    var r := TransactionsInRange(txs, start, end);
    forall t ensures t in r <==> t in txs && start <= t.timestamp <= end {
      assert t in r <==> t in multiset(r);
      assert t in kept <==> t in multiset(kept);
      if t in txs && keep(t) {
        var j :| 0 <= j < |txs| && txs[j] == t;
        assert t in kept;
      }
      if t in kept {
        var k :| 0 <= k < |kept| && kept[k] == t;
        assert t in txs && keep(t);
      }
    }
  }

  function ToSold(item: TxItem): TopSelling.SoldLine {
    TopSelling.SoldLine(item.id, item.name, "", item.price, item.quantity)
  }

  /** `$match` on the range then `$unwind: '$items'`. */
  function SoldInRange(txs: seq<StoredTransaction>, start: int, end: int): seq<TopSelling.SoldLine> {
    if txs == [] then []
    else
      var last := txs[|txs| - 1];
      SoldInRange(txs[..|txs| - 1], start, end)
        + (if start <= last.timestamp <= end then MapSeq(last.items, ToSold) else [])
  }

  /** One entry of the top-products report, with the product name resolved. */
  datatype TopEntry = TopEntry(id: Id, name: Value, quantity: int, revenue: int)

  /** `$ifNull: ['$productInfo.name', '$name']`: the current product's name, else the name it was sold under. */
  function ReportName(products: seq<StoredProduct>, t: TopSelling.Tally): Value {
    var found := FirstIndex(products, (p: StoredProduct) => p.id == t.id);
    if found.Some? && "name" in products[found.value].fields && products[found.value].fields["name"] != Null
    then products[found.value].fields["name"]
    else Str(t.name)
  }

  /** `GET /api/reports/top-products`: the ten best-selling products of the range. */
  function TopProducts(txs: seq<StoredTransaction>, products: seq<StoredProduct>, start: int, end: int): seq<TopEntry> {
    var top := TopSelling.Top(SoldInRange(txs, start, end), 10);
    seq(|top|, i requires 0 <= i < |top| => TopEntry(top[i].id, ReportName(products, top[i]), top[i].quantity, top[i].revenue))
  }

  /**
   * Ten entries, or one per product sold when fewer were; no product twice, highest quantity
   * first, each with the summed quantity and revenue of its product in the range. A product sold
   * but not listed sold no more than any listed one; a product no longer stored is shown under
   * the name it was first sold under.
   */
  lemma TopProductsFacts(txs: seq<StoredTransaction>, products: seq<StoredProduct>, start: int, end: int)
    ensures var lines := SoldInRange(txs, start, end);
      var r := TopProducts(txs, products, start, end);
      var sold := |TopSelling.Group(lines)|;
      && |r| == (if sold <= 10 then sold else 10)
      && (forall j :: 0 <= j < |lines| && (forall i :: 0 <= i < |r| ==> r[i].id != lines[j].id) ==>
            |r| == 10 && forall i :: 0 <= i < |r| ==> TopSelling.QuantityOf(lines, lines[j].id) <= r[i].quantity)
      && (forall i, j :: 0 <= i < j < |r| ==> r[i].id != r[j].id && r[i].quantity >= r[j].quantity)
      && (forall i :: 0 <= i < |r| ==>
            && r[i].quantity == TopSelling.QuantityOf(lines, r[i].id)
            && r[i].revenue == TopSelling.RevenueOf(lines, r[i].id)
            && TopSelling.FirstWith(lines, r[i].id).Some?
            && ((forall p :: 0 <= p < |products| ==> products[p].id != r[i].id) ==>
                  r[i].name == Str(TopSelling.FirstWith(lines, r[i].id).value.name)))
  {
    var lines := SoldInRange(txs, start, end);
    TopSelling.TopShape(lines, 10);
    TopSelling.TopDistinct(lines, 10);
    TopSelling.TopAgrees(lines, 10);
    var r := TopProducts(txs, products, start, end);
    var top := TopSelling.Top(lines, 10);
    assert |r| == |top| && forall i :: 0 <= i < |r| ==>
      r[i].id == top[i].id && r[i].quantity == top[i].quantity && r[i].revenue == top[i].revenue;
    forall j | 0 <= j < |lines| && (forall i :: 0 <= i < |r| ==> r[i].id != lines[j].id)
      ensures |r| == 10 && forall i :: 0 <= i < |r| ==> TopSelling.QuantityOf(lines, lines[j].id) <= r[i].quantity
    {
      TopSelling.UnlistedSoldNoMore(lines, 10, j);
    }
  }

  /**
   * `$ifNull: ['$productInfo.name', '$name']`: an entry shows the stored product's name when it
   * has a non-null one, and otherwise the name the product was first sold under in the range.
   */
  lemma TopProductsNames(txs: seq<StoredTransaction>, products: seq<StoredProduct>, start: int, end: int)
    ensures var lines := SoldInRange(txs, start, end);
      var r := TopProducts(txs, products, start, end);
      forall i, k :: (&& 0 <= i < |r| && 0 <= k < |products| && products[k].id == r[i].id
                      && forall p :: 0 <= p < k ==> products[p].id != r[i].id) ==>
        && TopSelling.FirstWith(lines, r[i].id).Some?
        && r[i].name == if "name" in products[k].fields && products[k].fields["name"] != Null
                        then products[k].fields["name"]
                        else Str(TopSelling.FirstWith(lines, r[i].id).value.name)
  {
    var lines := SoldInRange(txs, start, end);
    TopSelling.TopShape(lines, 10);
    TopSelling.TopAgrees(lines, 10);
  }

  /** Deleting the category at one position keeps names and ids unique, and leaves no category with its id. */
  lemma RemoveCategoryAt(cs: seq<Category>, k: nat, bound: Id)
    requires k < |cs| && UniqueCategoryNames(cs) && UniqueCategoryIds(cs)
    requires forall i :: 0 <= i < |cs| ==> cs[i].id < bound
    ensures var r := cs[..k] + cs[k + 1..];
      && |r| == |cs| - 1
      && UniqueCategoryNames(r) && UniqueCategoryIds(r)
      && (forall i :: 0 <= i < |r| ==> r[i].id < bound && r[i].id != cs[k].id && r[i] in cs)
  {
    var r := cs[..k] + cs[k + 1..];
    assert forall i :: 0 <= i < |r| ==> r[i] == (if i < k then cs[i] else cs[i + 1]);
  }

  /** The server's tables; every handler that writes is a method here. */
  class Store {
    var users: seq<Doc>
    var categories: seq<Category>
    var products: seq<StoredProduct>
    var transactions: seq<StoredTransaction>
    var nextId: Id

    ghost predicate Valid()
      reads this
    {
      && UniqueCategoryNames(categories)
      && UniqueCategoryIds(categories)
      && (forall i :: 0 <= i < |categories| ==> categories[i].id < nextId)
      && (forall i :: 0 <= i < |users| ==> UserIdBelow(users[i], nextId))
      && (forall i :: 0 <= i < |products| ==> products[i].id < nextId)
      && (forall i :: 0 <= i < |transactions| ==> transactions[i].id < nextId)
    }

    constructor ()
      ensures Valid()
      ensures users == [] && categories == [] && products == [] && transactions == [] && nextId == 0
    {
      users := [];
      categories := [];
      products := [];
      transactions := [];
      nextId := 0;
    }

    /** `POST /api/users`: a PIN is required; the user is stored as sent and returned without it. */
    method CreateUser(body: Doc) returns (r: Result<Doc, HttpError>)
      requires Valid()
      modifies this
      ensures Valid()
      ensures categories == old(categories) && products == old(products) && transactions == old(transactions)
      ensures !Truthy(Field(body, "pin")) ==>
        && r == Failure(HttpError(400, "PIN is required"))
        && users == old(users) && nextId == old(nextId)
      ensures Truthy(Field(body, "pin")) ==>
        && users == old(users) + [NewUser(body, old(nextId))]
        && nextId == old(nextId) + 1
        && r == Success(Public(NewUser(body, old(nextId))))
    {
      if !Truthy(Field(body, "pin")) {
        return Failure(HttpError(400, "PIN is required"));
      }
      var doc := NewUser(body, nextId);
      users := users + [doc];
      nextId := nextId + 1;
      r := Success(Public(doc));
    }

    /**
     * `PUT /api/users/:id`: `$set` the body's fields, the PIN only when one is given; null when no
     * such user; no answer when the id is not a valid ObjectId.
     */
    method UpdateUser(idParam: Option<Id>, body: Doc) returns (r: Reply<Option<Doc>>)
      requires Valid()
      modifies this
      ensures Valid()
      ensures categories == old(categories) && products == old(products) && transactions == old(transactions)
      ensures nextId == old(nextId)
      ensures idParam.None? ==> r == NoReply && users == old(users)
      ensures idParam.Some? ==>
        && users == UpdateUsers(old(users), idParam.value, body)
        && var found := FirstIndex(users, (d: Doc) => HasId(d, idParam.value));
           r == Replied(if found.None? then None else Some(Public(users[found.value])))
    {
      if idParam.None? {
        return NoReply;
      }
      var id := idParam.value;
      var found := FirstIndex(users, (d: Doc) => HasId(d, id));
      if found.Some? {
        var k := found.value;
        users := users[k := users[k] + UserUpdate(body)];
        r := Replied(Some(Public(users[k])));
      } else {
        r := Replied(None);
      }
    }

    /**
     * `DELETE /api/users/:id`: removes that user if there is one and answers success; no answer
     * when the id is not a valid ObjectId.
     */
    method DeleteUser(idParam: Option<Id>) returns (answered: bool)
      requires Valid()
      modifies this
      ensures Valid()
      ensures categories == old(categories) && products == old(products) && transactions == old(transactions)
      ensures nextId == old(nextId)
      ensures answered <==> idParam.Some?
      ensures idParam.None? ==> users == old(users)
      ensures idParam.Some? ==>
        var found := FirstIndex(old(users), (d: Doc) => HasId(d, idParam.value));
        users == (if found.None? then old(users) else old(users)[..found.value] + old(users)[found.value + 1..])
    {
      if idParam.None? {
        return false;
      }
      var found := FirstIndex(users, (d: Doc) => HasId(d, idParam.value));
      if found.Some? {
        users := users[..found.value] + users[found.value + 1..];
      }
      answered := true;
    }

    /** `POST /api/categories`: a non-empty name not yet taken is inserted; 400 and 409 otherwise. */
    method CreateCategory(name: Option<string>) returns (r: Result<Category, HttpError>)
      requires Valid()
      modifies this
      ensures Valid()
      ensures users == old(users) && products == old(products) && transactions == old(transactions)
      ensures (name.None? || name.value == "") ==>
        r == Failure(HttpError(400, "Category name is required")) && categories == old(categories) && nextId == old(nextId)
      ensures name.Some? && name.value != "" && (exists i :: 0 <= i < |old(categories)| && old(categories)[i].name == name.value) ==>
        r == Failure(HttpError(409, "Nama kategori sudah ada")) && categories == old(categories) && nextId == old(nextId)
      ensures name.Some? && name.value != "" && (forall i :: 0 <= i < |old(categories)| ==> old(categories)[i].name != name.value) ==>
        && r == Success(Category(old(nextId), name.value))
        && categories == old(categories) + [Category(old(nextId), name.value)]
        && nextId == old(nextId) + 1
    {
      if name.None? || name.value == "" {
        return Failure(HttpError(400, "Category name is required"));
      }
      var existing := FirstIndex(categories, (c: Category) => c.name == name.value);
      if existing.Some? {
        return Failure(HttpError(409, "Nama kategori sudah ada"));
      }
      var category := Category(nextId, name.value);
      categories := categories + [category];
      nextId := nextId + 1;
      r := Success(category);
    }

    /**
     * `PUT /api/categories/:id`: a non-empty name used by no other category is set on that
     * category; keeping its own name is allowed; null when there is no such category. The name is
     * checked first; after that an id that is not a valid ObjectId gets no answer.
     */
    method UpdateCategory(idParam: Option<Id>, name: Option<string>) returns (r: Reply<Result<Option<Category>, HttpError>>)
      requires Valid()
      modifies this
      ensures Valid()
      ensures users == old(users) && products == old(products) && transactions == old(transactions)
      ensures nextId == old(nextId) && |categories| == |old(categories)|
      ensures (name.None? || name.value == "") ==>
        r == Replied(Failure(HttpError(400, "Category name is required"))) && categories == old(categories)
      ensures (name.Some? && name.value != "" && idParam.None?) ==> r == NoReply && categories == old(categories)
      ensures (&& name.Some? && name.value != "" && idParam.Some?
               && exists i :: 0 <= i < |old(categories)| && old(categories)[i].name == name.value && old(categories)[i].id != idParam.value) ==>
        r == Replied(Failure(HttpError(409, "Nama kategori sudah ada"))) && categories == old(categories)
      ensures (&& name.Some? && name.value != "" && idParam.Some?
               && forall i :: 0 <= i < |old(categories)| ==> old(categories)[i].name != name.value || old(categories)[i].id == idParam.value) ==>
        r.Replied? && r.body.Success?
      ensures r.Replied? && r.body.Success? ==>
        && name.Some? && name.value != "" && idParam.Some?
        && (forall i :: 0 <= i < |categories| ==>
              categories[i] == (if old(categories)[i].id == idParam.value then Category(idParam.value, name.value) else old(categories)[i]))
        && (r.body.value.Some? <==> exists i :: 0 <= i < |old(categories)| && old(categories)[i].id == idParam.value)
        && (r.body.value.Some? ==> r.body.value.value == Category(idParam.value, name.value))
    {
      if name.None? || name.value == "" {
        return Replied(Failure(HttpError(400, "Category name is required")));
      }
      if idParam.None? {
        return NoReply;
      }
      var id := idParam.value;
      var taken := FirstIndex(categories, (c: Category) => c.name == name.value && c.id != id);
      if taken.Some? {
        return Replied(Failure(HttpError(409, "Nama kategori sudah ada")));
      }
      var found := FirstIndex(categories, (c: Category) => c.id == id);
      if found.Some? {
        var k := found.value;
        categories := categories[k := Category(id, name.value)];
        r := Replied(Success(Some(categories[k])));
      } else {
        r := Replied(Success(None));
      }
    }

    /**
     * `DELETE /api/categories/:id`: inside one transaction, deletes the category's products and
     * then the category; when there is no such category the product deletions are rolled back.
     * None stands for `{ success: true }`.
     */
    method DeleteCategory(idParam: Option<Id>) returns (r: Option<HttpError>)
      requires Valid()
      modifies this
      ensures Valid()
      ensures users == old(users) && transactions == old(transactions) && nextId == old(nextId)
      ensures idParam.None? ==>
        && r == Some(HttpError(400, "Invalid category ID format"))
        && categories == old(categories) && products == old(products)
      ensures idParam.Some? && (forall i :: 0 <= i < |old(categories)| ==> old(categories)[i].id != idParam.value) ==>
        && r == Some(HttpError(500, "Transaction failed"))
        && categories == old(categories) && products == old(products)
      ensures idParam.Some? && (exists i :: 0 <= i < |old(categories)| && old(categories)[i].id == idParam.value) ==>
        && r == None
        && products == Filter(old(products), (p: StoredProduct) => p.categoryId != idParam.value)
        && (forall i :: 0 <= i < |categories| ==> categories[i].id != idParam.value && categories[i] in old(categories))
        && |categories| == |old(categories)| - 1
        && exists k :: 0 <= k < |old(categories)| && old(categories)[k].id == idParam.value
             && categories == old(categories)[..k] + old(categories)[k + 1..]
    {
      if idParam.None? {
        return Some(HttpError(400, "Invalid category ID format"));
      }
      var id := idParam.value;
      var snapshot := products;
      products := Filter(products, (p: StoredProduct) => p.categoryId != id);
      var found := FirstIndex(categories, (c: Category) => c.id == id);
      if found.None? {
        products := snapshot;
        return Some(HttpError(500, "Transaction failed"));
      }
      var k := found.value;
      RemoveCategoryAt(categories, k, nextId);
      categories := categories[..k] + categories[k + 1..];
      r := None;
    }

    /**
     * `POST /api/products/bulk`: rejects a missing or empty array, then inserts the products
     * with a valid category id and answers with their count.
     */
    method BulkImport(body: Option<seq<ProductInput>>) returns (r: Result<nat, HttpError>)
      requires Valid()
      modifies this
      ensures Valid()
      ensures users == old(users) && categories == old(categories) && transactions == old(transactions)
      ensures (body.None? || body.value == []) ==>
        r == Failure(HttpError(400, "No products array to import")) && products == old(products) && nextId == old(nextId)
      ensures body.Some? && body.value != [] && ProductsToInsert(body.value) == [] ==>
        && r == Failure(HttpError(400, "No valid products with category IDs to import"))
        && products == old(products) && nextId == old(nextId)
      ensures body.Some? && ProductsToInsert(body.value) != [] ==>
        var drafts := ProductsToInsert(body.value);
        && r == Success(|drafts|)
        && products == old(products) + StoreDrafts(drafts, old(nextId))
        && nextId == old(nextId) + |drafts|
    {
      if body.None? || body.value == [] {
        return Failure(HttpError(400, "No products array to import"));
      }
      var drafts := ProductsToInsert(body.value);
      if drafts == [] {
        return Failure(HttpError(400, "No valid products with category IDs to import"));
      }
      products := products + StoreDrafts(drafts, nextId);
      nextId := nextId + |drafts|;
      r := Success(|drafts|);
    }

    /** `POST /api/transactions`: the body is stored as sent, stamped with the server's clock. */
    method InsertTransaction(body: TransactionBody, now: int) returns (t: StoredTransaction)
      requires Valid()
      modifies this
      ensures Valid()
      ensures users == old(users) && categories == old(categories) && products == old(products)
      ensures t == StoredTransaction(old(nextId), body.items, body.fields - {"timestamp", "_id"}, now)
      ensures transactions == old(transactions) + [t] && nextId == old(nextId) + 1
    {
      t := StoredTransaction(nextId, body.items, body.fields - {"timestamp", "_id"}, now);
      transactions := transactions + [t];
      nextId := nextId + 1;
    }
  }

  /** A transaction stored at `now` is listed for a range exactly when `now` lies in it. */
  lemma InsertedTransactionListed(txs: seq<StoredTransaction>, t: StoredTransaction, start: int, end: int)
    ensures t in TransactionsInRange(txs + [t], start, end) <==> start <= t.timestamp <= end
  {
    TransactionsInRangeFacts(txs + [t], start, end);
  }
}
