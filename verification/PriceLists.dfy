// Price resolution and the active-price cache.  Price lists and products are
// identified by their position in storage; rows are never removed, deleting
// marks them.

module PriceLists {
  import opened Common

  const DAY_MS := 86400000

  datatype PriceList = PriceList(
    customer: Option<nat>, from: int, to: Option<int>, active: bool, deleted: bool, prices: map<nat, real>)

  datatype Product = Product(price: real, deleted: bool)

  datatype Database = Database(lists: seq<PriceList>, products: seq<Product>)

  datatype Source = CustomerList | GeneralList | ProductDefault

  datatype Price = Price(amount: real, list: Option<nat>, source: Source)

  // Product, customer and UTC day.
  datatype Key = Key(product: nat, customer: Option<nat>, day: int)

  datatype State = State(db: Database, cache: map<Key, Price>)

  datatype PriceError = NotFound | EmptyValidity

  // ------------------------------------------------------------- the query

  // The list carries a price for the product and is valid on that midnight.
  predicate Applies(l: PriceList, product: nat, day: int) {
    && product in l.prices
    && l.active && !l.deleted
    && l.from <= day * DAY_MS
    && (l.to.None? || l.to.value >= day * DAY_MS)
  }

  // ORDER BY customer_id DESC, valid_from DESC, with ties in storage order.
  predicate Ahead(lists: seq<PriceList>, i: nat, j: nat)
    requires i < |lists| && j < |lists|
  {
    var a, b := lists[i], lists[j];
    if a.customer != b.customer then
      a.customer.None? || (b.customer.Some? && a.customer.value > b.customer.value)
    else if a.from != b.from then a.from > b.from
    else i < j
  }

  predicate Positions(lists: seq<PriceList>, s: seq<nat>) {
    forall k :: 0 <= k < |s| ==> s[k] < |lists|
  }

  function InsertAhead(lists: seq<PriceList>, i: nat, s: seq<nat>): (r: seq<nat>)
    requires i < |lists| && Positions(lists, s)
    ensures Positions(lists, r)
    ensures forall x :: x in r <==> x == i || x in s
  {
    if s == [] || Ahead(lists, i, s[0]) then [i] + s else [s[0]] + InsertAhead(lists, i, s[1..])
  }

  // The rows of the query over the first k lists.
  function Rows(lists: seq<PriceList>, product: nat, day: int, k: nat): (r: seq<nat>)
    requires k <= |lists|
    ensures Positions(lists, r)
    ensures forall x: nat :: x in r <==> x < k && Applies(lists[x], product, day)
  {
    if k == 0 then []
    else if Applies(lists[k - 1], product, day) then InsertAhead(lists, k - 1, Rows(lists, product, day, k - 1))
    else Rows(lists, product, day, k - 1)
  }

  // items.find(i => i.price_list.customer_id === owner)
  function FindOwner(lists: seq<PriceList>, rows: seq<nat>, owner: Option<nat>): (r: Option<nat>)
    requires Positions(lists, rows)
    ensures r.Some? ==> r.value in rows && r.value < |lists| && lists[r.value].customer == owner
    ensures r.None? ==> forall x :: x in rows ==> lists[x].customer != owner
  {
    if rows == [] then None
    else if lists[rows[0]].customer == owner then Some(rows[0])
    else FindOwner(lists, rows[1..], owner)
  }

  // The price of a key, computed from the stored rows.
  function Resolve(db: Database, k: Key): Result<Price, PriceError> {
    var rows := Rows(db.lists, k.product, k.day, |db.lists|);
    var own := if k.customer.Some? then FindOwner(db.lists, rows, k.customer) else None;
    if own.Some? then Ok(Price(db.lists[own.value].prices[k.product], own, CustomerList)) else
      var general := FindOwner(db.lists, rows, None);
      if general.Some? then Ok(Price(db.lists[general.value].prices[k.product], general, GeneralList))
      else if k.product < |db.products| && !db.products[k.product].deleted
        then Ok(Price(db.products[k.product].price, None, ProductDefault))
      else Err(NotFound)
  }

  // -------------------------------------------------------- what it resolves to

  // List i is the one with the latest valid_from among the applicable lists of
  // this owner; among equals it is stored first.
  ghost predicate IsLatest(lists: seq<PriceList>, product: nat, day: int, owner: Option<nat>, i: nat) {
    && i < |lists| && Applies(lists[i], product, day) && lists[i].customer == owner
    && forall j :: 0 <= j < |lists| && Applies(lists[j], product, day) && lists[j].customer == owner ==>
         lists[j].from < lists[i].from || (lists[j].from == lists[i].from && i <= j)
  }

  ghost predicate NoneApplies(lists: seq<PriceList>, product: nat, day: int, owner: Option<nat>) {
    forall j :: 0 <= j < |lists| ==> !(Applies(lists[j], product, day) && lists[j].customer == owner)
  }

  ghost predicate Ordered(lists: seq<PriceList>, rows: seq<nat>) {
    Positions(lists, rows) && forall a, b :: 0 <= a < b < |rows| ==> Ahead(lists, rows[a], rows[b])
  }

  lemma {:induction false} InsertKeepsOrder(lists: seq<PriceList>, i: nat, s: seq<nat>)
    requires Ordered(lists, s) && i < |lists| && i !in s
    ensures Ordered(lists, InsertAhead(lists, i, s))
  {
    if s != [] && !Ahead(lists, i, s[0]) {
      assert Ordered(lists, s[1..]);
      InsertKeepsOrder(lists, i, s[1..]);
      var r := InsertAhead(lists, i, s[1..]);
      forall x | x in r ensures Ahead(lists, s[0], x) {
        if x != i { var b :| 1 <= b < |s| && s[b] == x; }
      }
      FirstKeepsOrder(lists, s[0], r);
    } else if s != [] {
      forall x | x in s ensures Ahead(lists, i, x) {
        var b :| 0 <= b < |s| && s[b] == x;
      }
      FirstKeepsOrder(lists, i, s);
    }
  }

  lemma {:induction false} FirstKeepsOrder(lists: seq<PriceList>, x: nat, s: seq<nat>)
    requires Ordered(lists, s) && x < |lists| && forall y :: y in s ==> Ahead(lists, x, y)
    ensures Ordered(lists, [x] + s)
  {
  }

  lemma {:induction false} RowsAreOrdered(lists: seq<PriceList>, product: nat, day: int, k: nat)
    requires k <= |lists|
    ensures Ordered(lists, Rows(lists, product, day, k))
  {
    if k > 0 {
      var before := Rows(lists, product, day, k - 1);
      assert k - 1 !in before;
      assert Ordered(lists, before) by { RowsAreOrdered(lists, product, day, k - 1); }
      if Applies(lists[k - 1], product, day) {
        assert Ordered(lists, InsertAhead(lists, k - 1, before)) by { InsertKeepsOrder(lists, k - 1, before); }
        assert Rows(lists, product, day, k) == InsertAhead(lists, k - 1, before);
      } else {
        assert Rows(lists, product, day, k) == before;
      }
    }
  }

  lemma {:induction false} FirstIsAhead(lists: seq<PriceList>, rows: seq<nat>, owner: Option<nat>, j: nat)
    requires Ordered(lists, rows) && j in rows && lists[j].customer == owner
    ensures FindOwner(lists, rows, owner).Some?
    ensures FindOwner(lists, rows, owner).value == j || Ahead(lists, FindOwner(lists, rows, owner).value, j)
  {
    if lists[rows[0]].customer == owner {
      var b :| 0 <= b < |rows| && rows[b] == j;
    } else {
      FirstIsAhead(lists, rows[1..], owner, j);
    }
  }

  lemma {:induction false} FoundIsLatest(db: Database, product: nat, day: int, owner: Option<nat>)
    ensures var found := FindOwner(db.lists, Rows(db.lists, product, day, |db.lists|), owner);
            if found.Some? then IsLatest(db.lists, product, day, owner, found.value)
            else NoneApplies(db.lists, product, day, owner)
  {
    var lists := db.lists;
    var rows := Rows(lists, product, day, |lists|);
    RowsAreOrdered(lists, product, day, |lists|);
    forall j | 0 <= j < |lists| && Applies(lists[j], product, day) && lists[j].customer == owner
      ensures FindOwner(lists, rows, owner).Some?
      ensures FindOwner(lists, rows, owner).value == j || Ahead(lists, FindOwner(lists, rows, owner).value, j)
    {
      FirstIsAhead(lists, rows, owner, j);
    }
  }

  // Main theorem on resolution: the customer's own valid list with the latest
  // start, else the general one, else the product's price, else not found.
  lemma {:induction false} ResolutionPriority(db: Database, k: Key)
    ensures match Resolve(db, k)
            case Ok(Price(amount, Some(i), CustomerList)) =>
              k.customer.Some? && IsLatest(db.lists, k.product, k.day, k.customer, i)
              && amount == db.lists[i].prices[k.product]
            case Ok(Price(amount, Some(i), GeneralList)) =>
              (k.customer.Some? ==> NoneApplies(db.lists, k.product, k.day, k.customer))
              && IsLatest(db.lists, k.product, k.day, None, i)
              && amount == db.lists[i].prices[k.product]
            case Ok(Price(amount, None, ProductDefault)) =>
              (k.customer.Some? ==> NoneApplies(db.lists, k.product, k.day, k.customer))
              && NoneApplies(db.lists, k.product, k.day, None)
              && k.product < |db.products| && db.products[k.product] == Product(amount, false)
            case Ok(_) => false
            case Err(_) =>
              (k.customer.Some? ==> NoneApplies(db.lists, k.product, k.day, k.customer))
              && NoneApplies(db.lists, k.product, k.day, None)
              && (k.product < |db.products| ==> db.products[k.product].deleted)
  {
    FoundIsLatest(db, k.product, k.day, k.customer);
    FoundIsLatest(db, k.product, k.day, None);
  }

  // --------------------------------------------------------------- operations

  datatype ListChange = ListChange(
    customer: Option<Option<nat>>, from: Option<int>, to: Option<Option<int>>, active: Option<bool>)

  datatype Step =
    | Get(product: nat, customer: Option<nat>, date: int)
    | CreateList(customer: Option<nat>, from: int, to: Option<int>, active: bool)
    | UpdateList(id: nat, change: ListChange)
    | UpdatePrices(id: nat, items: seq<(nat, real)>)
    | DeactivateList(id: nat)
    | CreateProduct(price: real)
    | UpdateProduct(id: nat, newPrice: Option<real>)
    | DeactivateProduct(id: nat)
    | Expire(key: Key)  // an entry outlives its time to live

  function KeyFor(product: nat, customer: Option<nat>, date: int): Key {
    Key(product, customer, date / DAY_MS)
  }

  predicate LiveList(db: Database, id: nat) {
    id < |db.lists| && !db.lists[id].deleted
  }

  predicate LiveProduct(db: Database, id: nat) {
    id < |db.products| && !db.products[id].deleted
  }

  function Changed(l: PriceList, c: ListChange): PriceList {
    l.(customer := if c.customer.Some? then c.customer.value else l.customer,
       from := if c.from.Some? then c.from.value else l.from,
       to := if c.to.Some? then c.to.value else l.to,
       active := if c.active.Some? then c.active.value else l.active)
  }

  // A valid_to that is given and not null must come after the effective valid_from.
  predicate BadValidity(from: int, to: Option<int>) {
    to.Some? && to.value <= from
  }

  function Upserted(prices: map<nat, real>, items: seq<(nat, real)>): map<nat, real> {
    if items == [] then prices
    else Upserted(prices, items[..|items| - 1])[items[|items| - 1].0 := items[|items| - 1].1]
  }

  predicate KnownProducts(db: Database, items: seq<(nat, real)>) {
    forall i :: 0 <= i < |items| ==> items[i].0 < |db.products|
  }

  function Lookup(s: State, k: Key): (State, Result<Price, PriceError>) {
    if k in s.cache then (s, Ok(s.cache[k])) else
      match Resolve(s.db, k)
      case Ok(p) => (s.(cache := s.cache[k := p]), Ok(p))
      case Err(e) => (s, Err(e))
  }

  // A change of the stored rows followed by deleting every active price.
  function Store(s: State, db: Database): State {
    State(db, map[])
  }

  function After(s: State, step: Step): State {
    var db := s.db;
    match step
    case Get(product, customer, date) => Lookup(s, KeyFor(product, customer, date)).0
    case CreateList(customer, from, to, active) =>
      if BadValidity(from, to) then s
      else s.(db := db.(lists := db.lists + [PriceList(customer, from, to, active, false, map[])]))
    case UpdateList(id, c) =>
      if !LiveList(db, id) then s
      else if c.to.Some? && BadValidity(Changed(db.lists[id], c).from, c.to.value) then s
      else Store(s, db.(lists := db.lists[id := Changed(db.lists[id], c)]))
    case UpdatePrices(id, items) =>
      if !LiveList(db, id) || !KnownProducts(db, items) then s
      else Store(s, db.(lists := db.lists[id := db.lists[id].(prices := Upserted(db.lists[id].prices, items))]))
    case DeactivateList(id) =>
      if !LiveList(db, id) then s else Store(s, db.(lists := db.lists[id := db.lists[id].(deleted := true)]))
    case CreateProduct(price) => s.(db := db.(products := db.products + [Product(price, false)]))
    case UpdateProduct(id, price) =>
      if !LiveProduct(db, id) then s
      else Store(s, db.(products := db.products[id :=
             Product(if price.Some? then price.value else db.products[id].price, false)]))
    case DeactivateProduct(id) =>
      if !LiveProduct(db, id) then s
      else Store(s, db.(products := db.products[id := db.products[id].(deleted := true)]))
    case Expire(k) => s.(cache := s.cache - {k})
  }

  function Run(steps: seq<Step>): State {
    if steps == [] then State(Database([], []), map[])
    else After(Run(steps[..|steps| - 1]), steps[|steps| - 1])
  }

  class PriceListService {
    var lists: seq<PriceList>
    var products: seq<Product>
    var cache: map<Key, Price>

    constructor ()
      ensures View() == State(Database([], []), map[])
    {
      lists, products, cache := [], [], map[];
    }

    function View(): State
      reads this
    {
      State(Database(lists, products), cache)
    }

    // find over the ordered rows.
    method Find(rows: seq<nat>, owner: Option<nat>) returns (r: Option<nat>)
      requires Positions(lists, rows)
      ensures r == FindOwner(lists, rows, owner)
    {
      for i := 0 to |rows|
        invariant FindOwner(lists, rows, owner) == FindOwner(lists, rows[i..], owner)
      {
        assert rows[i..][1..] == rows[i + 1..];
        if lists[rows[i]].customer == owner {
          return Some(rows[i]);
        }
      }
      return None;
    }

    method GetActivePrice(product: nat, customer: Option<nat>, date: int) returns (r: Result<Price, PriceError>)
      modifies this`cache
      ensures (View(), r) == Lookup(old(View()), KeyFor(product, customer, date))
    {
      var k := KeyFor(product, customer, date);
      if k in cache {
        return Ok(cache[k]);
      }
      var rows := Rows(lists, product, k.day, |lists|);
      if customer.Some? {
        var own := Find(rows, customer);
        if own.Some? {
          var price := Price(lists[own.value].prices[product], own, CustomerList);
          cache := cache[k := price];
          return Ok(price);
        }
      }
      var general := Find(rows, None);
      if general.Some? {
        var price := Price(lists[general.value].prices[product], general, GeneralList);
        cache := cache[k := price];
        return Ok(price);
      }
      if product >= |products| || products[product].deleted {
        return Err(NotFound);
      }
      var price := Price(products[product].price, None, ProductDefault);
      cache := cache[k := price];
      return Ok(price);
    }

    method UpdatePriceItems(id: nat, items: seq<(nat, real)>)
      modifies this
      ensures View() == After(old(View()), UpdatePrices(id, items))
    {
      if id < |lists| && !lists[id].deleted {
        var prices := lists[id].prices;
        for i := 0 to |items|
          invariant KnownProducts(Database(lists, products), items[..i])
          invariant prices == Upserted(lists[id].prices, items[..i])
        {
          if items[i].0 >= |products| {
            return;
          }
          assert items[..i + 1][..i] == items[..i];
          prices := prices[items[i].0 := items[i].1];
        }
        assert items[..|items|] == items;
        lists := lists[id := lists[id].(prices := prices)];
        cache := map[];
      }
    }

    method CreatePriceList(customer: Option<nat>, from: int, to: Option<int>, active: bool)
      modifies this`lists
      ensures View() == After(old(View()), CreateList(customer, from, to, active))
    {
      if to.None? || to.value > from {
        lists := lists + [PriceList(customer, from, to, active, false, map[])];
      }
    }

    method UpdatePriceList(id: nat, change: ListChange)
      modifies this
      ensures View() == After(old(View()), UpdateList(id, change))
    {
      if id < |lists| && !lists[id].deleted {
        if change.to.Some? && change.to.value.Some? {
          var from := if change.from.Some? then change.from.value else lists[id].from;
          if change.to.value.value <= from {
            return;
          }
        }
        lists := lists[id := Changed(lists[id], change)];
        cache := map[];
      }
    }

    method DeactivatePriceList(id: nat)
      modifies this
      ensures View() == After(old(View()), DeactivateList(id))
    {
      if id < |lists| && !lists[id].deleted {
        lists := lists[id := lists[id].(deleted := true)];
        cache := map[];
      }
    }

    // ProductService.update, which clears the same cache entries.
    method ChangeProduct(id: nat, newPrice: Option<real>)
      modifies this
      ensures View() == After(old(View()), UpdateProduct(id, newPrice))
    {
      if id < |products| && !products[id].deleted {
        if newPrice.Some? {
          products := products[id := Product(newPrice.value, false)];
        }
        assert products[id := products[id]] == products;
        cache := map[];
      }
    }
  }

  // -------------------------------------------------------- cache = recomputation

  ghost predicate Fresh(s: State) {
    forall k :: k in s.cache ==> Resolve(s.db, k) == Ok(s.cache[k])
  }

  ghost predicate ItemsKnown(db: Database) {
    forall i, p :: 0 <= i < |db.lists| && p in db.lists[i].prices ==> p < |db.products|
  }

  lemma {:induction false} RowsOfMoreLists(lists: seq<PriceList>, added: PriceList, product: nat, day: int, k: nat)
    requires k <= |lists|
    ensures Rows(lists + [added], product, day, k) == Rows(lists, product, day, k)
  {
    if k > 0 {
      RowsOfMoreLists(lists, added, product, day, k - 1);
      InsertInMoreLists(lists, added, k - 1, Rows(lists, product, day, k - 1));
    }
  }

  lemma {:induction false} InsertInMoreLists(lists: seq<PriceList>, added: PriceList, i: nat, s: seq<nat>)
    requires i < |lists| && Positions(lists, s)
    ensures InsertAhead(lists + [added], i, s) == InsertAhead(lists, i, s)
  {
    if s != [] {
      InsertInMoreLists(lists, added, i, s[1..]);
    }
  }

  lemma {:induction false} FindInMoreLists(lists: seq<PriceList>, added: PriceList, rows: seq<nat>, owner: Option<nat>)
    requires Positions(lists, rows)
    ensures FindOwner(lists + [added], rows, owner) == FindOwner(lists, rows, owner)
  {
    if rows != [] {
      FindInMoreLists(lists, added, rows[1..], owner);
    }
  }

  // A new list has no prices yet, so it changes no resolution: that is why
  // creating one may leave the cache alone.
  lemma {:induction false} NewListChangesNoPrice(db: Database, added: PriceList, k: Key)
    requires added.prices == map[]
    ensures Resolve(db.(lists := db.lists + [added]), k) == Resolve(db, k)
  {
    var rows := Rows(db.lists, k.product, k.day, |db.lists|);
    RowsOfMoreLists(db.lists, added, k.product, k.day, |db.lists|);
    assert Rows(db.lists + [added], k.product, k.day, |db.lists| + 1) == rows;
    FindInMoreLists(db.lists, added, rows, k.customer);
    FindInMoreLists(db.lists, added, rows, None);
  }

  // A new product can only answer keys that resolved to nothing before.
  lemma {:induction false} NewProductChangesNoPrice(db: Database, added: Product, k: Key)
    requires ItemsKnown(db) && Resolve(db, k).Ok?
    ensures Resolve(db.(products := db.products + [added]), k) == Resolve(db, k)
  {
    ResolutionPriority(db, k);
  }

  lemma {:induction false} UpsertedKeys(prices: map<nat, real>, items: seq<(nat, real)>, p: nat)
    requires p in Upserted(prices, items)
    ensures p in prices || exists i :: 0 <= i < |items| && items[i].0 == p
  {
    if items != [] && p != items[|items| - 1].0 {
      UpsertedKeys(prices, items[..|items| - 1], p);
    }
  }

  lemma {:induction false} StepKeepsItemsKnown(s: State, step: Step)
    requires ItemsKnown(s.db)
    ensures ItemsKnown(After(s, step).db)
  {
    if step.UpdatePrices? && LiveList(s.db, step.id) && KnownProducts(s.db, step.items) {
      forall p | p in Upserted(s.db.lists[step.id].prices, step.items) ensures p < |s.db.products| {
        UpsertedKeys(s.db.lists[step.id].prices, step.items, p);
      }
    }
  }

  lemma {:induction false} StepKeepsFresh(s: State, step: Step)
    requires ItemsKnown(s.db) && Fresh(s)
    ensures Fresh(After(s, step))
  {
    var next := After(s, step);
    match step
    case CreateList(customer, from, to, active) =>
      if !BadValidity(from, to) {
        forall k | k in s.cache ensures Resolve(next.db, k) == Ok(s.cache[k]) {
          NewListChangesNoPrice(s.db, PriceList(customer, from, to, active, false, map[]), k);
        }
      }
    case CreateProduct(price) =>
      forall k | k in s.cache ensures Resolve(next.db, k) == Ok(s.cache[k]) {
        NewProductChangesNoPrice(s.db, Product(price, false), k);
      }
    case _ =>
  }

  // Main theorem: in every sequential run each cached entry equals a fresh
  // resolution of its key.
  lemma {:induction false} RunsKeepFresh(steps: seq<Step>)
    ensures ItemsKnown(Run(steps).db) && Fresh(Run(steps))
  {
    if steps != [] {
      var before := Run(steps[..|steps| - 1]);
      RunsKeepFresh(steps[..|steps| - 1]);
      StepKeepsItemsKnown(before, steps[|steps| - 1]);
      StepKeepsFresh(before, steps[|steps| - 1]);
    }
  }

  // Hence a caller cannot tell whether an answer came from the cache.
  lemma {:induction false} AnswerIsFresh(steps: seq<Step>, product: nat, customer: Option<nat>, date: int)
    ensures Lookup(Run(steps), KeyFor(product, customer, date)).1
            == Resolve(Run(steps).db, KeyFor(product, customer, date))
  {
    RunsKeepFresh(steps);
  }
}
