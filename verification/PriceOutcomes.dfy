// The answer to a price query and the effect of every change, in terms of the
// stored lists and products.

module PriceOutcomes {
  import opened Common
  import opened PriceLists

  // ---------------------------------------------------------------- the answer

  // Midnight of the UTC day.
  function Midnight(date: int): int {
    date - date % 86400000
  }

  ghost predicate Valid(l: PriceList, product: nat, owner: Option<nat>, date: int) {
    && l.customer == owner && product in l.prices && l.active && !l.deleted
    && l.from <= Midnight(date) && (l.to == None || l.to.value >= Midnight(date))
  }

  // Of the valid lists of this owner, the one that started last; among equals the
  // one stored first.
  ghost predicate Best(lists: seq<PriceList>, product: nat, owner: Option<nat>, date: int, i: nat) {
    && i < |lists| && Valid(lists[i], product, owner, date)
    && (forall j :: 0 <= j < i && Valid(lists[j], product, owner, date) ==> lists[j].from < lists[i].from)
    && (forall j :: i < j < |lists| && Valid(lists[j], product, owner, date) ==> lists[j].from <= lists[i].from)
  }

  ghost predicate NoList(lists: seq<PriceList>, product: nat, owner: Option<nat>, date: int) {
    forall i :: 0 <= i < |lists| ==> !Valid(lists[i], product, owner, date)
  }

  lemma {:induction false} ValidIffApplies(l: PriceList, product: nat, owner: Option<nat>, date: int)
    ensures Valid(l, product, owner, date)
            <==> Applies(l, product, KeyFor(product, owner, date).day) && l.customer == owner
  {
  }

  lemma {:induction false} BestIsLatest(lists: seq<PriceList>, product: nat, owner: Option<nat>, date: int)
    ensures var day := KeyFor(product, owner, date).day;
            && (NoneApplies(lists, product, day, owner) ==> NoList(lists, product, owner, date))
            && (forall i: nat :: IsLatest(lists, product, day, owner, i) ==> Best(lists, product, owner, date, i))
    ensures forall i: nat, j: nat ::
      Best(lists, product, owner, date, i) && Best(lists, product, owner, date, j) ==> i == j
    ensures forall i: nat :: Best(lists, product, owner, date, i) ==> !NoList(lists, product, owner, date)
  {
    forall i | 0 <= i < |lists|
      ensures Valid(lists[i], product, owner, date)
              <==> Applies(lists[i], product, KeyFor(product, owner, date).day) && lists[i].customer == owner
    {
      ValidIffApplies(lists[i], product, owner, date);
    }
  }

  // The answer for every product, customer and date: the customer's own best
  // list, else the best general list, else the product's own price, else nothing.
  lemma {:induction false} PriceOutcome(db: Database, product: nat, customer: Option<nat>, date: int)
    ensures var r := Resolve(db, KeyFor(product, customer, date));
            var own := customer.Some? && !NoList(db.lists, product, customer, date);
            && (forall i: nat :: own && Best(db.lists, product, customer, date, i) ==>
                  r == Ok(Price(db.lists[i].prices[product], Some(i), CustomerList)))
            && (forall i: nat :: !own && Best(db.lists, product, None, date, i) ==>
                  r == Ok(Price(db.lists[i].prices[product], Some(i), GeneralList)))
            && (!own && NoList(db.lists, product, None, date) ==>
                  r == if product < |db.products| && !db.products[product].deleted
                       then Ok(Price(db.products[product].price, None, ProductDefault)) else Err(NotFound))
  {
    var k := KeyFor(product, customer, date);
    ResolutionPriority(db, k);
    BestIsLatest(db.lists, product, customer, date);
    BestIsLatest(db.lists, product, None, date);
  }

  // Either no list of the owner is valid or one is the best.
  lemma {:induction false} SomeListIsBest(db: Database, product: nat, owner: Option<nat>, date: int)
    ensures NoList(db.lists, product, owner, date) || exists i: nat :: Best(db.lists, product, owner, date, i)
  {
    var day := KeyFor(product, owner, date).day;
    FoundIsLatest(db, product, day, owner);
    BestIsLatest(db.lists, product, owner, date);
  }

  // Two queries share a cache entry exactly when they ask for the same product and
  // customer on the same UTC day.
  lemma {:induction false} SharedEntries(p: nat, c: Option<nat>, d: int, p': nat, c': Option<nat>, d': int)
    ensures KeyFor(p, c, d) == KeyFor(p', c', d') <==> p == p' && c == c' && Midnight(d) == Midnight(d')
  {
    assert d == d / 86400000 * 86400000 + d % 86400000;
    assert d' == d' / 86400000 * 86400000 + d' % 86400000;
  }

  // A query changes nothing but the entry of its key, which holds the answer.
  lemma {:induction false} GetOutcome(s: State, product: nat, customer: Option<nat>, date: int)
    ensures var k := KeyFor(product, customer, date);
            var (next, r) := Lookup(s, k);
            && After(s, Get(product, customer, date)) == next
            && next.db == s.db
            && (r.Ok? ==> next.cache == s.cache[k := r.value])
            && (r.Err? ==> next.cache == s.cache)
            && r == if k in s.cache then Ok(s.cache[k]) else Resolve(s.db, k)
  {
  }

  // --------------------------------------------------------------- the changes

  // The change leaves the database so and drops every cached price.
  ghost predicate Changes(s: State, next: State, lists: seq<PriceList>, products: seq<Product>) {
    next == State(Database(lists, products), map[])
  }

  // A list starts without prices; it is refused if it would end before it begins.
  lemma {:induction false} CreateListOutcome(s: State, customer: Option<nat>, from: int, to: Option<int>, active: bool)
    ensures After(s, CreateList(customer, from, to, active))
            == if to.Some? && to.value <= from then s
               else State(Database(s.db.lists + [PriceList(customer, from, to, active, false, map[])], s.db.products),
                          s.cache)
  {
  }

  // Exactly the given fields change; the end is checked against the start it will
  // have.
  lemma {:induction false} UpdateListOutcome(s: State, id: nat, c: ListChange)
    ensures var next := After(s, UpdateList(id, c));
            if id >= |s.db.lists| || s.db.lists[id].deleted
               || (c.to.Some? && c.to.value.Some?
                   && c.to.value.value <= if c.from.Some? then c.from.value else s.db.lists[id].from)
            then next == s
            else && |next.db.lists| == |s.db.lists| && Changes(s, next, next.db.lists, s.db.products)
                 && (forall i :: 0 <= i < |s.db.lists| && i != id ==> next.db.lists[i] == s.db.lists[i])
                 && var before, after := s.db.lists[id], next.db.lists[id];
                    && after.customer == (match c.customer case Some(x) => x case None => before.customer)
                    && after.from == (match c.from case Some(x) => x case None => before.from)
                    && after.to == (match c.to case Some(x) => x case None => before.to)
                    && after.active == (match c.active case Some(x) => x case None => before.active)
                    && after.prices == before.prices && !after.deleted
  {
  }

  // What the last item naming a product asks for.
  function LastPrice(items: seq<(nat, real)>, p: nat): Option<real> {
    if items == [] then None
    else if items[|items| - 1].0 == p then Some(items[|items| - 1].1)
    else LastPrice(items[..|items| - 1], p)
  }

  // Products the items name get the price they ask for last; other prices stay.
  ghost predicate SetsPrices(before: map<nat, real>, after: map<nat, real>, items: seq<(nat, real)>) {
    forall p: nat ::
      match LastPrice(items, p)
      case Some(x) => p in after && after[p] == x
      case None => (p in after <==> p in before) && (p in before ==> after[p] == before[p])
  }

  lemma {:induction false} UpsertedSetsPrices(prices: map<nat, real>, items: seq<(nat, real)>)
    ensures SetsPrices(prices, Upserted(prices, items), items)
  {
    if items != [] {
      UpsertedSetsPrices(prices, items[..|items| - 1]);
    }
  }

  // Prices are set on a list that is not deleted, for products there are; one
  // unknown product and nothing is set.
  lemma {:induction false} UpdatePricesOutcome(s: State, id: nat, items: seq<(nat, real)>)
    ensures var next := After(s, UpdatePrices(id, items));
            if id >= |s.db.lists| || s.db.lists[id].deleted
               || exists k :: 0 <= k < |items| && items[k].0 >= |s.db.products|
            then next == s
            else && |next.db.lists| == |s.db.lists| && Changes(s, next, next.db.lists, s.db.products)
                 && (forall i :: 0 <= i < |s.db.lists| && i != id ==> next.db.lists[i] == s.db.lists[i])
                 && next.db.lists[id].(prices := map[]) == s.db.lists[id].(prices := map[])
                 && SetsPrices(s.db.lists[id].prices, next.db.lists[id].prices, items)
  {
    if id < |s.db.lists| { UpsertedSetsPrices(s.db.lists[id].prices, items); }
  }

  lemma {:induction false} DeactivateListOutcome(s: State, id: nat)
    ensures var next := After(s, DeactivateList(id));
            if id >= |s.db.lists| || s.db.lists[id].deleted then next == s
            else Changes(s, next, s.db.lists[id := s.db.lists[id].(deleted := true)], s.db.products)
  {
  }

  // A new product leaves the cache alone; a changed or deleted one does not.
  lemma {:induction false} ProductOutcomes(s: State, id: nat, price: real, newPrice: Option<real>)
    ensures After(s, CreateProduct(price))
            == State(Database(s.db.lists, s.db.products + [Product(price, false)]), s.cache)
    ensures id >= |s.db.products| || s.db.products[id].deleted ==>
              After(s, UpdateProduct(id, newPrice)) == s == After(s, DeactivateProduct(id))
    ensures id < |s.db.products| && !s.db.products[id].deleted ==>
              var kept := s.db.products[id];
              && Changes(s, After(s, DeactivateProduct(id)), s.db.lists,
                         s.db.products[id := Product(kept.price, true)])
              && Changes(s, After(s, UpdateProduct(id, newPrice)), s.db.lists,
                         s.db.products[id := Product(match newPrice case Some(x) => x case None => kept.price, false)])
  {
  }

  // Only expiry removes an entry without a change.
  lemma {:induction false} ExpireOutcome(s: State, k: Key)
    ensures After(s, Expire(k)) == State(s.db, map x | x in s.cache && x != k :: s.cache[x])
  {
  }

  // A run starts with nothing stored and takes each step in turn.
  lemma {:induction false} RunOutcome(steps: seq<Step>, step: Step)
    ensures Run([]) == State(Database([], []), map[])
    ensures Run(steps + [step]) == After(Run(steps), step)
  {
    assert (steps + [step])[..|steps|] == steps;
  }
}
