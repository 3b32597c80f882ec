/** The product routes: listing with filters and pages, lookup by id,
    statistics (queries over the collection), and create, update and delete
    (methods of the store that own the collection). Each handler ends in a
    `Reply`: a status and a body, or the failure it throws. */
module ProductRoutes {
  import opened Text
  import opened Outcomes
  import opened Catalog
  import opened Validation

  function NotFoundMessage(id: string): string
  {
    "Product with ID " + id + " not found."
  }

  function DuplicateMessage(name: string): string
  {
    "Product with name '" + name + "' already exists."
  }

  // ---------------------------------------------------------------------
  // GET / : filter, search and paginate

  /** The query string of the list route. `page` and `limit` are the numbers
      `parseInt` gives. */
  datatype Query = Query(category: Option<string>, search: Option<string>, page: int, limit: int)

  /** The body of the list response. */
  datatype ListPage = ListPage(
    products: seq<Product>,
    totalProducts: nat,
    totalPages: nat,
    currentPage: int,
    itemsPerPage: int)

  /** A query parameter JavaScript treats as true: present and non-empty. */
  predicate Given(param: Option<string>)
  {
    param.Some? && param.value != ""
  }

  predicate InCategory(p: Product, category: string)
  {
    EqualsIgnoreCase(p.category, category)
  }

  predicate NameMatches(p: Product, search: string)
  {
    Includes(Lower(p.name), Lower(search))
  }

  /** What the list route asks of a product, stated in one place: the
      category filter and the name search, each only when given. */
  predicate Matches(p: Product, q: Query)
  {
    && (Given(q.category) ==> InCategory(p, q.category.value))
    && (Given(q.search) ==> NameMatches(p, q.search.value))
  }

  /** The test `p => p.category.toLowerCase() === category.toLowerCase()`. */
  function CategoryTest(category: string): Product -> bool
  {
    (p: Product) => InCategory(p, category)
  }

  /** The test `p => p.name.toLowerCase().includes(search.toLowerCase())`. */
  function SearchTest(search: string): Product -> bool
  {
    (p: Product) => NameMatches(p, search)
  }

  /** Step 1: the category filter, when a category is given. */
  function ByCategory(ps: seq<Product>, category: Option<string>): seq<Product>
  {
    if Given(category) then Filter(ps, CategoryTest(category.value)) else ps
  }

  /** Step 2: the name search, when a search term is given. */
  function BySearch(ps: seq<Product>, search: Option<string>): seq<Product>
  {
    if Given(search) then Filter(ps, SearchTest(search.value)) else ps
  }

  /** The filtered set: the category filter, then the search. */
  function Selected(ps: seq<Product>, q: Query): (r: seq<Product>)
    ensures |r| <= |ps|
    ensures !Given(q.category) && !Given(q.search) ==> r == ps
  {
    BySearch(ByCategory(ps, q.category), q.search)
  }

  /** The filtered set holds exactly the products that match the query. */
  lemma {:induction false} SelectedExactly(ps: seq<Product>, q: Query)
    ensures forall p :: p in Selected(ps, q) <==> p in ps && Matches(p, q)
  {
    if Given(q.category) {
      FilterMembers(ps, CategoryTest(q.category.value));
    }
    if Given(q.search) {
      FilterMembers(ByCategory(ps, q.category), SearchTest(q.search.value));
    }
  }

  /** Two filters in a row are one filter on both conditions. */
  lemma {:induction false} FilterTwice(ps: seq<Product>, f: Product -> bool, g: Product -> bool, both: Product -> bool)
    requires forall p :: both(p) == (f(p) && g(p))
    ensures Filter(Filter(ps, f), g) == Filter(ps, both)
  {
    if ps != [] {
      FilterTwice(ps[1..], f, g, both);
      var head := if f(ps[0]) then [ps[0]] else [];
      FilterAppend(head, Filter(ps[1..], f), g);
      if f(ps[0]) {
        assert Filter(head, g) == if g(ps[0]) then [ps[0]] else [];
      }
    }
  }

  /** The filtered set is the products that match the query, in the order
      they are stored. */
  lemma {:induction false} SelectedInOrder(ps: seq<Product>, q: Query)
    ensures Selected(ps, q) == Filter(ps, p => Matches(p, q))
  {
    var m := p => Matches(p, q);
    if Given(q.category) && Given(q.search) {
      var c, s := q.category.value, q.search.value;
      FilterTwice(ps, CategoryTest(c), SearchTest(s), m);
    } else if Given(q.category) {
      var c := q.category.value;
      FilterTwice(ps, CategoryTest(c), p => true, m);
      FilterIdentity(Filter(ps, CategoryTest(c)), p => true);
    } else if Given(q.search) {
      var s := q.search.value;
      FilterTwice(ps, p => true, SearchTest(s), m);
      FilterIdentity(ps, p => true);
    } else {
      FilterIdentity(ps, m);
    }
  }

  /** `Math.ceil(total / limit)`: the fewest pages of `limit` items that hold
      `total` items. */
  function TotalPages(total: nat, limit: int): (n: nat)
    requires limit >= 1
    ensures n * limit >= total
    ensures n == 0 || (n - 1) * limit < total
  {
    (total + limit - 1) / limit
  }

  function Min(a: int, b: int): int
  {
    if a <= b then a else b
  }

  /** How `slice` reads an index: a negative one counts back from the end,
      and the result is clamped to `0 .. len`. */
  function SliceIndex(i: int, len: nat): (k: nat)
    ensures k <= len
    ensures 0 <= i <= len ==> k == i
    ensures len <= i ==> k == len
    ensures len + i <= 0 ==> k == 0
    ensures i < 0 < len + i ==> k - i == len
  {
    if i < 0 then (if len + i < 0 then 0 else len + i) else Min(i, len)
  }

  /** `ps.slice(start, end)`: the items between the two indices as `slice`
      reads them, none when the end does not come after the start. */
  function Slice(ps: seq<Product>, start: int, end: int): (r: seq<Product>)
    ensures var s, e := SliceIndex(start, |ps|), SliceIndex(end, |ps|);
      && |r| == (if s < e then e - s else 0)
      && forall k | 0 <= k < |r| :: r[k] == ps[s + k]
  {
    var s, e := SliceIndex(start, |ps|), SliceIndex(end, |ps|);
    if s < e then ps[s..e] else []
  }

  /** Where page `page` starts: `(page - 1) * limit`. */
  function Offset(page: int, limit: int): (start: nat)
    requires page >= 1 && limit >= 1
    ensures start + limit == page * limit
  {
    MulMonotone(0, page - 1, limit);
    (page - 1) * limit
  }

  /** Step 3: `slice((page - 1) * limit, page * limit)`. From page 1 on, the
      items from the page's offset up to, not including, the next page's, and
      none past the end; page 0 is always empty; a negative page counts back
      from the end (`PageFromEnd`). */
  function Paginate(ps: seq<Product>, page: int, limit: int): (r: seq<Product>)
    requires limit >= 1
    ensures |r| <= limit
    ensures forall k | 0 <= k < |r| :: r[k] in ps
    ensures page >= 1 ==>
              && (forall k | 0 <= k < |r| :: Offset(page, limit) + k < |ps| && r[k] == ps[Offset(page, limit) + k])
              && |r| == if Offset(page, limit) >= |ps| then 0 else Min(limit, |ps| - Offset(page, limit))
    ensures page == 0 ==> r == []
  {
    var start := (page - 1) * limit;
    assert start + limit == page * limit;
    MulMonotone(Min(page, 0), 0, limit);
    SliceIndexStep(start, limit, |ps|);
    Slice(ps, start, start + limit)
  }

  /** Moving an index forward by `d` moves its `slice` reading forward by at
      most `d` (it may move back, from a negative index to a non-negative
      one). */
  lemma {:induction false} SliceIndexStep(i: int, d: nat, len: nat)
    ensures SliceIndex(i + d, len) <= SliceIndex(i, len) + d
  {
  }

  /** A negative page counts back from the end: when the products fill `n`
      pages exactly, page `-j` is page `n - j`. */
  lemma {:induction false} PageFromEnd(ps: seq<Product>, limit: int, n: nat, page: int)
    requires limit >= 1 && |ps| == n * limit
    requires page <= -1 && n + page >= 1
    ensures Paginate(ps, page, limit) == Paginate(ps, n + page, limit)
  {
    var start, from := (page - 1) * limit, (n + page - 1) * limit;
    assert |ps| + start == from;
    assert |ps| + start + limit == from + limit;
    MulMonotone(0, n + page - 1, limit);
    MulMonotone(n + page, n, limit);
    assert from + limit == (n + page) * limit;
    assert SliceIndex(start, |ps|) == from;
    assert SliceIndex(start + limit, |ps|) == from + limit;
    assert SliceIndex(from, |ps|) == from;
    assert SliceIndex(from + limit, |ps|) == from + limit;
  }

  /** A page is empty exactly when it comes after the last page. */
  lemma {:induction false} PageEmptyIffPastEnd(ps: seq<Product>, page: int, limit: int)
    requires page >= 1 && limit >= 1
    ensures Paginate(ps, page, limit) == [] <==> page > TotalPages(|ps|, limit)
  {
    var n := TotalPages(|ps|, limit);
    if page <= n {
      MulMonotone(page - 1, n - 1, limit);
    } else {
      MulMonotone(n, page - 1, limit);
    }
  }

  lemma {:induction false} MulMonotone(a: int, b: int, c: nat)
    requires a <= b
    ensures a * c <= b * c
  {
  }

  /** Every product appears on page `k / limit + 1`, at position `k % limit`. */
  lemma {:induction false} PageOfIndex(ps: seq<Product>, limit: int, k: nat)
    requires limit >= 1 && k < |ps|
    ensures var page := Paginate(ps, k / limit + 1, limit);
      k % limit < |page| && page[k % limit] == ps[k]
  {
    var q, m := k / limit, k % limit;
    assert k == q * limit + m;
    assert Offset(q + 1, limit) == q * limit;
  }

  /** Pages 1 to `n`, one after the other. */
  function FirstPages(ps: seq<Product>, limit: int, n: nat): seq<Product>
    requires limit >= 1
  {
    if n == 0 then [] else FirstPages(ps, limit, n - 1) + Paginate(ps, n, limit)
  }

  /** The first `n` pages are the first `n * limit` products. */
  lemma {:induction false} FirstPagesArePrefix(ps: seq<Product>, limit: int, n: nat)
    requires limit >= 1
    ensures FirstPages(ps, limit, n) == ps[..Min(n * limit, |ps|)]
  {
    FirstPagesUpTo(ps, limit, n);
    assert Offset(n + 1, limit) == n * limit;
  }

  /** The first `n` pages end where page `n + 1` would start. */
  lemma {:induction false} FirstPagesUpTo(ps: seq<Product>, limit: int, n: nat)
    requires limit >= 1
    ensures FirstPages(ps, limit, n) == ps[..Min(Offset(n + 1, limit), |ps|)]
  {
    if n > 0 {
      var offset := Offset(n, limit);
      var a, b := Min(offset, |ps|), Min(offset + limit, |ps|);
      assert offset + limit == Offset(n + 1, limit);
      FirstPagesUpTo(ps, limit, n - 1);
      FirstPagesStep(ps, limit, n);
      PrefixJoin(ps, a, b);
    }
  }

  /** Page `n` follows the pages before it: it adds the items from its
      offset to the next page's, clamped to the length. */
  lemma {:induction false} FirstPagesStep(ps: seq<Product>, limit: int, n: nat)
    requires limit >= 1 && n >= 1
    ensures FirstPages(ps, limit, n)
            == FirstPages(ps, limit, n - 1) + ps[Min(Offset(n, limit), |ps|)..Min(Offset(n, limit) + limit, |ps|)]
  {
    PageIsSlice(ps, n, limit);
  }

  /** From page 1 on, a page is the stretch of items between its offset and
      the next page's, both clamped to the length. */
  lemma {:induction false} PageIsSlice(ps: seq<Product>, page: int, limit: int)
    requires page >= 1 && limit >= 1
    ensures Paginate(ps, page, limit)
            == ps[Min(Offset(page, limit), |ps|)..Min(Offset(page, limit) + limit, |ps|)]
  {
    var offset := Offset(page, limit);
    var a, b := Min(offset, |ps|), Min(offset + limit, |ps|);
    var r := Paginate(ps, page, limit);
    assert |r| == b - a;
    forall k | 0 <= k < |r| ensures r[k] == ps[a..b][k] {
    }
  }

  /** The first `a` items followed by the items from `a` to `b` are the first
      `b` items. */
  lemma {:induction false} PrefixJoin(ps: seq<Product>, a: nat, b: nat)
    requires a <= b <= |ps|
    ensures ps[..a] + ps[a..b] == ps[..b]
  {
  }

  /** Reading every page in turn gives back the whole filtered set, once each
      and in order. */
  lemma {:induction false} PagesCoverAll(ps: seq<Product>, limit: int)
    requires limit >= 1
    ensures FirstPages(ps, limit, TotalPages(|ps|, limit)) == ps
  {
    FirstPagesArePrefix(ps, limit, TotalPages(|ps|, limit));
  }

  /** `GET /`: filter by category, search by name, then cut out the page.
      `page` and `limit` are the integers the query gave (1 and 10 when
      absent). */
  function List(ps: seq<Product>, q: Query): (r: Reply<ListPage>)
    requires q.limit >= 1
    ensures r.Ok? && r.status == 200
    ensures r.body.totalProducts == |Selected(ps, q)|
    ensures r.body.totalPages * q.limit >= r.body.totalProducts
    ensures r.body.totalPages == 0 || (r.body.totalPages - 1) * q.limit < r.body.totalProducts
    ensures |r.body.products| <= q.limit
    ensures forall p | p in r.body.products :: p in ps && Matches(p, q)
    ensures q.page >= 1 ==> (r.body.products == [] <==> q.page > r.body.totalPages)
    ensures q.page == 0 ==> r.body.products == []
    ensures r.body.currentPage == q.page && r.body.itemsPerPage == q.limit
    ensures r.body.products == Paginate(Selected(ps, q), q.page, q.limit)
  {
    var filtered := Selected(ps, q);
    var page := Paginate(filtered, q.page, q.limit);
    PageMatches(ps, q);
    var r := Ok(200, ListPage(page, |filtered|, TotalPages(|filtered|, q.limit), q.page, q.limit));
    if q.page >= 1 then
      PageEmptyIffPastEnd(filtered, q.page, q.limit);
      r
    else r
  }

  /** Every product on a page of the list is stored and matches the query. */
  lemma {:induction false} PageMatches(ps: seq<Product>, q: Query)
    requires q.limit >= 1
    ensures forall p | p in Paginate(Selected(ps, q), q.page, q.limit) :: p in ps && Matches(p, q)
  {
    var filtered := Selected(ps, q);
    var page := Paginate(filtered, q.page, q.limit);
    SelectedExactly(ps, q);
    assert forall p | p in page :: p in filtered;
  }

  /** Any page, even one past the last, reports the same totals as every
      other page of the same query. */
  lemma {:induction false} PastEndKeepsTotals(ps: seq<Product>, q: Query, page: int)
    requires q.limit >= 1
    ensures var a, b := List(ps, q).body, List(ps, q.(page := page)).body;
      a.totalProducts == b.totalProducts && a.totalPages == b.totalPages
  {
  }

  // ---------------------------------------------------------------------
  // GET /:id

  /** `products.find(p => p.id === id)`, or `NotFoundError`. */
  function Get(ps: seq<Product>, id: string): (r: Reply<Product>)
    ensures r.Ok? <==> HasId(ps, id)
    ensures r.Ok? ==> r.status == 200 && r.body.id == id && r.body in ps
    ensures r.Fail? ==> r.error == NotFound(NotFoundMessage(id))
  {
    match FindById(ps, id)
    case None => Fail(NotFound(NotFoundMessage(id)))
    case Some(p) => Ok(200, p)
  }

  // ---------------------------------------------------------------------
  // GET /statistics

  /** The body of the statistics response. */
  datatype Stats = Stats(
    totalProducts: nat,
    productsByCategory: map<string, nat>,
    inStockCount: nat,
    outOfStockCount: nat)

  function Categories(ps: seq<Product>): (cs: seq<string>)
    ensures |cs| == |ps| && forall i | 0 <= i < |ps| :: cs[i] == ps[i].category
  {
    seq(|ps|, i requires 0 <= i < |ps| => ps[i].category)
  }

  /** `products.reduce((acc, p) => { acc[p.category] = (acc[p.category] || 0) + 1; … }, {})`:
      every category present maps to the number of products in it, and no
      other key is present. */
  function Tally(ps: seq<Product>): (m: map<string, nat>)
    ensures forall c :: multiset(Categories(ps))[c] == if c in m then m[c] else 0
    ensures forall c | c in m :: m[c] > 0
  {
    if ps == [] then map[]
    else
      var init := ps[..|ps| - 1];
      var c := ps[|ps| - 1].category;
      var m := Tally(init);
      assert Categories(ps) == Categories(init) + [c];
      m[c := (if c in m then m[c] else 0) + 1]
  }

  /** The sum of the values of a map. */
  ghost function SumValues(m: map<string, nat>): nat
    decreases |m|
  {
    if m == map[] then 0
    else
      var k :| k in m;
      m[k] + SumValues(m - {k})
  }

  /** The sum may take the keys in any order. */
  lemma {:induction false} SumValuesRemove(m: map<string, nat>, k: string)
    requires k in m
    ensures SumValues(m) == m[k] + SumValues(m - {k})
    decreases |m|
  {
    var j :| j in m && SumValues(m) == m[j] + SumValues(m - {j});
    if j != k {
      assert (m - {j}) - {k} == (m - {k}) - {j};
      SumValuesRemove(m - {j}, k);
      SumValuesRemove(m - {k}, j);
    }
  }

  lemma {:induction false} SumValuesBump(m: map<string, nat>, c: string)
    ensures SumValues(m[c := (if c in m then m[c] else 0) + 1]) == SumValues(m) + 1
  {
    var m' := m[c := (if c in m then m[c] else 0) + 1];
    SumValuesRemove(m', c);
    assert m' - {c} == m - {c};
    if c in m {
      SumValuesRemove(m, c);
    } else {
      assert m - {c} == m;
    }
  }

  /** The per-category counts add up to the number of products. */
  lemma {:induction false} TallySum(ps: seq<Product>)
    ensures SumValues(Tally(ps)) == |ps|
  {
    if ps != [] {
      var init, c := ps[..|ps| - 1], ps[|ps| - 1].category;
      var m := Tally(init);
      assert Tally(ps) == m[c := (if c in m then m[c] else 0) + 1];
      TallySum(init);
      SumValuesBump(m, c);
    }
  }

  predicate IsInStock(p: Product)
  {
    p.inStock
  }

  predicate IsOutOfStock(p: Product)
  {
    !p.inStock
  }

  /** Every product is either in stock or out of stock, never both. */
  lemma {:induction false} StockSplit(ps: seq<Product>)
    ensures |Filter(ps, IsInStock)| + |Filter(ps, IsOutOfStock)| == |ps|
  {
    if ps != [] {
      StockSplit(ps[1..]);
    }
  }

  /** `GET /statistics`. */
  function Statistics(ps: seq<Product>): (r: Reply<Stats>)
    ensures r.Ok? && r.status == 200
    ensures r.body.totalProducts == |ps|
    ensures r.body.inStockCount == |Filter(ps, IsInStock)|
    ensures r.body.outOfStockCount == |Filter(ps, IsOutOfStock)|
    ensures r.body.inStockCount + r.body.outOfStockCount == r.body.totalProducts
    ensures forall p | p in ps :: p.category in r.body.productsByCategory
    ensures forall c | c in r.body.productsByCategory ::
              r.body.productsByCategory[c] == multiset(Categories(ps))[c] > 0
    ensures SumValues(r.body.productsByCategory) == r.body.totalProducts
  {
    StockSplit(ps);
    TallySum(ps);
    var tally := Tally(ps);
    assert forall i | 0 <= i < |ps| :: ps[i].category in multiset(Categories(ps));
    Ok(200, Stats(|ps|, tally, |Filter(ps, IsInStock)|, |Filter(ps, IsOutOfStock)|))
  }

  // ---------------------------------------------------------------------
  // The store and the handlers that change it

  /** The test `p => p.id !== id` of the delete filter. */
  function OtherThan(id: string): Product -> bool
  {
    (p: Product) => p.id != id
  }

  /** The collection with one record taken out per occurrence of `id`:
      `products.filter(p => p.id !== id)`. */
  function Without(ps: seq<Product>, id: string): (r: seq<Product>)
    ensures !HasId(r, id)
    ensures forall p :: p in r <==> p in ps && p.id != id
    ensures |r| == |ps| <==> !HasId(ps, id)
  {
    FilterKeepsAll(ps, OtherThan(id));
    FilterMembers(ps, OtherThan(id));
    var r := Filter(ps, OtherThan(id));
    assert forall i | 0 <= i < |r| :: r[i] in r;
    r
  }

  /** In a store with unique ids, a delete that finds its id removes exactly
      one record. */
  lemma {:induction false} WithoutRemovesOne(ps: seq<Product>, i: nat)
    requires Consistent(ps) && i < |ps|
    ensures Without(ps, ps[i].id) == ps[..i] + ps[i + 1..]
    ensures |Without(ps, ps[i].id)| == |ps| - 1
  {
    forall j | 0 <= j < |ps| && j != i ensures OtherThan(ps[i].id)(ps[j]) {
      if j < i {
        assert Apart(ps[j], ps[i]);
      } else {
        assert Apart(ps[i], ps[j]);
      }
    }
    FilterDropsOne(ps, OtherThan(ps[i].id), i);
  }

  /** Deleting again changes nothing: after a delete no record has the id,
      so by `Without`'s length property a second delete of it reports
      `NotFound`. */
  lemma {:induction false} WithoutTwice(ps: seq<Product>, id: string)
    ensures Without(Without(ps, id), id) == Without(ps, id)
  {
    var r := Without(ps, id);
    FilterIdentity(r, OtherThan(id));
  }

  /** The in-memory collection, seeded at start-up and changed only by the
      create, update and delete handlers. */
  class ProductStore {
    var products: seq<Product>

    /** The store invariant: unique ids, case-insensitively unique names,
        and every record as the validator would accept it. */
    ghost predicate Valid()
      reads this
    {
      Consistent(products)
    }

    constructor (initial: seq<Product>)
      requires Consistent(initial)
      ensures Valid() && products == initial
    {
      products := initial;
    }

    /** `POST /` after `validateProduct`: a body the validator rejects, or a
        name some record already has (ignoring case), leaves the store as it
        was; otherwise the new record, with the fresh id and the body's
        fields, is appended and returned with status 201. */
    method Create(body: Body, freshId: string) returns (r: Reply<Product>)
      requires Valid() && !HasId(products, freshId)
      modifies this
      ensures Valid()
      ensures Validate(body).Rejected? ==>
                r == Fail(Validate(body).error) && products == old(products)
      ensures Validate(body).Accepted? && NameTaken(old(products), Validate(body).fields.name) ==>
                r == Fail(ValidationError(DuplicateMessage(Validate(body).fields.name)))
                && products == old(products)
      ensures Validate(body).Accepted? && !NameTaken(old(products), Validate(body).fields.name) ==>
                r == Ok(201, WithId(Validate(body).fields, freshId))
                && products == old(products) + [r.body]
      ensures r.Ok? ==> Get(products, freshId) == Ok(200, r.body)
    {
      match Validate(body)
      case Rejected(e) =>
        r := Fail(e);
      case Accepted(fields) =>
        if NameTaken(products, fields.name) {
          r := Fail(ValidationError(DuplicateMessage(fields.name)));
        } else {
          var p := WithId(fields, freshId);
          AcceptedIsWellFormed(body, freshId);
          AppendConsistent(products, p);
          products := products + [p];
          FindUnique(products, |products| - 1);
          r := Ok(201, p);
        }
    }

    /** `PUT /:id` after `validateProduct`: a rejected body, an id no record
        has, or a name another record has (ignoring case) leaves the store as
        it was; otherwise the record at the id's position is replaced by the
        body's fields under the path id, and returned with status 200. */
    method Update(id: string, body: Body) returns (r: Reply<Product>)
      requires Valid()
      modifies this
      ensures Valid()
      ensures Validate(body).Rejected? ==>
                r == Fail(Validate(body).error) && products == old(products)
      ensures Validate(body).Accepted? && !HasId(old(products), id) ==>
                r == Fail(NotFound(NotFoundMessage(id))) && products == old(products)
      ensures Validate(body).Accepted? && HasId(old(products), id)
              && NameTakenByOther(old(products), Validate(body).fields.name, id) ==>
                r == Fail(ValidationError(DuplicateMessage(Validate(body).fields.name)))
                && products == old(products)
      ensures Validate(body).Accepted? && HasId(old(products), id)
              && !NameTakenByOther(old(products), Validate(body).fields.name, id) ==>
                var i := FindIndex(old(products), id).value;
                && r == Ok(200, WithId(Validate(body).fields, id))
                && products == old(products)[i := r.body]
      ensures r.Ok? ==> Get(products, id) == Ok(200, r.body)
    {
      match Validate(body)
      case Rejected(e) =>
        r := Fail(e);
      case Accepted(fields) =>
        var found := FindIndex(products, id);
        if found.None? {
          r := Fail(NotFound(NotFoundMessage(id)));
        } else if NameTakenByOther(products, fields.name, id) {
          r := Fail(ValidationError(DuplicateMessage(fields.name)));
        } else {
          var i := found.value;
          var p := WithId(fields, id);
          AcceptedIsWellFormed(body, id);
          ReplaceConsistent(products, i, p);
          products := products[i := p];
          FindUnique(products, i);
          r := Ok(200, p);
        }
    }

    /** `DELETE /:id`: every record with the id is dropped and the others
        keep their order; when nothing was dropped the reply is `NotFound`,
        otherwise 204 with no body. Afterwards no record has the id, so a
        second delete of it fails. */
    method Delete(id: string) returns (r: Reply<()>)
      requires Valid()
      modifies this
      ensures Valid()
      ensures products == Without(old(products), id)
      ensures HasId(old(products), id) ==> r == Ok(204, ())
      ensures !HasId(old(products), id) ==> r == Fail(NotFound(NotFoundMessage(id)))
      ensures !HasId(products, id)
    {
      var initialLength := |products|;
      FilterConsistent(products, OtherThan(id));
      products := Without(products, id);
      if |products| == initialLength {
        r := Fail(NotFound(NotFoundMessage(id)));
      } else {
        r := Ok(204, ());
      }
    }
  }
}
