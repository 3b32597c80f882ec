/** The five products the collection starts with (`products.js`). */
module Seed {
  import opened Text
  import opened Outcomes
  import opened Catalog
  import opened Validation
  import opened ProductRoutes

  // The longer texts are written as two literals joined, which lets the
  // verifier read their characters.

  /** The seed records in their order; `ids` stands for the five `uuidv4()`
      values, which are assumed distinct. */
  function Products(ids: seq<string>): (ps: seq<Product>)
    requires |ids| == 5
    requires forall i, j | 0 <= i < j < 5 :: ids[i] != ids[j]
    ensures |ps| == 5
    ensures forall i | 0 <= i < 5 :: ps[i].id == ids[i]
  {
    [Laptop(ids[0]), Mouse(ids[1]), Keyboard(ids[2]), Lamp(ids[3]), Watch(ids[4])]
  }

  /** The seed collection satisfies the store invariant: unique ids, names
      unique ignoring case, every record as the validator accepts it. */
  lemma {:induction false} SeedIsConsistent(ids: seq<string>)
    requires |ids| == 5
    requires forall i, j | 0 <= i < j < 5 :: ids[i] != ids[j]
    ensures Consistent(Products(ids))
  {
    var ps := Products(ids);
    assert Opening(ps[0], 'l') && Opening(ps[1], 'w') && Opening(ps[2], 'm')
      && Opening(ps[3], 'd') && Opening(ps[4], 's');
    SeedConsistent(ps);
  }

  /** Every seed record is one the validator accepts, fields unchanged. */
  lemma {:induction false} SeedValidates(ids: seq<string>, i: nat)
    requires |ids| == 5
    requires forall i, j | 0 <= i < j < 5 :: ids[i] != ids[j]
    requires i < 5
    ensures Validate(BodyOf(Products(ids)[i])) == Accepted(Fields(Products(ids)[i]))
  {
    SeedIsConsistent(ids);
    ValidateRecord(Products(ids)[i]);
  }

  function Laptop(id: string): Product
  {
    Product(id, "Laptop Pro X",
            "Powerful laptop for " + "professionals with 16GB RAM and 512GB SSD.",
            1200.0, "Electronics", true)
  }

  function Mouse(id: string): Product
  {
    Product(id, "Wireless Mouse Ergo",
            "Ergonomic wireless mouse " + "with adjustable DPI.",
            25.0, "Electronics", true)
  }

  function Keyboard(id: string): Product
  {
    Product(id, "Mechanical Keyboard RGB",
            "Gaming mechanical keyboard " + "with customizable RGB lighting.",
            80.0, "Electronics", false)
  }

  function Lamp(id: string): Product
  {
    Product(id, "Desk Lamp LED",
            "Modern LED desk lamp " + "with touch control and dimming.",
            45.0, "Home & Office", true)
  }

  function Watch(id: string): Product
  {
    Product(id, "Smartwatch Sport",
            "Fitness smartwatch " + "with heart rate monitoring and GPS.",
            150.0, "Wearables", true)
  }

  /** Names are told apart by their first letter, and every text field
      starts with a letter, so the seed records keep the store invariant. */
  lemma {:induction false} SeedConsistent(ps: seq<Product>)
    requires |ps| == 5
    requires forall i, j | 0 <= i < j < 5 :: ps[i].id != ps[j].id
    requires Opening(ps[0], 'l') && Opening(ps[1], 'w') && Opening(ps[2], 'm')
    requires Opening(ps[3], 'd') && Opening(ps[4], 's')
    ensures Consistent(ps)
  {
    forall i, j | 0 <= i < j < 5 ensures Apart(ps[i], ps[j]) {
      assert Lower(ps[i].name)[0] != Lower(ps[j].name)[0];
    }
    forall i | 0 <= i < 5 ensures WellFormed(ps[i]) {
      assert !IsSpace(ps[i].name[0]) && !IsSpace(ps[i].description[0]) && !IsSpace(ps[i].category[0]);
    }
  }

  predicate IsLetter(c: char)
  {
    IsUpper(c) || 'a' <= c <= 'z'
  }

  /** A seed record whose name starts with `initial` (ignoring case), whose
      text fields start with a letter, and whose price is positive. */
  predicate Opening(p: Product, initial: char)
  {
    && |p.name| > 0 && |p.description| > 0 && |p.category| > 0
    && LowerChar(p.name[0]) == initial
    && IsLetter(p.name[0]) && IsLetter(p.description[0]) && IsLetter(p.category[0])
    && p.price > 0.0
  }

  /** The initial statistics: five products, four in stock and one out of
      stock, three in 'Electronics' and one each in 'Home & Office' and
      'Wearables'. */
  lemma {:induction false} SeedStatistics(ids: seq<string>)
    requires |ids| == 5
    requires forall i, j | 0 <= i < j < 5 :: ids[i] != ids[j]
    ensures var stats := Statistics(Products(ids)).body;
      && stats.totalProducts == 5
      && stats.inStockCount == 4
      && stats.outOfStockCount == 1
      && stats.productsByCategory == map["Electronics" := 3, "Home & Office" := 1, "Wearables" := 1]
  {
    var ps := Products(ids);
    FilterFive(ps[0], ps[1], ps[2], ps[3], ps[4], IsInStock);
    FilterFive(ps[0], ps[1], ps[2], ps[3], ps[4], IsOutOfStock);
    assert ps == [ps[0], ps[1], ps[2], ps[3], ps[4]];
    CategoryCounts(ps, "Electronics", "Home & Office", "Wearables");
    assert Statistics(ps).body.productsByCategory == Tally(ps);
  }

  /** The category tally of five records, three of one category and one each
      of two others. */
  lemma {:induction false} CategoryCounts(ps: seq<Product>, e: string, h: string, w: string)
    requires |ps| == 5 && e != h && e != w && h != w
    requires ps[0].category == e && ps[1].category == e && ps[2].category == e
    requires ps[3].category == h && ps[4].category == w
    ensures Tally(ps) == map[e := 3, h := 1, w := 1]
  {
    CategoryMultiset(ps, e, h, w);
    var m := Tally(ps);
    assert m.Keys == {e, h, w};
  }

  lemma {:induction false} CategoryMultiset(ps: seq<Product>, e: string, h: string, w: string)
    requires |ps| == 5 && e != h && e != w && h != w
    requires ps[0].category == e && ps[1].category == e && ps[2].category == e
    requires ps[3].category == h && ps[4].category == w
    ensures var counts := multiset(Categories(ps));
      counts[e] == 3 && counts[h] == 1 && counts[w] == 1
      && forall c | c in counts :: c == e || c == h || c == w
  {
    var cs := Categories(ps);
    assert cs == [e, e, e] + [h] + [w];
    assert multiset(cs) == multiset([e, e, e]) + multiset{h} + multiset{w};
  }

  /** Listing with category "electronics", in any letter case, returns the
      three 'Electronics' records in their order, on one page. */
  lemma {:induction false} SeedElectronics(ids: seq<string>, category: string)
    requires |ids| == 5
    requires forall i, j | 0 <= i < j < 5 :: ids[i] != ids[j]
    requires EqualsIgnoreCase(category, "electronics")
    ensures var page := List(Products(ids), Query(Some(category), None, 1, 10)).body;
      && page.products == Products(ids)[..3]
      && page.totalProducts == 3
      && page.totalPages == 1
  {
    var ps := Products(ids);
    ElectronicsOnly(category);
    assert ps[0].category == "Electronics" && ps[1].category == "Electronics" && ps[2].category == "Electronics";
    assert ps[3].category == "Home & Office" && ps[4].category == "Wearables";
    FirstThreeListed(ps, category);
  }

  /** A category equal to "electronics" ignoring case matches 'Electronics'
      and neither of the other seed categories. */
  lemma {:induction false} ElectronicsOnly(category: string)
    requires EqualsIgnoreCase(category, "electronics")
    ensures category != ""
    ensures EqualsIgnoreCase("Electronics", category)
    ensures !EqualsIgnoreCase("Home & Office", category)
    ensures !EqualsIgnoreCase("Wearables", category)
  {
    ElectronicsIgnoringCase();
  }

  lemma ElectronicsIgnoringCase()
    ensures EqualsIgnoreCase("Electronics", "electronics")
  {
  }

  /** When exactly the first three of five records are in `category`, the
      first page of that category holds those three, and there is one page. */
  lemma {:induction false} FirstThreeListed(ps: seq<Product>, category: string)
    requires |ps| == 5 && category != ""
    requires InCategory(ps[0], category) && InCategory(ps[1], category) && InCategory(ps[2], category)
    requires !InCategory(ps[3], category) && !InCategory(ps[4], category)
    ensures var page := List(ps, Query(Some(category), None, 1, 10)).body;
      && page.products == ps[..3]
      && page.totalProducts == 3
      && page.totalPages == 1
  {
    var selected := Selected(ps, Query(Some(category), None, 1, 10));
    assert selected == ps[..3] by {
      FirstThreeSelected(ps, category);
    }
    var page := Paginate(selected, 1, 10);
    assert |page| == 3;
    assert page == selected;
  }

  lemma {:induction false} FirstThreeSelected(ps: seq<Product>, category: string)
    requires |ps| == 5 && category != ""
    requires InCategory(ps[0], category) && InCategory(ps[1], category) && InCategory(ps[2], category)
    requires !InCategory(ps[3], category) && !InCategory(ps[4], category)
    ensures Selected(ps, Query(Some(category), None, 1, 10)) == ps[..3]
  {
    var keep := CategoryTest(category);
    assert ps == [ps[0], ps[1], ps[2], ps[3], ps[4]];
    assert Selected(ps, Query(Some(category), None, 1, 10)) == Filter(ps, keep);
    FilterFive(ps[0], ps[1], ps[2], ps[3], ps[4], keep);
    assert Kept(ps[3], keep) == [] && Kept(ps[4], keep) == [];
    assert Kept(ps[0], keep) == [ps[0]] && Kept(ps[1], keep) == [ps[1]] && Kept(ps[2], keep) == [ps[2]];
    assert [ps[0]] + ([ps[1]] + ([ps[2]] + ([] + []))) == ps[..3];
  }
}
