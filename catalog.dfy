/** The product record, the invariant every stored collection keeps, and the
    sequence operations (`filter`, `some`, `find`, `findIndex`) the handlers
    are built from. */
module Catalog {
  import opened Text
  import opened Outcomes

  /** A stored product. `price` is a JSON number; only its sign matters. */
  datatype Product = Product(
    id: string,
    name: string,
    description: string,
    price: real,
    category: string,
    inStock: bool)

  /** The fields of a request body that passed validation: everything of a
      product except its id. */
  datatype NewProduct = NewProduct(
    name: string,
    description: string,
    price: real,
    category: string,
    inStock: bool)

  /** The record `{ id, name, description, price, category, inStock }` that
      create and update build from a validated body and an id. */
  function WithId(d: NewProduct, id: string): (p: Product)
    ensures p.id == id && Fields(p) == d
  {
    Product(id, d.name, d.description, d.price, d.category, d.inStock)
  }

  function Fields(p: Product): NewProduct
  {
    NewProduct(p.name, p.description, p.price, p.category, p.inStock)
  }

  /** A string field the validator accepts: it has a character other than
      whitespace, so it is non-empty once trimmed. */
  predicate Filled(s: string)
  {
    !Blank(s)
  }

  /** The field constraints the validator enforces, stated of a record. */
  predicate WellFormed(p: Product)
  {
    Filled(p.name) && Filled(p.description) && p.price > 0.0 && Filled(p.category)
  }

  /** Some product has this id. */
  predicate HasId(ps: seq<Product>, id: string)
  {
    exists i | 0 <= i < |ps| :: ps[i].id == id
  }

  /** `products.some(p => p.name.toLowerCase() === name.toLowerCase())`,
      tried from the first record on: true exactly when some record has the
      name, ignoring case. */
  function NameTaken(ps: seq<Product>, name: string): (b: bool)
    ensures b <==> exists i | 0 <= i < |ps| :: EqualsIgnoreCase(ps[i].name, name)
  {
    if ps == [] then false
    else if EqualsIgnoreCase(ps[0].name, name) then true
    else
      var b := NameTaken(ps[1..], name);
      assert forall i | 1 <= i < |ps| :: ps[i] == ps[1..][i - 1];
      b
  }

  /** `products.some(p => p.name.toLowerCase() === name.toLowerCase() && p.id !== id)`:
      true exactly when a record other than `id`'s has the name, ignoring
      case. It implies `NameTaken`, and for an id no record has it is the
      same test as `NameTaken`. */
  function NameTakenByOther(ps: seq<Product>, name: string, id: string): (b: bool)
    ensures b <==> exists i | 0 <= i < |ps| :: EqualsIgnoreCase(ps[i].name, name) && ps[i].id != id
    ensures b ==> NameTaken(ps, name)
    ensures !HasId(ps, id) ==> (b <==> NameTaken(ps, name))
  {
    if ps == [] then false
    else if EqualsIgnoreCase(ps[0].name, name) && ps[0].id != id then true
    else
      var b := NameTakenByOther(ps[1..], name, id);
      assert forall i | 1 <= i < |ps| :: ps[i] == ps[1..][i - 1];
      b
  }

  /** Two records that may sit side by side in the store: different ids and
      names that differ even ignoring case. */
  predicate Apart(p: Product, q: Product)
  {
    p.id != q.id && !EqualsIgnoreCase(p.name, q.name)
  }

  /** Every two records at different positions are `apart`. */
  ghost predicate Pairwise(ps: seq<Product>, apart: (Product, Product) -> bool)
  {
    forall i, j | 0 <= i < j < |ps| :: apart(ps[i], ps[j])
  }

  /** The store invariant: ids are unique, names are unique ignoring case,
      and every record satisfies the validator's constraints. */
  ghost predicate Consistent(ps: seq<Product>)
  {
    && Pairwise(ps, Apart)
    && forall i | 0 <= i < |ps| :: WellFormed(ps[i])
  }

  /** `ps.filter(keep)`. */
  function Filter(ps: seq<Product>, keep: Product -> bool): (r: seq<Product>)
    ensures |r| <= |ps|
  {
    if ps == [] then [] else Kept(ps[0], keep) + Filter(ps[1..], keep)
  }

  /** What the filter keeps of one record. */
  function Kept(p: Product, keep: Product -> bool): seq<Product>
  {
    if keep(p) then [p] else []
  }

  /** Filtering a sequence that starts with `p`: `p` if it is kept, then the
      filter of the rest. */
  lemma {:induction false} FilterCons(p: Product, qs: seq<Product>, keep: Product -> bool)
    ensures Filter([p] + qs, keep) == Kept(p, keep) + Filter(qs, keep)
  {
    assert ([p] + qs)[1..] == qs;
  }

  /** A filter over a few records, one record at a time. */
  lemma {:induction false} FilterFive(a: Product, b: Product, c: Product, d: Product, e: Product, keep: Product -> bool)
    ensures Filter([a, b, c, d, e], keep) ==
              Kept(a, keep) + (Kept(b, keep) + (Kept(c, keep) + (Kept(d, keep) + Kept(e, keep))))
  {
    FilterFour(b, c, d, e, keep);
    FilterCons(a, [b, c, d, e], keep);
    assert [a] + [b, c, d, e] == [a, b, c, d, e];
  }

  lemma {:induction false} FilterFour(b: Product, c: Product, d: Product, e: Product, keep: Product -> bool)
    ensures Filter([b, c, d, e], keep) == Kept(b, keep) + (Kept(c, keep) + (Kept(d, keep) + Kept(e, keep)))
  {
    FilterThree(c, d, e, keep);
    FilterCons(b, [c, d, e], keep);
    assert [b] + [c, d, e] == [b, c, d, e];
  }

  lemma {:induction false} FilterThree(c: Product, d: Product, e: Product, keep: Product -> bool)
    ensures Filter([c, d, e], keep) == Kept(c, keep) + (Kept(d, keep) + Kept(e, keep))
  {
    FilterCons(d, [e], keep);
    FilterCons(c, [d, e], keep);
    assert [d] + [e] == [d, e];
    assert [c] + [d, e] == [c, d, e];
    assert Filter([e], keep) == Kept(e, keep) by {
      FilterCons(e, [], keep);
      assert [e] + [] == [e];
    }
  }

  /** A filter keeps exactly the records that pass it. */
  lemma {:induction false} FilterMembers(ps: seq<Product>, keep: Product -> bool)
    ensures forall p :: p in Filter(ps, keep) <==> p in ps && keep(p)
  {
    if ps != [] {
      FilterMembers(ps[1..], keep);
      assert ps == [ps[0]] + ps[1..];
    }
  }

  /** Filtering keeps the order: it distributes over concatenation, so the
      kept records appear in the order they had. */
  lemma {:induction false} FilterAppend(a: seq<Product>, b: seq<Product>, keep: Product -> bool)
    ensures Filter(a + b, keep) == Filter(a, keep) + Filter(b, keep)
  {
    if a != [] {
      assert (a + b)[0] == a[0];
      assert (a + b)[1..] == a[1..] + b;
      FilterAppend(a[1..], b, keep);
    } else {
      assert a + b == b;
    }
  }

  /** A filter removes nothing exactly when every record passes it. */
  lemma {:induction false} FilterKeepsAll(ps: seq<Product>, keep: Product -> bool)
    ensures |Filter(ps, keep)| == |ps| <==> forall i | 0 <= i < |ps| :: keep(ps[i])
  {
    if ps != [] {
      FilterKeepsAll(ps[1..], keep);
      assert forall i | 1 <= i < |ps| :: ps[i] == ps[1..][i - 1];
    }
  }

  /** When every record passes, the filter returns the sequence itself. */
  lemma {:induction false} FilterIdentity(ps: seq<Product>, keep: Product -> bool)
    requires forall i | 0 <= i < |ps| :: keep(ps[i])
    ensures Filter(ps, keep) == ps
  {
    if ps != [] {
      FilterIdentity(ps[1..], keep);
    }
  }

  /** A filter that rejects the record at `i` and no other takes out
      exactly that record. */
  lemma {:induction false} FilterDropsOne(ps: seq<Product>, keep: Product -> bool, i: nat)
    requires i < |ps| && !keep(ps[i])
    requires forall j | 0 <= j < |ps| && j != i :: keep(ps[j])
    ensures Filter(ps, keep) == ps[..i] + ps[i + 1..]
  {
    var before, after := ps[..i], ps[i + 1..];
    assert forall j | 0 <= j < |before| :: keep(before[j]) by {
      forall j | 0 <= j < |before| ensures keep(before[j]) {
        assert before[j] == ps[j];
      }
    }
    assert forall j | 0 <= j < |after| :: keep(after[j]) by {
      forall j | 0 <= j < |after| ensures keep(after[j]) {
        assert after[j] == ps[i + 1 + j];
      }
    }
    assert ps == before + [ps[i]] + after;
    FilterDropsMiddle(before, ps[i], after, keep);
  }

  lemma {:induction false} FilterDropsMiddle(before: seq<Product>, p: Product, after: seq<Product>, keep: Product -> bool)
    requires forall j | 0 <= j < |before| :: keep(before[j])
    requires !keep(p)
    requires forall j | 0 <= j < |after| :: keep(after[j])
    ensures Filter(before + [p] + after, keep) == before + after
  {
    var head := before + [p];
    assert Filter(head, keep) == before by {
      FilterAppend(before, [p], keep);
      FilterIdentity(before, keep);
      assert [p][1..] == [];
      assert Filter([p], keep) == [];
      assert before + [] == before;
    }
    assert Filter(after, keep) == after by {
      FilterIdentity(after, keep);
    }
    FilterAppend(head, after, keep);
  }

  lemma {:induction false} PairwiseCons(p: Product, qs: seq<Product>, apart: (Product, Product) -> bool)
    ensures Pairwise([p] + qs, apart) <==>
              (forall q | q in qs :: apart(p, q)) && Pairwise(qs, apart)
  {
    var ps := [p] + qs;
    assert forall i | 1 <= i < |ps| :: ps[i] == qs[i - 1];
    if Pairwise(ps, apart) {
      forall q | q in qs ensures apart(p, q) {
        var k :| 0 <= k < |qs| && qs[k] == q;
        assert ps[0] == p && ps[k + 1] == q;
        assert apart(ps[0], ps[k + 1]);
      }
      forall i, j | 0 <= i < j < |qs| ensures apart(qs[i], qs[j]) {
        assert qs[i] == ps[i + 1] && qs[j] == ps[j + 1];
      }
    }
  }

  /** A record `apart` from all of `ps` is `apart` from all of any filter of `ps`. */
  lemma {:induction false} FilterPairwise(ps: seq<Product>, keep: Product -> bool, apart: (Product, Product) -> bool)
    requires Pairwise(ps, apart)
    ensures Pairwise(Filter(ps, keep), apart)
  {
    if ps != [] {
      assert ps == [ps[0]] + ps[1..];
      PairwiseCons(ps[0], ps[1..], apart);
      FilterPairwise(ps[1..], keep, apart);
      if keep(ps[0]) {
        FilterMembers(ps[1..], keep);
        PairwiseCons(ps[0], Filter(ps[1..], keep), apart);
      }
    }
  }

  /** Filtering a consistent collection leaves it consistent: the store
      invariant survives delete. */
  lemma {:induction false} FilterConsistent(ps: seq<Product>, keep: Product -> bool)
    requires Consistent(ps)
    ensures Consistent(Filter(ps, keep))
  {
    FilterPairwise(ps, keep, Apart);
    FilterMembers(ps, keep);
    var r := Filter(ps, keep);
    forall i | 0 <= i < |r| ensures WellFormed(r[i]) {
      assert r[i] in ps;
    }
  }

  /** Appending a well-formed record whose id and name are both new keeps the
      store invariant: the step create takes. */
  lemma {:induction false} AppendConsistent(ps: seq<Product>, p: Product)
    requires Consistent(ps) && WellFormed(p)
    requires !HasId(ps, p.id) && !NameTaken(ps, p.name)
    ensures Consistent(ps + [p])
  {
    var qs := ps + [p];
    forall i, j | 0 <= i < j < |qs| ensures Apart(qs[i], qs[j]) {
      if j == |ps| {
        assert qs[i] == ps[i];
      }
    }
  }

  /** Replacing the record at `i` by a well-formed record with the same id,
      whose name no other record has, keeps the store invariant: the step
      update takes. */
  lemma {:induction false} ReplaceConsistent(ps: seq<Product>, i: nat, p: Product)
    requires Consistent(ps) && i < |ps| && WellFormed(p)
    requires p.id == ps[i].id && !NameTakenByOther(ps, p.name, p.id)
    ensures Consistent(ps[i := p])
  {
    var qs := ps[i := p];
    forall a, b | 0 <= a < b < |qs| ensures Apart(qs[a], qs[b]) {
      if a == i {
        assert ps[b].id != p.id;
        assert !EqualsIgnoreCase(ps[b].name, p.name);
      } else if b == i {
        assert ps[a].id != p.id;
        assert !EqualsIgnoreCase(ps[a].name, p.name);
      }
    }
  }

  /** `ps.find(p => p.id === id)`: the first record with that id. */
  function FindById(ps: seq<Product>, id: string): (r: Option<Product>)
    ensures r.None? <==> !HasId(ps, id)
    ensures r.Some? ==> exists i | 0 <= i < |ps| :: ps[i] == r.value && FirstWithId(ps, id, i)
  {
    match FindIndex(ps, id)
    case None => None
    case Some(i) => Some(ps[i])
  }

  /** `i` is the first position holding a record with that id. */
  predicate FirstWithId(ps: seq<Product>, id: string, i: nat)
  {
    i < |ps| && ps[i].id == id && forall j | 0 <= j < i :: ps[j].id != id
  }

  /** `ps.findIndex(p => p.id === id)`, with `None` for JavaScript's `-1`. */
  function FindIndex(ps: seq<Product>, id: string): (r: Option<nat>)
    ensures r.None? <==> !HasId(ps, id)
    ensures r.Some? ==> FirstWithId(ps, id, r.value)
  {
    if ps == [] then None
    else if ps[0].id == id then Some(0)
    else match FindIndex(ps[1..], id)
      case None => None
      case Some(i) => Some(i + 1)
  }

  /** In a store with unique ids, the record found for an id is the one
      record carrying it. */
  lemma {:induction false} FindUnique(ps: seq<Product>, i: nat)
    requires Pairwise(ps, Apart) && i < |ps|
    ensures FindIndex(ps, ps[i].id) == Some(i)
    ensures FindById(ps, ps[i].id) == Some(ps[i])
  {
  }
}
