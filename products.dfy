/** The product catalogue (src/store/products.js): a list of products with unique
    names in normal use, a batch insert that skips names already present, and a
    case-insensitive prefix search driven by a keyword. */
module Products {
  import opened Shared

  /** Some product in the list carries this name. */
  predicate HasName(ps: seq<Product>, name: string) {
    exists i :: 0 <= i < |ps| && ps[i].name == name
  }

  /** No two products share a name. */
  predicate UniqueNames(ps: seq<Product>) {
    forall i, j :: 0 <= i < j < |ps| ==> ps[i].name != ps[j].name
  }

  /** `products.find(p => p.name === name)`: the first product with that name. */
  function FindByName(ps: seq<Product>, name: string): (r: Option<Product>)
    ensures r.Some? <==> HasName(ps, name)
    ensures r.Some? ==> r.value in ps && r.value.name == name
  {
    if ps == [] then None
    else if ps[0].name == name then Some(ps[0])
    else
      var r := FindByName(ps[1..], name);
      assert HasName(ps[1..], name) ==> HasName(ps, name) by {
        if HasName(ps[1..], name) {
          var i :| 0 <= i < |ps[1..]| && ps[1..][i].name == name;
          assert ps[i + 1].name == name;
        }
      }
      assert HasName(ps, name) ==> HasName(ps[1..], name) by {
        if HasName(ps, name) {
          var i :| 0 <= i < |ps| && ps[i].name == name;
          assert i > 0 && ps[1..][i - 1].name == name;
        }
      }
      r
  }

  /** One step of `addProducts`: the product joins the list unless its name is taken. */
  function Step(ps: seq<Product>, p: Product): seq<Product> {
    if HasName(ps, p.name) then ps else ps + [p]
  }

  /** The list `addProducts(batch)` leaves behind: the batch processed in order, each
      product checked against the names already there, earlier ones of the same batch
      included. */
  function Merged(existing: seq<Product>, batch: seq<Product>): seq<Product>
    decreases |batch|
  {
    if batch == [] then existing
    else Step(Merged(existing, batch[..|batch| - 1]), batch[|batch| - 1])
  }

  /** Existing products are never removed or reordered: the old list is a prefix. */
  lemma {:induction false} MergedPrefix(existing: seq<Product>, batch: seq<Product>)
    ensures existing <= Merged(existing, batch)
    decreases |batch|
  {
    if batch != [] {
      MergedPrefix(existing, batch[..|batch| - 1]);
    }
  }

  /** Names stay unique, even when the batch repeats a name. */
  lemma {:induction false} MergedUnique(existing: seq<Product>, batch: seq<Product>)
    requires UniqueNames(existing)
    ensures UniqueNames(Merged(existing, batch))
    decreases |batch|
  {
    if batch != [] {
      MergedUnique(existing, batch[..|batch| - 1]);
      var ps := Merged(existing, batch[..|batch| - 1]);
      var p := batch[|batch| - 1];
      if !HasName(ps, p.name) {
        var qs := ps + [p];
        forall i, j | 0 <= i < j < |qs|
          ensures qs[i].name != qs[j].name
        {
          if j == |ps| {
            assert qs[i] == ps[i];
          }
        }
      }
    }
  }

  /** A name is in the merged list exactly when it was in the old list or the batch. */
  lemma {:induction false} MergedNames(existing: seq<Product>, batch: seq<Product>, name: string)
    ensures HasName(Merged(existing, batch), name) <==> HasName(existing, name) || HasName(batch, name)
    decreases |batch|
  {
    if batch != [] {
      var front := batch[..|batch| - 1];
      var p := batch[|batch| - 1];
      MergedNames(existing, front, name);
      var ps := Merged(existing, front);
      var qs := Merged(existing, batch);
      assert HasName(batch, name) <==> HasName(front, name) || p.name == name by {
        if HasName(batch, name) {
          var i :| 0 <= i < |batch| && batch[i].name == name;
          if i < |front| {
            assert front[i].name == name;
          }
        }
        if HasName(front, name) {
          var i :| 0 <= i < |front| && front[i].name == name;
          assert batch[i].name == name;
        }
      }
      assert HasName(qs, name) <==> HasName(ps, name) || p.name == name by {
        if !HasName(ps, p.name) {
          assert qs == ps + [p];
          assert qs[|ps|] == p;
          if HasName(qs, name) {
            var i :| 0 <= i < |qs| && qs[i].name == name;
            if i < |ps| {
              assert ps[i].name == name;
            }
          }
          if HasName(ps, name) {
            var i :| 0 <= i < |ps| && ps[i].name == name;
            assert qs[i].name == name;
          }
        }
      }
    }
  }

  /** Everything appended comes from the batch. */
  lemma {:induction false} MergedFromBatch(existing: seq<Product>, batch: seq<Product>)
    ensures forall i :: |existing| <= i < |Merged(existing, batch)| ==> Merged(existing, batch)[i] in batch
    decreases |batch|
  {
    if batch != [] {
      var front := batch[..|batch| - 1];
      MergedFromBatch(existing, front);
      MergedPrefix(existing, front);
      var ps := Merged(existing, front);
      forall i | |existing| <= i < |ps|
        ensures ps[i] in batch
      {
        assert ps[i] in front;
      }
    }
  }

  /** A product whose name is new to both the list and the rest of the batch is
      appended, at the end. */
  lemma MergedAppendsFresh(existing: seq<Product>, batch: seq<Product>, p: Product)
    requires !HasName(existing, p.name) && !HasName(batch, p.name)
    ensures Merged(existing, batch + [p]) == Merged(existing, batch) + [p]
  {
    assert (batch + [p])[..|batch|] == batch;
    MergedNames(existing, batch, p.name);
  }

  /** The capital letters of the Latin and Russian alphabets. */
  predicate Capital(c: char) {
    'A' <= c <= 'Z' || 'А' <= c <= 'Я' || c == 'Ё'
  }

  /** `String.prototype.toLowerCase` on one character, for the Latin and Russian
      alphabets: a capital becomes its small letter, anything else stays. */
  function LowerChar(c: char): (r: char)
    ensures !Capital(r)
    ensures !Capital(c) ==> r == c
    ensures Capital(c) ==> r != c
  {
    if 'A' <= c <= 'Z' || 'А' <= c <= 'Я' then (c as int + 32) as char
    else if c == 'Ё' then 'ё'
    else c
  }

  /** Lowercasing twice is lowercasing once. */
  lemma LowerCharIdempotent(c: char)
    ensures LowerChar(LowerChar(c)) == LowerChar(c)
  {
  }

  /** `toLowerCase` on a string: same length, no capital left, and every character
      that was not a capital kept where it was. */
  function Lower(s: string): (r: string)
    ensures |r| == |s| && forall i :: 0 <= i < |s| ==> r[i] == LowerChar(s[i])
    ensures forall i :: 0 <= i < |r| ==> !Capital(r[i])
    ensures forall i :: 0 <= i < |s| && !Capital(s[i]) ==> r[i] == s[i]
  {
    seq(|s|, i requires 0 <= i < |s| => LowerChar(s[i]))
  }

  lemma LowerIdempotent(s: string)
    ensures Lower(Lower(s)) == Lower(s)
  {
  }

  /** `name.toLowerCase().startsWith(keyword.toLowerCase())` */
  predicate Matches(p: Product, keyword: string) {
    Lower(keyword) <= Lower(p.name)
  }

  /** `products.filter(...)`: the matching products in their catalogue order. */
  function Filter(ps: seq<Product>, keyword: string): (r: seq<Product>)
    ensures |r| <= |ps|
    ensures forall p :: p in r <==> p in ps && Matches(p, keyword)
  {
    if ps == [] then []
    else if Matches(ps[0], keyword) then [ps[0]] + Filter(ps[1..], keyword)
    else Filter(ps[1..], keyword)
  }

  /** Filtering keeps order: it distributes over concatenation. */
  lemma {:induction false} FilterAppend(a: seq<Product>, b: seq<Product>, keyword: string)
    ensures Filter(a + b, keyword) == Filter(a, keyword) + Filter(b, keyword)
  {
    if a != [] {
      assert (a + b)[0] == a[0] && (a + b)[1..] == a[1..] + b;
      FilterAppend(a[1..], b, keyword);
    } else {
      assert a + b == b;
    }
  }

  /** The empty keyword is a prefix of every name: the whole list comes back. */
  lemma {:induction false} FilterEmptyKeyword(ps: seq<Product>)
    ensures Filter(ps, "") == ps
  {
    if ps != [] {
      FilterEmptyKeyword(ps[1..]);
    }
  }

  /** The search ignores case: a keyword and its lowercase form select the same list. */
  lemma FilterIgnoresCase(ps: seq<Product>, keyword: string)
    ensures Filter(ps, Lower(keyword)) == Filter(ps, keyword)
  {
  }

  class ProductStore {
    var products: seq<Product>
    var keyword: string

    constructor ()
      ensures products == [] && keyword == ""
    {
      products := [];
      keyword := "";
    }

    /** `filteredProducts` */
    function FilteredProducts(): (r: seq<Product>)
      reads this
      ensures forall p :: p in r <==> p in products && Matches(p, keyword)
      ensures keyword == "" ==> r == products
    {
      FilterEmptyKeyword(products);
      Filter(products, keyword)
    }

    /** Add each product of the batch whose name is not yet in the catalogue. */
    method AddProducts(batch: seq<Product>)
      modifies this
      ensures products == Merged(old(products), batch)
      ensures keyword == old(keyword)
    {
      ghost var initial := products;
      var i := 0;
      while i < |batch|
        invariant 0 <= i <= |batch|
        invariant products == Merged(initial, batch[..i]) && keyword == old(keyword)
      {
        assert batch[..i + 1][..i] == batch[..i];
        var existing := FindByName(products, batch[i].name);
        if existing.None? {
          products := products + [batch[i]];
        }
        i := i + 1;
      }
      assert batch[..i] == batch;
    }

    /** Add one product, whether or not its name is already there. */
    method AddProduct(product: Product)
      modifies this
      ensures products == old(products) + [product]
      ensures keyword == old(keyword)
    {
      products := products + [product];
    }

    /** `keyword || ''`: null, undefined and the empty string all store the empty
        string. */
    method UpdateKeyword(newKeyword: Option<string>)
      modifies this
      ensures newKeyword.None? ==> keyword == ""
      ensures newKeyword.Some? ==> keyword == newKeyword.value
      ensures products == old(products)
    {
      keyword := if newKeyword.Some? then newKeyword.value else "";
    }
  }
}
