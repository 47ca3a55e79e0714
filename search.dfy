/**
 * The product search of src/components/pos/ProductList.jsx: a product is shown
 * when the lowered search term occurs in its lowered name, code or description.
 * Lowering is ASCII lowering.
 */
module ProductSearch {
  import opened Wrappers
  import opened Sequences
  import Catalog

  /** ASCII lowering of one character. */
  function LowerChar(c: char): char
  {
    if 'A' <= c <= 'Z' then (c as int + 32) as char else c
  }

  /** `toLowerCase`, restricted to the ASCII letters. */
  function Lower(s: string): (r: string)
    ensures |r| == |s|
    ensures forall i :: 0 <= i < |s| ==> r[i] == LowerChar(s[i])
  {
    seq(|s|, i requires 0 <= i < |s| => LowerChar(s[i]))
  }

  /** `needle` occurs in `hay` starting at position `i`. */
  predicate OccursAt(hay: string, needle: string, i: nat)
  {
    i + |needle| <= |hay| && hay[i..i + |needle|] == needle
  }

  /** `String.prototype.includes`: `needle` occurs at some position of `hay`. */
  predicate Includes(hay: string, needle: string)
  {
    exists i: nat :: i <= |hay| && OccursAt(hay, needle, i)
  }

  /** `field?.toLowerCase() || ''`: a missing field reads as the empty string. */
  function FieldText(field: Catalog.Value): (t: string)
    ensures field.None? ==> t == ""
    ensures field.Some? ==> t == Lower(field.value)
  {
    match field
    case None => ""
    case Some(s) => Lower(s)
  }

  /** The predicate passed to `products.filter`. */
  predicate Matches(entry: Option<Catalog.Product>, searchTerm: string)
  {
    && entry.Some?
    && var term := Lower(searchTerm);
       || Includes(FieldText(entry.value.name), term)
       || Includes(FieldText(entry.value.code), term)
       || Includes(FieldText(entry.value.description), term)
  }

  /** `filteredProducts`: the entries of `products` that match, in their order. */
  function Filter(products: seq<Option<Catalog.Product>>, searchTerm: string): (r: seq<Option<Catalog.Product>>)
    ensures |r| <= |products|
    ensures forall i :: 0 <= i < |r| ==> Matches(r[i], searchTerm)
  {
    if products == [] then []
    else if Matches(products[0], searchTerm) then [products[0]] + Filter(products[1..], searchTerm)
    else Filter(products[1..], searchTerm)
  }

  /** The result keeps the order of the input: it is a subsequence of it. */
  lemma {:induction false} FilterIsSubsequence(products: seq<Option<Catalog.Product>>, searchTerm: string)
    ensures IsSubsequence(Filter(products, searchTerm), products)
  {
    if products != [] {
      FilterIsSubsequence(products[1..], searchTerm);
    }
  }

  /** An entry is in the result exactly when it is in the input and matches. */
  lemma {:induction false} FilterMembership(products: seq<Option<Catalog.Product>>, searchTerm: string, entry: Option<Catalog.Product>)
    ensures entry in Filter(products, searchTerm) <==> entry in products && Matches(entry, searchTerm)
  {
    if products != [] {
      FilterMembership(products[1..], searchTerm, entry);
      assert products == [products[0]] + products[1..];
    }
  }

  /**
   * Each entry is kept as many times as it occurs in the input when it matches,
   * and not at all otherwise; with `FilterIsSubsequence` this fixes the result.
   */
  lemma {:induction false} FilterCounts(products: seq<Option<Catalog.Product>>, searchTerm: string, entry: Option<Catalog.Product>)
    ensures multiset(Filter(products, searchTerm))[entry] ==
              if Matches(entry, searchTerm) then multiset(products)[entry] else 0
  {
    if products != [] {
      FilterCounts(products[1..], searchTerm, entry);
      assert products == [products[0]] + products[1..];
    }
  }

  /** Null and undefined entries never appear in the result. */
  lemma NoMissingEntries(products: seq<Option<Catalog.Product>>, searchTerm: string)
    ensures forall entry :: entry in Filter(products, searchTerm) ==> entry.Some?
  {
    forall entry | entry in Filter(products, searchTerm)
      ensures entry.Some?
    {
      FilterMembership(products, searchTerm, entry);
    }
  }

  /** The empty string occurs in every string. */
  lemma EmptyIncluded(hay: string)
    ensures Includes(hay, "")
  {
    assert OccursAt(hay, "", 0);
  }

  /** Every product that is present matches the empty search term. */
  lemma MatchesEmptyTerm(entry: Option<Catalog.Product>)
    requires entry.Some?
    ensures Matches(entry, "")
  {
    assert Lower("") == "";
    EmptyIncluded(FieldText(entry.value.name));
  }

  /** An empty search term keeps every entry that is present, and only those. */
  lemma {:induction false} EmptyTermKeepsPresent(products: seq<Option<Catalog.Product>>, entry: Option<Catalog.Product>)
    ensures entry in Filter(products, "") <==> entry in products && entry.Some?
  {
    FilterMembership(products, "", entry);
    if entry.Some? {
      MatchesEmptyTerm(entry);
    }
  }

  /** With no missing entries, the empty search term returns the list unchanged. */
  lemma {:induction false} EmptyTermKeepsAll(products: seq<Option<Catalog.Product>>)
    requires forall i :: 0 <= i < |products| ==> products[i].Some?
    ensures Filter(products, "") == products
  {
    if products != [] {
      MatchesEmptyTerm(products[0]);
      EmptyTermKeepsAll(products[1..]);
    }
  }

  /** Lowering twice is lowering once. */
  lemma LowerIdempotent(s: string)
    ensures Lower(Lower(s)) == Lower(s)
  {
  }

  /** Search terms that differ only in the case of ASCII letters give the same result. */
  lemma {:induction false} CaseInsensitive(products: seq<Option<Catalog.Product>>, a: string, b: string)
    requires Lower(a) == Lower(b)
    ensures Filter(products, a) == Filter(products, b)
  {
    if products != [] {
      CaseInsensitive(products[1..], a, b);
    }
  }

  /** Searching for a lowered term is the same as searching for the term. */
  lemma LoweredTermSameResult(products: seq<Option<Catalog.Product>>, searchTerm: string)
    ensures Filter(products, Lower(searchTerm)) == Filter(products, searchTerm)
  {
    LowerIdempotent(searchTerm);
    CaseInsensitive(products, Lower(searchTerm), searchTerm);
  }

  /** Filtering the filtered list again with the same term changes nothing. */
  lemma {:induction false} FilterIdempotent(products: seq<Option<Catalog.Product>>, searchTerm: string)
    ensures Filter(Filter(products, searchTerm), searchTerm) == Filter(products, searchTerm)
  {
    if products != [] {
      FilterIdempotent(products[1..], searchTerm);
      if Matches(products[0], searchTerm) {
        var rest := Filter(products[1..], searchTerm);
        assert ([products[0]] + rest)[0] == products[0];
        assert ([products[0]] + rest)[1..] == rest;
      }
    }
  }
}
