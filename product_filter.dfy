/** The filtering step of the product search: the arguments a language model
    chose are applied to the product list as a chain of list comprehensions,
    one per argument that is set. */
module ProductFilter {
  import opened Text

  /** A product record of products.json. */
  datatype Product = Product(name: string, category: string, price: real, rating: real, inStock: bool)

  /** The filtering arguments; None is a key the model did not give. */
  datatype FilterArgs = FilterArgs(
    category: Option<seq<string>>, maxPrice: Option<real>, minRating: Option<real>, inStockOnly: Option<bool>)

  /** The elements of s that keep accepts, in their order: one list
      comprehension with a condition. */
  function Keep<T>(s: seq<T>, keep: T -> bool): (r: seq<T>)
    ensures |r| <= |s|
    ensures forall x :: x in r ==> x in s && keep(x)
    ensures forall x :: x in s && keep(x) ==> x in r
  {
    if s == [] then []
    else if keep(s[0]) then [s[0]] + Keep(s[1..], keep)
    else Keep(s[1..], keep)
  }

  /** a can be obtained from b by deleting elements. */
  predicate IsSubsequence<T(==)>(a: seq<T>, b: seq<T>) {
    a == [] || (b != [] && ((a[0] == b[0] && IsSubsequence(a[1..], b[1..])) || IsSubsequence(a, b[1..])))
  }

  /** A comprehension keeps its elements in their order. */
  lemma {:induction false} KeepIsSubsequence<T>(s: seq<T>, keep: T -> bool)
    ensures IsSubsequence(Keep(s, keep), s)
  {
    if s != [] {
      KeepIsSubsequence(s[1..], keep);
      if keep(s[0]) {
        assert Keep(s, keep)[1..] == Keep(s[1..], keep);
      }
    }
  }

  /** A condition that holds everywhere removes nothing. */
  lemma {:induction false} KeepAll<T>(s: seq<T>, keep: T -> bool)
    requires forall x :: x in s ==> keep(x)
    ensures Keep(s, keep) == s
  {
    if s != [] {
      assert forall x :: x in s[1..] ==> x in s;
      KeepAll(s[1..], keep);
    }
  }

  /** Two comprehensions in a row keep what passes both conditions. */
  lemma {:induction false} KeepKeep<T>(s: seq<T>, first: T -> bool, second: T -> bool, both: T -> bool)
    requires forall x :: both(x) == (first(x) && second(x))
    ensures Keep(Keep(s, first), second) == Keep(s, both)
  {
    if s != [] {
      KeepKeep(s[1..], first, second, both);
    }
  }

  /** [cat.lower() for cat in categories] */
  function Lowered(categories: seq<string>): (r: seq<string>)
    ensures |r| == |categories| && forall i :: 0 <= i < |r| ==> r[i] == ToLower(categories[i])
  {
    if categories == [] then [] else [ToLower(categories[0])] + Lowered(categories[1..])
  }

  /** The category argument is truthy: present and not an empty list. */
  predicate CategoryActive(args: FilterArgs) {
    args.category.Some? && args.category.value != []
  }

  /** The in-stock argument is truthy. */
  predicate InStockActive(args: FilterArgs) {
    args.inStockOnly == Some(true)
  }

  /** The condition of each comprehension; where the argument is not set
      the condition holds of every product. */
  predicate CategoryOk(p: Product, args: FilterArgs) {
    CategoryActive(args) ==> ToLower(p.category) in Lowered(args.category.value)
  }

  predicate PriceOk(p: Product, args: FilterArgs) {
    args.maxPrice.Some? ==> p.price <= args.maxPrice.value
  }

  predicate RatingOk(p: Product, args: FilterArgs) {
    args.minRating.Some? ==> p.rating >= args.minRating.value
  }

  predicate StockOk(p: Product, args: FilterArgs) {
    InStockActive(args) ==> p.inStock
  }

  /** Every sequence is a subsequence of itself. */
  lemma {:induction false} SubsequenceOfItself<T>(s: seq<T>)
    ensures IsSubsequence(s, s)
  {
    if s != [] {
      SubsequenceOfItself(s[1..]);
    }
  }

  /** One comprehension that runs only when its argument is set: it keeps,
      in order, the elements that pass the condition, or every element when
      the argument is not set. */
  function KeepIf<T>(s: seq<T>, active: bool, keep: T -> bool): (r: seq<T>)
    ensures IsSubsequence(r, s)
    ensures forall x :: x in r ==> x in s && (!active || keep(x))
    ensures forall x :: x in s && (!active || keep(x)) ==> x in r
  {
    if active then
      KeepIsSubsequence(s, keep);
      Keep(s, keep)
    else
      SubsequenceOfItself(s);
      s
  }

  /** Skipping a comprehension whose condition holds everywhere it is
      skipped is the same as running it. */
  lemma KeepIfIsKeep<T>(s: seq<T>, active: bool, keep: T -> bool)
    requires !active ==> forall x :: keep(x)
    ensures KeepIf(s, active, keep) == Keep(s, keep)
  {
    if !active {
      KeepAll(s, keep);
    }
  }

  /** A product passes every filter whose argument is set. */
  predicate PassesAll(p: Product, args: FilterArgs) {
    CategoryOk(p, args) && PriceOk(p, args) && RatingOk(p, args) && StockOk(p, args)
  }

  /** No argument is set: every key is missing, or falsy where apply_filters
      tests truthiness. */
  predicate NoneSet(args: FilterArgs) {
    !CategoryActive(args) && args.maxPrice.None? && args.minRating.None? && !InStockActive(args)
  }

  /** apply_filters(products, args): the category, price, rating and stock
      comprehensions, each run only when its argument is set. Every product
      kept is one of the input's and passes every active filter; every input
      product that passes them is kept; with no argument set the list comes
      back as it was. */
  function ApplyFilters(products: seq<Product>, args: FilterArgs): (r: seq<Product>)
    ensures |r| <= |products|
    ensures forall p :: p in r ==> p in products && PassesAll(p, args)
    ensures forall p :: p in products && PassesAll(p, args) ==> p in r
    ensures NoneSet(args) ==> r == products
  {
    var byCategory := KeepIf(products, CategoryActive(args), p => CategoryOk(p, args));
    var byPrice := KeepIf(byCategory, args.maxPrice.Some?, p => PriceOk(p, args));
    var byRating := KeepIf(byPrice, args.minRating.Some?, p => RatingOk(p, args));
    KeepIf(byRating, InStockActive(args), p => StockOk(p, args))
  }

  /** The chain keeps a product exactly when it passes every active filter,
      in the input's order and as often as it occurs there: the order in
      which the filters run does not matter. */
  lemma ApplyFiltersKeepsPassing(products: seq<Product>, args: FilterArgs)
    ensures ApplyFilters(products, args) == Keep(products, p => PassesAll(p, args))
  {
    var kc := p => CategoryOk(p, args);
    var kp := p => PriceOk(p, args);
    var kr := p => RatingOk(p, args);
    var ks := p => StockOk(p, args);
    var cp := p => CategoryOk(p, args) && PriceOk(p, args);
    var cpr := p => CategoryOk(p, args) && PriceOk(p, args) && RatingOk(p, args);
    KeepIfIsKeep(products, CategoryActive(args), kc);
    KeepIfIsKeep(Keep(products, kc), args.maxPrice.Some?, kp);
    KeepKeep(products, kc, kp, cp);
    KeepIfIsKeep(Keep(products, cp), args.minRating.Some?, kr);
    KeepKeep(products, cp, kr, cpr);
    KeepIfIsKeep(Keep(products, cpr), InStockActive(args), ks);
    KeepKeep(products, cpr, ks, p => PassesAll(p, args));
  }

  /** The result is the input with some products deleted, in the input's
      order. */
  lemma ApplyFiltersIsSubsequence(products: seq<Product>, args: FilterArgs)
    ensures IsSubsequence(ApplyFilters(products, args), products)
  {
    ApplyFiltersKeepsPassing(products, args);
    KeepIsSubsequence(products, p => PassesAll(p, args));
  }
}
