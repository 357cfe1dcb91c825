/**
 * The filter half of the browse page's effect: a copy of the loaded
 * listings is narrowed field by field, each non-empty field of the filter
 * record adding one `filter` pass.  Bounds are read with `parseInt` and
 * compared as the page compares them, so a bound that reads as NaN makes
 * every comparison false.
 */
module BrowseQuery {
  import opened JsStrings
  import opened SeqFilter

  /** A listing as the browse page reads it; `createdAt` is the timestamp `new Date(createdAt)` denotes. */
  datatype Listing = Listing(
    id: int, name: string, description: string, category: string,
    extension: string, price: int, createdAt: int)

  /** The page's filter state; every field is the text of its control. */
  datatype Filters = Filters(
    search: string, category: string, extension: string,
    minPrice: string, maxPrice: string, minLength: string, maxLength: string,
    sortBy: string)

  /** The lowercased search text occurs in the lowercased name or description. */
  predicate MatchesSearch(d: Listing, search: string)
  {
    Includes(ToLower(d.name), ToLower(search)) || Includes(ToLower(d.description), ToLower(search))
  }

  /** `x >= parseInt(bound)`: false whenever the bound is NaN. */
  predicate AtLeast(x: int, bound: string)
  {
    var p := ParseInt(bound);
    p.Num? && x >= p.n
  }

  /** `x <= parseInt(bound)`: false whenever the bound is NaN. */
  predicate AtMost(x: int, bound: string)
  {
    var p := ParseInt(bound);
    p.Num? && x <= p.n
  }

  /** The conjunction of the tests of the non-empty fields (number `k` of seven, in the page's order). */
  predicate PassesField(f: Filters, k: nat, d: Listing)
  {
    match k
    case 0 => f.search != "" ==> MatchesSearch(d, f.search)
    case 1 => f.category != "" ==> d.category == f.category
    case 2 => f.extension != "" ==> d.extension == f.extension
    case 3 => f.minPrice != "" ==> AtLeast(d.price, f.minPrice)
    case 4 => f.maxPrice != "" ==> AtMost(d.price, f.maxPrice)
    case 5 => f.minLength != "" ==> AtLeast(|d.name|, f.minLength)
    case 6 => f.maxLength != "" ==> AtMost(|d.name|, f.maxLength)
    case _ => true
  }

  /** The listing passes the tests of the first `k` fields. */
  predicate PassesFirst(f: Filters, k: nat, d: Listing)
  {
    forall j | 0 <= j < k :: PassesField(f, j, d)
  }

  /** The listing passes every non-empty field. */
  predicate Accepts(f: Filters, d: Listing)
  {
    PassesFirst(f, 7, d)
  }

  /** The listings the filter keeps, in their loaded order. */
  function Matching(domains: seq<Listing>, f: Filters): (r: seq<Listing>)
    ensures |r| <= |domains|
    ensures forall i | 0 <= i < |r| :: Accepts(f, r[i])
  {
    Where(domains, d => Accepts(f, d))
  }

  lemma PassesFirstStep(f: Filters, k: nat, d: Listing)
    ensures PassesFirst(f, k + 1, d) == (PassesFirst(f, k, d) && PassesField(f, k, d))
  {
  }

  /** Field number `k` of the filter record is non-empty, so the effect filters by it. */
  predicate FieldActive(f: Filters, k: nat)
  {
    match k
    case 0 => f.search != ""
    case 1 => f.category != ""
    case 2 => f.extension != ""
    case 3 => f.minPrice != ""
    case 4 => f.maxPrice != ""
    case 5 => f.minLength != ""
    case 6 => f.maxLength != ""
    case _ => false
  }

  /** The test of field number `k`, as the effect passes it to `filter`. */
  function FieldTest(f: Filters, k: nat): Listing -> bool
  {
    match k
    case 0 => (d: Listing) => MatchesSearch(d, f.search)
    case 1 => (d: Listing) => d.category == f.category
    case 2 => (d: Listing) => d.extension == f.extension
    case 3 => (d: Listing) => AtLeast(d.price, f.minPrice)
    case 4 => (d: Listing) => AtMost(d.price, f.maxPrice)
    case 5 => (d: Listing) => AtLeast(|d.name|, f.minLength)
    case _ => (d: Listing) => AtMost(|d.name|, f.maxLength)
  }

  /** One `if (filters.x) filtered = filtered.filter(test)` step of the effect. */
  function Step(f: Filters, k: nat, s: seq<Listing>): seq<Listing>
  {
    if FieldActive(f, k) then Where(s, FieldTest(f, k)) else s
  }

  /** The listings left after the first `k` steps. */
  function Pipeline(domains: seq<Listing>, f: Filters, k: nat): seq<Listing>
  {
    if k == 0 then domains else Step(f, k - 1, Pipeline(domains, f, k - 1))
  }

  /** The test an active field passes to `filter` is the field's own test. */
  lemma FieldTestAgrees(f: Filters, k: nat, d: Listing)
    requires FieldActive(f, k)
    ensures FieldTest(f, k)(d) == PassesField(f, k, d)
  {
  }

  /** Step `k` moves from the listings passing the first `k` fields to those passing the first `k + 1`. */
  lemma StepPassesFirst(domains: seq<Listing>, f: Filters, k: nat, before: seq<Listing>)
    requires k < 7
    requires before == Where(domains, d => PassesFirst(f, k, d))
    ensures Step(f, k, before) == Where(domains, d => PassesFirst(f, k + 1, d))
  {
    var p := d => PassesFirst(f, k, d);
    var r := d => PassesFirst(f, k + 1, d);
    if FieldActive(f, k) {
      var q := FieldTest(f, k);
      forall d ensures r(d) == (p(d) && q(d)) {
        PassesFirstStep(f, k, d);
        FieldTestAgrees(f, k, d);
      }
      WhereThen(domains, p, q, r);
    } else {
      forall d ensures p(d) == r(d) {
        PassesFirstStep(f, k, d);
      }
      WhereSameTest(domains, p, r);
    }
  }

  /** After `k` steps exactly the listings passing the first `k` fields remain, in order. */
  lemma {:induction false} PipelinePassesFirst(domains: seq<Listing>, f: Filters, k: nat)
    requires k <= 7
    ensures Pipeline(domains, f, k) == Where(domains, d => PassesFirst(f, k, d))
  {
    if k == 0 {
      WhereAll(domains, d => PassesFirst(f, 0, d));
    } else {
      PipelinePassesFirst(domains, f, k - 1);
      StepPassesFirst(domains, f, k - 1, Pipeline(domains, f, k - 1));
    }
  }

  /** The seven steps together keep exactly the matching listings. */
  lemma PipelineIsMatching(domains: seq<Listing>, f: Filters)
    ensures Pipeline(domains, f, 7) == Matching(domains, f)
  {
    PipelinePassesFirst(domains, f, 7);
    WhereSameTest(domains, d => PassesFirst(f, 7, d), d => Accepts(f, d));
  }

  /**
   * The filter passes of the effect: a copy of the loaded listings, then one
   * `filter` per non-empty field, in the page's order.
   */
  method FilterDomains(domains: seq<Listing>, f: Filters) returns (filtered: seq<Listing>)
    ensures filtered == Matching(domains, f)
  {
    filtered := domains;
    if f.search != "" {
      filtered := Where(filtered, FieldTest(f, 0));
    }
    assert filtered == Pipeline(domains, f, 1);
    if f.category != "" {
      filtered := Where(filtered, FieldTest(f, 1));
    }
    assert filtered == Pipeline(domains, f, 2);
    if f.extension != "" {
      filtered := Where(filtered, FieldTest(f, 2));
    }
    assert filtered == Pipeline(domains, f, 3);
    if f.minPrice != "" {
      filtered := Where(filtered, FieldTest(f, 3));
    }
    assert filtered == Pipeline(domains, f, 4);
    if f.maxPrice != "" {
      filtered := Where(filtered, FieldTest(f, 4));
    }
    assert filtered == Pipeline(domains, f, 5);
    if f.minLength != "" {
      filtered := Where(filtered, FieldTest(f, 5));
    }
    assert filtered == Pipeline(domains, f, 6);
    if f.maxLength != "" {
      filtered := Where(filtered, FieldTest(f, 6));
    }
    assert filtered == Pipeline(domains, f, 7);
    PipelineIsMatching(domains, f);
  }

  /** Step `k` written as the filter with only field `k` set. */
  function OnlyField(f: Filters, k: nat): (g: Filters)
    ensures FieldActive(g, k) == FieldActive(f, k)
    ensures forall j | 0 <= j < 7 && j != k :: !FieldActive(g, j)
  {
    var none := Filters("", "", "", "", "", "", "", f.sortBy);
    match k
    case 0 => none.(search := f.search)
    case 1 => none.(category := f.category)
    case 2 => none.(extension := f.extension)
    case 3 => none.(minPrice := f.minPrice)
    case 4 => none.(maxPrice := f.maxPrice)
    case 5 => none.(minLength := f.minLength)
    case 6 => none.(maxLength := f.maxLength)
    case _ => none
  }

  /** A filter with only field `k` set applies that field's test and nothing else. */
  lemma AcceptsOnlyField(f: Filters, k: nat, d: Listing)
    requires k < 7
    ensures Accepts(OnlyField(f, k), d) == PassesField(f, k, d)
  {
    var g := OnlyField(f, k);
    assert PassesField(g, k, d) == PassesField(f, k, d);
    assert forall j | 0 <= j < 7 && j != k :: PassesField(g, j, d);
  }

  /** The listings kept are a subsequence of the loaded ones. */
  lemma MatchingIsSubsequence(domains: seq<Listing>, f: Filters)
    ensures IsSubsequence(Matching(domains, f), domains)
  {
    WhereIsSubsequence(domains, d => Accepts(f, d));
  }

  /** A listing is shown exactly when it was loaded and passes every non-empty field. */
  lemma MatchingMembership(domains: seq<Listing>, f: Filters, d: Listing)
    ensures d in Matching(domains, f) <==>
      d in domains &&
      (f.search != "" ==> MatchesSearch(d, f.search)) &&
      (f.category != "" ==> d.category == f.category) &&
      (f.extension != "" ==> d.extension == f.extension) &&
      (f.minPrice != "" ==> AtLeast(d.price, f.minPrice)) &&
      (f.maxPrice != "" ==> AtMost(d.price, f.maxPrice)) &&
      (f.minLength != "" ==> AtLeast(|d.name|, f.minLength)) &&
      (f.maxLength != "" ==> AtMost(|d.name|, f.maxLength))
  {
    WhereMembership(domains, x => Accepts(f, x), d);
    assert Accepts(f, d) <==> forall j | 0 <= j < 7 :: PassesField(f, j, d);
    assert Accepts(f, d) ==> (PassesField(f, 0, d) && PassesField(f, 1, d) && PassesField(f, 2, d)
      && PassesField(f, 3, d) && PassesField(f, 4, d) && PassesField(f, 5, d) && PassesField(f, 6, d));
  }

  /** Combined fields keep exactly the listings that every single-field filter keeps. */
  lemma MatchingIsIntersection(domains: seq<Listing>, f: Filters, d: Listing)
    ensures d in Matching(domains, f) <==>
      forall k | 0 <= k < 7 :: d in Matching(domains, OnlyField(f, k))
  {
    WhereMembership(domains, x => Accepts(f, x), d);
    forall k | 0 <= k < 7
      ensures d in Matching(domains, OnlyField(f, k)) <==> d in domains && PassesField(f, k, d)
    {
      WhereMembership(domains, x => Accepts(OnlyField(f, k), x), d);
      AcceptsOnlyField(f, k, d);
    }
    assert (forall k | 0 <= k < 7 :: d in Matching(domains, OnlyField(f, k))) ==>
      d in Matching(domains, OnlyField(f, 0));
  }

  /** With every field empty the list is the loaded one, unchanged. */
  lemma NoFiltersKeepAll(domains: seq<Listing>, f: Filters)
    requires f.search == "" && f.category == "" && f.extension == ""
    requires f.minPrice == "" && f.maxPrice == "" && f.minLength == "" && f.maxLength == ""
    ensures Matching(domains, f) == domains
  {
    forall i | 0 <= i < |domains| ensures Accepts(f, domains[i]) {
      var d := domains[i];
      assert forall j | 0 <= j < 7 :: PassesField(f, j, d);
    }
    WhereAll(domains, d => Accepts(f, d));
  }

  /** An accepted listing passes each field's test. */
  lemma AcceptsEachField(f: Filters, d: Listing)
    ensures Accepts(f, d) ==>
      PassesField(f, 0, d) && PassesField(f, 1, d) && PassesField(f, 2, d) && PassesField(f, 3, d) &&
      PassesField(f, 4, d) && PassesField(f, 5, d) && PassesField(f, 6, d)
  {
  }

  /** A bound with no leading digits (such as "abc") reads as NaN and so hides every listing. */
  lemma UnparsableBoundHidesAll(domains: seq<Listing>, f: Filters)
    requires
      (f.minPrice != "" && ParseInt(f.minPrice).NaN?) ||
      (f.maxPrice != "" && ParseInt(f.maxPrice).NaN?) ||
      (f.minLength != "" && ParseInt(f.minLength).NaN?) ||
      (f.maxLength != "" && ParseInt(f.maxLength).NaN?)
    ensures Matching(domains, f) == []
  {
    forall i | 0 <= i < |domains| ensures !Accepts(f, domains[i]) {
      AcceptsEachField(f, domains[i]);
    }
    WhereNone(domains, d => Accepts(f, d));
  }

  /** "abc" is such a bound. */
  lemma MinPriceAbcHidesAll(domains: seq<Listing>, f: Filters)
    requires f.minPrice == "abc"
    ensures Matching(domains, f) == []
  {
    ParseIntNoDigits("abc");
    UnparsableBoundHidesAll(domains, f);
  }

  /** `parseInt("60")` is 60. */
  lemma ParseSixty()
    ensures ParseInt("60") == Num(60)
  {
    assert NatToString(6) == "6";
    assert NatToString(60) == NatToString(6) + "0";
    assert IntToString(60) + "" == "60";
    ParseIntOfNumeral(60, "");
  }

  /** apple.com at 100 and banana.io at 50 with a minimum price of 60: only apple.com is left. */
  lemma MinPriceScenario(apple: Listing, banana: Listing, f: Filters)
    requires apple.name == "apple.com" && apple.price == 100
    requires banana.name == "banana.io" && banana.price == 50
    requires f == Filters("", "", "", "60", "", "", "", "price-low")
    ensures Matching([apple, banana], f) == [apple]
  {
    ParseSixty();
    var keep := d => Accepts(f, d);
    assert keep(apple) by {
      assert AtLeast(apple.price, f.minPrice);
      assert forall j | 0 <= j < 7 :: PassesField(f, j, apple);
    }
    assert !keep(banana) by {
      assert !AtLeast(banana.price, f.minPrice);
      assert !PassesField(f, 3, banana);
    }
    assert [apple, banana][1..] == [banana];
    assert Where([banana], keep) == [] + Where([], keep);
  }
}
