/**
 * The vault list: the category filter and sort order applied to the items, the
 * count shown under the title, which body the screen shows, and the category
 * chips with their counts.
 */
module VaultList {
  import opened Wrappers
  import opened Text
  import opened Collections
  import opened Sorting
  import Entities

  type VaultItem = Entities.VaultItem

  /** The chip and filter value that stands for every category. */
  const ALL := "All"

  /** `SortOrder`. */
  datatype SortOrder = NameAsc | NameDesc | DateModified | DateCreated | Category {
    function DisplayName(): string {
      match this
      case NameAsc => "Name (A-Z)"
      case NameDesc => "Name (Z-A)"
      case DateModified => "Recently Modified"
      case DateCreated => "Recently Created"
      case Category => "Category"
    }
  }

  /** Each sort order has its own display name. */
  lemma DisplayNamesDistinct(a: SortOrder, b: SortOrder)
    ensures a.DisplayName() == b.DisplayName() <==> a == b
  {
  }

  /** The screen starts on "All", most recently modified first. */
  const DEFAULT_CATEGORY := ALL
  const DEFAULT_SORT_ORDER := DateModified

  // ---------------------------------------------------------------------------
  // Filter and sort
  // ---------------------------------------------------------------------------

  function InCategory(category: string): VaultItem -> bool {
    (item: VaultItem) => item.category == category
  }

  /** The category filter: "All" keeps everything. */
  function FilterCategory(items: seq<VaultItem>, category: string): (r: seq<VaultItem>)
    ensures category == ALL ==> r == items
    ensures forall x :: x in r <==> x in items && (category == ALL || x.category == category)
  {
    if category == ALL then items else Filter(items, InCategory(category))
  }

  function NameKey(item: VaultItem): string { Lowercase(item.title) }
  function CreatedKey(item: VaultItem): int { item.createdAt }
  function ModifiedKey(item: VaultItem): int { item.modifiedAt }
  function CategoryKey(item: VaultItem): string { item.category }

  predicate IntLe(a: int, b: int) { a <= b }

  /** The list the screen shows: filtered by category, then sorted stably. */
  function FilteredItems(items: seq<VaultItem>, category: string, order: SortOrder): seq<VaultItem> {
    var filtered := FilterCategory(items, category);
    match order
    case NameAsc => SortBy(filtered, NameKey, StrLe)
    case NameDesc => SortBy(filtered, NameKey, Reversed(StrLe))
    case DateCreated => SortBy(filtered, CreatedKey, Reversed(IntLe))
    case DateModified => SortBy(filtered, ModifiedKey, Reversed(IntLe))
    case Category => SortBy(filtered, CategoryKey, StrLe)
  }

  lemma StrLeTotalOrder()
    ensures TotalOrder(StrLe)
  {
    forall a: string
      ensures StrLe(a, a)
    {
    }
    forall a: string, b: string | StrLe(a, b) && StrLe(b, a)
      ensures a == b
    {
      if a != b {
        StrLtAsymmetric(a, b);
      }
    }
    forall a: string, b: string, c: string | StrLe(a, b) && StrLe(b, c)
      ensures StrLe(a, c)
    {
      StrLeTransitive(a, b, c);
    }
    forall a: string, b: string
      ensures StrLe(a, b) || StrLe(b, a)
    {
      StrLeTotal(a, b);
    }
  }

  lemma IntLeTotalOrder()
    ensures TotalOrder(IntLe)
  {
  }

  /** The list shown holds exactly the filtered items, each as often as before. */
  lemma FilteredItemsPermutation(items: seq<VaultItem>, category: string, order: SortOrder)
    ensures multiset(FilteredItems(items, category, order)) == multiset(FilterCategory(items, category))
  {
    var filtered := FilterCategory(items, category);
    match order
    case NameAsc => SortByPermutes(filtered, NameKey, StrLe);
    case NameDesc => SortByPermutes(filtered, NameKey, Reversed(StrLe));
    case DateCreated => SortByPermutes(filtered, CreatedKey, Reversed(IntLe));
    case DateModified => SortByPermutes(filtered, ModifiedKey, Reversed(IntLe));
    case Category => SortByPermutes(filtered, CategoryKey, StrLe);
  }

  /**
   * Names ascend (or descend) by lower-cased title, dates run newest first, and
   * categories ascend.
   */
  lemma FilteredItemsOrdered(items: seq<VaultItem>, category: string, order: SortOrder)
    ensures var r := FilteredItems(items, category, order);
      order == NameAsc ==> forall i, j :: 0 <= i < j < |r| ==> StrLe(Lowercase(r[i].title), Lowercase(r[j].title))
    ensures var r := FilteredItems(items, category, order);
      order == NameDesc ==> forall i, j :: 0 <= i < j < |r| ==> StrLe(Lowercase(r[j].title), Lowercase(r[i].title))
    ensures var r := FilteredItems(items, category, order);
      order == DateCreated ==> forall i, j :: 0 <= i < j < |r| ==> r[i].createdAt >= r[j].createdAt
    ensures var r := FilteredItems(items, category, order);
      order == DateModified ==> forall i, j :: 0 <= i < j < |r| ==> r[i].modifiedAt >= r[j].modifiedAt
    ensures var r := FilteredItems(items, category, order);
      order == Category ==> forall i, j :: 0 <= i < j < |r| ==> StrLe(r[i].category, r[j].category)
  {
    var filtered := FilterCategory(items, category);
    StrLeTotalOrder();
    IntLeTotalOrder();
    match order
    case NameAsc => SortBySorted(filtered, NameKey, StrLe);
    case NameDesc =>
      ReversedTotalOrder(StrLe);
      SortBySorted(filtered, NameKey, Reversed(StrLe));
    case DateCreated =>
      ReversedTotalOrder(IntLe);
      SortBySorted(filtered, CreatedKey, Reversed(IntLe));
    case DateModified =>
      ReversedTotalOrder(IntLe);
      SortBySorted(filtered, ModifiedKey, Reversed(IntLe));
    case Category => SortBySorted(filtered, CategoryKey, StrLe);
  }

  /** Sorting by a date is stable: items with the same timestamp keep their filtered order. */
  lemma DateSortStable(items: seq<VaultItem>, category: string, order: SortOrder, t: int)
    requires order == DateCreated || order == DateModified
    ensures var key := if order == DateCreated then CreatedKey else ModifiedKey;
      Filter(FilteredItems(items, category, order), KeyIs(key, t))
        == Filter(FilterCategory(items, category), KeyIs(key, t))
  {
    var filtered := FilterCategory(items, category);
    IntLeTotalOrder();
    ReversedTotalOrder(IntLe);
    if order == DateCreated {
      SortByStable(filtered, CreatedKey, Reversed(IntLe), t);
    } else {
      SortByStable(filtered, ModifiedKey, Reversed(IntLe), t);
    }
  }

  /** Sorting by name or category is stable: items with the same key keep their filtered order. */
  lemma TextSortStable(items: seq<VaultItem>, category: string, order: SortOrder, k: string)
    requires order == NameAsc || order == NameDesc || order == Category
    ensures var key := if order == Category then CategoryKey else NameKey;
      Filter(FilteredItems(items, category, order), KeyIs(key, k))
        == Filter(FilterCategory(items, category), KeyIs(key, k))
  {
    var filtered := FilterCategory(items, category);
    StrLeTotalOrder();
    ReversedTotalOrder(StrLe);
    match order
    case NameAsc => SortByStable(filtered, NameKey, StrLe, k);
    case NameDesc => SortByStable(filtered, NameKey, Reversed(StrLe), k);
    case Category => SortByStable(filtered, CategoryKey, StrLe, k);
  }

  // ---------------------------------------------------------------------------
  // Title count and body
  // ---------------------------------------------------------------------------

  /** "N password", with an "s" unless N is 1. */
  function CountLabel(n: nat): string {
    NatToString(n) + " password" + (if n != 1 then "s" else "")
  }

  /** The subtitle under "Vaulto": the count, shown only when the list is not empty. */
  function Subtitle(shown: seq<VaultItem>): Option<string> {
    if |shown| > 0 then Some(CountLabel(|shown|)) else None
  }

  /** The label starts with the count, which reads back, and is plural exactly when the count is not 1. */
  lemma CountLabelReadsBack(n: nat)
    ensures ParseInt(BeforeFirst(CountLabel(n), ' ')) == Some(n)
    ensures CountLabel(n)[|CountLabel(n)| - 1] == 's' <==> n != 1
  {
    var digits := NatToString(n);
    assert ' ' !in digits by {
      assert forall i :: 0 <= i < |digits| ==> IsDigit(digits[i]);
    }
    BeforeFirstStops(digits, ' ', "password" + (if n != 1 then "s" else ""));
    assert CountLabel(n) == digits + [' '] + ("password" + (if n != 1 then "s" else ""));
    IntToStringRoundTrip(n);
  }

  lemma {:induction false} BeforeFirstStops(s: string, c: char, rest: string)
    requires c !in s
    ensures BeforeFirst(s + [c] + rest, c) == s
  {
    if s != [] {
      assert (s + [c] + rest)[1..] == s[1..] + [c] + rest;
      BeforeFirstStops(s[1..], c, rest);
    }
  }

  /** What the list screen's body shows. */
  datatype Body = Loading | EmptyCategory(category: string) | EmptyState | ItemList(items: seq<VaultItem>)

  function SelectBody(isLoading: bool, shown: seq<VaultItem>, category: string): Body {
    if isLoading then Loading
    else if shown == [] && category != ALL then EmptyCategory(category)
    else if shown == [] then EmptyState
    else ItemList(shown)
  }

  /**
   * Loading wins; an empty list under a category offers to reset the filter, an
   * empty list under "All" means an empty vault; otherwise the list is shown.
   */
  lemma SelectBodyCases(isLoading: bool, items: seq<VaultItem>, category: string, order: SortOrder)
    ensures var shown := FilteredItems(items, category, order);
      var body := SelectBody(isLoading, shown, category);
      && (body.ItemList? <==> !isLoading && shown != [])
      && (body == EmptyState <==> !isLoading && items == [] && category == ALL)
      && (body.EmptyCategory? <==>
            !isLoading && category != ALL && forall x :: x in items ==> x.category != category)
  {
    var shown := FilteredItems(items, category, order);
    var filtered := FilterCategory(items, category);
    FilteredItemsPermutation(items, category, order);
    assert |shown| == |filtered|;
    if category != ALL && shown != [] {
      assert shown[0] in multiset(filtered);
    }
  }

  // ---------------------------------------------------------------------------
  // Category chips
  // ---------------------------------------------------------------------------

  function Categories(items: seq<VaultItem>): (cats: seq<string>)
    ensures |cats| == |items|
    ensures forall i :: 0 <= i < |items| ==> cats[i] == items[i].category
  {
    seq(|items|, i requires 0 <= i < |items| => items[i].category)
  }

  function Self(s: string): string { s }

  /** Each value occurs at most once in a list whose elements are pairwise distinct. */
  lemma {:induction false} DistinctOccursOnce(s: seq<string>, c: string)
    requires forall i, j :: 0 <= i < j < |s| ==> s[i] != s[j]
    ensures multiset(s)[c] <= 1
    ensures c in s ==> multiset(s)[c] == 1
  {
    if s != [] {
      var init := s[..|s| - 1];
      var last := s[|s| - 1];
      DistinctOccursOnce(init, c);
      assert s == init + [last];
      forall k | 0 <= k < |init|
        ensures init[k] != last
      {
        assert s[k] == init[k];
      }
    }
  }

  /** A list in which every element occurs once has pairwise distinct elements. */
  lemma OnceMeansDistinct(s: seq<string>, i: int, j: int)
    requires forall c :: c in s ==> multiset(s)[c] == 1
    requires 0 <= i < j < |s|
    ensures s[i] != s[j]
  {
    var c := s[i];
    assert s == s[..i] + [c] + s[i + 1..j] + [s[j]] + s[j + 1..];
    assert multiset(s)[c] >= 1 + multiset([s[j]])[c];
  }

  /** The chips after "All": each category once, ascending. */
  function CategoryChips(items: seq<VaultItem>): seq<string> {
    SortBy(DistinctBy(Categories(items), Self), Self, StrLe)
  }

  /** The category chips are the categories of the items. */
  lemma CategoryChipsMembership(items: seq<VaultItem>, c: string)
    ensures c in CategoryChips(items) <==> exists x :: x in items && x.category == c
  {
    var cats := Categories(items);
    var distinct := DistinctBy(cats, Self);
    DistinctByMembership(cats, Self);
    SortByPermutes(distinct, Self, StrLe);
    assert c in CategoryChips(items) <==> c in multiset(distinct);
    if c in distinct {
      var k :| 0 <= k < |cats| && cats[k] == c;
      assert items[k] in items;
    }
    if x :| x in items && x.category == c {
      var k :| 0 <= k < |items| && items[k] == x;
      assert cats[k] in cats;
    }
  }

  /** No category chip appears twice. */
  lemma CategoryChipsOnce(items: seq<VaultItem>, c: string)
    ensures c in CategoryChips(items) ==> multiset(CategoryChips(items))[c] == 1
  {
    var cats := Categories(items);
    var distinct := DistinctBy(cats, Self);
    DistinctByProperties(cats, Self);
    SortByPermutes(distinct, Self, StrLe);
    DistinctOccursOnce(distinct, c);
  }

  /** The category chips are in strictly ascending order. */
  lemma CategoryChipsAscending(items: seq<VaultItem>)
    ensures var chips := CategoryChips(items);
      forall i, j :: 0 <= i < j < |chips| ==> StrLt(chips[i], chips[j])
  {
    var chips := CategoryChips(items);
    StrLeTotalOrder();
    SortBySorted(DistinctBy(Categories(items), Self), Self, StrLe);
    forall c | c in chips
      ensures multiset(chips)[c] == 1
    {
      CategoryChipsOnce(items, c);
    }
    forall i, j | 0 <= i < j < |chips|
      ensures StrLt(chips[i], chips[j])
    {
      assert StrLe(Self(chips[i]), Self(chips[j]));
      OnceMeansDistinct(chips, i, j);
    }
  }

  /** `listOf("All") + items.map { it.category }.distinct().sorted()`. */
  function Chips(items: seq<VaultItem>): seq<string> {
    [ALL] + CategoryChips(items)
  }

  /** The count a chip shows. */
  function ChipCount(items: seq<VaultItem>, chip: string): nat {
    if chip == ALL then |items| else Count(items, InCategory(chip))
  }

  /** The chip label, "category (count)". */
  function ChipLabel(items: seq<VaultItem>, chip: string): string {
    chip + " (" + NatToString(ChipCount(items, chip)) + ")"
  }

  /** The counts summed over `cats`. */
  function SumCounts(items: seq<VaultItem>, cats: seq<string>): nat {
    if cats == [] then 0
    else SumCounts(items, cats[..|cats| - 1]) + Count(items, InCategory(cats[|cats| - 1]))
  }

  lemma {:induction false} SumCountsAppend(items: seq<VaultItem>, x: VaultItem, cats: seq<string>)
    ensures SumCounts(items + [x], cats) == SumCounts(items, cats) + multiset(cats)[x.category]
  {
    if cats != [] {
      var init := cats[..|cats| - 1];
      var c := cats[|cats| - 1];
      SumCountsAppend(items, x, init);
      FilterAppendOne(items, x, InCategory(c));
      assert cats == init + [c];
    }
  }

  /** Counting over a list that names each item's category exactly once counts every item once. */
  lemma {:induction false} SumCountsCoversItems(items: seq<VaultItem>, cats: seq<string>)
    requires forall x :: x in items ==> multiset(cats)[x.category] == 1
    ensures SumCounts(items, cats) == |items|
  {
    if items == [] {
      SumCountsOfNothing(cats);
    } else {
      var init := items[..|items| - 1];
      var x := items[|items| - 1];
      assert items == init + [x];
      SumCountsCoversItems(init, cats);
      SumCountsAppend(init, x, cats);
    }
  }

  lemma {:induction false} SumCountsOfNothing(cats: seq<string>)
    ensures SumCounts([], cats) == 0
  {
    if cats != [] {
      SumCountsOfNothing(cats[..|cats| - 1]);
    }
  }

  /**
   * The category chips' counts add up to the number of items, which is the
   * count on the "All" chip.
   */
  lemma ChipCountsSumToItems(items: seq<VaultItem>)
    ensures SumCounts(items, CategoryChips(items)) == |items| == ChipCount(items, ALL)
  {
    var chips := CategoryChips(items);
    forall x | x in items
      ensures multiset(chips)[x.category] == 1
    {
      CategoryChipsMembership(items, x.category);
      CategoryChipsOnce(items, x.category);
    }
    SumCountsCoversItems(items, chips);
  }

  /** Every category chip other than "All" counts at least one item. */
  lemma ChipCountPositive(items: seq<VaultItem>, c: string)
    requires c in CategoryChips(items) && c != ALL
    ensures ChipCount(items, c) >= 1
  {
    CategoryChipsMembership(items, c);
    var x :| x in items && x.category == c;
    assert x in Filter(items, InCategory(c));
  }

  /**
   * When no item is filed under "All", exactly one chip matches any selected
   * chip; an item filed under "All" gives a second "All" chip.
   */
  lemma AllChipOnce(items: seq<VaultItem>)
    ensures multiset(Chips(items))[ALL] == 1 <==> forall x :: x in items ==> x.category != ALL
    ensures forall c :: c in Chips(items) && c != ALL ==> multiset(Chips(items))[c] == 1
  {
    var chips := CategoryChips(items);
    assert Chips(items) == [ALL] + chips;
    CategoryChipsMembership(items, ALL);
    CategoryChipsOnce(items, ALL);
    forall c | c in Chips(items) && c != ALL
      ensures multiset(Chips(items))[c] == 1
    {
      assert c in chips;
      CategoryChipsOnce(items, c);
    }
  }
}
