/**
 * The list view's derived data: the filtered, order-preserving view of the
 * records and the per-status statistics cards.
 */
module List {
  import opened FeedbackTypes
  import opened Text

  /** The category select: "all" or one category. */
  datatype CategoryFilter = AllCategories | OnlyCategory(category: Category)

  /** The status select: "all" or one status. */
  datatype StatusFilter = AllStatuses | OnlyStatus(status: Status)

  /** The three inputs of the filter bar. */
  datatype Criteria = Criteria(searchTerm: string, category: CategoryFilter, status: StatusFilter)

  /** The lower-cased term occurs in the lower-cased subject, message or name (never the email). */
  predicate MatchesSearch(item: Feedback, term: string) {
    var t := ToLower(term);
    Contains(ToLower(item.subject), t) || Contains(ToLower(item.message), t) || Contains(ToLower(item.name), t)
  }

  predicate MatchesCategory(item: Feedback, filter: CategoryFilter) {
    filter.AllCategories? || item.category == filter.category
  }

  predicate MatchesStatus(item: Feedback, filter: StatusFilter) {
    filter.AllStatuses? || item.status == filter.status
  }

  /** The predicate handed to `feedback.filter`. */
  predicate Keep(item: Feedback, c: Criteria) {
    MatchesSearch(item, c.searchTerm) && MatchesCategory(item, c.category) && MatchesStatus(item, c.status)
  }

  /** `filteredFeedback`: the records the filter bar lets through, in list order. */
  function FilterFeedback(items: seq<Feedback>, c: Criteria): (r: seq<Feedback>)
    ensures |r| <= |items|
    ensures forall i :: 0 <= i < |r| ==> Keep(r[i], c)
  {
    if items == [] then []
    else (if Keep(items[0], c) then [items[0]] else []) + FilterFeedback(items[1..], c)
  }

  /** `a` is obtained from `b` by deleting elements, without reordering the rest. */
  ghost predicate IsSubsequence(a: seq<Feedback>, b: seq<Feedback>)
    decreases |b|
  {
    if a == [] then true
    else if b == [] then false
    else (a[0] == b[0] && IsSubsequence(a[1..], b[1..])) || IsSubsequence(a, b[1..])
  }

  /** The filtered view keeps the list's relative order. */
  lemma {:induction false} FilterIsSubsequence(items: seq<Feedback>, c: Criteria)
    ensures IsSubsequence(FilterFeedback(items, c), items)
  {
    if items != [] {
      var rest := FilterFeedback(items[1..], c);
      FilterIsSubsequence(items[1..], c);
      if Keep(items[0], c) {
        assert FilterFeedback(items, c) == [items[0]] + rest;
        assert ([items[0]] + rest)[1..] == rest;
      } else {
        assert FilterFeedback(items, c) == rest;
      }
    }
  }

  /** A record occurs in the view as often as in the list if the filter keeps it, and never otherwise. */
  lemma {:induction false} FilterKeepsExactlyMatching(items: seq<Feedback>, c: Criteria)
    ensures forall x :: multiset(FilterFeedback(items, c))[x] == if Keep(x, c) then multiset(items)[x] else 0
  {
    if items != [] {
      FilterKeepsExactlyMatching(items[1..], c);
      assert items == [items[0]] + items[1..];
      assert multiset(items) == multiset{items[0]} + multiset(items[1..]);
    }
  }

  /** Filtering the view again with the same criteria changes nothing. */
  lemma {:induction false} FilterIdempotent(items: seq<Feedback>, c: Criteria)
    ensures FilterFeedback(FilterFeedback(items, c), c) == FilterFeedback(items, c)
  {
    if items != [] {
      FilterIdempotent(items[1..], c);
      var rest := FilterFeedback(items[1..], c);
      if Keep(items[0], c) {
        var once := [items[0]] + rest;
        assert FilterFeedback(items, c) == once;
        assert once[0] == items[0] && once[1..] == rest;
        assert FilterFeedback(once, c) == [items[0]] + FilterFeedback(rest, c);
      } else {
        assert FilterFeedback(items, c) == rest;
      }
    }
  }

  /** The filter bar's initial state: an empty term, all categories, all statuses. */
  const NoCriteria := Criteria("", AllCategories, AllStatuses)

  /** With nothing typed or selected, the view is the whole list. */
  lemma {:induction false} NoCriteriaKeepsAll(items: seq<Feedback>)
    ensures FilterFeedback(items, NoCriteria) == items
  {
    if items != [] {
      NoCriteriaKeepsAll(items[1..]);
      assert Keep(items[0], NoCriteria);
      assert [items[0]] + items[1..] == items;
    }
  }

  /** The search ignores the case of the term: searching "BUG" and "bug" keep the same records. */
  lemma SearchIgnoresCase(item: Feedback, term: string)
    ensures MatchesSearch(item, ToLower(term)) == MatchesSearch(item, term)
  {
    ToLowerIdempotent(term);
  }

  /** The email is not searched: changing it never changes whether a record is kept. */
  lemma EmailNotSearched(item: Feedback, email: string, c: Criteria)
    ensures Keep(item.(email := email), c) == Keep(item, c)
  {
  }

  // ----- getStats -----

  /** The number of records with the given status, `feedback.filter(f => f.status === s).length`. */
  function CountStatus(items: seq<Feedback>, s: Status): (n: nat)
    ensures n <= |items|
  {
    if items == [] then 0 else (if items[0].status == s then 1 else 0) + CountStatus(items[1..], s)
  }

  /** A status count is the size of the view filtered by that status alone. */
  lemma {:induction false} CountStatusIsFilterLength(items: seq<Feedback>, s: Status)
    ensures CountStatus(items, s) == |FilterFeedback(items, Criteria("", AllCategories, OnlyStatus(s)))|
  {
    if items != [] {
      CountStatusIsFilterLength(items[1..], s);
      EmptyFoundEverywhere(ToLower(items[0].subject));
    }
  }

  /** Every record has exactly one of the three statuses. */
  lemma {:induction false} StatusCountsPartition(items: seq<Feedback>)
    ensures CountStatus(items, New) + CountStatus(items, InProgress) + CountStatus(items, Resolved) == |items|
  {
    if items != [] {
      StatusCountsPartition(items[1..]);
    }
  }

  /** The four statistics cards of the list view. */
  datatype ListStats = ListStats(
    total: nat,
    newCount: nat,
    inProgressCount: nat,
    resolvedCount: nat,
    averageRating: real)

  /** `getStats`. */
  function GetStats(items: seq<Feedback>): (s: ListStats)
    ensures s.total == |items|
    ensures s.newCount + s.inProgressCount + s.resolvedCount == s.total
    ensures s.total == 0 ==> s.averageRating == 0.0
    ensures s.total > 0 && RatingsInRange(items) ==> 1.0 <= s.averageRating <= 5.0
  {
    StatusCountsPartition(items);
    AverageInRange(items);
    ListStats(
      |items|,
      CountStatus(items, New),
      CountStatus(items, InProgress),
      CountStatus(items, Resolved),
      AverageOf(items))
  }

  /** Ratings 2, 4 and 5 average to 11/3, which the view shows as 3.7. */
  lemma AverageOfSampleRatings(r: Feedback)
    ensures AverageOf([r.(rating := 2), r.(rating := 4), r.(rating := 5)]) == 11.0 / 3.0
  {
    var items := [r.(rating := 2), r.(rating := 4), r.(rating := 5)];
    assert items[1..] == [r.(rating := 4), r.(rating := 5)];
    assert items[1..][1..] == [r.(rating := 5)];
    assert RatingSum([r.(rating := 5)]) == 5 by {
      assert [r.(rating := 5)][1..] == [];
    }
    assert RatingSum(items) == 11;
  }
}
