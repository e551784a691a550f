/** The feedback record and the aggregates shared by the list view and the header. */
module FeedbackTypes {

  /** The four feedback categories. */
  datatype Category = Bug | Feature | General | Complaint

  /** The three workflow states of a record. */
  datatype Status = New | InProgress | Resolved

  /** One submitted piece of feedback. `timestamp` is milliseconds since the epoch. */
  datatype Feedback = Feedback(
    id: string,
    name: string,
    email: string,
    category: Category,
    subject: string,
    message: string,
    rating: int,
    timestamp: int,
    status: Status)

  /** No two records of the list share an id. */
  predicate UniqueIds(items: seq<Feedback>) {
    forall i, j :: 0 <= i < j < |items| ==> items[i].id != items[j].id
  }

  /** Every record carries a rating of one to five stars. */
  predicate RatingsInRange(items: seq<Feedback>) {
    forall i :: 0 <= i < |items| ==> 1 <= items[i].rating <= 5
  }

  /** The `reduce((sum, f) => sum + f.rating, 0)` of the list. */
  function RatingSum(items: seq<Feedback>): int {
    if items == [] then 0 else items[0].rating + RatingSum(items[1..])
  }

  /** The mean rating as an exact rational, 0 for an empty list. */
  function AverageOf(items: seq<Feedback>): real {
    if |items| == 0 then 0.0 else RatingSum(items) as real / |items| as real
  }

  lemma {:induction false} RatingSumBounds(items: seq<Feedback>)
    requires RatingsInRange(items)
    ensures |items| <= RatingSum(items) <= 5 * |items|
  {
    if items != [] {
      assert RatingsInRange(items[1..]) by {
        forall i | 0 <= i < |items[1..]| ensures 1 <= items[1..][i].rating <= 5 {
          assert items[1..][i] == items[i + 1];
        }
      }
      RatingSumBounds(items[1..]);
    }
  }

  lemma QuotientBounds(s: real, n: real)
    requires 0.0 < n <= s <= 5.0 * n
    ensures 1.0 <= s / n <= 5.0
  {
    var q := s / n;
    assert q * n == s;
    assert (q - 1.0) * n >= 0.0;
    assert (5.0 - q) * n >= 0.0;
    NonNegativeFactor(q - 1.0, n);
    NonNegativeFactor(5.0 - q, n);
  }

  lemma NonNegativeFactor(a: real, n: real)
    requires n > 0.0 && a * n >= 0.0
    ensures a >= 0.0
  {
    assert a < 0.0 ==> a * n < 0.0;
  }

  /** The mean of an empty list is 0; with every rating between one and five, so is the mean of a non-empty list. */
  lemma AverageInRange(items: seq<Feedback>)
    ensures |items| == 0 ==> AverageOf(items) == 0.0
    ensures |items| > 0 && RatingsInRange(items) ==> 1.0 <= AverageOf(items) <= 5.0
  {
    if |items| > 0 && RatingsInRange(items) {
      RatingSumBounds(items);
      QuotientBounds(RatingSum(items) as real, |items| as real);
    }
  }
}
