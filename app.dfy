/**
 * The application shell: the list of records it owns, the two handlers that
 * replace that list and persist it, and the header statistics.
 */
module App {
  import opened Options
  import opened FeedbackTypes
  import opened Form
  import List

  /** Length of the "Today's Feedback" window: 24 hours in milliseconds. */
  const DayMillis := 24 * 60 * 60 * 1000

  // ----- handleStatusChange -----

  /** The callback of `feedback.map`: the record with the given id takes the new status. */
  function WithStatus(item: Feedback, id: string, status: Status): Feedback {
    if item.id == id then item.(status := status) else item
  }

  /** The two lists hold the same records in the same order, up to their statuses. */
  predicate SameExceptStatus(a: seq<Feedback>, b: seq<Feedback>) {
    |a| == |b| && forall i :: 0 <= i < |a| ==> a[i].(status := b[i].status) == b[i]
  }

  /** The list `handleStatusChange` computes before storing and saving it. */
  function UpdateStatus(items: seq<Feedback>, id: string, status: Status): (r: seq<Feedback>)
    ensures SameExceptStatus(r, items)
    ensures forall i :: 0 <= i < |items| ==> r[i].status == if items[i].id == id then status else items[i].status
  {
    if items == [] then [] else [WithStatus(items[0], id, status)] + UpdateStatus(items[1..], id, status)
  }

  /** A status change for an id no record carries leaves the list as it was. */
  lemma UpdateStatusUnknownId(items: seq<Feedback>, id: string, status: Status)
    requires forall i :: 0 <= i < |items| ==> items[i].id != id
    ensures UpdateStatus(items, id, status) == items
  {
    var r := UpdateStatus(items, id, status);
    forall i | 0 <= i < |items| ensures r[i] == items[i] {
      assert r[i] == r[i].(status := items[i].status);
    }
  }

  /** Of two status changes to the same id, the second one wins. */
  lemma UpdateStatusLastWins(items: seq<Feedback>, id: string, first: Status, second: Status)
    ensures UpdateStatus(UpdateStatus(items, id, first), id, second) == UpdateStatus(items, id, second)
  {
    var once := UpdateStatus(items, id, first);
    var lhs := UpdateStatus(once, id, second);
    var rhs := UpdateStatus(items, id, second);
    forall i | 0 <= i < |items| ensures lhs[i] == rhs[i] {
      assert lhs[i] == lhs[i].(status := rhs[i].status);
    }
  }

  /** Setting the same status twice is setting it once. */
  lemma UpdateStatusIdempotent(items: seq<Feedback>, id: string, status: Status)
    ensures UpdateStatus(UpdateStatus(items, id, status), id, status) == UpdateStatus(items, id, status)
  {
    UpdateStatusLastWins(items, id, status, status);
  }

  /** With unique ids, a status change rewrites exactly the one record that carries the id. */
  lemma UniqueIdChangesOneRecord(items: seq<Feedback>, k: int, status: Status)
    requires UniqueIds(items) && 0 <= k < |items|
    ensures UpdateStatus(items, items[k].id, status) == items[k := items[k].(status := status)]
  {
    var r := UpdateStatus(items, items[k].id, status);
    var expected := items[k := items[k].(status := status)];
    forall i | 0 <= i < |items| ensures r[i] == expected[i] {
      assert r[i] == r[i].(status := items[i].status).(status := r[i].status);
      assert i != k ==> items[i].id != items[k].id;
    }
  }

  /** Ids are never touched, so a status change keeps them unique. */
  lemma UpdateStatusKeepsIdsUnique(items: seq<Feedback>, id: string, status: Status)
    requires UniqueIds(items)
    ensures UniqueIds(UpdateStatus(items, id, status))
  {
    var r := UpdateStatus(items, id, status);
    forall i | 0 <= i < |r| ensures r[i].id == items[i].id {
      assert r[i].(status := items[i].status).id == items[i].id;
    }
  }

  /** Prepending a record with a fresh id keeps the ids unique. */
  lemma SubmitKeepsIdsUnique(items: seq<Feedback>, r: Feedback)
    requires UniqueIds(items)
    requires forall i :: 0 <= i < |items| ==> items[i].id != r.id
    ensures UniqueIds([r] + items)
  {
    var s := [r] + items;
    forall i, j | 0 <= i < j < |s| ensures s[i].id != s[j].id {
      assert s[j] == items[j - 1];
      if i > 0 { assert s[i] == items[i - 1]; }
    }
  }

  // ----- getHeaderStats -----

  /** `new Set(feedback.map(f => f.email))`. */
  function Emails(items: seq<Feedback>): (r: set<string>)
    ensures |r| <= |items|
    ensures |r| == 0 <==> |items| == 0
  {
    if items == [] then {} else {items[0].email} + Emails(items[1..])
  }

  /** The address set holds exactly the addresses found in the list. */
  lemma {:induction false} EmailsMembership(items: seq<Feedback>, e: string)
    ensures e in Emails(items) <==> exists i :: 0 <= i < |items| && items[i].email == e
  {
    if items != [] {
      EmailsMembership(items[1..], e);
      if exists i :: 0 <= i < |items[1..]| && items[1..][i].email == e {
        var i :| 0 <= i < |items[1..]| && items[1..][i].email == e;
        assert items[i + 1].email == e;
      }
      if exists i :: 0 <= i < |items| && items[i].email == e {
        var i :| 0 <= i < |items| && items[i].email == e;
        assert i == 0 || items[1..][i - 1].email == e;
      }
    }
  }

  /** `now - f.timestamp < 24 * 60 * 60 * 1000`: strictly less than a day ago, or in the future. */
  predicate IsRecent(now: int, timestamp: int) {
    now - timestamp < DayMillis
  }

  /** The number of records the "Today's Feedback" card counts. */
  function RecentCount(items: seq<Feedback>, now: int): (n: nat)
    ensures n <= |items|
  {
    if items == [] then 0 else (if IsRecent(now, items[0].timestamp) then 1 else 0) + RecentCount(items[1..], now)
  }

  /** As time passes, the recent count can only fall. */
  lemma {:induction false} RecentCountFallsOverTime(items: seq<Feedback>, earlier: int, later: int)
    requires earlier <= later
    ensures RecentCount(items, later) <= RecentCount(items, earlier)
  {
    if items != [] {
      RecentCountFallsOverTime(items[1..], earlier, later);
    }
  }

  /** A record exactly one day old is no longer counted; one a millisecond younger, or from the future, is. */
  lemma RecentWindowEdges(r: Feedback, now: int)
    ensures RecentCount([r.(timestamp := now - DayMillis)], now) == 0
    ensures RecentCount([r.(timestamp := now - DayMillis + 1)], now) == 1
    ensures RecentCount([r.(timestamp := now + 1)], now) == 1
  {
    assert [r.(timestamp := now - DayMillis)][1..] == [];
    assert [r.(timestamp := now - DayMillis + 1)][1..] == [];
    assert [r.(timestamp := now + 1)][1..] == [];
  }

  /** The four cards of the header. */
  datatype HeaderStats = HeaderStats(total: nat, uniqueUsers: nat, averageRating: real, recentFeedback: nat)

  /** `getHeaderStats`, with the clock reading passed in as `now`. */
  function GetHeaderStats(items: seq<Feedback>, now: int): (h: HeaderStats)
    ensures h.total == |items|
    ensures h.uniqueUsers <= h.total && (h.uniqueUsers == 0 <==> h.total == 0)
    ensures h.recentFeedback <= h.total
    ensures h.total == 0 ==> h.averageRating == 0.0
    ensures h.total > 0 && RatingsInRange(items) ==> 1.0 <= h.averageRating <= 5.0
  {
    AverageInRange(items);
    HeaderStats(|items|, |Emails(items)|, AverageOf(items), RecentCount(items, now))
  }

  /** Two addresses shared by three records make two unique users. */
  lemma UniqueUsersExample(r: Feedback)
    ensures GetHeaderStats([r.(email := "a@x.io"), r.(email := "b@x.io"), r.(email := "a@x.io")], 0).uniqueUsers == 2
  {
    var items := [r.(email := "a@x.io"), r.(email := "b@x.io"), r.(email := "a@x.io")];
    assert items[1..] == [r.(email := "b@x.io"), r.(email := "a@x.io")];
    assert items[1..][1..] == [r.(email := "a@x.io")];
    assert Emails([r.(email := "a@x.io")]) == {"a@x.io"} by {
      assert [r.(email := "a@x.io")][1..] == [];
    }
    assert "a@x.io" != "b@x.io";
    assert Emails(items) == {"a@x.io", "b@x.io"};
  }

  /** Lists that differ only in statuses show the same header. */
  lemma {:induction false} StatusBlindStats(a: seq<Feedback>, b: seq<Feedback>, now: int)
    requires SameExceptStatus(a, b)
    ensures Emails(a) == Emails(b)
    ensures RatingSum(a) == RatingSum(b)
    ensures RecentCount(a, now) == RecentCount(b, now)
    ensures RatingsInRange(a) <==> RatingsInRange(b)
  {
    if a != [] {
      assert SameExceptStatus(a[1..], b[1..]) by {
        forall i | 0 <= i < |a[1..]| ensures a[1..][i].(status := b[1..][i].status) == b[1..][i] {
          assert a[1..][i] == a[i + 1] && b[1..][i] == b[i + 1];
        }
      }
      StatusBlindStats(a[1..], b[1..], now);
      assert a[0].(status := b[0].status) == b[0];
    }
  }

  /** Changing a status never changes the header. */
  lemma StatusChangeKeepsHeaderStats(items: seq<Feedback>, id: string, status: Status, now: int)
    ensures GetHeaderStats(UpdateStatus(items, id, status), now) == GetHeaderStats(items, now)
  {
    StatusBlindStats(UpdateStatus(items, id, status), items, now);
  }

  /** A submission adds one to the total, one to the unique users if its address is new, and one to the recent count if it is recent. */
  lemma HeaderStatsAfterSubmit(items: seq<Feedback>, r: Feedback, now: int)
    ensures GetHeaderStats([r] + items, now).total == |items| + 1
    ensures GetHeaderStats([r] + items, now).uniqueUsers ==
      |Emails(items)| + if r.email in Emails(items) then 0 else 1
    ensures GetHeaderStats([r] + items, now).recentFeedback ==
      RecentCount(items, now) + if IsRecent(now, r.timestamp) then 1 else 0
  {
    var s := [r] + items;
    assert s[0] == r && s[1..] == items;
    assert Emails(s) == {r.email} + Emails(items);
    assert RecentCount(s, now) == RecentCount(items, now) + if IsRecent(now, r.timestamp) then 1 else 0;
    if r.email in Emails(items) {
      assert Emails(s) == Emails(items);
    } else {
      assert |Emails(s)| == |Emails(items)| + 1;
    }
  }

  /**
   * The header and the list view show the same total and the same average.
   * Both are computed here from the one definition `AverageOf`, so this records
   * that the two source expressions are modelled alike rather than proving
   * two independent formulas equal.
   */
  lemma HeaderAgreesWithList(items: seq<Feedback>, now: int)
    ensures GetHeaderStats(items, now).total == List.GetStats(items).total
    ensures GetHeaderStats(items, now).averageRating == List.GetStats(items).averageRating
  {
  }

  /** Ratings from one to five stay that way when a record with such a rating is prepended. */
  lemma PrependKeepsRatingsInRange(items: seq<Feedback>, r: Feedback)
    requires RatingsInRange(items) && 1 <= r.rating <= 5
    ensures RatingsInRange([r] + items)
  {
    var s := [r] + items;
    forall i | 0 <= i < |s| ensures 1 <= s[i].rating <= 5 {
      if i > 0 { assert s[i] == items[i - 1]; }
    }
  }

  // ----- the App component's state -----

  /**
   * The `feedback` state of the App component. Every list it takes on is
   * handed to the storage layer; `saves` records those hand-overs in order.
   */
  class FeedbackStore {
    var feedback: seq<Feedback>
    ghost var saves: seq<seq<Feedback>>

    /** The last list handed to storage is the one on screen. */
    ghost predicate Valid()
      reads this
    {
      |saves| > 0 ==> saves[|saves| - 1] == feedback
    }

    /** The state once the mount effect has installed the loaded list. */
    constructor (loaded: seq<Feedback>)
      ensures Valid()
      ensures feedback == loaded && saves == []
    {
      feedback := loaded;
      saves := [];
    }

    /** `handleSubmitFeedback`: the new record goes first, and the new list is saved. */
    method HandleSubmitFeedback(newFeedback: Feedback)
      requires Valid()
      modifies this
      ensures Valid()
      ensures feedback == [newFeedback] + old(feedback)
      ensures saves == old(saves) + [feedback]
    {
      feedback := [newFeedback] + feedback;
      saves := saves + [feedback];
    }

    /**
     * `handleSubmitFeedback` as the form's delayed submit actually runs it:
     * the closure of the render in which the button was clicked prepends the
     * record to the list that render saw, `snapshot`, whatever the list has
     * become since.
     */
    method HandleSubmitFeedbackFrom(snapshot: seq<Feedback>, newFeedback: Feedback)
      requires Valid()
      modifies this
      ensures Valid()
      ensures feedback == [newFeedback] + snapshot
      ensures saves == old(saves) + [feedback]
    {
      feedback := [newFeedback] + snapshot;
      saves := saves + [feedback];
    }

    /** `handleStatusChange`: the matching records take the new status, and the new list is saved. */
    method HandleStatusChange(id: string, status: Status)
      requires Valid()
      modifies this
      ensures Valid()
      ensures feedback == UpdateStatus(old(feedback), id, status)
      ensures saves == old(saves) + [feedback]
    {
      feedback := UpdateStatus(feedback, id, status);
      saves := saves + [feedback];
    }
  }

  /**
   * The form's `onSubmit` wired to `handleSubmitFeedback`: a valid draft
   * reaches the list, an invalid one leaves it and the storage untouched.
   */
  method SubmitForm(form: FeedbackForm, store: FeedbackStore, id: string, now: int)
    returns (submitted: Option<Feedback>)
    requires form.Valid() && store.Valid()
    modifies form, store
    ensures form.Valid() && store.Valid()
    ensures submitted.Some? <==> ValidDraft(old(form.formData))
    ensures submitted.Some? ==>
      submitted.value == NewRecord(old(form.formData), id, now) &&
      store.feedback == [submitted.value] + old(store.feedback) &&
      store.saves == old(store.saves) + [store.feedback]
    ensures submitted.None? ==> store.feedback == old(store.feedback) && store.saves == old(store.saves)
    ensures submitted.Some? ==> form.formData == EmptyDraft && form.errors == map[] && form.showSuccess
    ensures submitted.None? ==>
      form.formData == old(form.formData) && form.errors == FormErrors(old(form.formData)) &&
      form.showSuccess == old(form.showSuccess)
    ensures RatingsInRange(old(store.feedback)) ==> RatingsInRange(store.feedback)
  {
    submitted := form.HandleSubmit(id, now);
    if submitted.Some? {
      if RatingsInRange(store.feedback) {
        PrependKeepsRatingsInRange(store.feedback, submitted.value);
      }
      store.HandleSubmitFeedback(submitted.value);
    }
  }

  // ----- a status change during the submit delay -----

  /**
   * The source as written: the list is captured at the click, a status change
   * lands during the one-second delay, then the captured closure prepends the
   * record. The status change is lost, on screen and in storage.
   */
  method StaleSubmitAfterStatusChange(store: FeedbackStore, r: Feedback, id: string, status: Status)
    requires store.Valid()
    modifies store
    ensures store.Valid()
    ensures store.feedback == [r] + old(store.feedback)
    ensures store.saves ==
      old(store.saves) + [UpdateStatus(old(store.feedback), id, status), [r] + old(store.feedback)]
  {
    var snapshot := store.feedback;
    store.HandleStatusChange(id, status);
    store.HandleSubmitFeedbackFrom(snapshot, r);
  }

  /** One new record whose status is changed during the delay ends up with its old status. */
  lemma StaleSubmitLosesStatusChange(x: Feedback, r: Feedback, status: Status)
    requires x.status != status
    ensures ([r] + [x])[1].status != ([r] + UpdateStatus([x], x.id, status))[1].status
  {
    assert UpdateStatus([x], x.id, status)[0].status == status;
  }

  /**
   * The evidently intended behaviour, which the store's handlers have: the
   * record is prepended to the list as it is when the delay ends, so a status
   * change made meanwhile survives.
   */
  method StatusChangeThenSubmit(store: FeedbackStore, r: Feedback, id: string, status: Status)
    requires store.Valid()
    modifies store
    ensures store.Valid()
    ensures store.feedback == [r] + UpdateStatus(old(store.feedback), id, status)
    ensures store.saves == old(store.saves) + [UpdateStatus(old(store.feedback), id, status), store.feedback]
  {
    store.HandleStatusChange(id, status);
    store.HandleSubmitFeedback(r);
  }

  /** With the intended order, the changed status is kept behind the new record. */
  lemma SubmitKeepsStatusChange(items: seq<Feedback>, r: Feedback, id: string, status: Status)
    ensures ([r] + UpdateStatus(items, id, status))[1..] == UpdateStatus(items, id, status)
    ensures forall i :: 0 <= i < |items| && items[i].id == id ==> ([r] + UpdateStatus(items, id, status))[i + 1].status == status
  {
  }
}
