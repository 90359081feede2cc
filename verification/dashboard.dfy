/** The dashboard: the number of user accounts and a chart of student
    registrations per day, grouped by the date part of each student's
    `created_at`. */
module Dashboard {
  import opened Js
  import Users

  const UsersUrl := "http://localhost:4000/api/users"
  const StudentsUrl := "http://localhost:4000/api/students"

  /** One point of the registrations chart: a day and the students registered on it. */
  datatype Point = Point(x: string, y: int)

  /** `student.created_at.split("T")[0]` for every student: the date part of each
      timestamp; a `created_at` that is not a string throws. */
  function DateKeys(createdAt: seq<Value>): (r: Eval<seq<string>>)
    ensures r.Throws? <==> exists i :: 0 <= i < |createdAt| && !createdAt[i].Str?
    ensures r.Returns? ==> |r.value| == |createdAt|
    ensures r.Returns? ==> forall i :: 0 <= i < |createdAt| ==>
      && 'T' !in r.value[i] && IsPrefix(r.value[i], createdAt[i].s)
      && (|r.value[i]| < |createdAt[i].s| ==> createdAt[i].s[|r.value[i]|] == 'T')
  {
    if createdAt == [] then Returns([])
    else
      var first :- SplitHead(createdAt[0], 'T');
      var rest :- DateKeys(createdAt[1..]);
      Returns([first] + rest)
  }

  predicate Distinct(s: seq<string>) {
    forall i, j :: 0 <= i < j < |s| ==> s[i] != s[j]
  }

  /** The distinct elements of s in the order of their first occurrence: the
      order in which the reduce creates the keys of its accumulator. */
  function Dedup(s: seq<string>): (r: seq<string>)
    ensures forall k :: k in r <==> k in s
    ensures Distinct(r)
  {
    if s == [] then []
    else
      var front := Dedup(s[..|s| - 1]);
      assert forall k :: k in s <==> k in s[..|s| - 1] || k == s[|s| - 1];
      if s[|s| - 1] in front then front else front + [s[|s| - 1]]
  }

  /** Appending an element adds it to the distinct elements iff it is new. */
  lemma DedupSnoc(s: seq<string>, d: string)
    ensures Dedup(s + [d]) == if d in s then Dedup(s) else Dedup(s) + [d]
  {
    assert (s + [d])[..|s + [d]| - 1] == s;
  }

  /** The sum of the counts stored under keys. */
  function SumOver(keys: seq<string>, counts: map<string, int>): int
    requires forall k :: k in keys ==> k in counts
  {
    if keys == [] then 0 else SumOver(keys[..|keys| - 1], counts) + counts[keys[|keys| - 1]]
  }

  /** Changing the count of a key that is not listed leaves the sum alone. */
  lemma {:induction false} SumOverUnlisted(keys: seq<string>, counts: map<string, int>, d: string, v: int)
    requires forall k :: k in keys ==> k in counts
    requires d !in keys
    ensures SumOver(keys, counts[d := v]) == SumOver(keys, counts)
  {
    if keys != [] {
      SumOverUnlisted(keys[..|keys| - 1], counts, d, v);
    }
  }

  /** Changing the count of a key listed once moves the sum by the difference. */
  lemma {:induction false} SumOverListed(keys: seq<string>, counts: map<string, int>, d: string, v: int)
    requires forall k :: k in keys ==> k in counts
    requires Distinct(keys) && d in keys
    ensures SumOver(keys, counts[d := v]) == SumOver(keys, counts) - counts[d] + v
  {
    var front := keys[..|keys| - 1];
    if keys[|keys| - 1] == d {
      assert d !in front;
      SumOverUnlisted(front, counts, d, v);
    } else {
      SumOverListed(front, counts, d, v);
    }
  }

  /** The keys of counts are exactly the dates seen. */
  ghost predicate CountsCover(seen: seq<string>, counts: map<string, int>) {
    forall k :: k in counts <==> k in seen
  }

  /** Every date is counted as often as it was seen. */
  ghost predicate CountsExact(seen: seq<string>, counts: map<string, int>) {
    forall k :: k in counts ==> counts[k] == multiset(seen)[k]
  }

  /** keys and counts are what the reduce holds after the dates in seen:
      the distinct dates in first-occurrence order, each with its number of
      occurrences, the counts adding up to the dates seen. */
  ghost predicate Tallied(seen: seq<string>, keys: seq<string>, counts: map<string, int>) {
    && keys == Dedup(seen)
    && CountsCover(seen, counts)
    && CountsExact(seen, counts)
    && SumOver(keys, counts) == |seen|
  }

  lemma CoverStep(seen: seq<string>, counts: map<string, int>, date: string, v: int)
    requires CountsCover(seen, counts)
    ensures CountsCover(seen + [date], counts[date := v])
  {
  }

  lemma ExactStep(seen: seq<string>, counts: map<string, int>, date: string)
    requires CountsCover(seen, counts) && CountsExact(seen, counts)
    ensures CountsExact(seen + [date], counts[date := if date in counts then counts[date] + 1 else 1])
  {
    assert multiset(seen + [date]) == multiset(seen) + multiset{date};
  }

  /** A date seen before: its count goes up by one, the keys stay. */
  lemma TallyRepeat(seen: seq<string>, keys: seq<string>, counts: map<string, int>, date: string)
    requires Tallied(seen, keys, counts) && date in counts
    ensures Tallied(seen + [date], keys, counts[date := counts[date] + 1])
  {
    DedupSnoc(seen, date);
    CoverStep(seen, counts, date, counts[date] + 1);
    ExactStep(seen, counts, date);
    SumOverListed(keys, counts, date, counts[date] + 1);
  }

  /** A new date: it becomes the last key, counted once. */
  lemma TallyFirst(seen: seq<string>, keys: seq<string>, counts: map<string, int>, date: string)
    requires Tallied(seen, keys, counts) && date !in counts
    ensures Tallied(seen + [date], keys + [date], counts[date := 1])
  {
    DedupSnoc(seen, date);
    CoverStep(seen, counts, date, 1);
    ExactStep(seen, counts, date);
    SumOverUnlisted(keys, counts, date, 1);
    assert (keys + [date])[..|keys|] == keys;
  }

  /** The `reduce` of fetchDashboardData: `acc[date] = (acc[date] || 0) + 1` for
      every date in turn. The keys come out in first-occurrence order, each
      counted as often as it occurs, every count at least 1 and the counts
      adding up to the number of students. */
  method TallyByDate(dates: seq<string>) returns (keys: seq<string>, counts: map<string, int>)
    ensures keys == Dedup(dates)
    ensures forall k :: k in counts <==> k in dates
    ensures forall k :: k in counts ==> counts[k] == multiset(dates)[k] && counts[k] >= 1
    ensures SumOver(keys, counts) == |dates|
  {
    keys, counts := [], map[];
    var i := 0;
    while i < |dates|
      invariant 0 <= i <= |dates|
      invariant Tallied(dates[..i], keys, counts)
    {
      var date := dates[i];
      assert dates[..i + 1] == dates[..i] + [date];
      var previous := if date in counts then counts[date] else 0;
      if date in counts {
        TallyRepeat(dates[..i], keys, counts, date);
      } else {
        TallyFirst(dates[..i], keys, counts, date);
        keys := keys + [date];
      }
      counts := counts[date := previous + 1];
      i := i + 1;
    }
    assert dates[..i] == dates;
  }

  /** The total of a chart's y values. */
  function SumY(points: seq<Point>): int {
    if points == [] then 0 else SumY(points[..|points| - 1]) + points[|points| - 1].y
  }

  /** `Object.keys(acc).map(date => ({ x: date, y: acc[date] }))`: one point per
      key, in key order, carrying that key's count. */
  function FormatChart(keys: seq<string>, counts: map<string, int>): (r: seq<Point>)
    requires forall k :: k in keys ==> k in counts
    ensures |r| == |keys|
    ensures forall i :: 0 <= i < |keys| ==> r[i].x == keys[i] && r[i].y == counts[keys[i]]
    ensures SumY(r) == SumOver(keys, counts)
  {
    if keys == [] then []
    else
      var front := FormatChart(keys[..|keys| - 1], counts);
      var last := Point(keys[|keys| - 1], counts[keys[|keys| - 1]]);
      assert (front + [last])[..|keys| - 1] == front;
      front + [last]
  }

  /** The component's state. */
  class DashboardScreen {
    var totalUsers: int
    var chart: seq<Point>

    constructor ()
      ensures totalUsers == 0 && chart == []
    {
      totalUsers := 0;
      chart := [];
    }

    /** fetchDashboardData. `users` and `createdAt` are the two parsed bodies
        (the accounts, and the `created_at` of each student), None when a fetch
        or its JSON parsing failed; then nothing changes. Otherwise the total is
        set first, so when a `created_at` is not a string the reduce throws
        with the total updated and the chart as it was. On success the chart
        has one point per distinct registration day, in first-occurrence order,
        whose y is the number of students registered that day. */
    method FetchDashboardData(users: Option<seq<Users.User>>, createdAt: Option<seq<Value>>)
      modifies this
      ensures users.None? || createdAt.None? ==> totalUsers == old(totalUsers) && chart == old(chart)
      ensures users.Some? && createdAt.Some? ==> totalUsers == |users.value|
      ensures users.Some? && createdAt.Some? && DateKeys(createdAt.value).Throws? ==> chart == old(chart)
      ensures users.Some? && createdAt.Some? && DateKeys(createdAt.value).Returns? ==>
        var dates := DateKeys(createdAt.value).value;
        && |chart| == |Dedup(dates)|
        && (forall i :: 0 <= i < |chart| ==> chart[i].x == Dedup(dates)[i] && chart[i].y == multiset(dates)[chart[i].x])
        && (forall i :: 0 <= i < |chart| ==> chart[i].y >= 1)
        && SumY(chart) == |createdAt.value|
    {
      if users.None? || createdAt.None? {
        return;
      }
      totalUsers := |users.value|;
      match DateKeys(createdAt.value)
      case Throws =>
      case Returns(dates) =>
        var keys, counts := TallyByDate(dates);
        chart := FormatChart(keys, counts);
    }
  }

  /** The chart's days are distinct: no day gets two points. */
  lemma ChartDaysDistinct(keys: seq<string>, counts: map<string, int>)
    requires forall k :: k in keys ==> k in counts
    requires Distinct(keys)
    ensures forall i, j :: 0 <= i < j < |keys| ==> FormatChart(keys, counts)[i].x != FormatChart(keys, counts)[j].x
  {
  }
}
