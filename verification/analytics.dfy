/**
  The analytics service (analytics_service/main.py): per-user statistics and
  the productivity trend, computed over the raw task documents of one user.

  The service reads documents straight from the collection with `dict.get`, so
  a field may be missing, `null`, or present. Dates are whole days counted from
  1970-01-01; the service's date parsing is not part of this model.
 */
module Analytics {
  import opened Wrappers

  /** A document field as `dict.get` sees it. */
  datatype Attr<T> = Missing | Null | Present(value: T)

  /** Days since 1970-01-01. */
  type Day = int

  /** The fields of a task document the service reads. */
  datatype Doc = Doc(
    userId: nat,
    priority: Attr<string>,
    status: Attr<string>,
    createdAt: Attr<Day>,
    updatedAt: Attr<Day>)

  /** A 400 answer with its `detail`, or the computed answer. */
  datatype Response<T> = BadRequest(detail: string) | Answer(value: T)

  const InvalidUserId: string := "Invalid user ID format"
  const InvalidGroupBy: string := "groupBy must be 'day' or 'week'"

  // ---------------------------------------------------------------- user ids

  predicate IsHexDigit(c: char) {
    ('0' <= c <= '9') || ('a' <= c <= 'f') || ('A' <= c <= 'F')
  }

  function HexDigitValue(c: char): (v: nat)
    requires IsHexDigit(c)
    ensures v < 16
  {
    if '0' <= c <= '9' then c as int - '0' as int
    else if 'a' <= c <= 'f' then c as int - 'a' as int + 10
    else c as int - 'A' as int + 10
  }

  /** The user-id check, narrowed to exactly 24 hexadecimal digits. bson's
      `ObjectId.is_valid` also accepts 24 characters in which ASCII whitespace
      sits between digit pairs; that case is not modelled. */
  predicate IsValidObjectId(s: string) {
    |s| == 24 && forall k :: 0 <= k < |s| ==> IsHexDigit(s[k])
  }

  function HexValue(s: string): nat
    requires forall k :: 0 <= k < |s| ==> IsHexDigit(s[k])
    decreases |s|
  {
    if |s| == 0 then 0 else HexValue(s[..|s| - 1]) * 16 + HexDigitValue(s[|s| - 1])
  }

  /** The documents the collection holds for this owner, in collection order. */
  function UserTasks(collection: seq<Doc>, user: nat): (r: seq<Doc>)
    ensures forall d :: multiset(r)[d] == if d.userId == user then multiset(collection)[d] else 0
    ensures forall k :: 0 <= k < |r| ==> r[k].userId == user
    decreases |collection|
  {
    if |collection| == 0 then []
    else
      var rest := UserTasks(collection[..|collection| - 1], user);
      var last := collection[|collection| - 1];
      assert collection == collection[..|collection| - 1] + [last];
      if last.userId == user then rest + [last] else rest
  }

  // ---------------------------------------------------------------- user stats

  const Completed: string := "Completed"

  predicate IsCompleted(d: Doc) {
    d.status == Present(Completed)
  }

  /** The priority a document is counted under: a missing key reads as Med,
      a stored `null` as `None`. */
  function EffectivePriority(d: Doc): Option<string> {
    match d.priority
    case Missing => Some("Med")
    case Null => None
    case Present(p) => Some(p)
  }

  /** The status a document is counted under: a missing key reads as Todo. */
  function EffectiveStatus(d: Doc): Option<string> {
    match d.status
    case Missing => Some("Todo")
    case Null => None
    case Present(s) => Some(s)
  }

  /** Independent counting definitions, over the documents from the last one back. */
  function CountCompleted(docs: seq<Doc>): nat
    decreases |docs|
  {
    if |docs| == 0 then 0
    else CountCompleted(docs[..|docs| - 1]) + (if IsCompleted(docs[|docs| - 1]) then 1 else 0)
  }

  function CountPriority(docs: seq<Doc>, p: string): nat
    decreases |docs|
  {
    if |docs| == 0 then 0
    else CountPriority(docs[..|docs| - 1], p) + (if EffectivePriority(docs[|docs| - 1]) == Some(p) then 1 else 0)
  }

  function CountStatus(docs: seq<Doc>, s: string): nat
    decreases |docs|
  {
    if |docs| == 0 then 0
    else CountStatus(docs[..|docs| - 1], s) + (if EffectiveStatus(docs[|docs| - 1]) == Some(s) then 1 else 0)
  }

  /** A document counts under at most one of the three keys, so the three counts
      together never exceed the number of documents. */
  lemma {:induction false} CountsBounded(docs: seq<Doc>, a: string, b: string, c: string)
    requires a != b && b != c && a != c
    ensures CountPriority(docs, a) + CountPriority(docs, b) + CountPriority(docs, c) <= |docs|
    ensures CountStatus(docs, a) + CountStatus(docs, b) + CountStatus(docs, c) <= |docs|
    ensures CountCompleted(docs) <= |docs|
    decreases |docs|
  {
    if |docs| > 0 {
      CountsBounded(docs[..|docs| - 1], a, b, c);
    }
  }

  datatype PriorityDist = PriorityDist(low: nat, med: nat, high: nat)
  datatype StatusDist = StatusDist(todo: nat, inProgress: nat, completed: nat)

  /** The statistics answer; `completedTasks` is absent when the user has no tasks. */
  datatype UserStats = UserStats(
    userId: string,
    totalTasks: nat,
    completedTasks: Option<nat>,
    priorityDistribution: PriorityDist,
    statusDistribution: StatusDist)

  method CountCompletedTasks(docs: seq<Doc>) returns (n: nat)
    ensures n == CountCompleted(docs)
    ensures n <= |docs|
  {
    n := 0;
    var i := 0;
    while i < |docs|
      invariant 0 <= i <= |docs|
      invariant n == CountCompleted(docs[..i])
    {
      assert docs[..i + 1][..i] == docs[..i];
      if IsCompleted(docs[i]) {
        n := n + 1;
      }
      i := i + 1;
    }
    assert docs[..|docs|] == docs;
    CountsBounded(docs, "Low", "Med", "High");
  }

  /** The priority histogram: one pass, unknown values dropped. */
  method PriorityDistribution(docs: seq<Doc>) returns (dist: PriorityDist)
    ensures dist == PriorityDist(CountPriority(docs, "Low"), CountPriority(docs, "Med"), CountPriority(docs, "High"))
    ensures dist.low + dist.med + dist.high <= |docs|
  {
    dist := PriorityDist(0, 0, 0);
    var i := 0;
    while i < |docs|
      invariant 0 <= i <= |docs|
      invariant dist == PriorityDist(CountPriority(docs[..i], "Low"), CountPriority(docs[..i], "Med"),
                                     CountPriority(docs[..i], "High"))
    {
      assert docs[..i + 1][..i] == docs[..i];
      var p := EffectivePriority(docs[i]);
      if p == Some("Low") {
        dist := dist.(low := dist.low + 1);
      } else if p == Some("Med") {
        dist := dist.(med := dist.med + 1);
      } else if p == Some("High") {
        dist := dist.(high := dist.high + 1);
      }
      i := i + 1;
    }
    assert docs[..|docs|] == docs;
    CountsBounded(docs, "Low", "Med", "High");
  }

  /** The status histogram: one pass, unknown values dropped. */
  method StatusDistribution(docs: seq<Doc>) returns (dist: StatusDist)
    ensures dist == StatusDist(CountStatus(docs, "Todo"), CountStatus(docs, "In Progress"), CountStatus(docs, "Completed"))
    ensures dist.todo + dist.inProgress + dist.completed <= |docs|
  {
    dist := StatusDist(0, 0, 0);
    var i := 0;
    while i < |docs|
      invariant 0 <= i <= |docs|
      invariant dist == StatusDist(CountStatus(docs[..i], "Todo"), CountStatus(docs[..i], "In Progress"),
                                   CountStatus(docs[..i], "Completed"))
    {
      assert docs[..i + 1][..i] == docs[..i];
      var s := EffectiveStatus(docs[i]);
      if s == Some("Todo") {
        dist := dist.(todo := dist.todo + 1);
      } else if s == Some("In Progress") {
        dist := dist.(inProgress := dist.inProgress + 1);
      } else if s == Some("Completed") {
        dist := dist.(completed := dist.completed + 1);
      }
      i := i + 1;
    }
    assert docs[..|docs|] == docs;
    CountsBounded(docs, "Todo", "In Progress", "Completed");
  }

  /** GET /user-stats/{userId}. */
  method GetUserStats(userId: string, collection: seq<Doc>) returns (r: Response<UserStats>)
    ensures !IsValidObjectId(userId) ==> r == BadRequest(InvalidUserId)
    ensures IsValidObjectId(userId) ==> r.Answer?
    ensures r.Answer? ==> r.value.userId == userId
    ensures r.Answer? ==>
      var tasks := UserTasks(collection, HexValue(userId));
      var st := r.value;
      && st.userId == userId
      && st.totalTasks == |tasks|
      && (|tasks| == 0 ==> st.completedTasks.None?)
      && (|tasks| > 0 ==> st.completedTasks == Some(CountCompleted(tasks)))
      && st.priorityDistribution == PriorityDist(CountPriority(tasks, "Low"), CountPriority(tasks, "Med"), CountPriority(tasks, "High"))
      && st.statusDistribution == StatusDist(CountStatus(tasks, "Todo"), CountStatus(tasks, "In Progress"), CountStatus(tasks, "Completed"))
    ensures r.Answer? ==>
      && (r.value.completedTasks.Some? ==> r.value.completedTasks.value <= r.value.totalTasks)
      && r.value.priorityDistribution.low + r.value.priorityDistribution.med + r.value.priorityDistribution.high <= r.value.totalTasks
      && r.value.statusDistribution.todo + r.value.statusDistribution.inProgress + r.value.statusDistribution.completed <= r.value.totalTasks
  {
    if !IsValidObjectId(userId) {
      return BadRequest(InvalidUserId);
    }
    var tasks := UserTasks(collection, HexValue(userId));
    if |tasks| == 0 {
      return Answer(UserStats(userId, 0, None, PriorityDist(0, 0, 0), StatusDist(0, 0, 0)));
    }
    var completed := CountCompletedTasks(tasks);
    var priorities := PriorityDistribution(tasks);
    var statuses := StatusDistribution(tasks);
    return Answer(UserStats(userId, |tasks|, Some(completed), priorities, statuses));
  }

  // ---------------------------------------------------------------- trends

  datatype GroupBy = ByDay | ByWeek

  /** The `groupBy` query parameter, "day" when absent; anything else is refused. */
  function ParseGroupBy(g: Option<string>): (r: Option<GroupBy>)
    ensures g.None? ==> r == Some(ByDay)
    ensures g.Some? ==> (r.Some? <==> g.value == "day" || g.value == "week")
    ensures g == Some("week") ==> r == Some(ByWeek)
    ensures g == Some("day") ==> r == Some(ByDay)
  {
    match g
    case None => Some(ByDay)
    case Some(v) => if v == "day" then Some(ByDay) else if v == "week" then Some(ByWeek) else None
  }

  /** Python's `weekday()`: Monday is 0. Day 0, 1970-01-01, was a Thursday. */
  function Weekday(d: Day): (w: int)
    ensures 0 <= w <= 6
  {
    (d + 3) % 7
  }

  /** The bucket a day falls in: the day itself, or the Monday starting its week. */
  function BucketKey(d: Day, g: GroupBy): (k: Day)
    ensures k <= d && d - k <= 6
    ensures g == ByDay ==> k == d
    ensures g == ByWeek ==> Weekday(k) == 0 && d - k == Weekday(d)
  {
    match g
    case ByDay => d
    case ByWeek => d - Weekday(d)
  }

  /** Days of one week share a bucket: grouping by week is constant from a
      Monday through the following Sunday. */
  lemma WeekBucketsAreWeeks(monday: Day, offset: int)
    requires Weekday(monday) == 0 && 0 <= offset <= 6
    ensures BucketKey(monday + offset, ByWeek) == monday
  {
  }

  /** The day a task is counted on: its update day if it is completed and has
      one, otherwise its creation day; with neither it is skipped. */
  function TrendDate(d: Doc): (r: Option<Day>)
    ensures IsCompleted(d) && d.updatedAt.Present? ==> r == Some(d.updatedAt.value)
    ensures !(IsCompleted(d) && d.updatedAt.Present?) ==>
      (if d.createdAt.Present? then r == Some(d.createdAt.value) else r.None?)
  {
    if IsCompleted(d) && d.updatedAt.Present? then Some(d.updatedAt.value)
    else if d.createdAt.Present? then Some(d.createdAt.value)
    else None
  }

  function KeyOf(d: Doc, g: GroupBy): Option<Day> {
    match TrendDate(d)
    case None => None
    case Some(day) => Some(BucketKey(day, g))
  }

  /** The task was also created within the bucket it is counted in. */
  predicate CreatedInBucket(d: Doc, g: GroupBy) {
    d.createdAt.Present? && KeyOf(d, g) == Some(BucketKey(d.createdAt.value, g))
  }

  /** The three counters of one bucket. */
  datatype Tally = Tally(total: nat, completed: nat, created: nat)

  const NoTally: Tally := Tally(0, 0, 0)

  function Contribution(d: Doc, g: GroupBy): Tally {
    Tally(1, if IsCompleted(d) then 1 else 0, if CreatedInBucket(d, g) then 1 else 0)
  }

  function Add(a: Tally, b: Tally): Tally {
    Tally(a.total + b.total, a.completed + b.completed, a.created + b.created)
  }

  /** Reference: the tally of the documents whose bucket key is `k`. */
  function TallyIn(docs: seq<Doc>, g: GroupBy, k: Day): (t: Tally)
    ensures t.completed <= t.total && t.created <= t.total
    decreases |docs|
  {
    if |docs| == 0 then NoTally
    else
      var d := docs[|docs| - 1];
      var before := TallyIn(docs[..|docs| - 1], g, k);
      if KeyOf(d, g) == Some(k) then Add(before, Contribution(d, g)) else before
  }

  /** Reference: the number of documents that have a usable date. */
  function DatedCount(docs: seq<Doc>): nat
    decreases |docs|
  {
    if |docs| == 0 then 0
    else DatedCount(docs[..|docs| - 1]) + (if TrendDate(docs[|docs| - 1]).Some? then 1 else 0)
  }

  /** One entry of the `trends` list. */
  datatype Bucket = Bucket(date: Day, totalTasks: nat, completedTasks: nat, createdTasks: nat)

  function TallyOf(b: Bucket): Tally {
    Tally(b.totalTasks, b.completedTasks, b.createdTasks)
  }

  predicate KeysIncreasing(bs: seq<Bucket>) {
    forall i, j :: 0 <= i < j < |bs| ==> bs[i].date < bs[j].date
  }

  /** The tally the bucket list holds for key `k`, nothing when it has no such bucket. */
  function TallyAt(bs: seq<Bucket>, k: Day): (t: Tally)
    requires KeysIncreasing(bs)
    ensures (forall i :: 0 <= i < |bs| ==> bs[i].date != k) ==> t == NoTally
    ensures forall i :: 0 <= i < |bs| && bs[i].date == k ==> t == TallyOf(bs[i])
    decreases |bs|
  {
    if |bs| == 0 then NoTally
    else if bs[0].date == k then TallyOf(bs[0])
    else TallyAt(bs[1..], k)
  }

  function SumTotals(bs: seq<Bucket>): nat
    decreases |bs|
  {
    if |bs| == 0 then 0 else bs[0].totalTasks + SumTotals(bs[1..])
  }

  /** A bucket in front of a sorted list with larger keys keeps it sorted. */
  lemma ConsIncreasing(b: Bucket, rest: seq<Bucket>)
    requires KeysIncreasing(rest)
    requires |rest| > 0 ==> b.date < rest[0].date
    ensures KeysIncreasing([b] + rest)
  {
    var r := [b] + rest;
    forall i, j | 0 <= i < j < |r| ensures r[i].date < r[j].date {
      if i == 0 && j > 1 {
        assert rest[0].date < rest[j - 1].date;
      }
    }
  }

  /** Counts one document into the bucket for `key`, creating the bucket in its
      sorted place if it is new. */
  function Bump(bs: seq<Bucket>, key: Day, c: Tally): (r: seq<Bucket>)
    requires KeysIncreasing(bs)
    requires c.total == 1
    ensures KeysIncreasing(r)
    ensures |r| > 0 && r[0].date == if |bs| > 0 && bs[0].date < key then bs[0].date else key
    ensures (forall i :: 0 <= i < |bs| ==> bs[i].totalTasks > 0) ==>
            (forall i :: 0 <= i < |r| ==> r[i].totalTasks > 0)
    ensures SumTotals(r) == SumTotals(bs) + 1
    decreases |bs|
  {
    var added := Bucket(key, c.total, c.completed, c.created);
    if |bs| == 0 then [added]
    else if bs[0].date == key then
      var b := bs[0];
      var r := [Bucket(key, b.totalTasks + c.total, b.completedTasks + c.completed, b.createdTasks + c.created)] + bs[1..];
      ConsIncreasing(r[0], bs[1..]);
      r
    else if key < bs[0].date then
      ConsIncreasing(added, bs);
      [added] + bs
    else
      var rest := Bump(bs[1..], key, c);
      ConsIncreasing(bs[0], rest);
      var r := [bs[0]] + rest;
      assert r[1..] == rest;
      r
  }

  /** The bumped list holds one more document under `key` and the same tallies
      under every other key. */
  lemma {:induction false} BumpTally(bs: seq<Bucket>, key: Day, c: Tally, k: Day)
    requires KeysIncreasing(bs)
    requires c.total == 1
    ensures TallyAt(Bump(bs, key, c), k) == if k == key then Add(TallyAt(bs, k), c) else TallyAt(bs, k)
    decreases |bs|
  {
    if |bs| > 0 && bs[0].date < key {
      BumpTally(bs[1..], key, c, k);
      var r := Bump(bs, key, c);
      assert r[1..] == Bump(bs[1..], key, c);
    }
  }

  /** The bucket list says exactly what the reference tallies say. */
  ghost predicate Describes(bs: seq<Bucket>, docs: seq<Doc>, g: GroupBy) {
    && KeysIncreasing(bs)
    && (forall i :: 0 <= i < |bs| ==> bs[i].totalTasks > 0)
    && (forall k :: TallyAt(bs, k) == TallyIn(docs, g, k))
  }

  /** In buckets that describe the documents, completed and created counts
      never exceed the total. */
  lemma DescribedBucketsBounded(bs: seq<Bucket>, docs: seq<Doc>, g: GroupBy)
    requires Describes(bs, docs, g)
    ensures forall i :: 0 <= i < |bs| ==>
      bs[i].completedTasks <= bs[i].totalTasks && bs[i].createdTasks <= bs[i].totalTasks
  {
    forall j | 0 <= j < |bs|
      ensures bs[j].completedTasks <= bs[j].totalTasks && bs[j].createdTasks <= bs[j].totalTasks
    {
      assert TallyAt(bs, bs[j].date) == TallyOf(bs[j]);
    }
  }

  /** The trend buckets of `docs`, one pass, kept sorted by key. */
  method Trends(docs: seq<Doc>, g: GroupBy) returns (bs: seq<Bucket>)
    ensures Describes(bs, docs, g)
    ensures SumTotals(bs) == DatedCount(docs)
    ensures forall i :: 0 <= i < |bs| ==>
      bs[i].completedTasks <= bs[i].totalTasks && bs[i].createdTasks <= bs[i].totalTasks
  {
    bs := [];
    var i := 0;
    while i < |docs|
      invariant 0 <= i <= |docs|
      invariant Describes(bs, docs[..i], g)
      invariant SumTotals(bs) == DatedCount(docs[..i])
    {
      var d := docs[i];
      assert docs[..i + 1][..i] == docs[..i];
      assert docs[..i + 1][i] == d;
      match KeyOf(d, g) {
        case None =>
        case Some(key) =>
          var before := bs;
          bs := Bump(bs, key, Contribution(d, g));
          forall k ensures TallyAt(bs, k) == TallyIn(docs[..i + 1], g, k) {
            BumpTally(before, key, Contribution(d, g), k);
          }
      }
      i := i + 1;
    }
    assert docs[..|docs|] == docs;
    DescribedBucketsBounded(bs, docs, g);
  }

  /** Every dated document is counted in a bucket of its own key. */
  lemma DatedDocumentsHaveBuckets(bs: seq<Bucket>, docs: seq<Doc>, g: GroupBy, k: nat)
    requires Describes(bs, docs, g)
    requires k < |docs| && KeyOf(docs[k], g).Some?
    ensures exists i :: 0 <= i < |bs| && bs[i].date == KeyOf(docs[k], g).value
  {
    var key := KeyOf(docs[k], g).value;
    TallyInCounts(docs, g, k);
    assert TallyAt(bs, key).total > 0;
  }

  lemma {:induction false} TallyInCounts(docs: seq<Doc>, g: GroupBy, k: nat)
    requires k < |docs| && KeyOf(docs[k], g).Some?
    ensures TallyIn(docs, g, KeyOf(docs[k], g).value).total > 0
    decreases |docs|
  {
    if k < |docs| - 1 {
      var front := docs[..|docs| - 1];
      assert front[k] == docs[k];
      TallyInCounts(front, g, k);
    }
  }

  /** The productivity answer: the no-tasks message form, or the trends with their count. */
  datatype Productivity =
    | NoTasks(userId: string, groupBy: GroupBy)
    | TrendReport(userId: string, groupBy: GroupBy, trends: seq<Bucket>, totalDataPoints: nat)

  /** GET /productivity-analysis/{userId}?groupBy=... */
  method GetProductivityAnalysis(userId: string, groupBy: Option<string>, collection: seq<Doc>)
    returns (r: Response<Productivity>)
    ensures !IsValidObjectId(userId) ==> r == BadRequest(InvalidUserId)
    ensures IsValidObjectId(userId) && ParseGroupBy(groupBy).None? ==> r == BadRequest(InvalidGroupBy)
    ensures IsValidObjectId(userId) && ParseGroupBy(groupBy).Some? ==> r.Answer?
    ensures r.Answer? ==> r.value.userId == userId
    ensures r.Answer? ==>
      var tasks := UserTasks(collection, HexValue(userId));
      var g := ParseGroupBy(groupBy).value;
      && r.value.groupBy == g
      && (r.value.NoTasks? <==> |tasks| == 0)
      && (r.value.TrendReport? ==>
            && Describes(r.value.trends, tasks, g)
            && SumTotals(r.value.trends) == DatedCount(tasks)
            && r.value.totalDataPoints == |r.value.trends|)
  {
    if !IsValidObjectId(userId) {
      return BadRequest(InvalidUserId);
    }
    var g := ParseGroupBy(groupBy);
    if g.None? {
      return BadRequest(InvalidGroupBy);
    }
    var tasks := UserTasks(collection, HexValue(userId));
    if |tasks| == 0 {
      return Answer(NoTasks(userId, g.value));
    }
    var trends := Trends(tasks, g.value);
    return Answer(TrendReport(userId, g.value, trends, |trends|));
  }
}
