/** The analytics and pipeline helpers of frontend/src/Dashboard.js, as
    pure functions of the account's job list: status counts, the funnel
    and pie series, the interview rate, recent activity, the search
    filter, the "next status" button, the calendar marks and the list
    left after an optimistic delete. */
module Dashboard {
  import opened Wrappers
  import opened JobModel
  import Seqs
  import Store

  /** One entry of the `statuses` configuration; `caption` holds its
      `label`. Its Tailwind class names only style the page and are left
      out. */
  datatype StatusInfo = StatusInfo(id: string, caption: string, color: string)

  const StatusTable: seq<StatusInfo> := [
    StatusInfo("applied", "Applied", "#6366f1"),
    StatusInfo("ot", "Online Test", "#a855f7"),
    StatusInfo("interview", "Interview", "#f59e0b"),
    StatusInfo("offer", "Offer", "#10b981"),
    StatusInfo("rejected", "Rejected", "#ef4444")]

  /** The page lists the same statuses, in the same order, as the
      schema's enumeration. */
  lemma StatusTableMatchesSchema()
    ensures |StatusTable| == |Statuses|
    ensures forall i :: 0 <= i < |StatusTable| ==> StatusTable[i].id == Statuses[i]
  {
  }

  // ---------------------------------------------------------------------
  // Status counts, funnel and pie data

  /** `getStatusCount(status)`. */
  function StatusCount(jobs: seq<Job>, status: string): (n: nat)
    ensures n <= |jobs|
  {
    |Seqs.Filter(jobs, (j: Job) => j.status == status)|
  }

  /** The number of jobs whose status is one of the five ids. */
  function KnownStatusCount(jobs: seq<Job>): (n: nat)
    ensures n <= |jobs|
  {
    |Seqs.Filter(jobs, (j: Job) => IsStatus(j.status))|
  }

  /** Counting one more job adds one to exactly the count of its status. */
  lemma {:induction false} CountsCons(x: Job, rest: seq<Job>, status: string)
    ensures StatusCount([x] + rest, status) == (if x.status == status then 1 else 0) + StatusCount(rest, status)
    ensures KnownStatusCount([x] + rest) == (if IsStatus(x.status) then 1 else 0) + KnownStatusCount(rest)
  {
    assert ([x] + rest)[0] == x;
    assert ([x] + rest)[1..] == rest;
  }

  /** The five counts add up to the number of jobs with a known status. */
  lemma {:induction false} CountsAddUp(jobs: seq<Job>)
    ensures StatusCount(jobs, "applied") + StatusCount(jobs, "ot") + StatusCount(jobs, "interview") +
            StatusCount(jobs, "offer") + StatusCount(jobs, "rejected") == KnownStatusCount(jobs)
  {
    if jobs != [] {
      assert jobs == [jobs[0]] + jobs[1..];
      CountsAddUp(jobs[1..]);
      CountsCons(jobs[0], jobs[1..], "applied");
      CountsCons(jobs[0], jobs[1..], "ot");
      CountsCons(jobs[0], jobs[1..], "interview");
      CountsCons(jobs[0], jobs[1..], "offer");
      CountsCons(jobs[0], jobs[1..], "rejected");
    }
  }

  /** When every job's status is one of the five ids, the counts sum to
      `jobs.length`. */
  lemma CountsSumToTotal(jobs: seq<Job>)
    requires forall j :: j in jobs ==> IsStatus(j.status)
    ensures StatusCount(jobs, "applied") + StatusCount(jobs, "ot") + StatusCount(jobs, "interview") +
            StatusCount(jobs, "offer") + StatusCount(jobs, "rejected") == |jobs|
  {
    CountsAddUp(jobs);
    Seqs.FilterKeepsAll(jobs, (j: Job) => IsStatus(j.status));
  }

  /** One bar of the "Status Breakdown" chart. */
  datatype FunnelEntry = FunnelEntry(name: string, count: nat, fill: string)

  /** `funnelData`: one entry per status, in `statuses` order. */
  function FunnelData(jobs: seq<Job>): (r: seq<FunnelEntry>)
    ensures |r| == |StatusTable|
    ensures forall i :: 0 <= i < |r| ==>
              r[i].name == StatusTable[i].caption && r[i].fill == StatusTable[i].color &&
              r[i].count == StatusCount(jobs, StatusTable[i].id)
  {
    seq(|StatusTable|, i requires 0 <= i < |StatusTable| =>
      FunnelEntry(StatusTable[i].caption, StatusCount(jobs, StatusTable[i].id), StatusTable[i].color))
  }

  /** The sum of the counts of a series. */
  function Total(entries: seq<FunnelEntry>): nat {
    if entries == [] then 0 else entries[0].count + Total(entries[1..])
  }

  /** The funnel accounts for every job with a known status, and for every
      job when all statuses are known. */
  lemma FunnelTotal(jobs: seq<Job>)
    ensures Total(FunnelData(jobs)) == KnownStatusCount(jobs)
    ensures (forall j :: j in jobs ==> IsStatus(j.status)) ==> Total(FunnelData(jobs)) == |jobs|
  {
    var f := FunnelData(jobs);
    assert Total(f[4..]) == f[4].count by {
      assert f[4..][1..] == [];
    }
    assert Total(f[3..]) == f[3].count + Total(f[4..]) by {
      assert f[3..][1..] == f[4..];
    }
    assert Total(f[2..]) == f[2].count + Total(f[3..]) by {
      assert f[2..][1..] == f[3..];
    }
    assert Total(f[1..]) == f[1].count + Total(f[2..]) by {
      assert f[1..][1..] == f[2..];
    }
    CountsAddUp(jobs);
    if forall j :: j in jobs ==> IsStatus(j.status) {
      CountsSumToTotal(jobs);
    }
  }

  /** `pieData`: the funnel without its zero-count entries. */
  function PieData(jobs: seq<Job>): (r: seq<FunnelEntry>)
    ensures forall e :: e in r <==> e in FunnelData(jobs) && e.count > 0
    ensures Seqs.IsSubseq(r, FunnelData(jobs))
  {
    Seqs.FilterIsSubseq(FunnelData(jobs), (e: FunnelEntry) => e.count > 0);
    Seqs.Filter(FunnelData(jobs), (e: FunnelEntry) => e.count > 0)
  }

  /** Leaving out the empty slices does not change the pie's total. */
  lemma {:induction false} PositiveKeepsTotal(entries: seq<FunnelEntry>)
    ensures Total(Seqs.Filter(entries, (e: FunnelEntry) => e.count > 0)) == Total(entries)
  {
    if entries != [] {
      var p := (e: FunnelEntry) => e.count > 0;
      var e, t := entries[0], entries[1..];
      PositiveKeepsTotal(t);
      assert entries == [e] + t;
      Seqs.FilterCons(e, t, p);
      if e.count > 0 {
        assert ([e] + Seqs.Filter(t, p))[1..] == Seqs.Filter(t, p);
      } else {
        assert Seqs.Filter(entries, p) == Seqs.Filter(t, p);
      }
    }
  }

  /** The pie covers the same jobs as the funnel. */
  lemma PieTotal(jobs: seq<Job>)
    ensures Total(PieData(jobs)) == Total(FunnelData(jobs))
  {
    PositiveKeepsTotal(FunnelData(jobs));
  }

  // ---------------------------------------------------------------------
  // Interview rate

  /** `interviewRate`: the share of jobs at interview or offer, in percent,
      rounded to the nearest integer with halves rounded up; 0 without
      jobs. */
  function InterviewRate(jobs: seq<Job>): (rate: nat)
    ensures |jobs| == 0 ==> rate == 0
    ensures rate <= 100
    ensures |jobs| > 0 ==>
              var a := StatusCount(jobs, "interview") + StatusCount(jobs, "offer");
              2 * |jobs| * rate <= 200 * a + |jobs| < 2 * |jobs| * rate + 2 * |jobs|
  {
    var n := |jobs|;
    if n == 0 then 0
    else
      var a := StatusCount(jobs, "interview") + StatusCount(jobs, "offer");
      CountsAddUp(jobs);
      RoundedPercent(a, n);
      (200 * a + n) / (2 * n)
  }

  /** `100 * a / n` rounded half up lies in 0..100 and is the nearest
      integer to the exact ratio. */
  lemma RoundedPercent(a: nat, n: nat)
    requires 0 < n && a <= n
    ensures var q := (200 * a + n) / (2 * n);
            0 <= q <= 100 && 2 * n * q <= 200 * a + n < 2 * n * q + 2 * n
  {
    var x, d := 200 * a + n, 2 * n;
    var q, r := x / d, x % d;
    assert x == d * q + r && 0 <= r < d;
    if q > 100 {
      MulMono(d, 101, q);
      assert false;
    }
  }

  /** Multiplying by a natural number keeps the order. */
  lemma {:induction false} MulMono(d: nat, p: nat, q: nat)
    requires p <= q
    ensures d * p <= d * q
    decreases q - p
  {
    if p < q {
      MulMono(d, p, q - 1);
      assert d * q == d * (q - 1) + d;
    }
  }

  // ---------------------------------------------------------------------
  // Recent activity

  /** The sort key of "Recent Activity": `updatedAt || appliedDate`. */
  function ActivityTime(j: Job): int {
    j.updatedAt.GetOr(j.appliedDate)
  }

  const RecentCount: nat := 5

  /** `recentActivity`: a copy of `jobs` sorted by `ActivityTime`, most
      recent first, cut to five. */
  function RecentActivity(jobs: seq<Job>): (r: seq<Job>)
    ensures |r| == if |jobs| < RecentCount then |jobs| else RecentCount
    ensures multiset(r) <= multiset(jobs)
    ensures Seqs.SortedDesc(r, ActivityTime)
    ensures forall x, y :: x in r && y in multiset(jobs) - multiset(r) ==> ActivityTime(x) >= ActivityTime(y)
  {
    var sorted := Seqs.SortDesc(jobs, ActivityTime);
    var r := Seqs.Take(sorted, RecentCount);
    Seqs.TakeSortedIsTop(sorted, ActivityTime, RecentCount);
    assert multiset(sorted) == multiset(jobs);
    assert multiset(r) <= multiset(sorted);
    assert Seqs.SortedDesc(r, ActivityTime) by {
      forall i, j | 0 <= i < j < |r| ensures ActivityTime(r[i]) >= ActivityTime(r[j]) {
        assert r[i] == sorted[i] && r[j] == sorted[j];
      }
    }
    r
  }

  // ---------------------------------------------------------------------
  // Search

  /** The search box's test: the lowercased term occurs in the lowercased
      company or position. */
  predicate Matches(j: Job, term: string) {
    Seqs.Includes(Seqs.Lower(j.company), Seqs.Lower(term)) ||
    Seqs.Includes(Seqs.Lower(j.position), Seqs.Lower(term))
  }

  /** `getFilteredJobs()`: a job is kept exactly when the lowercased term
      occurs, at some offset, in its lowercased company or position; the
      kept jobs keep their order. */
  function FilteredJobs(jobs: seq<Job>, term: string): (r: seq<Job>)
    ensures forall j :: j in r <==> (j in jobs &&
              ((exists i :: Seqs.OccursAt(Seqs.Lower(j.company), Seqs.Lower(term), i)) ||
               (exists i :: Seqs.OccursAt(Seqs.Lower(j.position), Seqs.Lower(term), i))))
    ensures Seqs.IsSubseq(r, jobs)
  {
    forall j: Job
      ensures Matches(j, term) <==>
              (exists i :: Seqs.OccursAt(Seqs.Lower(j.company), Seqs.Lower(term), i)) ||
              (exists i :: Seqs.OccursAt(Seqs.Lower(j.position), Seqs.Lower(term), i))
    {
      Seqs.IncludesAt(Seqs.Lower(j.company), Seqs.Lower(term));
      Seqs.IncludesAt(Seqs.Lower(j.position), Seqs.Lower(term));
    }
    Seqs.FilterIsSubseq(jobs, (j: Job) => Matches(j, term));
    Seqs.Filter(jobs, (j: Job) => Matches(j, term))
  }

  /** An empty search box shows every job. */
  lemma EmptySearchKeepsAll(jobs: seq<Job>)
    ensures FilteredJobs(jobs, "") == jobs
  {
    forall j | j in jobs ensures Matches(j, "") {
      Seqs.IncludesEmpty(Seqs.Lower(j.company));
    }
    Seqs.FilterKeepsAll(jobs, (j: Job) => Matches(j, ""));
  }

  /** Lowercasing twice is lowercasing once. */
  lemma LowerIdempotent(s: string)
    ensures Seqs.Lower(Seqs.Lower(s)) == Seqs.Lower(s)
  {
  }

  /** The search ignores the case of the term. */
  lemma SearchIgnoresCase(jobs: seq<Job>, term: string)
    ensures FilteredJobs(jobs, Seqs.Lower(term)) == FilteredJobs(jobs, term)
  {
    LowerIdempotent(term);
    Seqs.FilterSame(jobs, (j: Job) => Matches(j, Seqs.Lower(term)), (j: Job) => Matches(j, term));
  }

  // ---------------------------------------------------------------------
  // Pipeline: the "next status" button

  /** `statuses.findIndex(s => s.id === id)` over a suffix of the table
      starting at `from`: the first index with that id, or -1. */
  function IndexOf(id: string, from: nat): (i: int)
    requires from <= |StatusTable|
    ensures i == -1 || from <= i < |StatusTable|
    ensures i >= 0 ==> StatusTable[i].id == id && forall k :: from <= k < i ==> StatusTable[k].id != id
    ensures i == -1 <==> forall k :: from <= k < |StatusTable| ==> StatusTable[k].id != id
    decreases |StatusTable| - from
  {
    if from == |StatusTable| then -1
    else if StatusTable[from].id == id then from
    else IndexOf(id, from + 1)
  }

  /** `statuses[statuses.findIndex(s => s.id === id) + 1]?.id`: the status
      the "→" button sends for a card in column `id`. */
  function NextStatus(id: string): (r: Option<string>)
    ensures r.Some? ==> IsStatus(r.value)
    ensures r.None? <==> id == "rejected"
  {
    var i := IndexOf(id, 0) + 1;
    if i < |StatusTable| then Some(StatusTable[i].id) else None
  }

  /** Every status but the last moves to the one after it in the
      configured order; `rejected` has no next status. An id outside the
      table (which no pipeline column has) would be sent to `applied`,
      because `findIndex` answers -1. */
  lemma NextStatusOrder()
    ensures forall k :: 0 <= k < |StatusTable| - 1 ==> NextStatus(StatusTable[k].id) == Some(StatusTable[k + 1].id)
    ensures NextStatus("rejected") == None
    ensures forall id :: !IsStatus(id) ==> NextStatus(id) == Some("applied")
  {
    forall k | 0 <= k < |StatusTable| - 1
      ensures NextStatus(StatusTable[k].id) == Some(StatusTable[k + 1].id)
    {
      assert IndexOf(StatusTable[k].id, 0) == k;
    }
    forall id | !IsStatus(id) ensures NextStatus(id) == Some("applied") {
      assert forall k :: 0 <= k < |StatusTable| ==> StatusTable[k].id != id;
    }
  }

  /** The PUT body `{ status: next }` the button sends; an `undefined`
      status is dropped when the body is serialised. */
  function AdvanceBody(id: string): JobFields {
    Store.EmptyBody.(status := NextStatus(id))
  }

  /** Pressing "→" on a rejected card only refreshes `updatedAt`. */
  lemma AdvanceRejectedOnlyTouches(j: Job, now: Time)
    ensures Store.PatchAsWritten(j, AdvanceBody("rejected"), now) == j.(updatedAt := Some(now))
  {
    NextStatusOrder();
    Store.PatchEmpty(j, now);
  }

  /** Pressing "→" on any other card of column `k` moves the job to the
      next column and refreshes `updatedAt`; nothing else changes. */
  lemma AdvanceMovesToNext(j: Job, k: nat, now: Time)
    requires k + 1 < |StatusTable|
    ensures Store.PatchAsWritten(j, AdvanceBody(StatusTable[k].id), now) ==
            j.(status := StatusTable[k + 1].id, updatedAt := Some(now))
  {
    NextStatusOrder();
    Store.PatchStatusOnly(j, StatusTable[k + 1].id, now);
  }

  // ---------------------------------------------------------------------
  // Optimistic delete

  /** `jobs.filter(job => job._id !== id)` in `handleDeleteJob`. */
  function WithoutId(jobs: seq<Job>, id: ObjectId): (r: seq<Job>)
    ensures forall j :: j in r <==> j in jobs && j.id != id
    ensures Seqs.IsSubseq(r, jobs)
  {
    Seqs.FilterIsSubseq(jobs, (j: Job) => j.id != id);
    Seqs.Filter(jobs, (j: Job) => j.id != id)
  }

  /** The optimistic list is what the server will hold: dropping the id
      from the caller's jobs gives the caller's jobs after DELETE. */
  lemma {:induction false} OptimisticDeleteAgrees(jobs: seq<Job>, user: ObjectId, id: ObjectId)
    requires Store.UniqueIds(jobs)
    ensures WithoutId(Store.OwnedBy(jobs, user), id) == Store.OwnedBy(Store.DeleteOwned(jobs, user, id), user)
  {
    if jobs != [] {
      var x, t := jobs[0], jobs[1..];
      assert jobs == [x] + t;
      if x.id == id && x.user == user {
        forall j | j in t ensures j.id != id {
          var i :| 0 <= i < |t| && t[i] == j;
          assert jobs[i + 1] == j;
        }
        OptimisticHead(x, t, user, id);
      } else {
        assert Store.UniqueIds(t) by {
          forall i, k | 0 <= i < k < |t| ensures t[i].id != t[k].id {
            assert t[i] == jobs[i + 1] && t[k] == jobs[k + 1];
          }
        }
        OptimisticDeleteAgrees(t, user, id);
        OptimisticStep(x, t, user, id);
      }
    }
  }

  /** What the dashboard holds: the list it filters is the GET /jobs reply,
      and the list it refetches after DELETE is the GET /jobs reply again.
      With unique ids the two hold the same jobs, as often each; their
      order may differ only among jobs with equal applied dates. */
  lemma OptimisticListAgrees(jobs: seq<Job>, user: ObjectId, id: ObjectId)
    requires Store.UniqueIds(jobs)
    ensures multiset(WithoutId(Store.ListJobs(jobs, user), id)) ==
            multiset(Store.ListJobs(Store.DeleteOwned(jobs, user, id), user))
  {
    var keep := (j: Job) => j.id != id;
    var mine := (j: Job) => j.user == user;
    var rest := Store.DeleteOwned(jobs, user, id);
    OptimisticDeleteAgrees(jobs, user, id);
    forall x
      ensures multiset(WithoutId(Store.ListJobs(jobs, user), id))[x] ==
              multiset(Store.ListJobs(rest, user))[x]
    {
      Seqs.FilterCounts(Store.ListJobs(jobs, user), keep, x);
      Seqs.FilterCounts(Store.OwnedBy(jobs, user), keep, x);
      Seqs.FilterCounts(jobs, mine, x);
      Seqs.FilterCounts(rest, mine, x);
    }
  }

  /** The base case: the deleted job heads the collection and is the only
      one with its id. */
  lemma OptimisticHead(x: Job, t: seq<Job>, user: ObjectId, id: ObjectId)
    requires x.id == id && x.user == user
    requires forall j :: j in t ==> j.id != id
    ensures WithoutId(Store.OwnedBy([x] + t, user), id) == Store.OwnedBy(Store.DeleteOwned([x] + t, user, id), user)
  {
    var keep := (j: Job) => j.id != id;
    var o := Store.OwnedBy(t, user);
    Store.OwnedByCons(x, t, user);
    assert Store.OwnedBy([x] + t, user) == [x] + o;
    Seqs.FilterCons(x, o, keep);
    assert WithoutId([x] + o, id) == Seqs.Filter(o, keep);
    Seqs.FilterKeepsAll(o, keep);
    assert WithoutId([x] + o, id) == o;
    assert ([x] + t)[1..] == t;
    assert Store.DeleteOwned([x] + t, user, id) == t;
  }

  /** The step: a first job that does not match is kept on both sides. */
  lemma OptimisticStep(x: Job, t: seq<Job>, user: ObjectId, id: ObjectId)
    requires !(x.id == id && x.user == user)
    requires WithoutId(Store.OwnedBy(t, user), id) == Store.OwnedBy(Store.DeleteOwned(t, user, id), user)
    ensures WithoutId(Store.OwnedBy([x] + t, user), id) == Store.OwnedBy(Store.DeleteOwned([x] + t, user, id), user)
  {
    var keep := (j: Job) => j.id != id;
    var o, d := Store.OwnedBy(t, user), Store.DeleteOwned(t, user, id);
    var head := if x.user == user then [x] else [];
    Store.OwnedByCons(x, t, user);
    assert Store.OwnedBy([x] + t, user) == head + o;
    Store.DeleteOwnedCons(x, t, user, id);
    assert Store.DeleteOwned([x] + t, user, id) == [x] + d;
    Store.OwnedByCons(x, d, user);
    assert Store.OwnedBy([x] + d, user) == head + Store.OwnedBy(d, user);
    if x.user == user {
      Seqs.FilterCons(x, o, keep);
      assert WithoutId([x] + o, id) == [x] + WithoutId(o, id);
    } else {
      assert head + o == o;
      assert head + Store.OwnedBy(d, user) == Store.OwnedBy(d, user);
    }
  }

  // ---------------------------------------------------------------------
  // Calendar

  /** A calendar day: year, month (1-12) and day of the month. */
  datatype Day = Day(year: int, month: int, date: int)

  const MillisPerDay: int := 86400000

  /** The proleptic Gregorian date of a day number counted from
      1970-01-01 (the civil-from-days algorithm of H. Hinnant). */
  function CivilFromDays(days: int): Day {
    var z := days + 719468;
    var era := z / 146097;
    var doe := z - era * 146097;
    var yoe := (doe - doe / 1460 + doe / 36524 - doe / 146096) / 365;
    var doy := doe - (365 * yoe + yoe / 4 - yoe / 100);
    var mp := (5 * doy + 2) / 153;
    var d := doy - (153 * mp + 2) / 5 + 1;
    var m := if mp < 10 then mp + 3 else mp - 9;
    var y := yoe + era * 400;
    Day(if m <= 2 then y + 1 else y, m, d)
  }

  /** `getFullYear()`, `getMonth()` and `getDate()` of the instant `t`, in
      a time zone `offset` milliseconds ahead of UTC. */
  function LocalDay(t: Time, offset: int): Day {
    CivilFromDays((t + offset) / MillisPerDay)
  }

  /** The `find` inside `tileContent`: the first job whose next round
      falls on the same local day as the tile. */
  function FindEvent(jobs: seq<Job>, tile: Time, offset: int): (r: Option<Job>)
    ensures r.Some? ==> r.value in jobs && r.value.nextRoundDate.Some? &&
                        LocalDay(r.value.nextRoundDate.value, offset) == LocalDay(tile, offset)
    ensures r.None? <==> forall j :: j in jobs && j.nextRoundDate.Some? ==>
                                       LocalDay(j.nextRoundDate.value, offset) != LocalDay(tile, offset)
  {
    if jobs == [] then None
    else if jobs[0].nextRoundDate.Some? &&
            LocalDay(jobs[0].nextRoundDate.value, offset) == LocalDay(tile, offset) then Some(jobs[0])
    else FindEvent(jobs[1..], tile, offset)
  }

  /** `tileContent`: a tile carries a dot exactly when the view is the
      month view and some job has its next round on the tile's local year,
      month and day. */
  predicate TileMarked(jobs: seq<Job>, tile: Time, view: string, offset: int)
    ensures TileMarked(jobs, tile, view, offset) <==>
            view == "month" &&
            exists j :: j in jobs && j.nextRoundDate.Some? &&
                        LocalDay(j.nextRoundDate.value, offset) == LocalDay(tile, offset)
  {
    view == "month" && FindEvent(jobs, tile, offset).Some?
  }
}
