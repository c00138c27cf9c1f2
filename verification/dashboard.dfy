/**
 The dashboard's derived views of the store: the approval-rate percentage, the
 status distribution, the per-application amounts, the last-N windows shown in
 the overview, and the per-day counts of the trends chart.
 */
module Dashboard {
  import opened LoanTypes
  import opened LoanStore
  import AppTable
  import opened Arithmetic

  // ---------------------------------------------------------------------------
  // Approval rate
  // ---------------------------------------------------------------------------

  /** Rounding to the nearest integer with halves rounded up, as `Math.round` does. */
  function Round(x: real): (r: int)
    ensures x - 0.5 < r as real <= x + 0.5
  {
    (x + 0.5).Floor
  }

  /**
   The approval-rate percentage: `approved / total * 100` rounded, or 0 when
   there are no applications.
   */
  function ApprovalRate(st: LoanStats): (r: int)
    ensures st.totalApplications == 0 ==> r == 0
    ensures st.totalApplications > 0 ==>
      var t := st.totalApplications;
      2 * t * r <= 200 * st.approvedApplications + t < 2 * t * (r + 1)
    ensures st.approvedApplications <= st.totalApplications ==> 0 <= r <= 100
  {
    if st.totalApplications != 0 then
      RoundedPercent(st.approvedApplications, st.totalApplications);
      Round((st.approvedApplications as real / st.totalApplications as real) * 100.0)
    else 0
  }

  /**
   `round(a / t * 100)` is the integer `r` with `r - 1/2 <= 100 a / t < r + 1/2`,
   and lies in [0, 100] when `a <= t`.
   */
  lemma RoundedPercent(a: nat, t: nat)
    requires t > 0
    ensures var r := Round((a as real / t as real) * 100.0);
      && 2 * t * r <= 200 * a + t < 2 * t * (r + 1)
      && (a <= t ==> 0 <= r <= 100)
  {
    var x := (a as real / t as real) * 100.0;
    var r := Round(x);
    PercentScaled(a, t);
    RoundScaled(x, t, 200 * a + t);
    if a <= t {
      assert r <= 100 by {
        if r >= 101 {
          MultiplyNat(2 * t, 101, r);
        }
      }
    }
  }

  /** `2 t (a / t * 100 + 1/2) == 200 a + t`. */
  lemma PercentScaled(a: nat, t: nat)
    requires t > 0
    ensures (2.0 * t as real) * ((a as real / t as real) * 100.0 + 0.5) == (200 * a + t) as real
  {
    var tr := t as real;
    var q := a as real / tr;
    assert q * tr == a as real;
    calc {
      (2.0 * tr) * (q * 100.0 + 0.5);
      200.0 * (q * tr) + tr;
      (200 * a + t) as real;
    }
  }

  /** When `2 t (x + 1/2)` is the integer `n`, rounding `x` to `r` gives `2 t r <= n < 2 t (r + 1)`. */
  lemma RoundScaled(x: real, t: nat, n: int)
    requires t > 0
    requires (2.0 * t as real) * (x + 0.5) == n as real
    ensures 2 * t * Round(x) <= n < 2 * t * (Round(x) + 1)
  {
    ScaledFloor(Round(x), x + 0.5, 2 * t, n);
  }

  /** An integer `r` with `r <= y < r + 1` and `c y == n` satisfies `c r <= n < c (r + 1)`. */
  lemma ScaledFloor(r: int, y: real, c: nat, n: int)
    requires c > 0
    requires r as real <= y < r as real + 1.0
    requires (c as real) * y == n as real
    ensures c * r <= n < c * (r + 1)
  {
    MultiplyLe(r as real, y, c as real);
    CastProduct(c, r);
    MultiplyLt(y, (r + 1) as real, c as real);
    CastProduct(c, r + 1);
  }

  // ---------------------------------------------------------------------------
  // Status distribution
  // ---------------------------------------------------------------------------

  /** One slice of the status pie chart. */
  datatype Slice = Slice(name: string, value: nat, color: string)

  /** The status pie chart's slices: approved, pending, rejected, in that order. */
  function StatusData(st: LoanStats): (r: seq<Slice>)
    ensures |r| == 3
    ensures r[0].name == "Approved" && r[0].value == st.approvedApplications
    ensures r[1].name == "Pending" && r[1].value == st.pendingApplications
    ensures r[2].name == "Rejected" && r[2].value == st.rejectedApplications
  {
    [ Slice("Approved", st.approvedApplications, "#10B981"),
      Slice("Pending", st.pendingApplications, "#F59E0B"),
      Slice("Rejected", st.rejectedApplications, "#EF4444") ]
  }

  /** For statistics computed from the store, the three slices add up to the number of applications. */
  lemma StatusDataCoversAll(apps: seq<LoanApplication>)
    ensures var r := StatusData(Stats(apps));
      r[0].value + r[1].value + r[2].value == |apps| == Stats(apps).totalApplications
  {
  }

  // ---------------------------------------------------------------------------
  // Amounts per application and the last-N windows
  // ---------------------------------------------------------------------------

  /** The text before the first space: `s.split(' ')[0]`. */
  function FirstWord(s: string): (r: string)
    ensures r <= s
    ensures ' ' !in r
    ensures |r| < |s| ==> s[|r|] == ' '
  {
    if |s| == 0 || s[0] == ' ' then "" else [s[0]] + FirstWord(s[1..])
  }

  /** One bar of the amounts chart. */
  datatype AmountPoint = AmountPoint(name: string, amount: real, status: Status)

  /** One bar per application, in store order: first name, amount and status. */
  function AmountData(apps: seq<LoanApplication>): (r: seq<AmountPoint>)
    ensures |r| == |apps|
    ensures forall i :: 0 <= i < |apps| ==>
      r[i] == AmountPoint(FirstWord(apps[i].fullName), apps[i].loanAmount, apps[i].status)
  {
    if |apps| == 0 then []
    else [AmountPoint(FirstWord(apps[0].fullName), apps[0].loanAmount, apps[0].status)] + AmountData(apps[1..])
  }

  /** The last `n` elements, or all of them when there are fewer: `s.slice(-n)` for `n > 0`. */
  function Last<T>(s: seq<T>, n: nat): (r: seq<T>)
    ensures |r| == if n < |s| then n else |s|
    ensures r == s[|s| - |r|..]
  {
    if n < |s| then s[|s| - n..] else s
  }

  /** The amounts chart shows at most the last ten applications' bars, taken from the end. */
  function BarChartData(apps: seq<LoanApplication>): (r: seq<AmountPoint>)
    ensures |r| == if |apps| < 10 then |apps| else 10
    ensures forall i :: 0 <= i < |r| ==>
      var a := apps[|apps| - |r| + i];
      r[i] == AmountPoint(FirstWord(a.fullName), a.loanAmount, a.status)
  {
    Last(AmountData(apps), 10)
  }

  /** The recent-applications table receives at most the last five applications, in store order. */
  function RecentApplications(apps: seq<LoanApplication>): (r: seq<LoanApplication>)
    ensures |r| == if |apps| < 5 then |apps| else 5
    ensures apps == apps[..|apps| - |r|] + r
  {
    Last(apps, 5)
  }

  /**
   The overview's recent-applications table: the compact table of at most the
   last five applications, newest first, or the empty state for an empty store.
   */
  function RecentTable(apps: seq<LoanApplication>): (r: AppTable.Table)
    ensures r.EmptyState? <==> |apps| == 0
    ensures r.Grid? ==> |r.rows| == (if |apps| < 5 then |apps| else 5)
    ensures r.Grid? ==> AppTable.Purpose !in r.header
  {
    AppTable.Render(RecentApplications(apps), true)
  }

  /** The applications tab's table: every application, with the purpose column. */
  function AllApplicationsTable(apps: seq<LoanApplication>): (r: AppTable.Table)
    ensures r.EmptyState? <==> |apps| == 0
    ensures r.Grid? ==> |r.rows| == |apps| && AppTable.Purpose in r.header
  {
    AppTable.Render(apps, false)
  }

  // ---------------------------------------------------------------------------
  // Applications per day
  // ---------------------------------------------------------------------------

  /** Milliseconds in a day. */
  const DayMillis: int := 86_400_000

  /** The UTC calendar day of a timestamp, as a day number (day 0 starts at the epoch). */
  function DayOf(t: int): int
  {
    t / DayMillis
  }

  /** The application counts in the trends window: submitted at or after the cutoff. */
  predicate InWindow(a: LoanApplication, cutoff: int)
    ensures InWindow(a, cutoff) ==> DayOf(cutoff) <= DayOf(a.submittedAt)
  {
    a.submittedAt >= cutoff
  }

  /** Number of applications in the window. */
  function WindowCount(apps: seq<LoanApplication>, cutoff: int): nat
  {
    if |apps| == 0 then 0
    else WindowCount(apps[..|apps| - 1], cutoff) + (if InWindow(apps[|apps| - 1], cutoff) then 1 else 0)
  }

  /** Number of applications in the window submitted on day `d`. */
  function CountOnDay(apps: seq<LoanApplication>, cutoff: int, d: int): nat
  {
    if |apps| == 0 then 0
    else
      var a := apps[|apps| - 1];
      CountOnDay(apps[..|apps| - 1], cutoff, d) + (if InWindow(a, cutoff) && DayOf(a.submittedAt) == d then 1 else 0)
  }

  /**
   The per-day dictionary built by visiting the applications in order: each
   application in the window increments its day's entry, creating it at 1;
   the others are skipped. A day has an entry exactly when some application in
   the window falls on it, and the entry is the number of those.
   */
  function ByDay(apps: seq<LoanApplication>, cutoff: int): (r: map<int, nat>)
    ensures forall d :: d in r <==> CountOnDay(apps, cutoff, d) > 0
    ensures forall d :: d in r ==> r[d] == CountOnDay(apps, cutoff, d)
  {
    if |apps| == 0 then map[]
    else
      var m := ByDay(apps[..|apps| - 1], cutoff);
      var a := apps[|apps| - 1];
      if InWindow(a, cutoff) then
        var d := DayOf(a.submittedAt);
        m[d := (if d in m then m[d] else 0) + 1]
      else m
  }

  /** One point of the trends chart: a day and its number of applications. */
  datatype TrendPoint = TrendPoint(date: int, applications: nat)

  /** Days strictly increase along the sequence, so no day occurs twice. */
  predicate StrictlyAscending(e: seq<TrendPoint>)
  {
    forall i, j :: 0 <= i < j < |e| ==> e[i].date < e[j].date
  }

  /** Every day is later than `x`. */
  predicate AllAfter(e: seq<TrendPoint>, x: int)
  {
    forall i :: 0 <= i < |e| ==> x < e[i].date
  }

  /** Every point counts at least one application. */
  predicate Positive(e: seq<TrendPoint>)
  {
    forall i :: 0 <= i < |e| ==> e[i].applications >= 1
  }

  /** The count listed for day `k`, 0 when the day is absent. */
  function CountAt(e: seq<TrendPoint>, k: int): nat
  {
    if |e| == 0 then 0 else if e[0].date == k then e[0].applications else CountAt(e[1..], k)
  }

  /** The sum of all listed counts. */
  function Total(e: seq<TrendPoint>): nat
  {
    if |e| == 0 then 0 else e[0].applications + Total(e[1..])
  }

  lemma {:induction false} CountAtAbsent(e: seq<TrendPoint>, k: int)
    requires forall i :: 0 <= i < |e| ==> e[i].date != k
    ensures CountAt(e, k) == 0
  {
    if |e| > 0 {
      CountAtAbsent(e[1..], k);
    }
  }

  /**
   Counts one more application on day `d` in an ascending list of days: the
   day's point is incremented, or inserted with count 1 where it belongs.
   */
  function Tally(e: seq<TrendPoint>, d: int): (r: seq<TrendPoint>)
    requires StrictlyAscending(e)
    ensures StrictlyAscending(r)
    ensures forall x :: AllAfter(e, x) && x < d ==> AllAfter(r, x)
    ensures Positive(e) ==> Positive(r)
  {
    if |e| == 0 then [TrendPoint(d, 1)]
    else if e[0].date == d then [TrendPoint(d, e[0].applications + 1)] + e[1..]
    else if d < e[0].date then [TrendPoint(d, 1)] + e
    else
      assert AllAfter(e[1..], e[0].date);
      [e[0]] + Tally(e[1..], d)
  }

  /** Tallying day `d` raises that day's count by one and leaves every other day's count alone. */
  lemma {:induction false} TallyCounts(e: seq<TrendPoint>, d: int, k: int)
    requires StrictlyAscending(e)
    ensures CountAt(Tally(e, d), k) == CountAt(e, k) + (if k == d then 1 else 0)
  {
    var r := Tally(e, d);
    if |e| == 0 {
    } else if e[0].date == d {
      assert r[1..] == e[1..];
    } else if d < e[0].date {
      assert r[1..] == e;
      if k == d {
        CountAtAbsent(e, d);
      }
    } else {
      assert r[1..] == Tally(e[1..], d);
      TallyCounts(e[1..], d, k);
    }
  }

  /** Tallying adds one to the total. */
  lemma {:induction false} TallyTotal(e: seq<TrendPoint>, d: int)
    requires StrictlyAscending(e)
    ensures Total(Tally(e, d)) == Total(e) + 1
  {
    var r := Tally(e, d);
    if |e| == 0 {
    } else if e[0].date == d {
      assert r[1..] == e[1..];
    } else if d < e[0].date {
      assert r[1..] == e;
    } else {
      assert r[1..] == Tally(e[1..], d);
      TallyTotal(e[1..], d);
    }
  }

  /**
   The trends chart's points: one per day that has applications in the window,
   with that day's count, in ascending day order. Built in the order the
   applications are visited.
   */
  function Trends(apps: seq<LoanApplication>, cutoff: int): (r: seq<TrendPoint>)
    ensures StrictlyAscending(r)
    ensures Positive(r)
    ensures forall k :: CountAt(r, k) == CountOnDay(apps, cutoff, k)
    ensures Total(r) == WindowCount(apps, cutoff)
  {
    if |apps| == 0 then []
    else
      var prev := Trends(apps[..|apps| - 1], cutoff);
      var a := apps[|apps| - 1];
      if InWindow(a, cutoff) then
        TallyTotal(prev, DayOf(a.submittedAt));
        assert forall k :: CountAt(Tally(prev, DayOf(a.submittedAt)), k) == CountOnDay(apps, cutoff, k) by {
          forall k ensures CountAt(Tally(prev, DayOf(a.submittedAt)), k) == CountOnDay(apps, cutoff, k) {
            TallyCounts(prev, DayOf(a.submittedAt), k);
          }
        }
        Tally(prev, DayOf(a.submittedAt))
      else prev
  }

  lemma {:induction false} CountAtEntry(e: seq<TrendPoint>, i: nat)
    requires StrictlyAscending(e) && i < |e|
    ensures CountAt(e, e[i].date) == e[i].applications
  {
    if i > 0 {
      assert e[0].date < e[i].date;
      CountAtEntry(e[1..], i - 1);
    }
  }

  lemma {:induction false} CountAtPresent(e: seq<TrendPoint>, k: int) returns (i: nat)
    requires CountAt(e, k) > 0
    ensures i < |e| && e[i].date == k
  {
    if e[0].date == k {
      i := 0;
    } else {
      var j := CountAtPresent(e[1..], k);
      i := j + 1;
    }
  }

  /**
   The trends points are exactly the per-day dictionary's entries sorted by
   day: every point is an entry with its count, and every entry is a point.
   */
  lemma TrendsAreSortedByDay(apps: seq<LoanApplication>, cutoff: int)
    ensures var t := Trends(apps, cutoff);
      var m := ByDay(apps, cutoff);
      && StrictlyAscending(t)
      && (forall i :: 0 <= i < |t| ==> t[i].date in m && m[t[i].date] == t[i].applications)
      && (forall d :: d in m ==> exists i :: 0 <= i < |t| && t[i].date == d)
  {
    var t := Trends(apps, cutoff);
    var m := ByDay(apps, cutoff);
    forall i | 0 <= i < |t|
      ensures t[i].date in m && m[t[i].date] == t[i].applications
    {
      CountAtEntry(t, i);
    }
    forall d | d in m
      ensures exists i :: 0 <= i < |t| && t[i].date == d
    {
      var i := CountAtPresent(t, d);
    }
  }

  /** The counts on the chart add up to the number of applications in the window. */
  lemma TrendsCountEveryApplicationInWindow(apps: seq<LoanApplication>, cutoff: int)
    ensures Total(Trends(apps, cutoff)) == WindowCount(apps, cutoff)
    ensures WindowCount(apps, cutoff) <= |apps|
  {
    WindowCountBound(apps, cutoff);
  }

  lemma {:induction false} WindowCountBound(apps: seq<LoanApplication>, cutoff: int)
    ensures WindowCount(apps, cutoff) <= |apps|
  {
    if |apps| > 0 {
      WindowCountBound(apps[..|apps| - 1], cutoff);
    }
  }
}
