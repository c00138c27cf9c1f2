/**
 The application store: an in-memory sequence of applications with its three
 operations (append a new pending record, find by id, rewrite the status of
 the records with an id) and the statistics fold recomputed from it.
 */
module LoanStore {
  import opened LoanTypes
  import opened Permutations

  // ---------------------------------------------------------------------------
  // Folds
  // ---------------------------------------------------------------------------

  /** The applications with the given status, in their original order. */
  function WithStatus(apps: seq<LoanApplication>, s: Status): (r: seq<LoanApplication>)
    ensures |r| <= |apps|
    ensures forall i :: 0 <= i < |r| ==> r[i].status == s
  {
    if |apps| == 0 then []
    else if apps[0].status == s then [apps[0]] + WithStatus(apps[1..], s)
    else WithStatus(apps[1..], s)
  }

  /** The sum of the loan amounts, computed exactly. */
  function Sum(apps: seq<LoanApplication>): (r: real)
    ensures |apps| == 0 ==> r == 0.0
  {
    if |apps| == 0 then 0.0 else apps[0].loanAmount + Sum(apps[1..])
  }

  /** Every loan amount in the sequence is non-negative. */
  predicate NonNegativeAmounts(apps: seq<LoanApplication>)
  {
    forall i :: 0 <= i < |apps| ==> apps[i].loanAmount >= 0.0
  }

  lemma {:induction false} SumConcat(u: seq<LoanApplication>, v: seq<LoanApplication>)
    ensures Sum(u + v) == Sum(u) + Sum(v)
    decreases |u|
  {
    if |u| == 0 {
      assert u + v == v;
    } else {
      assert (u + v)[1..] == u[1..] + v;
      SumConcat(u[1..], v);
    }
  }

  lemma {:induction false} WithStatusConcat(u: seq<LoanApplication>, v: seq<LoanApplication>, s: Status)
    ensures WithStatus(u + v, s) == WithStatus(u, s) + WithStatus(v, s)
    decreases |u|
  {
    if |u| == 0 {
      assert u + v == v;
    } else {
      assert (u + v)[1..] == u[1..] + v;
      WithStatusConcat(u[1..], v, s);
    }
  }

  /** The sum of the amounts depends only on the multiset of applications. */
  lemma {:induction false} SumPermutation(a: seq<LoanApplication>, b: seq<LoanApplication>)
    requires multiset(a) == multiset(b)
    ensures Sum(a) == Sum(b)
    decreases |a|
  {
    if |a| == 0 {
      assert |b| == |multiset(b)| == 0;
    } else {
      var k := FindIn(a, b);
      DropMatched(a, b, k);
      SumPermutation(a[1..], b[..k] + b[k + 1..]);
      SumDropAt(b, k);
    }
  }

  /** The sum of one application is its amount. */
  lemma SumSingleton(x: LoanApplication)
    ensures Sum([x]) == x.loanAmount
  {
    assert [x][1..] == [];
  }

  /** Taking one application out lowers the sum by its amount. */
  lemma SumDropAt(b: seq<LoanApplication>, k: nat)
    requires k < |b|
    ensures Sum(b) == Sum(b[..k] + b[k + 1..]) + b[k].loanAmount
  {
    var u, x, v := b[..k], b[k], b[k + 1..];
    SplitAt(b, k);
    SumSingleton(x);
    SumConcat(u + [x], v);
    SumConcat(u, [x]);
    SumConcat(u, v);
  }

  /** An application occurs among those with status `s` as often as in the input when it has status `s`, otherwise never. */
  lemma {:induction false} WithStatusMultiplicity(a: seq<LoanApplication>, s: Status, x: LoanApplication)
    ensures multiset(WithStatus(a, s))[x] == if x.status == s then multiset(a)[x] else 0
  {
    if |a| > 0 {
      WithStatusMultiplicity(a[1..], s, x);
      assert a == [a[0]] + a[1..];
    }
  }

  /** Filtering by status commutes with reordering: the kept multiset depends only on the input multiset. */
  lemma WithStatusPermutation(a: seq<LoanApplication>, b: seq<LoanApplication>, s: Status)
    requires multiset(a) == multiset(b)
    ensures multiset(WithStatus(a, s)) == multiset(WithStatus(b, s))
  {
    forall x
      ensures multiset(WithStatus(a, s))[x] == multiset(WithStatus(b, s))[x]
    {
      WithStatusMultiplicity(a, s, x);
      WithStatusMultiplicity(b, s, x);
    }
  }

  /** Each application is counted under exactly one of the three statuses. */
  lemma {:induction false} StatusPartition(apps: seq<LoanApplication>)
    ensures |WithStatus(apps, Approved)| + |WithStatus(apps, Pending)| + |WithStatus(apps, Rejected)| == |apps|
  {
    if |apps| > 0 {
      StatusPartition(apps[1..]);
    }
  }

  /** With non-negative amounts, the approved amount is between zero and the total amount. */
  lemma {:induction false} ApprovedAmountBound(apps: seq<LoanApplication>)
    ensures NonNegativeAmounts(apps) ==> 0.0 <= Sum(WithStatus(apps, Approved)) <= Sum(apps)
  {
    if |apps| > 0 {
      ApprovedAmountBound(apps[1..]);
      assert NonNegativeAmounts(apps) ==> NonNegativeAmounts(apps[1..]);
    }
  }

  /** The zero-guarded average: the exact quotient for a non-empty count, otherwise 0. */
  function Average(total: real, count: nat): (r: real)
    ensures count == 0 ==> r == 0.0
    ensures count > 0 ==> r * (count as real) == total
  {
    if count > 0 then total / (count as real) else 0.0
  }

  // ---------------------------------------------------------------------------
  // Statistics
  // ---------------------------------------------------------------------------

  /**
   The statistics of a sequence of applications: counts by status, total and
   approved amounts, and the average amount, guarded to 0 for an empty sequence.
   */
  function Stats(apps: seq<LoanApplication>): (r: LoanStats)
    ensures r.totalApplications == |apps|
    ensures r.approvedApplications + r.pendingApplications + r.rejectedApplications == r.totalApplications
    ensures NonNegativeAmounts(apps) ==> 0.0 <= r.approvedAmount <= r.totalAmount
    ensures |apps| == 0 ==> r == LoanStats(0, 0, 0, 0, 0.0, 0.0, 0.0)
    ensures r.avgLoanAmount == Average(r.totalAmount, r.totalApplications)
  {
    StatsFacts(apps);
    var total := |apps|;
    var totalAmount := Sum(apps);
    LoanStats(
      total,
      |WithStatus(apps, Approved)|,
      |WithStatus(apps, Pending)|,
      |WithStatus(apps, Rejected)|,
      totalAmount,
      Sum(WithStatus(apps, Approved)),
      Average(totalAmount, total))
  }

  /** The average amount is the mean: times the number of applications it gives the total amount. */
  lemma StatsAverageIsMean(apps: seq<LoanApplication>)
    ensures |apps| > 0 ==> Stats(apps).avgLoanAmount * (|apps| as real) == Stats(apps).totalAmount
  {
    if |apps| > 0 {
      var st := Stats(apps);
      assert st.totalApplications == |apps|;
      MeanOfAverage(st.totalAmount, |apps|, st.avgLoanAmount);
    }
  }

  /** A zero-guarded average over a positive count, times the count, is the total. */
  lemma MeanOfAverage(total: real, count: nat, avg: real)
    requires count > 0 && avg == Average(total, count)
    ensures avg * (count as real) == total
  {
  }

  lemma StatsFacts(apps: seq<LoanApplication>)
    ensures |WithStatus(apps, Approved)| + |WithStatus(apps, Pending)| + |WithStatus(apps, Rejected)| == |apps|
    ensures NonNegativeAmounts(apps) ==> 0.0 <= Sum(WithStatus(apps, Approved)) <= Sum(apps)
    ensures |apps| == 0 ==> Sum(WithStatus(apps, Approved)) == 0.0 && Sum(apps) == 0.0
  {
    StatusPartition(apps);
    ApprovedAmountBound(apps);
    if |apps| == 0 {
      assert WithStatus(apps, Approved) == [];
    }
  }

  /** Number of applications with a status, as counted by the statistics. */
  function StatusCount(st: LoanStats, s: Status): nat
  {
    match s
    case Pending => st.pendingApplications
    case Approved => st.approvedApplications
    case Rejected => st.rejectedApplications
  }

  /** The statistics do not depend on the order of the applications. */
  lemma {:induction false} StatsPermutationInvariant(a: seq<LoanApplication>, b: seq<LoanApplication>)
    requires multiset(a) == multiset(b)
    ensures Stats(a) == Stats(b)
  {
    assert |a| == |multiset(a)| == |multiset(b)| == |b|;
    SumPermutation(a, b);
    forall s: Status
      ensures |WithStatus(a, s)| == |WithStatus(b, s)|
    {
      WithStatusPermutation(a, b, s);
      assert |WithStatus(a, s)| == |multiset(WithStatus(a, s))|;
      assert |WithStatus(b, s)| == |multiset(WithStatus(b, s))|;
    }
    WithStatusPermutation(a, b, Approved);
    SumPermutation(WithStatus(a, Approved), WithStatus(b, Approved));
  }

  // ---------------------------------------------------------------------------
  // Lookup
  // ---------------------------------------------------------------------------

  /** The first application carrying the id, or `None`. */
  function Lookup(apps: seq<LoanApplication>, id: string): (r: Option<LoanApplication>)
    ensures r.None? <==> !HasId(apps, id)
    ensures r.Some? ==> r.value in apps && r.value.id == id
  {
    if |apps| == 0 then None
    else if apps[0].id == id then Some(apps[0])
    else
      var r := Lookup(apps[1..], id);
      assert HasId(apps, id) ==> HasId(apps[1..], id) by {
        if HasId(apps, id) {
          var k :| 0 <= k < |apps| && apps[k].id == id;
          assert apps[1..][k - 1].id == id;
        }
      }
      assert HasId(apps[1..], id) ==> HasId(apps, id) by {
        if HasId(apps[1..], id) {
          var k :| 0 <= k < |apps[1..]| && apps[1..][k].id == id;
          assert apps[k + 1].id == id;
        }
      }
      r
  }

  /** Lookup returns exactly the first application whose id matches. */
  lemma {:induction false} LookupFirst(apps: seq<LoanApplication>, id: string, i: nat)
    requires i < |apps| && apps[i].id == id
    requires forall j :: 0 <= j < i ==> apps[j].id != id
    ensures Lookup(apps, id) == Some(apps[i])
  {
    if i > 0 {
      LookupFirst(apps[1..], id, i - 1);
    }
  }

  /** Looking up in a concatenation searches the first part, then the second. */
  lemma {:induction false} LookupConcat(u: seq<LoanApplication>, v: seq<LoanApplication>, id: string)
    ensures Lookup(u + v, id) == if HasId(u, id) then Lookup(u, id) else Lookup(v, id)
    decreases |u|
  {
    if |u| == 0 {
      assert u + v == v;
    } else {
      assert (u + v)[1..] == u[1..] + v;
      LookupConcat(u[1..], v, id);
      if u[0].id != id {
        HasIdTail(u, id);
      }
    }
  }

  /** Past a first record with another id, an id occurs in the sequence exactly when it occurs in the rest. */
  lemma HasIdTail(u: seq<LoanApplication>, id: string)
    requires |u| > 0 && u[0].id != id
    ensures HasId(u, id) <==> HasId(u[1..], id)
  {
    if HasId(u, id) {
      var k :| 0 <= k < |u| && u[k].id == id;
      assert u[1..][k - 1].id == id;
    }
    if HasId(u[1..], id) {
      var k :| 0 <= k < |u[1..]| && u[1..][k].id == id;
      assert u[k + 1].id == id;
    }
  }

  // ---------------------------------------------------------------------------
  // Append
  // ---------------------------------------------------------------------------

  /** The store after an append, and the id the append returned. */
  datatype Added = Added(apps: seq<LoanApplication>, id: string)

  /**
   Appends a new pending application built from the applicant's data, a fresh
   id and the current time, and returns that id. The id source and the clock
   are parameters.
   */
  function Add(apps: seq<LoanApplication>, d: ApplicationData, freshId: string, now: int): (r: Added)
    ensures r.id == freshId
    ensures |r.apps| == |apps| + 1 && r.apps[..|apps|] == apps
    ensures var n := r.apps[|apps|];
      n.id == freshId && n.status == Pending && n.submittedAt == now && Data(n) == d
  {
    var n := NewApplication(d, freshId, now);
    Added(apps + [n], n.id)
  }

  /**
   With a fresh id the store keeps its ids unique, the returned id finds the
   new record, and every earlier id still finds what it found before.
   */
  lemma AddFresh(apps: seq<LoanApplication>, d: ApplicationData, freshId: string, now: int, other: string)
    requires !HasId(apps, freshId)
    ensures UniqueIds(apps) ==> UniqueIds(Add(apps, d, freshId, now).apps)
    ensures Lookup(Add(apps, d, freshId, now).apps, freshId) == Some(NewApplication(d, freshId, now))
    ensures other != freshId ==> Lookup(Add(apps, d, freshId, now).apps, other) == Lookup(apps, other)
  {
    var n := NewApplication(d, freshId, now);
    AppendFresh(apps, n);
    LookupConcat(apps, [n], freshId);
    LookupConcat(apps, [n], other);
  }

  /** Appending a record whose id does not occur keeps the ids unique. */
  lemma AppendFresh(apps: seq<LoanApplication>, n: LoanApplication)
    requires !HasId(apps, n.id)
    ensures UniqueIds(apps) ==> UniqueIds(apps + [n])
  {
    if UniqueIds(apps) {
      var r := apps + [n];
      forall i, j | 0 <= i < j < |r|
        ensures r[i].id != r[j].id
      {
        if j < |apps| {
          assert r[i] == apps[i] && r[j] == apps[j];
        } else {
          assert r[i] == apps[i] && r[j] == n;
        }
      }
    }
  }

  /** An append adds one pending record: one more pending, its amount added to the total. */
  lemma StatsAfterAdd(apps: seq<LoanApplication>, d: ApplicationData, freshId: string, now: int)
    ensures var before := Stats(apps);
      var after := Stats(Add(apps, d, freshId, now).apps);
      && after.totalApplications == before.totalApplications + 1
      && after.pendingApplications == before.pendingApplications + 1
      && after.approvedApplications == before.approvedApplications
      && after.rejectedApplications == before.rejectedApplications
      && after.totalAmount == before.totalAmount + d.loanAmount
      && after.approvedAmount == before.approvedAmount
  {
    var n := NewApplication(d, freshId, now);
    SumConcat(apps, [n]);
    WithStatusConcat(apps, [n], Pending);
    WithStatusConcat(apps, [n], Approved);
    WithStatusConcat(apps, [n], Rejected);
    SumConcat(WithStatus(apps, Approved), []);
    assert WithStatus(apps, Approved) + [] == WithStatus(apps, Approved);
  }

  // ---------------------------------------------------------------------------
  // Status rewrite
  // ---------------------------------------------------------------------------

  /**
   Rewrites the status of every application carrying the id; nothing checks the
   current status. Order, length, ids and every other field are kept.
   */
  function SetStatus(apps: seq<LoanApplication>, id: string, s: Status): (r: seq<LoanApplication>)
    ensures |r| == |apps|
    ensures forall i :: 0 <= i < |apps| ==>
      r[i].id == apps[i].id && r[i].submittedAt == apps[i].submittedAt && Data(r[i]) == Data(apps[i])
    ensures forall i :: 0 <= i < |apps| ==>
      r[i].status == (if apps[i].id == id then s else apps[i].status)
  {
    if |apps| == 0 then []
    else [if apps[0].id == id then apps[0].(status := s) else apps[0]] + SetStatus(apps[1..], id, s)
  }

  /** An unknown id leaves the store exactly as it was. */
  lemma SetStatusUnknownId(apps: seq<LoanApplication>, id: string, s: Status)
    requires !HasId(apps, id)
    ensures SetStatus(apps, id, s) == apps
  {
    var r := SetStatus(apps, id, s);
    forall i | 0 <= i < |apps|
      ensures r[i] == apps[i]
    {
      assert apps[i].id != id;
      assert Data(r[i]) == Data(apps[i]);
    }
  }

  /**
   Whatever the current status of the record found by the id (pending or
   terminal), afterwards that record carries the new status and nothing else changed in it.
   */
  lemma {:induction false} SetStatusIgnoresCurrent(apps: seq<LoanApplication>, id: string, s: Status)
    requires Lookup(apps, id).Some?
    ensures Lookup(SetStatus(apps, id, s), id) == Some(Lookup(apps, id).value.(status := s))
  {
    if apps[0].id != id {
      SetStatusIgnoresCurrent(apps[1..], id, s);
      var r := SetStatus(apps, id, s);
      assert r[1..] == SetStatus(apps[1..], id, s);
    }
  }

  /** The status rewrite never changes which ids are in the store, so it keeps them unique. */
  lemma SetStatusKeepsIds(apps: seq<LoanApplication>, id: string, s: Status)
    ensures UniqueIds(apps) <==> UniqueIds(SetStatus(apps, id, s))
    ensures forall other :: HasId(apps, other) <==> HasId(SetStatus(apps, id, s), other)
  {
    var r := SetStatus(apps, id, s);
    assert forall i :: 0 <= i < |apps| ==> r[i].id == apps[i].id;
    SameIds(apps, r);
  }

  /** Two sequences with the same ids position by position agree on uniqueness and on which ids occur. */
  lemma SameIds(a: seq<LoanApplication>, b: seq<LoanApplication>)
    requires |a| == |b|
    requires forall i :: 0 <= i < |a| ==> a[i].id == b[i].id
    ensures UniqueIds(a) <==> UniqueIds(b)
    ensures forall other :: HasId(a, other) <==> HasId(b, other)
  {
    forall other
      ensures HasId(a, other) <==> HasId(b, other)
    {
      if HasId(a, other) {
        var k :| 0 <= k < |a| && a[k].id == other;
        assert b[k].id == other;
      }
      if HasId(b, other) {
        var k :| 0 <= k < |b| && b[k].id == other;
        assert a[k].id == other;
      }
    }
  }

  /** The amounts are untouched by a status rewrite. */
  lemma {:induction false} SumAfterSetStatus(apps: seq<LoanApplication>, id: string, s: Status)
    ensures Sum(SetStatus(apps, id, s)) == Sum(apps)
  {
    if |apps| > 0 {
      SumAfterSetStatus(apps[1..], id, s);
      assert SetStatus(apps, id, s)[1..] == SetStatus(apps[1..], id, s);
    }
  }

  function Indicator(b: bool): nat { if b then 1 else 0 }

  function AmountIf(b: bool, x: real): real { if b then x else 0.0 }

  /**
   From `before` to `after`, the record `a` leaves status `a.status` for `s`:
   the count and amount filed under `t` change by `a`'s share only.
   */
  predicate MovesOne(before: seq<LoanApplication>, after: seq<LoanApplication>, a: LoanApplication, s: Status, t: Status)
  {
    && |WithStatus(after, t)| + Indicator(a.status == t) == |WithStatus(before, t)| + Indicator(s == t)
    && Sum(WithStatus(after, t)) + AmountIf(a.status == t, a.loanAmount) == Sum(WithStatus(before, t)) + AmountIf(s == t, a.loanAmount)
  }

  /**
   With unique ids, rewriting the status of the record `a` found by the id moves
   one count, and `a`'s amount, from its old status to the new one.
   */
  lemma {:induction false} StatusFoldAfterSetStatus(apps: seq<LoanApplication>, id: string, s: Status, t: Status)
    requires UniqueIds(apps) && Lookup(apps, id).Some?
    ensures MovesOne(apps, SetStatus(apps, id, s), Lookup(apps, id).value, s, t)
  {
    UniqueIdsTail(apps);
    if apps[0].id == id {
      StatusFoldFound(apps, id, s, t);
    } else {
      assert Lookup(apps, id) == Lookup(apps[1..], id);
      StatusFoldAfterSetStatus(apps[1..], id, s, t);
      StatusFoldSkip(apps, id, s, t, Lookup(apps, id).value);
    }
  }

  /** The record found first is rewritten and, the ids being unique, nothing after it. */
  lemma StatusFoldFound(apps: seq<LoanApplication>, id: string, s: Status, t: Status)
    requires UniqueIds(apps) && |apps| > 0 && apps[0].id == id
    ensures MovesOne(apps, SetStatus(apps, id, s), apps[0], s, t)
  {
    UniqueIdsTail(apps);
    SetStatusUnknownId(apps[1..], id, s);
    assert SetStatus(apps, id, s) == [apps[0].(status := s)] + apps[1..];
    assert apps == [apps[0]] + apps[1..];
    FoldCons(apps[0].(status := s), apps[1..], t);
    FoldCons(apps[0], apps[1..], t);
  }

  /** A first record with another id is kept and counted the same on both sides. */
  lemma StatusFoldSkip(apps: seq<LoanApplication>, id: string, s: Status, t: Status, a: LoanApplication)
    requires |apps| > 0 && apps[0].id != id
    requires MovesOne(apps[1..], SetStatus(apps[1..], id, s), a, s, t)
    ensures MovesOne(apps, SetStatus(apps, id, s), a, s, t)
  {
    assert SetStatus(apps, id, s) == [apps[0]] + SetStatus(apps[1..], id, s);
    assert apps == [apps[0]] + apps[1..];
    FoldCons(apps[0], SetStatus(apps[1..], id, s), t);
    FoldCons(apps[0], apps[1..], t);
  }

  /** Filtering a sequence with `y` in front counts `y`, and its amount, exactly when it has the status. */
  lemma FoldCons(y: LoanApplication, rest: seq<LoanApplication>, t: Status)
    ensures |WithStatus([y] + rest, t)| == Indicator(y.status == t) + |WithStatus(rest, t)|
    ensures Sum(WithStatus([y] + rest, t)) == AmountIf(y.status == t, y.loanAmount) + Sum(WithStatus(rest, t))
  {
    assert ([y] + rest)[1..] == rest;
    if y.status == t {
      assert ([y] + WithStatus(rest, t))[1..] == WithStatus(rest, t);
    }
  }

  /** With unique ids, the rest of the store has unique ids and does not carry the first id. */
  lemma UniqueIdsTail(apps: seq<LoanApplication>)
    requires UniqueIds(apps) && |apps| > 0
    ensures UniqueIds(apps[1..])
    ensures !HasId(apps[1..], apps[0].id)
  {
    forall i, j | 0 <= i < j < |apps[1..]|
      ensures apps[1..][i].id != apps[1..][j].id
    {
      assert apps[i + 1].id != apps[j + 1].id;
    }
    forall k | 0 <= k < |apps[1..]|
      ensures apps[1..][k].id != apps[0].id
    {
      assert apps[k + 1].id != apps[0].id;
    }
  }

  /**
   With unique ids, a status rewrite of an existing record keeps the totals and
   moves one count, and that record's amount, between the status counters.
   */
  lemma StatsAfterSetStatus(apps: seq<LoanApplication>, id: string, s: Status)
    requires UniqueIds(apps) && Lookup(apps, id).Some?
    ensures var a := Lookup(apps, id).value;
      var before := Stats(apps);
      var after := Stats(SetStatus(apps, id, s));
      && after.totalApplications == before.totalApplications
      && after.totalAmount == before.totalAmount
      && (forall t: Status :: StatusCount(after, t) + Indicator(a.status == t) == StatusCount(before, t) + Indicator(s == t))
      && after.approvedAmount + AmountIf(a.status == Approved, a.loanAmount)
         == before.approvedAmount + AmountIf(s == Approved, a.loanAmount)
  {
    var a := Lookup(apps, id).value;
    var r := SetStatus(apps, id, s);
    var before, after := Stats(apps), Stats(r);
    SumAfterSetStatus(apps, id, s);
    forall t: Status
      ensures StatusCount(after, t) + Indicator(a.status == t) == StatusCount(before, t) + Indicator(s == t)
    {
      StatusFoldAfterSetStatus(apps, id, s, t);
      assert StatusCount(after, t) == |WithStatus(r, t)|;
      assert StatusCount(before, t) == |WithStatus(apps, t)|;
    }
    StatusFoldAfterSetStatus(apps, id, s, Approved);
    assert after.approvedAmount == Sum(WithStatus(r, Approved));
  }
}
