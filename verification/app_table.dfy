/**
 The applications table: the rows sorted newest first, one status badge per
 row, and the column set, which the compact variant narrows by dropping the
 purpose column.
 */
module AppTable {
  import opened LoanTypes
  import opened Permutations

  // ---------------------------------------------------------------------------
  // Newest-first stable sort
  // ---------------------------------------------------------------------------

  /** Submission times never increase along the sequence. */
  predicate NewestFirst(s: seq<LoanApplication>)
  {
    forall i, j :: 0 <= i < j < |s| ==> s[i].submittedAt >= s[j].submittedAt
  }

  /** Every submission time is at most `bound`. */
  predicate NoLaterThan(s: seq<LoanApplication>, bound: int)
  {
    forall i :: 0 <= i < |s| ==> s[i].submittedAt <= bound
  }

  /** The applications submitted at time `t`, in their order in `s`. */
  function SubmittedAt(s: seq<LoanApplication>, t: int): (r: seq<LoanApplication>)
    ensures |r| <= |s|
    ensures forall i :: 0 <= i < |r| ==> r[i].submittedAt == t
  {
    if |s| == 0 then []
    else (if s[0].submittedAt == t then [s[0]] else []) + SubmittedAt(s[1..], t)
  }

  /**
   The group at time `t` holds every application submitted at `t` as often as
   `s` does, and nothing else.
   */
  lemma {:induction false} SubmittedAtMultiplicity(s: seq<LoanApplication>, t: int, x: LoanApplication)
    ensures multiset(SubmittedAt(s, t))[x] == if x.submittedAt == t then multiset(s)[x] else 0
  {
    if |s| > 0 {
      SubmittedAtMultiplicity(s[1..], t, x);
      assert s == [s[0]] + s[1..];
      assert multiset(s) == multiset{s[0]} + multiset(s[1..]);
    }
  }

  /**
   Places `x` in a newest-first sequence in front of the first application
   that is not newer than it, so `x` precedes the applications it ties with.
   */
  function Insert(x: LoanApplication, s: seq<LoanApplication>): (r: seq<LoanApplication>)
    requires NewestFirst(s)
    ensures |r| == |s| + 1
    ensures NewestFirst(r)
    ensures forall b :: NoLaterThan(s, b) && x.submittedAt <= b ==> NoLaterThan(r, b)
  {
    if |s| == 0 then [x]
    else if s[0].submittedAt <= x.submittedAt then [x] + s
    else
      var rest := Insert(x, s[1..]);
      assert NoLaterThan(s[1..], s[0].submittedAt);
      [s[0]] + rest
  }

  /** Inserting adds exactly `x`. */
  lemma {:induction false} InsertPermutes(x: LoanApplication, s: seq<LoanApplication>)
    requires NewestFirst(s)
    ensures multiset(Insert(x, s)) == multiset(s) + multiset{x}
  {
    if |s| > 0 && s[0].submittedAt > x.submittedAt {
      InsertPermutes(x, s[1..]);
      assert s == [s[0]] + s[1..];
    }
  }

  /** Inserting puts `x` first among the applications submitted at its time and leaves other times alone. */
  lemma {:induction false} InsertGroups(x: LoanApplication, s: seq<LoanApplication>, t: int)
    requires NewestFirst(s)
    ensures SubmittedAt(Insert(x, s), t) == (if x.submittedAt == t then [x] else []) + SubmittedAt(s, t)
  {
    if |s| == 0 {
      SubmittedAtCons(x, s, t);
    } else if s[0].submittedAt <= x.submittedAt {
      SubmittedAtCons(x, s, t);
    } else {
      NewestFirstTail(s);
      var rest := Insert(x, s[1..]);
      assert Insert(x, s) == [s[0]] + rest;
      SubmittedAtCons(s[0], rest, t);
      InsertGroups(x, s[1..], t);
      assert s == [s[0]] + s[1..];
      SubmittedAtCons(s[0], s[1..], t);
      var front := if s[0].submittedAt == t then [s[0]] else [];
      var own := if x.submittedAt == t then [x] else [];
      assert front == [] || own == [];
      SwapAroundEmpty(front, own, SubmittedAt(s[1..], t));
    }
  }

  /** Two sequences of which one is empty can be put in either order. */
  lemma SwapAroundEmpty<T>(a: seq<T>, b: seq<T>, c: seq<T>)
    requires a == [] || b == []
    ensures a + (b + c) == b + (a + c)
  {
    if a == [] {
      assert a + (b + c) == b + c;
    } else {
      assert b + (a + c) == a + c;
    }
  }

  /** The group at time `t` of a sequence with `y` in front. */
  lemma SubmittedAtCons(y: LoanApplication, s: seq<LoanApplication>, t: int)
    ensures SubmittedAt([y] + s, t) == (if y.submittedAt == t then [y] else []) + SubmittedAt(s, t)
  {
    assert ([y] + s)[1..] == s;
  }

  /** Dropping the newest application keeps the order newest first. */
  lemma NewestFirstTail(s: seq<LoanApplication>)
    requires NewestFirst(s) && |s| > 0
    ensures NewestFirst(s[1..])
  {
    forall i, j | 0 <= i < j < |s| - 1
      ensures s[1..][i].submittedAt >= s[1..][j].submittedAt
    {
      assert s[i + 1].submittedAt >= s[j + 1].submittedAt;
    }
  }

  /**
   `[...applications].sort((a, b) => time(b) - time(a))`: a sort by submission
   time, newest first.
   */
  function Sort(s: seq<LoanApplication>): (r: seq<LoanApplication>)
    ensures |r| == |s|
    ensures NewestFirst(r)
  {
    if |s| == 0 then [] else Insert(s[0], Sort(s[1..]))
  }

  /** The sorted table lists the same applications, each as often as in the input. */
  lemma {:induction false} SortPermutes(s: seq<LoanApplication>)
    ensures multiset(Sort(s)) == multiset(s)
  {
    if |s| > 0 {
      SortPermutes(s[1..]);
      InsertPermutes(s[0], Sort(s[1..]));
      assert s == [s[0]] + s[1..];
    }
  }

  /** The sort is stable: the applications submitted at any one time keep their relative order. */
  lemma {:induction false} SortStable(s: seq<LoanApplication>, t: int)
    ensures SubmittedAt(Sort(s), t) == SubmittedAt(s, t)
  {
    if |s| > 0 {
      SortStable(s[1..], t);
      InsertGroups(s[0], Sort(s[1..]), t);
    }
  }

  /**
   A newest-first order is determined by its per-time groups: two newest-first
   sequences with the same applications at every time are equal. So `Sort` is
   the only stable newest-first ordering of its input.
   */
  lemma {:induction false} NewestFirstUnique(r: seq<LoanApplication>, q: seq<LoanApplication>)
    requires NewestFirst(r) && NewestFirst(q)
    requires forall t :: SubmittedAt(r, t) == SubmittedAt(q, t)
    ensures r == q
  {
    if |r| == 0 || |q| == 0 {
      BothEmpty(r, q);
    } else {
      SameHeadTime(r, q);
      SameHeadSameTailGroups(r, q);
      NewestFirstTail(r);
      NewestFirstTail(q);
      NewestFirstUnique(r[1..], q[1..]);
      assert r == [r[0]] + r[1..];
      assert q == [q[0]] + q[1..];
    }
  }

  /** With the same groups, one sequence is empty only when the other is. */
  lemma BothEmpty(r: seq<LoanApplication>, q: seq<LoanApplication>)
    requires forall t :: SubmittedAt(r, t) == SubmittedAt(q, t)
    requires |r| == 0 || |q| == 0
    ensures |r| == 0 && |q| == 0
  {
    if |r| > 0 {
      HeadGroup(r);
      assert false;
    } else if |q| > 0 {
      HeadGroup(q);
      assert false;
    }
  }

  /** Two newest-first sequences with the same groups start at the same time. */
  lemma SameHeadTime(r: seq<LoanApplication>, q: seq<LoanApplication>)
    requires NewestFirst(r) && NewestFirst(q) && |r| > 0 && |q| > 0
    requires forall t :: SubmittedAt(r, t) == SubmittedAt(q, t)
    ensures r[0].submittedAt == q[0].submittedAt
  {
    var tr, tq := r[0].submittedAt, q[0].submittedAt;
    if tr < tq {
      NoneLater(r, tq);
      assert false;
    } else if tq < tr {
      NoneLater(q, tr);
      assert false;
    }
  }

  /** Equal groups and equal head times give equal heads, and equal groups for the rests. */
  lemma SameHeadSameTailGroups(r: seq<LoanApplication>, q: seq<LoanApplication>)
    requires |r| > 0 && |q| > 0 && r[0].submittedAt == q[0].submittedAt
    requires forall t :: SubmittedAt(r, t) == SubmittedAt(q, t)
    ensures r[0] == q[0]
    ensures forall t :: SubmittedAt(r[1..], t) == SubmittedAt(q[1..], t)
  {
    var t0 := r[0].submittedAt;
    assert r[0] == SubmittedAt(r, t0)[0] == SubmittedAt(q, t0)[0] == q[0];
    forall t
      ensures SubmittedAt(r[1..], t) == SubmittedAt(q[1..], t)
    {
      if t == t0 {
        var gr, gq := SubmittedAt(r, t), SubmittedAt(q, t);
        assert gr == [r[0]] + SubmittedAt(r[1..], t);
        assert gq == [q[0]] + SubmittedAt(q[1..], t);
        assert gr[1..] == SubmittedAt(r[1..], t);
        assert gq[1..] == SubmittedAt(q[1..], t);
      } else {
        assert SubmittedAt(r, t) == SubmittedAt(r[1..], t);
        assert SubmittedAt(q, t) == SubmittedAt(q[1..], t);
      }
    }
  }

  lemma HeadGroup(s: seq<LoanApplication>)
    requires |s| > 0
    ensures SubmittedAt(s, s[0].submittedAt) != []
  {
  }

  /** In a newest-first sequence whose head is older than `t`, nothing was submitted at `t`. */
  lemma {:induction false} NoneLater(s: seq<LoanApplication>, t: int)
    requires NewestFirst(s) && |s| > 0 && s[0].submittedAt < t
    ensures SubmittedAt(s, t) == []
  {
    if |s| > 1 {
      assert s[1].submittedAt <= s[0].submittedAt;
      assert NewestFirst(s[1..]);
      NoneLater(s[1..], t);
    }
  }

  /** Sorting an already newest-first sequence leaves it unchanged. */
  lemma SortKeepsSorted(s: seq<LoanApplication>)
    requires NewestFirst(s)
    ensures Sort(s) == s
  {
    forall t ensures SubmittedAt(Sort(s), t) == SubmittedAt(s, t) {
      SortStable(s, t);
    }
    NewestFirstUnique(Sort(s), s);
  }

  // ---------------------------------------------------------------------------
  // Status badge
  // ---------------------------------------------------------------------------

  /** The badge text for a status string; anything but the three names reads "Unknown". */
  function BadgeLabel(status: string): (r: string)
    ensures r != "Unknown" ==> |r| == |status| > 0 && r[1..] == status[1..]
    ensures r == "Unknown" <==> status != "approved" && status != "rejected" && status != "pending"
  {
    if status == "approved" then "Approved"
    else if status == "rejected" then "Rejected"
    else if status == "pending" then "Pending"
    else "Unknown"
  }

  /**
   The badge of a stored status: the status name with a capital first letter,
   never the "Unknown" fallback, and a different label for each status.
   */
  function StatusLabel(s: Status): (r: string)
    ensures r != "Unknown"
    ensures |r| == |StatusName(s)| && r[1..] == StatusName(s)[1..]
    ensures r[0] == (match s case Pending => 'P' case Approved => 'A' case Rejected => 'R')
  {
    BadgeLabel(StatusName(s))
  }

  /** The fallback label appears exactly for strings that are not status names. */
  lemma UnknownIffNotAStatus(status: string)
    ensures BadgeLabel(status) == "Unknown" <==> ParseStatus(status).None?
  {
  }

  // ---------------------------------------------------------------------------
  // Rendering
  // ---------------------------------------------------------------------------

  /** The table's columns. */
  datatype Column = Applicant | Amount | Purpose | SubmittedOn | StatusColumn | Action

  /** The header: every column, except that the compact variant omits the purpose. */
  function Columns(compact: bool): (r: seq<Column>)
    ensures Purpose in r <==> !compact
    ensures |r| == if compact then 5 else 6
    ensures r[0] == Applicant && r[1] == Amount
    ensures r[|r| - 3..] == [SubmittedOn, StatusColumn, Action]
  {
    [Applicant, Amount] + (if compact then [] else [Purpose]) + [SubmittedOn, StatusColumn, Action]
  }

  /** The compact header is the full header with the purpose column removed, order kept. */
  lemma CompactDropsOnlyPurpose()
    ensures Columns(true) == Columns(false)[..2] + Columns(false)[3..]
    ensures Columns(false)[2] == Purpose
  {
  }

  /** What one cell shows; amounts and dates are kept as values, their formatting is not modelled. */
  datatype Cell = Text(text: string) | Money(amount: real) | Timestamp(millis: int) | Badge(caption: string) | ViewLink(route: string)

  /** A row, keyed by its application's id. */
  datatype Row = Row(key: string, cells: seq<Cell>)

  /** The table, or the empty-state panel when there is nothing to list. */
  datatype Table = EmptyState | Grid(header: seq<Column>, rows: seq<Row>)

  /** The content of column `c` for application `a`. */
  function CellFor(a: LoanApplication, c: Column): (r: Cell)
    ensures r.ViewLink? <==> c == Action
    ensures r.ViewLink? ==> |r.route| == 14 + |a.id| && r.route[..14] == "/applications/" && r.route[14..] == a.id
    ensures r.Money? <==> c == Amount
    ensures r.Money? ==> r.amount == a.loanAmount
    ensures r.Badge? ==> r.caption != "Unknown"
    ensures r.Text? ==> r.text == (if c == Purpose then a.purpose else a.fullName)
  {
    match c
    case Applicant => Text(a.fullName)
    case Amount => Money(a.loanAmount)
    case Purpose => Text(a.purpose)
    case SubmittedOn => Timestamp(a.submittedAt)
    case StatusColumn => Badge(StatusLabel(a.status))
    case Action => ViewLink("/applications/" + a.id)
  }

  /** One row per application, in the given order, with one cell per header column. */
  function Rows(sorted: seq<LoanApplication>, header: seq<Column>): (r: seq<Row>)
    ensures |r| == |sorted|
    ensures forall i :: 0 <= i < |r| ==> r[i].key == sorted[i].id && |r[i].cells| == |header|
    ensures forall i, j :: 0 <= i < |r| && 0 <= j < |header| ==> r[i].cells[j] == CellFor(sorted[i], header[j])
  {
    seq(|sorted|, i requires 0 <= i < |sorted| => Row(sorted[i].id, seq(|header|, j requires 0 <= j < |header| => CellFor(sorted[i], header[j]))))
  }

  /**
   Renders the table: the empty-state panel exactly when there are no
   applications; otherwise the header and one row per application, newest first.
   */
  function Render(apps: seq<LoanApplication>, compact: bool): (r: Table)
    ensures r.EmptyState? <==> |apps| == 0
    ensures r.Grid? ==> r.header == Columns(compact) && |r.rows| == |apps|
    ensures r.Grid? ==> forall i, j :: 0 <= i < j < |r.rows| ==>
      Sort(apps)[i].submittedAt >= Sort(apps)[j].submittedAt
    ensures r.Grid? ==> forall i :: 0 <= i < |r.rows| ==> |r.rows[i].cells| == |r.header|
    ensures r.Grid? ==> forall i, j :: 0 <= i < |r.rows| && 0 <= j < |r.header| ==>
      r.rows[i].cells[j] == CellFor(Sort(apps)[i], r.header[j])
    ensures r.Grid? ==> forall i :: 0 <= i < |r.rows| ==> r.rows[i].key == Sort(apps)[i].id
  {
    if |apps| == 0 then EmptyState
    else Grid(Columns(compact), Rows(Sort(apps), Columns(compact)))
  }

  /** The row keys are the applications' ids, each as often as it occurs in the input. */
  lemma {:induction false} RowKeysAreIds(apps: seq<LoanApplication>, compact: bool)
    requires |apps| > 0
    ensures multiset(Keys(Render(apps, compact).rows)) == multiset(Ids(apps))
  {
    var s := Sort(apps);
    var r := Render(apps, compact);
    assert Keys(r.rows) == Ids(s);
    SortPermutes(apps);
    IdsPermutation(s, apps);
  }

  /** With distinct ids in the store, the row keys are distinct too. */
  lemma RowKeysUnique(apps: seq<LoanApplication>, compact: bool)
    requires |apps| > 0 && UniqueIds(apps)
    ensures forall i, j :: 0 <= i < j < |Render(apps, compact).rows| ==>
      Render(apps, compact).rows[i].key != Render(apps, compact).rows[j].key
  {
    var s := Sort(apps);
    SortPermutes(apps);
    UniqueIdsPermutation(apps, s);
  }

  /** The ids of a sequence of applications, in order. */
  function Ids(s: seq<LoanApplication>): (r: seq<string>)
    ensures |r| == |s| && forall i :: 0 <= i < |s| ==> r[i] == s[i].id
  {
    seq(|s|, i requires 0 <= i < |s| => s[i].id)
  }

  /** The keys of a sequence of rows, in order. */
  function Keys(rows: seq<Row>): (r: seq<string>)
    ensures |r| == |rows| && forall i :: 0 <= i < |rows| ==> r[i] == rows[i].key
  {
    seq(|rows|, i requires 0 <= i < |rows| => rows[i].key)
  }

  lemma {:induction false} IdsPermutation(a: seq<LoanApplication>, b: seq<LoanApplication>)
    requires multiset(a) == multiset(b)
    ensures multiset(Ids(a)) == multiset(Ids(b))
    decreases |a|
  {
    if |a| > 0 {
      var k := FindIn(a, b);
      DropMatched(a, b, k);
      IdsPermutation(a[1..], b[..k] + b[k + 1..]);
      IdsRejoin(a, b, k);
    }
  }

  lemma IdsRejoin(a: seq<LoanApplication>, b: seq<LoanApplication>, k: nat)
    requires |a| > 0 && k < |b| && b[k] == a[0]
    requires multiset(Ids(a[1..])) == multiset(Ids(b[..k] + b[k + 1..]))
    ensures multiset(Ids(a)) == multiset(Ids(b))
  {
    IdsDropAt(a, 0);
    IdsDropAt(b, k);
    RemoveAt(Ids(a), 0);
    RemoveAt(Ids(b), k);
  }

  lemma IdsDropAt(s: seq<LoanApplication>, k: nat)
    requires k < |s|
    ensures Ids(s[..k] + s[k + 1..]) == Ids(s)[..k] + Ids(s)[k + 1..]
    ensures k == 0 ==> s[..k] + s[k + 1..] == s[1..]
  {
  }

  /** Reordering applications keeps their ids distinct. */
  lemma UniqueIdsPermutation(a: seq<LoanApplication>, b: seq<LoanApplication>)
    requires UniqueIds(a) && multiset(a) == multiset(b)
    ensures UniqueIds(b)
  {
    forall i, j | 0 <= i < j < |b|
      ensures b[i].id != b[j].id
    {
      assert b[i] in multiset(a);
      assert b[j] in multiset(a);
      var p :| 0 <= p < |a| && a[p] == b[i];
      var q :| 0 <= q < |a| && a[q] == b[j];
      if p == q {
        TwiceInMultiset(b, i, j);
        OnceInMultiset(a, p);
        assert false;
      }
      if p < q {
        assert a[p].id != a[q].id;
      } else {
        assert a[q].id != a[p].id;
      }
    }
  }

  lemma TwiceInMultiset(s: seq<LoanApplication>, i: nat, j: nat)
    requires i < j < |s| && s[i] == s[j]
    ensures multiset(s)[s[i]] >= 2
  {
    assert s == s[..j] + s[j..];
    assert s[i] in s[..j];
    assert s[j..][0] == s[j];
  }

  lemma {:induction false} OnceInMultiset(s: seq<LoanApplication>, p: nat)
    requires p < |s| && UniqueIds(s)
    ensures multiset(s)[s[p]] == 1
  {
    assert s == s[..p] + [s[p]] + s[p + 1..];
    forall k | 0 <= k < |s| && k != p
      ensures s[k] != s[p]
    {
      assert s[k].id != s[p].id;
    }
    assert s[p] !in s[..p];
    assert s[p] !in s[p + 1..];
  }
}
