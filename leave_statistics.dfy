/** Used-days aggregation of the statistics page. */
module LeaveStatistics {
  import opened Types
  import LeaveStore

  /** Days per leave type: the `LeaveQuota` record. */
  datatype LeaveQuota = LeaveQuota(vacation: int, sick: int, personal: int) {
    function Get(t: LeaveType): int {
      match t
      case Vacation => vacation
      case Sick => sick
      case Personal => personal
    }

    /** Adds `days` to the counter of `t` only. */
    function Add(t: LeaveType, days: int): (q: LeaveQuota)
      ensures q.Get(t) == Get(t) + days
      ensures forall u :: u != t ==> q.Get(u) == Get(u)
    {
      match t
      case Vacation => this.(vacation := vacation + days)
      case Sick => this.(sick := sick + days)
      case Personal => this.(personal := personal + days)
    }
  }

  /** The fixed yearly allowance per type. */
  const DefaultQuota: LeaveQuota := LeaveQuota(20, 10, 5)

  /** The accumulator the reduce starts from. */
  const NoDaysUsed: LeaveQuota := LeaveQuota(0, 0, 0)

  /** The approved requests of the store, in store order. */
  function ApprovedRequests(rs: seq<LeaveRequest>): (r: seq<LeaveRequest>)
    ensures |r| <= |rs|
  {
    if rs == [] then []
    else
      var last := rs[|rs| - 1];
      ApprovedRequests(rs[..|rs| - 1]) + if last.status == Approved then [last] else []
  }

  /** The filter keeps exactly the approved requests. */
  lemma {:induction false} ApprovedRequestsMembers(rs: seq<LeaveRequest>, x: LeaveRequest)
    ensures x in ApprovedRequests(rs) <==> x in rs && x.status == Approved
  {
    if rs != [] {
      var init, last := rs[..|rs| - 1], rs[|rs| - 1];
      ApprovedRequestsMembers(init, x);
      assert rs == init + [last];
    }
  }

  /** Day-differences of the requests of type `t` in `rs`, whatever their status. */
  function SumDays(rs: seq<LeaveRequest>, t: LeaveType): int {
    if rs == [] then 0
    else
      var last := rs[|rs| - 1];
      SumDays(rs[..|rs| - 1], t) + if last.leaveType == t then DayDiff(last.endDate, last.startDate) else 0
  }

  /** What one request adds to the counter of `t`. */
  function Contribution(r: LeaveRequest, t: LeaveType): int {
    if r.status == Approved && r.leaveType == t then DayDiff(r.endDate, r.startDate) else 0
  }

  /** The used days of type `t`: the sum of contributions over the whole store. */
  function UsedDays(rs: seq<LeaveRequest>, t: LeaveType): int {
    if rs == [] then 0 else UsedDays(rs[..|rs| - 1], t) + Contribution(rs[|rs| - 1], t)
  }

  /** The effect body: filter the approved requests, then reduce them into one counter per type. */
  method CalculateUsedDays(requests: seq<LeaveRequest>) returns (acc: LeaveQuota)
    ensures forall t :: acc.Get(t) == UsedDays(requests, t)
  {
    var approved := ApprovedRequests(requests);
    acc := NoDaysUsed;
    for i := 0 to |approved|
      invariant forall t :: acc.Get(t) == SumDays(approved[..i], t)
    {
      var req := approved[i];
      var days := DayDiff(req.endDate, req.startDate);
      assert approved[..i + 1][..i] == approved[..i];
      acc := acc.Add(req.leaveType, days);
    }
    assert approved[..|approved|] == approved;
    forall t ensures SumDays(approved, t) == UsedDays(requests, t) {
      SumOfApprovedIsUsedDays(requests, t);
    }
  }

  /** Summing over the approved requests equals summing contributions over all requests. */
  lemma {:induction false} SumOfApprovedIsUsedDays(rs: seq<LeaveRequest>, t: LeaveType)
    ensures SumDays(ApprovedRequests(rs), t) == UsedDays(rs, t)
  {
    if rs != [] {
      var init, last := rs[..|rs| - 1], rs[|rs| - 1];
      SumOfApprovedIsUsedDays(init, t);
      assert UsedDays(rs, t) == UsedDays(init, t) + Contribution(last, t);
      if last.status == Approved {
        assert ApprovedRequests(rs) == ApprovedRequests(init) + [last];
        SumDaysSnoc(ApprovedRequests(init), last, t);
      } else {
        assert ApprovedRequests(rs) == ApprovedRequests(init) + [];
        assert ApprovedRequests(init) + [] == ApprovedRequests(init);
      }
    }
  }

  /** One more element adds its own day-difference to `SumDays`. */
  lemma SumDaysSnoc(a: seq<LeaveRequest>, x: LeaveRequest, t: LeaveType)
    ensures SumDays(a + [x], t) == SumDays(a, t) + if x.leaveType == t then DayDiff(x.endDate, x.startDate) else 0
  {
    assert (a + [x])[..|a|] == a;
  }

  /** With no requests every counter is zero. */
  lemma NothingUsedInitially(t: LeaveType)
    ensures UsedDays([], t) == 0 && NoDaysUsed.Get(t) == 0
  {
  }

  lemma {:induction false} UsedDaysAppend(a: seq<LeaveRequest>, b: seq<LeaveRequest>, t: LeaveType)
    ensures UsedDays(a + b, t) == UsedDays(a, t) + UsedDays(b, t)
    decreases |b|
  {
    if b == [] {
      assert a + b == a;
    } else {
      var init := b[..|b| - 1];
      assert (a + b)[..|a + b| - 1] == a + init;
      UsedDaysAppend(a, init, t);
    }
  }

  /** A request that is not approved never moves any counter. */
  lemma UnapprovedAddsNothing(rs: seq<LeaveRequest>, r: LeaveRequest, t: LeaveType)
    requires r.status != Approved
    ensures UsedDays(rs + [r], t) == UsedDays(rs, t)
  {
  }

  /** An approved request adds its day-difference to its own type's counter and to no other. */
  lemma ApprovedAddsToOwnType(rs: seq<LeaveRequest>, r: LeaveRequest, t: LeaveType)
    requires r.status == Approved
    ensures UsedDays(rs + [r], r.leaveType) == UsedDays(rs, r.leaveType) + DayDiff(r.endDate, r.startDate)
    ensures t != r.leaveType ==> UsedDays(rs + [r], t) == UsedDays(rs, t)
  {
  }

  /** With no approved request in the store, all counters are zero. */
  lemma {:induction false} NoApprovedNoDays(rs: seq<LeaveRequest>, t: LeaveType)
    requires forall r :: r in rs ==> r.status != Approved
    ensures UsedDays(rs, t) == 0
  {
    if rs != [] {
      var init := rs[..|rs| - 1];
      assert forall r :: r in init ==> r in rs;
      NoApprovedNoDays(init, t);
    }
  }

  /** Where `x` occurs in `b`, removing it from both sides of a multiset equality keeps the equality. */
  lemma RemoveOccurrence<T>(init: seq<T>, x: T, b: seq<T>) returns (j: nat)
    requires multiset(init + [x]) == multiset(b)
    ensures j < |b| && b == b[..j] + [x] + b[j + 1..]
    ensures multiset(init) == multiset(b[..j] + b[j + 1..])
  {
    assert x in multiset(b);
    j :| 0 <= j < |b| && b[j] == x;
    var before, after := b[..j], b[j + 1..];
    assert b == before + [x] + after;
    assert multiset(b) == multiset(before) + multiset{x} + multiset(after);
    assert multiset(init) == multiset(init + [x]) - multiset{x};
    assert multiset(before + after) == multiset(before) + multiset(after) == multiset(b) - multiset{x};
  }

  /** The counters depend only on which requests are in the store, not on their order. */
  lemma {:induction false} UsedDaysIgnoresOrder(a: seq<LeaveRequest>, b: seq<LeaveRequest>, t: LeaveType)
    requires multiset(a) == multiset(b)
    ensures UsedDays(a, t) == UsedDays(b, t)
    decreases |a|
  {
    if a != [] {
      var init, x := a[..|a| - 1], a[|a| - 1];
      assert a == init + [x];
      var j := RemoveOccurrence(init, x, b);
      var before, after := b[..j], b[j + 1..];
      UsedDaysIgnoresOrder(init, before + after, t);
      UsedDaysAppend(before, after, t);
      UsedDaysAround(before, x, after, t);
    }
  }

  /** There is no clamping: an approved request ending before it starts subtracts days. */
  lemma BackwardRangeCountsNegative(r: LeaveRequest)
    requires r.status == Approved && r.endDate < r.startDate
    ensures UsedDays([r], r.leaveType) < 0
  {
  }

  /** Submitting a request (always pending) leaves the counters as they were. */
  lemma SubmissionKeepsUsage(rs: seq<LeaveRequest>, draft: RequestDraft, id: RequestId, t: LeaveType)
    ensures UsedDays(rs + [LeaveStore.NewRecord(draft, id)], t) == UsedDays(rs, t)
  {
  }

  /** The counters over `before + [x] + after` split around `x`. */
  lemma {:induction false} UsedDaysAround(before: seq<LeaveRequest>, x: LeaveRequest, after: seq<LeaveRequest>, t: LeaveType)
    ensures UsedDays(before + [x] + after, t) == UsedDays(before, t) + Contribution(x, t) + UsedDays(after, t)
  {
    UsedDaysAppend(before + [x], after, t);
    assert (before + [x])[..|before|] == before;
  }

  /** Approving a pending request with a unique id adds its days to exactly its own type's counter. */
  lemma {:induction false} ApprovalAddsDays(rs: seq<LeaveRequest>, k: nat, t: LeaveType)
    requires LeaveStore.DistinctIds(rs)
    requires k < |rs| && rs[k].status == Pending
    ensures UsedDays(LeaveStore.WithStatus(rs, rs[k].id, Approved), t)
         == UsedDays(rs, t) + (if t == rs[k].leaveType then DayDiff(rs[k].endDate, rs[k].startDate) else 0)
  {
    var before, after := rs[..k], rs[k + 1..];
    LeaveStore.UpdateOfOneRecord(rs, k, Approved);
    assert rs == before + [rs[k]] + after;
    UsedDaysAround(before, rs[k], after, t);
    UsedDaysAround(before, rs[k].(status := Approved), after, t);
  }

  /** The progress value `(used / quota) * 100`, as an exact rational. */
  function UsagePercent(used: LeaveQuota, t: LeaveType): (p: real)
    ensures p * (DefaultQuota.Get(t) as real) == (used.Get(t) as real) * 100.0
  {
    (used.Get(t) as real / DefaultQuota.Get(t) as real) * 100.0
  }

  /** The statistics component's `usedDays` state. */
  class LeaveStatisticsView {
    var usedDays: LeaveQuota

    constructor ()
      ensures usedDays == NoDaysUsed
    {
      usedDays := NoDaysUsed;
    }

    /** The effect that runs whenever `requests` changes. */
    method OnRequestsChanged(requests: seq<LeaveRequest>)
      modifies this
      ensures forall t :: usedDays.Get(t) == UsedDays(requests, t)
    {
      usedDays := CalculateUsedDays(requests);
    }
  }
}
