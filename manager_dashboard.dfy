/** The manager dashboard: approval, the pending list and requester enrichment. */
module ManagerDashboard {
  import opened Types
  import LeaveStore

  /** The status `handleApproval` stores for a decision. */
  function DecisionStatus(approved: bool): (s: Status)
    ensures s != Pending
    ensures s == Approved <==> approved
    ensures s == Rejected <==> !approved
  {
    if approved then Approved else Rejected
  }

  /** `handleApproval`: exactly one status update; the calendar step after approval is empty. */
  method HandleApproval(store: LeaveStore.Store, requestId: RequestId, approved: bool)
    requires store.Valid()
    modifies store
    ensures store.Valid()
    ensures store.requests == LeaveStore.WithStatus(old(store.requests), requestId, DecisionStatus(approved))
    ensures store.nextId == old(store.nextId)
  {
    store.UpdateRequest(requestId, DecisionStatus(approved));
  }

  /** The requests still awaiting a decision, in store order. */
  function PendingRequests(rs: seq<LeaveRequest>): (r: seq<LeaveRequest>)
    ensures forall x :: x in r <==> x in rs && x.status == Pending
    ensures |r| <= |rs|
  {
    if rs == [] then []
    else
      var last := rs[|rs| - 1];
      PendingRequests(rs[..|rs| - 1]) + if last.status == Pending then [last] else []
  }

  /** The records of `rs` whose id is not `id`, in order. */
  function WithoutId(rs: seq<LeaveRequest>, id: RequestId): seq<LeaveRequest> {
    if rs == [] then []
    else
      var last := rs[|rs| - 1];
      WithoutId(rs[..|rs| - 1], id) + if last.id != id then [last] else []
  }

  /** A decision removes the decided request from the pending list and keeps the others in order. */
  lemma {:induction false} DecisionLeavesPending(rs: seq<LeaveRequest>, id: RequestId, approved: bool)
    ensures PendingRequests(LeaveStore.WithStatus(rs, id, DecisionStatus(approved)))
         == WithoutId(PendingRequests(rs), id)
  {
    if rs != [] {
      var s := DecisionStatus(approved);
      var init, last := rs[..|rs| - 1], rs[|rs| - 1];
      var updated := LeaveStore.WithStatus(rs, id, s);
      assert updated[..|rs| - 1] == LeaveStore.WithStatus(init, id, s);
      DecisionLeavesPending(init, id, approved);
      var p := PendingRequests(init);
      if last.status == Pending {
        assert (p + [last])[..|p|] == p;
      } else {
        assert p + [] == p;
      }
    }
  }

  /** Appending a record extends the pending list by that record if it is pending, and by nothing otherwise. */
  lemma PendingAppend(rs: seq<LeaveRequest>, x: LeaveRequest)
    ensures PendingRequests(rs + [x]) == PendingRequests(rs) + (if x.status == Pending then [x] else [])
  {
    assert (rs + [x])[..|rs|] == rs;
  }

  /** The pending list of two stores put together is the first one's followed by the second one's: store order is kept. */
  lemma {:induction false} PendingConcat(a: seq<LeaveRequest>, b: seq<LeaveRequest>)
    ensures PendingRequests(a + b) == PendingRequests(a) + PendingRequests(b)
    decreases |b|
  {
    if b == [] {
      assert a + b == a;
    } else {
      var init, last := b[..|b| - 1], b[|b| - 1];
      assert a + b == (a + init) + [last];
      assert b == init + [last];
      PendingConcat(a, init);
      PendingAppend(a + init, last);
      PendingAppend(init, last);
    }
  }

  /** A new submission shows up at the end of the pending list. */
  lemma SubmissionIsPending(rs: seq<LeaveRequest>, draft: RequestDraft, id: RequestId)
    ensures PendingRequests(rs + [LeaveStore.NewRecord(draft, id)]) == PendingRequests(rs) + [LeaveStore.NewRecord(draft, id)]
  {
    PendingAppend(rs, LeaveStore.NewRecord(draft, id));
  }

  predicate NoDuplicates(s: seq<UserId>) {
    forall i, j :: 0 <= i < j < |s| ==> s[i] != s[j]
  }

  /** Index of the first occurrence of `x` in `s`. */
  function FirstIndex(s: seq<UserId>, x: UserId): (k: nat)
    requires x in s
    ensures k < |s| && s[k] == x
    ensures forall j :: 0 <= j < k ==> s[j] != x
  {
    if s[0] == x then 0 else 1 + FirstIndex(s[1..], x)
  }

  /** The elements of `s` without repeats, each once, in order of first occurrence. */
  function Distinct(s: seq<UserId>): (r: seq<UserId>)
    ensures NoDuplicates(r)
    ensures forall x :: x in r <==> x in s
  {
    if s == [] then []
    else
      var init, last := s[..|s| - 1], s[|s| - 1];
      var r := Distinct(init);
      if last in r then r else r + [last]
  }

  /** The order of `Distinct(s)` is the order of first occurrences in `s`. */
  lemma {:induction false} DistinctKeepsFirstOccurrenceOrder(s: seq<UserId>, i: int, j: int)
    requires 0 <= i < j < |Distinct(s)|
    ensures FirstIndex(s, Distinct(s)[i]) < FirstIndex(s, Distinct(s)[j])
  {
    var init, last := s[..|s| - 1], s[|s| - 1];
    var r := Distinct(init);
    var x, y := Distinct(s)[i], Distinct(s)[j];
    FirstIndexInPrefix(s, x);
    FirstIndexInPrefix(s, y);
    if last in r || j < |r| {
      assert x == r[i] && y == r[j];
      DistinctKeepsFirstOccurrenceOrder(init, i, j);
    } else {
      assert y == last && y !in init;
    }
  }

  /** The first occurrence of an element of the prefix lies in the prefix. */
  lemma {:induction false} FirstIndexInPrefix(s: seq<UserId>, x: UserId)
    requires x in s && s != []
    ensures x in s[..|s| - 1] ==> FirstIndex(s, x) == FirstIndex(s[..|s| - 1], x)
    ensures x !in s[..|s| - 1] ==> FirstIndex(s, x) == |s| - 1
  {
    var p := s[..|s| - 1];
    if x in p {
      var k' := FirstIndex(p, x);
      assert s[k'] == p[k'] == x;
    } else {
      assert forall j :: 0 <= j < |p| ==> p[j] == s[j];
    }
  }

  function RequesterIds(rs: seq<LeaveRequest>): (ids: seq<UserId>)
    ensures |ids| == |rs| && forall k :: 0 <= k < |rs| ==> ids[k] == rs[k].userId
  {
    seq(|rs|, k requires 0 <= k < |rs| => rs[k].userId)
  }

  /** `userIds`: every requester once, in order of first request. */
  function UserIds(rs: seq<LeaveRequest>): (ids: seq<UserId>)
    ensures NoDuplicates(ids)
    ensures forall u :: u in ids <==> exists r :: r in rs && r.userId == u
  {
    var ids := Distinct(RequesterIds(rs));
    assert forall u :: u in RequesterIds(rs) <==> exists r :: r in rs && r.userId == u by {
      forall u | u in RequesterIds(rs) ensures exists r :: r in rs && r.userId == u {
        var k :| 0 <= k < |rs| && RequesterIds(rs)[k] == u;
        assert rs[k] in rs;
      }
      forall u | (exists r :: r in rs && r.userId == u) ensures u in RequesterIds(rs) {
        var r :| r in rs && r.userId == u;
        var k :| 0 <= k < |rs| && rs[k] == r;
        assert RequesterIds(rs)[k] == u;
      }
    }
    ids
  }

  /** A Graph `/users/{id}` user record. */
  datatype GraphUser = GraphUser(id: string, displayName: string, mail: string)

  /** The outcome of one user lookup. */
  datatype Lookup = Found(user: GraphUser) | LookupFailed

  /** The details kept for a looked-up user: its id, its display name, and its mail address as email. */
  function DetailsOf(user: GraphUser): UserDetails {
    UserDetails(user.id, user.displayName, user.mail)
  }

  /** The `userDetails` map after looking up `ids` in order, skipping failed lookups. */
  function Enriched(prev: map<UserId, UserDetails>, ids: seq<UserId>, lookup: UserId -> Lookup): map<UserId, UserDetails> {
    if ids == [] then prev
    else
      var init, last := ids[..|ids| - 1], ids[|ids| - 1];
      var m := Enriched(prev, init, lookup);
      match lookup(last)
      case Found(user) => m[last := DetailsOf(user)]
      case LookupFailed => m
  }

  /** An entry exists exactly for the earlier entries and the looked-up ids whose lookup succeeded;
      a successful lookup stores that user's details, and other earlier entries are kept. */
  lemma {:induction false} EnrichedEntries(prev: map<UserId, UserDetails>, ids: seq<UserId>, lookup: UserId -> Lookup, u: UserId)
    ensures u in Enriched(prev, ids, lookup) <==> u in prev || (u in ids && lookup(u).Found?)
    ensures u in ids && lookup(u).Found? ==> Enriched(prev, ids, lookup)[u] == DetailsOf(lookup(u).user)
    ensures u in prev && !(u in ids && lookup(u).Found?) ==> Enriched(prev, ids, lookup)[u] == prev[u]
  {
    if ids != [] {
      var init, last := ids[..|ids| - 1], ids[|ids| - 1];
      assert ids == init + [last];
      EnrichedEntries(prev, init, lookup, u);
    }
  }

  /** Number of ids whose lookup succeeds. */
  function CountFound(ids: seq<UserId>, lookup: UserId -> Lookup): nat {
    if ids == [] then 0
    else CountFound(ids[..|ids| - 1], lookup) + if lookup(ids[|ids| - 1]).Found? then 1 else 0
  }

  /** Starting from fresh ids, the map gains one entry per successful lookup and none per failure. */
  lemma {:induction false} EnrichedSize(prev: map<UserId, UserDetails>, ids: seq<UserId>, lookup: UserId -> Lookup)
    requires NoDuplicates(ids)
    requires forall u :: u in ids ==> u !in prev
    ensures |Enriched(prev, ids, lookup)| == |prev| + CountFound(ids, lookup)
  {
    if ids != [] {
      var init, last := ids[..|ids| - 1], ids[|ids| - 1];
      assert forall u :: u in init ==> u in ids;
      EnrichedSize(prev, init, lookup);
      EnrichedEntries(prev, init, lookup, last);
      assert last !in init;
    }
  }

  /** The dashboard component's state; `fetched` is `fetchedRef.current`. */
  class ManagerDashboardView {
    var userDetails: map<UserId, UserDetails>
    var loading: bool
    var error: Option<string>
    var fetched: bool

    constructor ()
      ensures userDetails == map[] && loading && error == None && !fetched
    {
      userDetails := map[];
      loading := true;
      error := None;
      fetched := false;
    }

    /** The lookup loop: one lookup per id, a failure is skipped, `loading` is cleared in each `finally`. */
    method LookUpUsers(ids: seq<UserId>, lookup: UserId -> Lookup) returns (lookedUp: seq<UserId>)
      modifies this
      ensures lookedUp == ids
      ensures userDetails == Enriched(old(userDetails), ids, lookup)
      ensures loading == (old(loading) && ids == [])
      ensures error == old(error) && fetched == old(fetched)
    {
      lookedUp := [];
      var i := 0;
      while i < |ids|
        invariant 0 <= i <= |ids|
        invariant lookedUp == ids[..i]
        invariant userDetails == Enriched(old(userDetails), ids[..i], lookup)
        invariant loading == (old(loading) && i == 0)
        invariant error == old(error) && fetched == old(fetched)
      {
        var userId := ids[i];
        assert ids[..i + 1][..i] == ids[..i];
        match lookup(userId) {
          case Found(user) =>
            userDetails := userDetails[userId := DetailsOf(user)];
          case LookupFailed =>
        }
        loading := false;
        lookedUp := lookedUp + [userId];
        i := i + 1;
      }
      assert ids[..i] == ids;
    }

    /** `fetchUserDetails` as written: `loading` is cleared only inside the loop. */
    method FetchUserDetailsAsWritten(requests: seq<LeaveRequest>, accessToken: Option<string>, lookup: UserId -> Lookup)
      returns (lookedUp: seq<UserId>)
      modifies this
      ensures fetched
      ensures old(fetched) ==>
        lookedUp == [] && userDetails == old(userDetails) && loading == old(loading) && error == old(error)
      ensures !old(fetched) && !HasToken(accessToken) ==>
        lookedUp == [] && userDetails == old(userDetails) && !loading && error == Some(NoTokenMessage)
      ensures !old(fetched) && HasToken(accessToken) ==>
        && lookedUp == UserIds(requests)
        && userDetails == Enriched(old(userDetails), UserIds(requests), lookup)
        && loading == (old(loading) && UserIds(requests) == [])
        && error == old(error)
    {
      if fetched {
        return [];
      }
      fetched := true;
      if !HasToken(accessToken) {
        error := Some(NoTokenMessage);
        loading := false;
        return [];
      }
      lookedUp := LookUpUsers(UserIds(requests), lookup);
    }

    /** `fetchUserDetails` with `loading` cleared once the loop is over, as the loader intends. */
    method FetchUserDetails(requests: seq<LeaveRequest>, accessToken: Option<string>, lookup: UserId -> Lookup)
      returns (lookedUp: seq<UserId>)
      modifies this
      ensures fetched
      ensures old(fetched) ==>
        lookedUp == [] && userDetails == old(userDetails) && loading == old(loading) && error == old(error)
      ensures !old(fetched) ==> !loading
      ensures !old(fetched) && !HasToken(accessToken) ==>
        lookedUp == [] && userDetails == old(userDetails) && error == Some(NoTokenMessage)
      ensures !old(fetched) && HasToken(accessToken) ==>
        && lookedUp == UserIds(requests)
        && userDetails == Enriched(old(userDetails), UserIds(requests), lookup)
        && error == old(error)
    {
      if fetched {
        return [];
      }
      fetched := true;
      if !HasToken(accessToken) {
        error := Some(NoTokenMessage);
        loading := false;
        return [];
      }
      lookedUp := LookUpUsers(UserIds(requests), lookup);
      loading := false;
    }
  }

  /** With a token and an empty store, the dashboard as written stays on its loader for good. */
  method EmptyStoreKeepsLoader(accessToken: string) returns (stillLoading: bool)
    requires accessToken != ""
    ensures stillLoading
  {
    var view := new ManagerDashboardView();
    var _ := view.FetchUserDetailsAsWritten([], Some(accessToken), _ => LookupFailed);
    stillLoading := view.loading;
  }

  /** The corrected fetch clears the loader in the same situation. */
  method EmptyStoreClearsLoader(accessToken: string) returns (stillLoading: bool)
    requires accessToken != ""
    ensures !stillLoading
  {
    var view := new ManagerDashboardView();
    var _ := view.FetchUserDetails([], Some(accessToken), _ => LookupFailed);
    stillLoading := view.loading;
  }
}
