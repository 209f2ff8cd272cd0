/** The in-memory leave-request store (a zustand store in the source). */
module LeaveStore {
  import opened Types

  /** The fields a caller supplied for a request, i.e. the request minus id and status. */
  function DraftOf(r: LeaveRequest): RequestDraft {
    RequestDraft(r.userId, r.startDate, r.endDate, r.leaveType, r.notes)
  }

  /** The record `addRequest` builds: the caller's fields, a fresh id and status pending. */
  function NewRecord(draft: RequestDraft, id: RequestId): (r: LeaveRequest)
    ensures DraftOf(r) == draft
    ensures r.id == id && r.status == Pending
  {
    LeaveRequest(id, draft.userId, draft.startDate, draft.endDate, draft.leaveType, Pending, draft.notes)
  }

  function Ids(rs: seq<LeaveRequest>): set<RequestId> {
    set r | r in rs :: r.id
  }

  predicate DistinctIds(rs: seq<LeaveRequest>) {
    forall i, j :: 0 <= i < j < |rs| ==> rs[i].id != rs[j].id
  }

  /** The sequence `updateRequest` stores: every record whose id is `id` gets the new status, every other record is kept, order unchanged. */
  function WithStatus(rs: seq<LeaveRequest>, id: RequestId, status: Status): (r: seq<LeaveRequest>)
    ensures |r| == |rs|
    ensures forall k :: 0 <= k < |rs| && rs[k].id == id ==> r[k] == rs[k].(status := status)
    ensures forall k :: 0 <= k < |rs| && rs[k].id != id ==> r[k] == rs[k]
  {
    if rs == [] then []
    else
      var last := rs[|rs| - 1];
      WithStatus(rs[..|rs| - 1], id, status) + [if last.id == id then last.(status := status) else last]
  }

  /** An id that no record holds leaves the whole sequence as it was. */
  lemma UnknownIdIsNoOp(rs: seq<LeaveRequest>, id: RequestId, status: Status)
    requires id !in Ids(rs)
    ensures WithStatus(rs, id, status) == rs
  {
  }

  /** Updating a status keeps every record's id, requester, dates, type and notes. */
  lemma WithStatusKeepsDrafts(rs: seq<LeaveRequest>, id: RequestId, status: Status)
    ensures Ids(WithStatus(rs, id, status)) == Ids(rs)
    ensures forall k :: 0 <= k < |rs| ==>
      WithStatus(rs, id, status)[k].id == rs[k].id && DraftOf(WithStatus(rs, id, status)[k]) == DraftOf(rs[k])
  {
  }

  /** The status is overwritten whatever it was: a decided request can be decided again. */
  lemma LastUpdateWins(rs: seq<LeaveRequest>, id: RequestId, first: Status, second: Status)
    ensures WithStatus(WithStatus(rs, id, first), id, second) == WithStatus(rs, id, second)
  {
  }

  /** With distinct ids, an update changes the status of at most one record. */
  lemma UpdateTouchesAtMostOne(rs: seq<LeaveRequest>, id: RequestId, status: Status, i: int, j: int)
    requires DistinctIds(rs)
    requires 0 <= i < j < |rs|
    ensures WithStatus(rs, id, status)[i] == rs[i] || WithStatus(rs, id, status)[j] == rs[j]
  {
  }

  /** A sequence that differs from `s` only at index `k`, where it holds `x`. */
  lemma Splice<T>(r: seq<T>, s: seq<T>, k: nat, x: T)
    requires |r| == |s| && k < |s| && r[k] == x
    requires forall i :: 0 <= i < |s| && i != k ==> r[i] == s[i]
    ensures r == s[..k] + [x] + s[k + 1..]
  {
    var t := s[..k] + [x] + s[k + 1..];
    assert forall i :: 0 <= i < |s| ==> r[i] == t[i];
  }

  /** With unique ids, updating the id of record `k` changes that record's status and nothing around it. */
  lemma UpdateOfOneRecord(rs: seq<LeaveRequest>, k: nat, status: Status)
    requires DistinctIds(rs) && k < |rs|
    ensures var r := WithStatus(rs, rs[k].id, status);
      r == rs[..k] + [rs[k].(status := status)] + rs[k + 1..]
  {
    var id := rs[k].id;
    var r := WithStatus(rs, id, status);
    forall i | 0 <= i < |rs| && i != k ensures r[i] == rs[i] {
      if i < k {
        assert rs[i].id != id;
      } else {
        assert rs[k].id != rs[i].id;
      }
    }
    Splice(r, rs, k, rs[k].(status := status));
  }

  /** The store object: the `requests` field and the fresh-id supply standing in for `crypto.randomUUID`. */
  class Store {
    var requests: seq<LeaveRequest>
    var nextId: RequestId

    /** Ids are unique, and every id handed out so far is below `nextId`. */
    ghost predicate Valid()
      reads this
    {
      DistinctIds(requests) && forall r :: r in requests ==> r.id < nextId
    }

    /** The store starts with no requests. */
    constructor ()
      ensures Valid()
      ensures requests == []
    {
      requests := [];
      nextId := 0;
    }

    /** Appends the draft as a new pending record with a fresh id. */
    method AddRequest(draft: RequestDraft)
      requires Valid()
      modifies this
      ensures Valid()
      ensures requests == old(requests) + [NewRecord(draft, old(nextId))]
      ensures old(nextId) !in Ids(old(requests))
    {
      var id := nextId;
      requests := requests + [NewRecord(draft, id)];
      nextId := nextId + 1;
    }

    /** Sets `status` on every record whose id is `id`; an unknown id changes nothing. */
    method UpdateRequest(id: RequestId, status: Status)
      requires Valid()
      modifies this
      ensures Valid()
      ensures requests == WithStatus(old(requests), id, status)
      ensures nextId == old(nextId)
    {
      WithStatusKeepsDrafts(requests, id, status);
      requests := WithStatus(requests, id, status);
    }
  }
}
