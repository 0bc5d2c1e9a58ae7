/**
 * The listing controller: the two paginated list handlers, and the handlers
 * that read and change the listings and comments tables. The tables are
 * sequences of rows; `.eq('id', id)` selects every row whose id column holds
 * `id`, and `.single()` succeeds only on exactly one row. Database failures
 * that the tables themselves do not decide (an outage, a refused statement)
 * are parameters.
 */
module Listings {
  import opened Wrappers
  import opened Json
  import opened Envelope
  import Pagination
  import CommentSchemas
  import Auth

  /** What the query builder hands back: the data, or its error object's message */
  datatype Reply<T> = Ok(value: T) | Fault(message: string)

  /** `(error as Error).message || fallback` in the handlers' catch blocks */
  function FaultText(message: string, fallback: string): (text: string)
    ensures message != "" ==> text == message
    ensures message == "" ==> text == fallback
    ensures fallback != "" ==> text != ""
  {
    if message != "" then message else fallback
  }

  // ----- the query builder over an in-memory table -----

  predicate HasId(row: Row, id: string) {
    "id" in row && row["id"] == JString(id)
  }

  /** `.eq('id', id)`: the matching rows, in table order */
  function Matching(rows: seq<Row>, id: string): (r: seq<Row>)
    ensures forall row :: row in r <==> row in rows && HasId(row, id)
    ensures |r| <= |rows|
    ensures (forall row :: row in rows ==> !HasId(row, id)) ==> r == []
  {
    if |rows| == 0 then []
    else (if HasId(rows[0], id) then [rows[0]] else []) + Matching(rows[1..], id)
  }

  /** `.delete().eq('id', id)`: the rows left behind */
  function WithoutId(rows: seq<Row>, id: string): (r: seq<Row>)
    ensures forall row :: row in r <==> row in rows && !HasId(row, id)
    ensures |r| + |Matching(rows, id)| == |rows|
    ensures Matching(rows, id) == [] ==> r == rows
  {
    if |rows| == 0 then []
    else (if HasId(rows[0], id) then [] else [rows[0]]) + WithoutId(rows[1..], id)
  }

  /** `.update(patch).eq('id', id)`: the matching rows take the patch's keys, the others stay */
  function PatchId(rows: seq<Row>, id: string, patch: Row): (r: seq<Row>)
    ensures |r| == |rows|
    ensures forall k :: 0 <= k < |rows| && !HasId(rows[k], id) ==> r[k] == rows[k]
    ensures forall k :: 0 <= k < |rows| && HasId(rows[k], id) ==>
      r[k].Keys == rows[k].Keys + patch.Keys
      && (forall key :: key in patch ==> r[k][key] == patch[key])
      && (forall key :: key in rows[k] && key !in patch ==> r[k][key] == rows[k][key])
    ensures Matching(rows, id) == [] ==> r == rows
  {
    if |rows| == 0 then []
    else [if HasId(rows[0], id) then rows[0] + patch else rows[0]] + PatchId(rows[1..], id, patch)
  }

  /** The phrase the single-row read is recognised by */
  const NoRowsPhrase := "multiple (or no) rows returned"

  /** The client's error for `.single()` on zero or several rows */
  const NoRowsError := "JSON object requested, " + NoRowsPhrase

  /** `.single()` */
  function Single(rows: seq<Row>): (r: Reply<Row>)
    ensures r.Ok? <==> |rows| == 1
    ensures r.Ok? ==> r.value == rows[0]
    ensures r.Fault? ==> r.message == NoRowsError
  {
    if |rows| == 1 then Ok(rows[0]) else Fault(NoRowsError)
  }

  /** `s.includes(sub)` */
  predicate Contains(s: string, sub: string)
    decreases |s|
  {
    (|sub| <= |s| && s[..|sub|] == sub) || (|s| > 0 && Contains(s[1..], sub))
  }

  lemma {:induction false} ContainsAfter(prefix: string, sub: string)
    ensures Contains(prefix + sub, sub)
    decreases |prefix|
  {
    if |prefix| == 0 {
      assert (prefix + sub)[..|sub|] == sub;
    } else {
      ContainsAfter(prefix[1..], sub);
      assert (prefix + sub)[1..] == prefix[1..] + sub;
    }
  }

  /** The client's single-row error is recognised as "not found" */
  lemma NoRowsErrorRecognised()
    ensures Contains(NoRowsError, NoRowsPhrase)
  {
    ContainsAfter("JSON object requested, ", NoRowsPhrase);
  }

  // ----- owner-or-admin -----

  const AdminRole := "admin"

  /** deleteListing's fallback for an error without a message */
  const DeleteFailed := "Failed to delete listing"

  /** The delete check: the requester owns the listing or holds the admin role */
  predicate MayDelete(listing: Row, userId: string, role: string): (allowed: bool)
    ensures role == AdminRole ==> allowed
    ensures role != AdminRole ==>
      (allowed <==> "user_id" in listing && listing["user_id"] == JString(userId))
  {
    Get(listing, "user_id") == Some(JString(userId)) || role == AdminRole
  }

  // ----- the paginated list handlers -----

  /**
   * getAllListings / getListingComments. `count` is the reply to the exact
   * count query (its count may be null), `fetch(from, to)` the reply to the
   * ordered `.range(from, to)` query.
   */
  function ListPage(page: Option<int>, limit: Option<int>, count: Reply<Option<int>>,
                    fetch: (int, int) -> Reply<seq<Row>>, success: string, failure: string): (r: Response)
    ensures count.Fault? ==> r == SendError(FaultText(count.message, failure), None)
    ensures var q := Pagination.ReadQuery(page, limit);
      var rows := fetch(Pagination.Start(q), Pagination.End(q));
      && (count.Ok? && rows.Fault? ==> r == SendError(FaultText(rows.message, failure), None))
      && (count.Ok? && rows.Ok? ==>
           && r.code == 200
           && r.body.data == Some(RowsToJson(rows.value))
           && r.body.message == Some(success)
           && r.body.pagination.Some?
           && r.body.pagination.value.total == count.value.GetOr(0)
           && r.body.pagination.value.page == q.page
           && r.body.pagination.value.limit == q.limit
           && r.body.pagination.value.totalPages == TotalPages(count.value.GetOr(0), q.limit))
  {
    var q := Pagination.ReadQuery(page, limit);
    var from := Pagination.Start(q);
    match count
    case Fault(m) => SendError(FaultText(m, failure), None)
    case Ok(total) =>
      match fetch(from, from + q.limit - 1)
      case Fault(m) => SendError(FaultText(m, failure), None)
      case Ok(rows) => SendPaginatedSuccess(RowsToJson(rows), total.GetOr(0), q.page, q.limit, Some(success))
  }

  function GetAllListings(page: Option<int>, limit: Option<int>, count: Reply<Option<int>>,
                          fetch: (int, int) -> Reply<seq<Row>>): (r: Response)
    ensures r.code == 200 || r.code == 500
    ensures r.code == 200 <==> r.body.status == Success
    ensures r.code == 200 ==> r.body.message == Some("Listings retrieved successfully") && r.body.pagination.Some?
    ensures count.Fault? && count.message == "" ==> r == SendError("Failed to retrieve listings", None)
  {
    ListPage(page, limit, count, fetch, "Listings retrieved successfully", "Failed to retrieve listings")
  }

  /** The replies are those of the queries filtered by the listing id */
  function GetListingComments(page: Option<int>, limit: Option<int>, count: Reply<Option<int>>,
                              fetch: (int, int) -> Reply<seq<Row>>): (r: Response)
    ensures r.code == 200 || r.code == 500
    ensures r.code == 200 <==> r.body.status == Success
    ensures r.code == 200 ==> r.body.message == Some("Comments retrieved successfully") && r.body.pagination.Some?
    ensures count.Fault? && count.message == "" ==> r == SendError("Failed to retrieve comments", None)
  {
    ListPage(page, limit, count, fetch, "Comments retrieved successfully", "Failed to retrieve comments")
  }

  /** The `.range(from, to)` reply of a table already in the query's order */
  function TableRange(ordered: seq<Row>): (int, int) -> Reply<seq<Row>> {
    (from: int, to: int) => if from >= 0 then Ok(Pagination.Window(ordered, from, to)) else Fault("")
  }

  /**
   * Over a table the database orders newest first: a page that exists returns
   * exactly the page's rows, and the reported counts match the table.
   */
  lemma ListPageOverTable(ordered: seq<Row>, page: int, limit: int)
    requires page >= 1 && limit >= 1
    ensures var r := GetAllListings(Some(page), Some(limit), Ok(Some(|ordered|)), TableRange(ordered));
      && r.code == 200
      && r.body.data == Some(RowsToJson(Pagination.PageRows(ordered, page, limit)))
      && r.body.pagination == Some(PageInfo(|ordered|, page, limit, TotalPages(|ordered|, limit)))
  {
    var q := Pagination.ReadQuery(Some(page), Some(limit));
    assert q == Pagination.PageQuery(page, limit);
    var from := Pagination.Start(q);
    assert from >= 0;
    var rows := TableRange(ordered)(from, Pagination.End(q));
    assert rows == Ok(Pagination.Window(ordered, from, from + limit - 1));
    assert rows.value == Pagination.PageRows(ordered, page, limit);
  }

  /** A count that comes back null is reported as 0 rows and 0 pages */
  lemma MissingCountIsZero(page: Option<int>, limit: Option<int>, fetch: (int, int) -> Reply<seq<Row>>)
    ensures var r := GetAllListings(page, limit, Ok(None), fetch);
      r.code == 200 ==> r.body.pagination.value.total == 0 && r.body.pagination.value.totalPages == 0
  {
    var q := Pagination.ReadQuery(page, limit);
    if q.limit > 0 {
      TotalPagesNonNegative(0, q.limit);
    }
  }

  /** getListingTypes: the lookup table's rows, or the error */
  function GetListingTypes(types: Reply<seq<Row>>): (r: Response)
    ensures types.Ok? ==> r == SendSuccess(Some(RowsToJson(types.value)), Some("Listing types retrieved successfully"), Some(200))
    ensures types.Fault? ==> r == SendError(FaultText(types.message, "Failed to retrieve listing types"), None)
  {
    match types
    case Ok(rows) => SendSuccess(Some(RowsToJson(rows)), Some("Listing types retrieved successfully"), Some(200))
    case Fault(m) => SendError(FaultText(m, "Failed to retrieve listing types"), None)
  }

  // ----- rows the handlers insert -----

  /** `{ id: uuidv4(), ...body, created_at: now }`: a body `id` wins over the fresh one, `created_at` never does */
  function NewListingRow(body: Row, newId: string, now: string): (row: Row)
    ensures row.Keys == body.Keys + {"id", "created_at"}
    ensures row["created_at"] == JString(now)
    ensures row["id"] == if "id" in body then body["id"] else JString(newId)
    ensures forall k :: k in body && k != "created_at" ==> row[k] == body[k]
  {
    map["id" := JString(newId)] + body + map["created_at" := JString(now)]
  }

  /** `req.user.id` etc.: the keys of the decoded token claim */
  function ClaimField(claim: Auth.Claim, key: string): Option<Json> {
    if key == "userId" then Some(JString(claim.userId))
    else if key == "email" then Some(JString(claim.email))
    else None
  }

  /** A key the row carries only when the value is defined (JSON drops undefined) */
  function Optional(key: string, v: Option<Json>): Row {
    if v.Some? then map[key := v.value] else map[]
  }

  /**
   * The comment row as the handler builds it: `user_id` is read from
   * `req.user.id`, which the session claim does not have.
   */
  function CommentRowAsWritten(listingId: string, body: Row, claim: Auth.Claim, newId: string, now: string): (row: Row)
    ensures row.Keys == {"id", "listing_id", "ranking", "created_at", "updated_at"}
                        + (if "content" in body then {"content"} else {})
    ensures row["listing_id"] == JString(listingId) && row["created_at"] == JString(now)
  {
    map["id" := JString(newId), "listing_id" := JString(listingId),
        "ranking" := OrElse(Get(body, "ranking"), JNumber(0.0)),
        "created_at" := JString(now), "updated_at" := JString(now)]
    + Optional("content", Get(body, "content"))
    + Optional("user_id", ClaimField(claim, "id"))
  }

  /** The row as the write path evidently intends: `user_id` is the requester's userId */
  function CommentRow(listingId: string, body: Row, claim: Auth.Claim, newId: string, now: string): (row: Row)
    ensures "user_id" in row && row["user_id"] == JString(claim.userId)
    ensures "listing_id" in row && row["listing_id"] == JString(listingId)
    ensures ("content" in row <==> "content" in body) && ("content" in body ==> row["content"] == body["content"])
    ensures "ranking" in row && row["ranking"] == OrElse(Get(body, "ranking"), JNumber(0.0))
    ensures row - {"user_id"} == CommentRowAsWritten(listingId, body, claim, newId, now) - {"user_id"}
  {
    CommentRowAsWritten(listingId, body, claim, newId, now)["user_id" := JString(claim.userId)]
  }

  /** Whatever token the requester holds, the comment as written is stored without an owner */
  lemma CommentOwnerLost(listingId: string, body: Row, claim: Auth.Claim, newId: string, now: string)
    ensures "user_id" !in CommentRowAsWritten(listingId, body, claim, newId, now)
    ensures "user_id" in CommentRow(listingId, body, claim, newId, now)
  {
  }

  /**
   * The ranking the handler stores equals the one the schema parsed: the
   * handler's `|| 0` restores the default the middleware dropped.
   */
  lemma StoredRankingMatchesSchema(listingId: string, body: Row, claim: Auth.Claim, newId: string, now: string)
    requires CommentSchemas.ParseCreateComment(JObject(body)).Parsed?
    ensures CommentRow(listingId, body, claim, newId, now)["ranking"]
      == JNumber(CommentSchemas.ParseCreateComment(JObject(body)).value.ranking)
  {
    var parsed := CommentSchemas.ParseCreateComment(JObject(body)).value;
    if "ranking" in body {
      assert body["ranking"] == JNumber(parsed.ranking);
    }
  }

  /** Once the delete has run, no row has the id */
  lemma DeletedIdGone(rows: seq<Row>, id: string)
    ensures Matching(WithoutId(rows, id), id) == []
  {
    var rest := WithoutId(rows, id);
    assert forall row :: row in rest ==> !HasId(row, id);
  }

  // ----- the handlers that read or change the tables -----

  class ListingStore {
    /** The listings table */
    var listings: seq<Row>
    /** The comments table */
    var comments: seq<Row>
    /** The role column of the users table, by user id */
    var roles: map<string, string>

    constructor (listings: seq<Row>, comments: seq<Row>, roles: map<string, string>)
      ensures this.listings == listings && this.comments == comments && this.roles == roles
    {
      this.listings := listings;
      this.comments := comments;
      this.roles := roles;
    }

    /**
     * getListingById. `fault` is a database error other than the single-row
     * one; an error whose message names zero-or-several rows is a 404.
     */
    function GetListingById(id: string, fault: Option<string>): (r: Response)
      reads this
      ensures fault.None? ==> (r.code == 404 <==> |Matching(listings, id)| != 1)
      ensures fault.None? && |Matching(listings, id)| == 1 ==>
        r == SendSuccess(Some(JObject(Matching(listings, id)[0])), Some("Listing retrieved successfully"), None)
      ensures r.code == 404 ==> r == SendError("Listing not found", Some(404))
      ensures fault.Some? && !Contains(fault.value, NoRowsPhrase) ==> r == SendError(fault.value, Some(500))
      ensures fault.Some? && Contains(fault.value, NoRowsPhrase) ==> r.code == 404
    {
      var reply := if fault.Some? then Fault(fault.value) else Single(Matching(listings, id));
      NoRowsErrorRecognised();
      match reply
      case Fault(m) =>
        if Contains(m, NoRowsPhrase) then SendError("Listing not found", Some(404)) else SendError(m, Some(500))
      case Ok(row) => SendSuccess(Some(JObject(row)), Some("Listing retrieved successfully"), None)
    }

    /** createListing: `fault` is the database's refusal of the insert */
    method CreateListing(body: Row, newId: string, now: string, fault: Option<string>) returns (r: Response)
      modifies this
      ensures comments == old(comments) && roles == old(roles)
      ensures fault.Some? ==>
        listings == old(listings) && r == SendError(FaultText(fault.value, "Failed to create listing"), None)
      ensures fault.None? ==>
        && listings == old(listings) + [NewListingRow(body, newId, now)]
        && r == SendSuccess(Some(JObject(NewListingRow(body, newId, now))), Some("Listing created successfully"), Some(201))
    {
      var row := NewListingRow(body, newId, now);
      if fault.Some? {
        return SendError(FaultText(fault.value, "Failed to create listing"), None);
      }
      listings := listings + [row];
      r := SendSuccess(Some(JObject(row)), Some("Listing created successfully"), Some(201));
    }

    /**
     * updateListing: every row with the id takes the body's keys; when no row
     * had the id the answer is 404 and nothing changed.
     */
    method UpdateListing(id: string, body: Row, fault: Option<string>) returns (r: Response)
      modifies this
      ensures comments == old(comments) && roles == old(roles)
      ensures fault.Some? ==>
        listings == old(listings) && r == SendError(FaultText(fault.value, "Failed to update listing"), None)
      ensures fault.None? ==> listings == PatchId(old(listings), id, body)
      ensures fault.None? && Matching(old(listings), id) == [] ==>
        listings == old(listings) && r == SendError("Listing not found", Some(404))
      ensures fault.None? && Matching(old(listings), id) != [] ==>
        r == SendSuccess(Some(JObject(Matching(old(listings), id)[0] + body)), Some("Listing updated successfully"), None)
    {
      if fault.Some? {
        return SendError(FaultText(fault.value, "Failed to update listing"), None);
      }
      var matched := Matching(listings, id);
      listings := PatchId(listings, id, body);
      if |matched| == 0 {
        return SendError("Listing not found", Some(404));
      }
      r := SendSuccess(Some(JObject(matched[0] + body)), Some("Listing updated successfully"), None);
    }

    /**
     * deleteListing. The requester's role and the listing are both read with
     * `.single()`: a read the database refuses (`roleFault`, `listingFault`)
     * or a missing user or listing fails with that error (500). A requester
     * who is neither the owner nor an admin gets 403 and nothing is removed;
     * otherwise every row with the id is removed and every other row stays, in
     * order. `fault` is the database's refusal of the delete.
     */
    method DeleteListing(id: string, requester: Auth.Claim,
                         roleFault: Option<string>, listingFault: Option<string>, fault: Option<string>)
      returns (r: Response)
      modifies this
      ensures comments == old(comments) && roles == old(roles)
      ensures roleFault.Some? ==>
        listings == old(listings) && r == SendError(FaultText(roleFault.value, DeleteFailed), None)
      ensures roleFault.None? && requester.userId !in roles ==>
        listings == old(listings) && r == SendError(NoRowsError, None)
      ensures roleFault.None? && requester.userId in roles && listingFault.Some? ==>
        listings == old(listings) && r == SendError(FaultText(listingFault.value, DeleteFailed), None)
      ensures roleFault.None? && requester.userId in roles && listingFault.None? && |Matching(old(listings), id)| != 1 ==>
        listings == old(listings) && r == SendError(NoRowsError, None)
      ensures roleFault.None? && requester.userId in roles && listingFault.None? && |Matching(old(listings), id)| == 1 ==>
        var listing := Matching(old(listings), id)[0];
        var role := roles[requester.userId];
        && (!MayDelete(listing, requester.userId, role) ==>
              listings == old(listings)
              && r == SendError("You are not authorized to delete this listing", Some(403)))
        && (MayDelete(listing, requester.userId, role) && fault.Some? ==>
              listings == old(listings)
              && r == SendError(FaultText(fault.value, DeleteFailed), None))
        && (MayDelete(listing, requester.userId, role) && fault.None? ==>
              listings == WithoutId(old(listings), id)
              && r == SendSuccess(Some(JNull), Some("Listing deleted successfully"), None))
      ensures r.code == 403 <==>
        roleFault.None? && requester.userId in roles && listingFault.None? && |Matching(old(listings), id)| == 1
        && !MayDelete(Matching(old(listings), id)[0], requester.userId, roles[requester.userId])
      ensures listings != old(listings) ==> r.code == 200
    {
      if roleFault.Some? {
        return SendError(FaultText(roleFault.value, DeleteFailed), None);
      }
      if requester.userId !in roles {
        return SendError(NoRowsError, None);
      }
      var role := roles[requester.userId];
      if listingFault.Some? {
        return SendError(FaultText(listingFault.value, DeleteFailed), None);
      }
      var found := Single(Matching(listings, id));
      if found.Fault? {
        return SendError(found.message, None);
      }
      var listing := found.value;
      if !MayDelete(listing, requester.userId, role) {
        return SendError("You are not authorized to delete this listing", Some(403));
      }
      if fault.Some? {
        return SendError(FaultText(fault.value, DeleteFailed), None);
      }
      listings := WithoutId(listings, id);
      r := SendSuccess(Some(JNull), Some("Listing deleted successfully"), None);
    }

    /**
     * addComment, storing the corrected row: the owner is the requester's
     * userId, where the handler as written stores none (CommentRowAsWritten).
     */
    method AddComment(listingId: string, body: Row, requester: Auth.Claim, newId: string, now: string, fault: Option<string>)
      returns (r: Response)
      modifies this
      ensures listings == old(listings) && roles == old(roles)
      ensures fault.Some? ==>
        comments == old(comments) && r == SendError(FaultText(fault.value, "Failed to add comment"), None)
      ensures fault.None? ==>
        && comments == old(comments) + [CommentRow(listingId, body, requester, newId, now)]
        && r == SendSuccess(Some(JObject(CommentRow(listingId, body, requester, newId, now))), Some("Comment added successfully"), Some(201))
    {
      var row := CommentRow(listingId, body, requester, newId, now);
      if fault.Some? {
        return SendError(FaultText(fault.value, "Failed to add comment"), None);
      }
      comments := comments + [row];
      r := SendSuccess(Some(JObject(row)), Some("Comment added successfully"), Some(201));
    }
  }

  /**
   * A delete that succeeds is followed by 404 for the same id, whoever asks;
   * one the requester may not make (403) leaves the listing readable.
   */
  method DeleteThenGet(store: ListingStore, id: string, requester: Auth.Claim)
    returns (deleted: Response, after: Response)
    modifies store
    ensures deleted.code == 200 ==> after == SendError("Listing not found", Some(404))
    ensures deleted.code == 403 ==> after.code == 200
  {
    deleted := store.DeleteListing(id, requester, None, None, None);
    if deleted.code == 200 {
      DeletedIdGone(old(store.listings), id);
    }
    after := store.GetListingById(id, None);
  }
}
