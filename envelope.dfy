/**
 * The three response helpers every listing handler answers through
 * (sendSuccess, sendError, sendPaginatedSuccess) and the JSON they put on the wire.
 * A response is a value: the HTTP status code and the envelope object.
 */
module Envelope {
  import opened Wrappers
  import opened Json

  datatype Status = Success | Error

  /** The `pagination` block of a paginated envelope */
  datatype PageInfo = PageInfo(total: int, page: int, limit: int, totalPages: int)

  /** ApiResponse / PaginatedApiResponse; `None` is a key left undefined */
  datatype Body = Body(status: Status, data: Option<Json>, message: Option<string>, pagination: Option<PageInfo>)

  datatype Response = Response(code: int, body: Body)

  const SuccessCode := 200
  const ServerErrorCode := 500

  /** sendSuccess(res, data, message, statusCode = 200); `statusCode` is `None` when omitted */
  function SendSuccess(data: Option<Json>, message: Option<string>, statusCode: Option<int>): (r: Response)
    ensures r.body.status == Success && r.body.data == data && r.body.message == message
    ensures r.body.pagination.None?
    ensures statusCode.None? ==> r.code == 200
    ensures statusCode.Some? ==> r.code == statusCode.value
  {
    Response(statusCode.GetOr(SuccessCode), Body(Success, data, message, None))
  }

  /** sendError(res, message, statusCode = 500) */
  function SendError(message: string, statusCode: Option<int>): (r: Response)
    ensures r.body.status == Error && r.body.message == Some(message)
    ensures r.body.data.None? && r.body.pagination.None?
    ensures statusCode.None? ==> r.code == 500
    ensures statusCode.Some? ==> r.code == statusCode.value
  {
    Response(statusCode.GetOr(ServerErrorCode), Body(Error, None, Some(message), None))
  }

  /**
   * Math.ceil(total / limit) for integer operands. The handlers never pass a
   * zero limit (a parsed 0 falls back to 10), hence the precondition.
   */
  function TotalPages(total: int, limit: int): (n: int)
    requires limit != 0
    ensures limit > 0 ==> (n - 1) * limit < total <= n * limit
    ensures limit < 0 ==> n * limit <= total < (n - 1) * limit
  {
    if limit > 0 then
      var n := (total + limit - 1) / limit;
      assert total + limit - 1 == limit * n + (total + limit - 1) % limit;
      n
    else
      var n := total / limit;
      assert total == limit * n + total % limit;
      n
  }

  /** sendPaginatedSuccess(res, data, total, page, limit, message): always HTTP 200 */
  function SendPaginatedSuccess(data: Json, total: int, page: int, limit: int, message: Option<string>): (r: Response)
    requires limit != 0
    ensures r.code == 200
    ensures r.body.status == Success && r.body.data == Some(data) && r.body.message == message
    ensures r.body.pagination.Some?
    ensures var p := r.body.pagination.value;
      p.total == total && p.page == page && p.limit == limit
    ensures r.body.pagination.value.totalPages == TotalPages(total, limit)
    ensures var n := r.body.pagination.value.totalPages;
      limit > 0 ==> (n - 1) * limit < total <= n * limit
  {
    var pages := TotalPages(total, limit);
    Response(SuccessCode, Body(Success, Some(data), message, Some(PageInfo(total, page, limit, pages))))
  }

  /** The page count is the ceiling: zero rows give zero pages, otherwise every page but the last is full */
  lemma TotalPagesNonNegative(total: int, limit: int)
    requires total >= 0 && limit > 0
    ensures TotalPages(total, limit) >= 0
    ensures TotalPages(total, limit) == 0 <==> total == 0
    ensures total > 0 ==> (TotalPages(total, limit) - 1) * limit < total <= TotalPages(total, limit) * limit
  {
    var n := TotalPages(total, limit);
    if n > 0 {
      assert (n - 1) * limit >= 0;
    }
  }

  /** Two worked cases: 15 rows of 10 make 2 pages, no rows make none */
  lemma TotalPagesExamples()
    ensures TotalPages(15, 10) == 2
    ensures TotalPages(0, 10) == 0
    ensures TotalPages(20, 10) == 2 && TotalPages(21, 10) == 3
  {
  }

  // ----- what res.json() writes: JSON.stringify drops undefined keys -----

  function StatusText(s: Status): string {
    match s
    case Success => "success"
    case Error => "error"
  }

  function EncodePage(p: PageInfo): Json {
    JObject(map["total" := JNumber(p.total as real), "page" := JNumber(p.page as real),
                "limit" := JNumber(p.limit as real), "totalPages" := JNumber(p.totalPages as real)])
  }

  /** The wire form of an envelope: a `data`, `message` or `pagination` key exists only when set */
  function Encode(b: Body): (j: Json)
    ensures j.JObject?
    ensures "status" in j.fields && j.fields["status"] == JString(StatusText(b.status))
    ensures "data" in j.fields <==> b.data.Some?
    ensures "message" in j.fields <==> b.message.Some?
    ensures "pagination" in j.fields <==> b.pagination.Some?
    ensures j.fields.Keys <= {"status", "data", "message", "pagination"}
  {
    JObject(map["status" := JString(StatusText(b.status))]
      + (if b.data.Some? then map["data" := b.data.value] else map[])
      + (if b.message.Some? then map["message" := JString(b.message.value)] else map[])
      + (if b.pagination.Some? then map["pagination" := EncodePage(b.pagination.value)] else map[]))
  }

  function DecodeInt(j: Json): Option<int> {
    if j.JNumber? && j.n.Floor as real == j.n then Some(j.n.Floor) else None
  }

  function DecodeField(fields: map<string, Json>, key: string): Option<int> {
    if key in fields then DecodeInt(fields[key]) else None
  }

  function DecodePage(j: Json): Option<PageInfo> {
    if !j.JObject? then None
    else
      var total := DecodeField(j.fields, "total");
      var page := DecodeField(j.fields, "page");
      var limit := DecodeField(j.fields, "limit");
      var pages := DecodeField(j.fields, "totalPages");
      if total.Some? && page.Some? && limit.Some? && pages.Some?
      then Some(PageInfo(total.value, page.value, limit.value, pages.value))
      else None
  }

  /** How a client reads an envelope back */
  function Decode(j: Json): Option<Body> {
    if !j.JObject? || "status" !in j.fields then None
    else
      var f := j.fields;
      var status :=
        if f["status"] == JString("success") then Some(Success)
        else if f["status"] == JString("error") then Some(Error)
        else None;
      var message :=
        if "message" !in f then Some(None)
        else if f["message"].JString? then Some(Some(f["message"].s))
        else None;
      var pagination :=
        if "pagination" !in f then Some(None)
        else var p := DecodePage(f["pagination"]); if p.Some? then Some(Some(p.value)) else None;
      if status.None? || message.None? || pagination.None? then None
      else Some(Body(status.value, Get(f, "data"), message.value, pagination.value))
  }

  /** Nothing a helper puts in an envelope is lost on the wire */
  lemma {:induction false} DecodeEncode(b: Body)
    ensures Decode(Encode(b)) == Some(b)
  {
    var f := Encode(b).fields;
    if b.message.Some? {
      assert f["message"] == JString(b.message.value);
    }
    if b.pagination.Some? {
      var p := b.pagination.value;
      assert f["pagination"] == EncodePage(p);
      assert DecodePage(EncodePage(p)) == Some(p);
    }
    if b.data.Some? {
      assert f["data"] == b.data.value;
    }
  }

  /** An error response carries no `data` key at all, only status and message */
  lemma ErrorWire(message: string, statusCode: Option<int>)
    ensures Encode(SendError(message, statusCode).body).fields.Keys == {"status", "message"}
    ensures Decode(Encode(SendError(message, statusCode).body)) == Some(Body(Error, None, Some(message), None))
  {
    DecodeEncode(SendError(message, statusCode).body);
  }
}
