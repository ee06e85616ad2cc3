/**
 * The platforms' HTTP APIs as a finite script of replies: each request the
 * crawlers send consumes the next reply, and once the script is used up every
 * further request fails to connect. This is what makes every crawl loop end.
 */
module Http {
  import opened Wrappers
  import opened Json

  /** A search request, `?keyword=<keyword>&<param>=<value>` (the keyword URL-quoted). */
  datatype Query = Query(param: string, keyword: string, value: string)

  /** A response body: decoded JSON, or text `response.json()` cannot decode. */
  datatype Body = Json(value: JValue) | NotJson

  /** What one request gets back: no response at all (timeout, refused connection) or a status and a body. */
  datatype Response = Unreachable | Answered(status: int, body: Body)

  /** `json.loads` on a string, the library as an oracle; `None` when it raises. */
  type Loads = string -> Option<JValue>

  /** The reply to the next request. */
  function Next(server: seq<Response>): (r: Response)
    ensures server == [] ==> r == Unreachable
  {
    if server == [] then Unreachable else server[0]
  }

  /** The replies left after the next request. */
  function Rest(server: seq<Response>): (r: seq<Response>)
    ensures server != [] ==> |r| == |server| - 1
    ensures server == [] ==> r == []
  {
    if server == [] then [] else server[1..]
  }

  /** The statuses `raise_for_status()` lets through. */
  predicate IsSuccess(status: int) {
    200 <= status < 300
  }

  /** A reply with status exactly 200 and a JSON body, the only kind the comment fetchers read. */
  predicate Ok(reply: Response) {
    reply.Answered? && reply.status == 200 && reply.body.Json?
  }

  /** The decoded body of a response `raise_for_status()` accepted, if it is JSON. */
  function SuccessJson(r: Response): (data: Option<JValue>)
    ensures data.Some? <==> r.Answered? && IsSuccess(r.status) && r.body.Json?
  {
    if r.Answered? && IsSuccess(r.status) && r.body.Json? then Some(r.body.value) else None
  }

  /** `if isinstance(data, str): data = json.loads(data)`. */
  function Redecode(data: JValue, loads: Loads): (r: Option<JValue>)
    ensures !data.JStr? ==> r == Some(data)
  {
    if data.JStr? then loads(data.s) else Some(data)
  }
}
