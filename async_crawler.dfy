/**
 * The asynchronous Douyin crawler (`douyin_kuaishou_crawler_async.py`): for
 * every line of the seed file, follow the general search's cursor from `"0"`
 * while it is truthy, keep the authors of the video items of each page, and
 * insert their embedded names into the `user_data` collection.
 */
module AsyncCrawler {
  import opened Wrappers
  import opened Json
  import opened Http
  import opened Embedding
  import opened VectorStore
  import opened SeedFile
  import Text
  import Paging

  /** `{"name": nickname, "uid": str(uid)}` of an item's author. */
  datatype AsyncUser = AsyncUser(name: JValue, uid: string)

  /** The users of a page and `data.cursor` (`JNull` when absent). */
  datatype AsyncPage = AsyncPage(users: seq<AsyncUser>, next: JValue)

  /** `([], None)`: what `fetch_data` returns when it handles an exception. */
  const Failed := AsyncPage([], JNull)

  // ---------------------------------------------------------------------
  // Parsing a page
  // ---------------------------------------------------------------------

  /** The author of a video item: `item` is a dict with `type == 1` whose `data.aweme_info.author` are all dicts. */
  function Author(item: JValue): (author: Option<JValue>)
    ensures author.Some? ==> item.JObj? && IsOne(Get(item, "type", JNull).value) && author.value.JObj?
  {
    if !item.JObj? || !IsOne(Get(item, "type", JNull).value) then None
    else
      var data := Get(item, "data", JNull).value;
      if !data.JObj? then None
      else
        var aweme := Get(data, "aweme_info", JNull).value;
        if !aweme.JObj? then None
        else
          var author := Get(aweme, "author", JNull).value;
          if author.JObj? then Some(author) else None
  }

  /** One `business_data` item: its author is kept when both the nickname and `str(uid)` are non-empty. */
  function BusinessUser(item: JValue): (r: Verdict<AsyncUser>)
    ensures !r.Raise?
    ensures r.Keep? <==> Author(item).Some? && Truthy(Get(Author(item).value, "nickname", JStr("")).value)
                                           && PyStr(Get(Author(item).value, "uid", JStr("")).value) != []
    ensures r.Keep? ==> r.value.name == Get(Author(item).value, "nickname", JStr("")).value
    ensures r.Keep? ==> r.value.uid == PyStr(Get(Author(item).value, "uid", JStr("")).value)
  {
    match Author(item)
    case None => Drop
    case Some(author) =>
      var user := AsyncUser(Get(author, "nickname", JStr("")).value, PyStr(Get(author, "uid", JStr("")).value));
      if Truthy(user.name) && user.uid != [] then Keep(user) else Drop
  }

  /** `data.get("data", {})`, when it is a dict (otherwise the next `.get` raises). */
  function Outer(data: JValue): (outer: Option<JValue>)
    ensures outer.Some? <==> data.JObj? && Get(data, "data", JObj([])).value.JObj?
    ensures outer.Some? ==> outer.value == Get(data, "data", JObj([])).value
  {
    var outer :- Get(data, "data", JObj([]));
    if outer.JObj? then Some(outer) else None
  }

  /**
   * The body after `data` is decoded: the kept authors of
   * `data.data.business_data` and `data.data.cursor`; `None` when a lookup
   * raises (a level that is not a dict, a `business_data` `len()` refuses).
   */
  function ParseData(data: JValue): (r: Option<AsyncPage>)
    ensures Outer(data).None? ==> r.None?
    ensures r.Some? ==> forall u :: u in r.value.users ==> Truthy(u.name) && u.uid != []
    ensures r.Some? ==> r.value.next == Get(Outer(data).value, "cursor", JNull).value
    ensures r.Some? ==>
              var items := Iterate(Get(Outer(data).value, "business_data", JArr([])).value);
              && items.Some?
              && Collect(items.value, BusinessUser) == Some(r.value.users)
  {
    var outer :- Outer(data);
    var list := Get(outer, "business_data", JArr([])).value;
    var items :- Iterate(list);
    var users := Collect(items, BusinessUser).value;
    assert forall u :: u in users ==> Truthy(u.name) && u.uid != [] by {
      forall u | u in users ensures Truthy(u.name) && u.uid != [] {
        var j :| 0 <= j < |users| && users[j] == u;
        var i :| 0 <= i < |items| && BusinessUser(items[i]) == Keep(users[j]);
      }
    }
    Some(AsyncPage(users, Get(outer, "cursor", JNull).value))
  }

  /** The kept users are, in order, the authors of exactly the items that pass the filter. */
  lemma ParsedUsersInOrder(data: JValue)
    requires ParseData(data).Some?
    ensures var items := Iterate(Get(Outer(data).value, "business_data", JArr([])).value).value;
            var users := ParseData(data).value.users;
            var ps := KeptPositions(items, BusinessUser);
            && |users| == |ps| <= |items|
            && forall j :: 0 <= j < |users| ==> BusinessUser(items[ps[j]]) == Keep(users[j])
  {
    var items := Iterate(Get(Outer(data).value, "business_data", JArr([])).value).value;
    CollectKeepsInOrder(items, BusinessUser);
  }

  // ---------------------------------------------------------------------
  // One request: `fetch_data`
  // ---------------------------------------------------------------------

  /** What `fetch_data` as written produces: a page, or an exception that escapes it and ends the run. */
  datatype Fetched = Fetched(page: AsyncPage) | Crash

  /**
   * `fetch_data` as written. The handler of a generic exception prints `data`,
   * which is unbound when the exception came before `response.json()`
   * returned: `cursor.encode` on a cursor that is not a string, or a 2xx
   * body that is not JSON. The handler then raises `UnboundLocalError`.
   */
  function FetchAsWritten(cursor: JValue, reply: Response, loads: Loads): (f: Fetched)
    ensures f.Crash? <==> !cursor.JStr? || (reply.Answered? && IsSuccess(reply.status) && reply.body.NotJson?)
    ensures f.Fetched? && SuccessJson(reply).None? ==> f.page == Failed
    ensures cursor.JStr? && SuccessJson(reply).Some? ==>
              f == Fetched(match Redecode(SuccessJson(reply).value, loads)
                           case None => Failed
                           case Some(data) => ParseData(data).GetOr(Failed))
    ensures f.Fetched? ==> forall u :: u in f.page.users ==> Truthy(u.name) && u.uid != []
  {
    if !cursor.JStr? then Crash
    else match reply
      case Unreachable => Fetched(Failed)
      case Answered(status, body) =>
        if !IsSuccess(status) then Fetched(Failed)
        else if body.NotJson? then Crash
        else match Redecode(body.value, loads)
          case None => Fetched(Failed)
          case Some(data) => Fetched(ParseData(data).GetOr(Failed))
  }

  /** A page whose `data.cursor` is a number makes the next call raise out of `fetch_data`. */
  lemma NumericCursorCrashes(reply: Response, loads: Loads)
    ensures var first := FetchAsWritten(JStr("0"), Answered(200, Json(JObj([Field("data", JObj([Field("cursor", JInt(10))]))]))), loads);
            && first == Fetched(AsyncPage([], JInt(10)))
            && Truthy(first.page.next)
            && FetchAsWritten(first.page.next, reply, loads) == Crash
  {
    var data := JObj([Field("data", JObj([Field("cursor", JInt(10))]))]);
    var outer := JObj([Field("cursor", JInt(10))]);
    assert Get(data, "data", JObj([])) == Some(outer);
    assert Get(outer, "business_data", JArr([])) == Some(JArr([]));
    assert Get(outer, "cursor", JNull) == Some(JInt(10));
  }

  /** A 2xx reply that is not JSON raises out of `fetch_data` as well. */
  lemma NonJsonReplyCrashes(keywordCursor: string, loads: Loads)
    ensures FetchAsWritten(JStr(keywordCursor), Answered(200, NotJson), loads) == Crash
  {
  }

  /**
   * `fetch_data` as its handlers evidently intend: every exception gives
   * `([], None)`. A cursor that is not a string fails before the request is
   * sent, so `reply` is then not consumed.
   */
  function Fetch(cursor: JValue, reply: Response, loads: Loads): (page: AsyncPage)
    ensures !cursor.JStr? ==> page == Failed
    ensures SuccessJson(reply).None? ==> page == Failed
    ensures FetchAsWritten(cursor, reply, loads) == Fetched(page) || FetchAsWritten(cursor, reply, loads).Crash?
    ensures page.users != [] ==> cursor.JStr? && SuccessJson(reply).Some?
    ensures forall u :: u in page.users ==> Truthy(u.name) && u.uid != []
  {
    match FetchAsWritten(cursor, reply, loads)
    case Crash => Failed
    case Fetched(page) => page
  }

  /** The request of a round: `?keyword=<keyword>&cursor=<cursor>`, sent only when the cursor is a string. */
  function Request(keyword: string, cursor: JValue): Option<Query> {
    if cursor.JStr? then Some(Query("cursor", keyword, cursor.s)) else None
  }

  // ---------------------------------------------------------------------
  // Embedding and the insert payload
  // ---------------------------------------------------------------------

  /** `vectorize_data`: the model on `user["name"]` of each user; `[]` when it raises. */
  function Vectorize(users: seq<AsyncUser>, encode: Encoder): (vectors: seq<Vector>)
    ensures vectors == [] <==> users == [] || exists i :: 0 <= i < |users| && (!users[i].name.JStr? || encode(users[i].name.s).None?)
    ensures vectors != [] ==> |vectors| == |users|
    ensures vectors != [] ==> forall i :: 0 <= i < |users| ==> users[i].name.JStr? && encode(users[i].name.s) == Some(vectors[i])
  {
    var names := seq(|users|, i requires 0 <= i < |users| => users[i].name);
    assert forall i :: 0 <= i < |users| ==> names[i] == users[i].name;
    EmbedNames(encode, names)
  }

  /** `json.dumps({"uid": ..., "name": ...})`, as the object it serialises. */
  function Metadata(u: AsyncUser): JValue {
    JObj([Field("uid", JStr(u.uid)), Field("name", u.name)])
  }

  /** `[vectors, metadatas, keywords_list]` as rows; Milvus refuses it when the model failed and `vectors` is `[]`. */
  function InsertPayload(users: seq<AsyncUser>, vectors: seq<Vector>, keyword: string): (rows: Option<seq<UserRow>>)
    ensures rows.Some? <==> |vectors| == |users|
    ensures rows.Some? ==> |rows.value| == |users|
    ensures rows.Some? ==> forall i :: 0 <= i < |users| ==> rows.value[i] == UserRow(vectors[i], Metadata(users[i]), keyword)
  {
    UserColumns(vectors, seq(|users|, i requires 0 <= i < |users| => Metadata(users[i])), seq(|users|, _ => keyword))
  }

  // ---------------------------------------------------------------------
  // The `while cursor` loop of one keyword
  // ---------------------------------------------------------------------

  /**
   * One round: the cursor, the request (none when the cursor was not a
   * string), the reply it got (`Unreachable` when none was sent), the page,
   * the vectors and the insert's success.
   */
  datatype Round = Round(cursor: JValue, query: Option<Query>, reply: Response, users: seq<AsyncUser>, next: JValue,
                         vectors: seq<Vector>, inserted: bool)

  datatype LoopState = LoopState(cursor: JValue, server: seq<Response>, rows: seq<UserRow>, faults: seq<bool>, trace: seq<Round>)

  function Begin(server: seq<Response>, rows: seq<UserRow>, faults: seq<bool>): LoopState {
    LoopState(JStr("0"), server, rows, faults, [])
  }

  function Flag(cursor: JValue): nat {
    if Truthy(cursor) then 1 else 0
  }

  /** Every user of a round is named; an inserted round embedded every name. */
  predicate Sound(r: Round) {
    && (forall u :: u in r.users ==> Truthy(u.name) && u.uid != [])
    && (r.inserted ==> r.users != [] && |r.vectors| == |r.users| && forall u :: u in r.users ==> u.name.JStr?)
  }

  function Payload(keyword: string, r: Round): seq<UserRow> {
    if r.inserted then InsertPayload(r.users, r.vectors, keyword).GetOr([]) else []
  }

  /** An insert is attempted, and consumes one scripted outcome, whenever the page had users. */
  function AfterInsert(faults: seq<bool>, attempted: bool): seq<bool> {
    if attempted && faults != [] then faults[1..] else faults
  }

  /** One pass of the loop body. */
  function Step(keyword: string, encode: Encoder, loads: Loads, st: LoopState): (r: LoopState)
    ensures Obeys(keyword, st, r)
    ensures Yielded(encode, loads, r.trace[|st.trace|])
  {
    var query := Request(keyword, st.cursor);
    var reply := if query.Some? then Next(st.server) else Unreachable;
    var page := Fetch(st.cursor, reply, loads);
    var vectors := if page.users == [] then [] else Vectorize(page.users, encode);
    var ins := if page.users == [] then Stored(st.rows, st.faults, false)
               else InsertOutcome(st.rows, st.faults, InsertPayload(page.users, vectors, keyword));
    var round := Round(st.cursor, query, reply, page.users, page.next, vectors, ins.ok);
    var next := LoopState(page.next, if query.Some? then Rest(st.server) else st.server, ins.rows, ins.faults, st.trace + [round]);
    assert next.trace[|st.trace|] == round;
    next
  }

  type Body = LoopState -> LoopState

  function StepOf(keyword: string, encode: Encoder, loads: Loads): Body {
    st => Step(keyword, encode, loads, st)
  }

  /** What one pass does, whatever the replies, the model and the collection answer. */
  predicate Obeys(keyword: string, st: LoopState, r: LoopState) {
    && |r.trace| == |st.trace| + 1 && r.trace[..|st.trace|] == st.trace
    && var last := r.trace[|st.trace|];
    && last.cursor == st.cursor && last.query == Request(keyword, st.cursor)
    && Takes(st.server, last, r.server)
    && r.cursor == last.next
    && |r.server| + Flag(last.next) <= |st.server|
    && (last.query.None? ==> last.users == [] && !Truthy(last.next))
    && r.rows == st.rows + Payload(keyword, last)
    && r.faults == AfterInsert(st.faults, last.users != [])
    && Sound(last)
  }

  /** A round that sent a request got the next reply and consumed it; one that sent none left the replies alone. */
  predicate Takes(before: seq<Response>, r: Round, after: seq<Response>) {
    if r.query.Some? then r.reply == Next(before) && after == Rest(before)
    else r.reply == Unreachable && after == before
  }

  ghost predicate Lawful(keyword: string, body: Body) {
    forall st {:trigger Obeys(keyword, st, body(st))} :: Obeys(keyword, st, body(st))
  }

  lemma StepLawful(keyword: string, encode: Encoder, loads: Loads)
    ensures Lawful(keyword, StepOf(keyword, encode, loads))
  {
    forall st ensures Obeys(keyword, st, StepOf(keyword, encode, loads)(st)) {
      var r := Step(keyword, encode, loads, st);
    }
  }

  /** `while cursor:` passes from `st`. */
  function Loop(keyword: string, body: Body, st: LoopState): LoopState
    requires Lawful(keyword, body)
    decreases |st.server| + Flag(st.cursor)
  {
    if !Truthy(st.cursor) then st
    else
      var r := body(st);
      assert Obeys(keyword, st, r);
      Loop(keyword, body, r)
  }

  function Crawl(keyword: string, encode: Encoder, loads: Loads, st: LoopState): LoopState {
    StepLawful(keyword, encode, loads);
    Loop(keyword, StepOf(keyword, encode, loads), st)
  }

  /** `cursor = "0"; while cursor: ...` for one keyword. */
  method CrawlKeyword(store: Collection<UserRow>, keyword: string, server: seq<Response>, encode: Encoder, loads: Loads)
    returns (trace: seq<Round>, rest: seq<Response>)
    modifies store
    ensures var end := Crawl(keyword, encode, loads, Begin(server, old(store.rows), old(store.faults)));
            trace == end.trace && rest == end.server && store.rows == end.rows && store.faults == end.faults
  {
    var cursor := JStr("0");
    trace, rest := [], server;
    while Truthy(cursor)
      invariant Crawl(keyword, encode, loads, Begin(server, old(store.rows), old(store.faults)))
             == Crawl(keyword, encode, loads, LoopState(cursor, rest, store.rows, store.faults, trace))
      decreases |rest| + Flag(cursor)
    {
      ghost var r := Step(keyword, encode, loads, LoopState(cursor, rest, store.rows, store.faults, trace));
      var query := Request(keyword, cursor);
      var reply := Unreachable;
      if query.Some? {
        reply := Next(rest);
        rest := Rest(rest);
      }
      var page := Fetch(cursor, reply, loads);
      var vectors: seq<Vector> := [];
      var ok := false;
      if page.users != [] {
        vectors := Vectorize(page.users, encode);
        ok := store.Insert(InsertPayload(page.users, vectors, keyword));
      }
      trace := trace + [Round(cursor, query, reply, page.users, page.next, vectors, ok)];
      cursor := page.next;
      assert r == LoopState(cursor, rest, store.rows, store.faults, trace);
    }
  }

  // ---------------------------------------------------------------------
  // Properties of one keyword's loop
  // ---------------------------------------------------------------------

  /**
   * The loop makes at least one request when it starts, at most one round per
   * reply plus one, and stops exactly when the cursor became falsy: every
   * round but the last returned a truthy cursor, with or without users and
   * whether or not its insert raised.
   */
  lemma {:induction false} LoopRounds(keyword: string, body: Body, st: LoopState)
    requires Lawful(keyword, body)
    ensures var end := Loop(keyword, body, st);
            && |st.trace| <= |end.trace| <= |st.trace| + |st.server| + Flag(st.cursor)
            && (Truthy(st.cursor) ==> |st.trace| < |end.trace|)
            && end.trace[..|st.trace|] == st.trace
            && (|end.trace| == |st.trace| ==> end == st)
            && !Truthy(end.cursor)
            && (|st.trace| < |end.trace| ==> end.cursor == end.trace[|end.trace| - 1].next)
            && (forall i :: |st.trace| <= i < |end.trace| ==> (Truthy(end.trace[i].next) <==> i < |end.trace| - 1))
    decreases |st.server| + Flag(st.cursor)
  {
    var end := Loop(keyword, body, st);
    if Truthy(st.cursor) {
      var r := body(st);
      assert Obeys(keyword, st, r);
      assert end == Loop(keyword, body, r);
      LoopRounds(keyword, body, r);
      var n := |st.trace|;
      assert end.trace[..n] == end.trace[..n + 1][..n];
      assert end.trace[n] == end.trace[..n + 1][n];
    }
  }

  /** Each request sends the cursor the previous round returned (`"0"` for the first), as long as it is a string. */
  lemma {:induction false} LoopPassesCursor(keyword: string, body: Body, st: LoopState)
    requires Lawful(keyword, body)
    requires st.cursor == if st.trace == [] then JStr("0") else st.trace[|st.trace| - 1].next
    ensures var end := Loop(keyword, body, st);
            forall i :: |st.trace| <= i < |end.trace| ==>
              end.trace[i].query == Request(keyword, if i == 0 then JStr("0") else end.trace[i - 1].next)
    decreases |st.server| + Flag(st.cursor)
  {
    if Truthy(st.cursor) {
      var r := body(st);
      assert Obeys(keyword, st, r);
      var end := Loop(keyword, body, st);
      var n := |st.trace|;
      assert end == Loop(keyword, body, r);
      LoopPassesCursor(keyword, body, r);
      LoopRounds(keyword, body, r);
      assert end.trace[n] == end.trace[..n + 1][n];
      if n > 0 {
        assert end.trace[n - 1] == end.trace[..n + 1][n - 1];
      }
    }
  }

  predicate SoundFrom(trace: seq<Round>, from: nat) {
    forall i :: from <= i < |trace| ==> Sound(trace[i])
  }

  lemma {:induction false} LoopSound(keyword: string, body: Body, st: LoopState)
    requires Lawful(keyword, body)
    ensures SoundFrom(Loop(keyword, body, st).trace, |st.trace|)
    decreases |st.server| + Flag(st.cursor)
  {
    if Truthy(st.cursor) {
      var r := body(st);
      assert Obeys(keyword, st, r);
      var end := Loop(keyword, body, st);
      assert end == Loop(keyword, body, r);
      LoopSound(keyword, body, r);
      LoopRounds(keyword, body, r);
      var n := |st.trace|;
      assert end.trace[n] == end.trace[..n + 1][n];
    }
  }

  /**
   * A round holds what its reply yields: the page `fetch_data` makes of it at
   * the round's cursor, and the vectors of that page's names (none for a page
   * without users).
   */
  predicate Yielded(encode: Encoder, loads: Loads, r: Round) {
    && AsyncPage(r.users, r.next) == Fetch(r.cursor, r.reply, loads)
    && r.vectors == (if r.users == [] then [] else Vectorize(r.users, encode))
  }

  /** Every round the body makes holds what its reply yields. */
  ghost predicate Deciding(keyword: string, encode: Encoder, loads: Loads, body: Body)
    requires Lawful(keyword, body)
  {
    forall st: LoopState {:trigger Yielded(encode, loads, body(st).trace[|st.trace|])} ::
      |st.trace| < |body(st).trace| ==> Yielded(encode, loads, body(st).trace[|st.trace|])
  }

  /** The real body is lawful and each of its rounds holds what its reply yields. */
  lemma StepDecides(keyword: string, encode: Encoder, loads: Loads)
    ensures Lawful(keyword, StepOf(keyword, encode, loads))
    ensures Deciding(keyword, encode, loads, StepOf(keyword, encode, loads))
  {
    StepLawful(keyword, encode, loads);
    forall st ensures Yielded(encode, loads, StepOf(keyword, encode, loads)(st).trace[|st.trace|]) {
      var r := Step(keyword, encode, loads, st);
    }
  }

  /** The rounds of `trace` from position `from` on hold what their replies yield. */
  predicate YieldedFrom(encode: Encoder, loads: Loads, trace: seq<Round>, from: nat) {
    forall i {:trigger Yielded(encode, loads, trace[i])} :: from <= i < |trace| ==> Yielded(encode, loads, trace[i])
  }

  lemma YieldedCons(encode: Encoder, loads: Loads, trace: seq<Round>, n: nat)
    requires n < |trace| && Yielded(encode, loads, trace[n]) && YieldedFrom(encode, loads, trace, n + 1)
    ensures YieldedFrom(encode, loads, trace, n)
  {
  }

  lemma {:induction false} LoopYielded(keyword: string, encode: Encoder, loads: Loads, body: Body, st: LoopState)
    requires Lawful(keyword, body) && Deciding(keyword, encode, loads, body)
    ensures YieldedFrom(encode, loads, Loop(keyword, body, st).trace, |st.trace|)
    decreases |st.server| + Flag(st.cursor)
  {
    if Truthy(st.cursor) {
      var r := body(st);
      assert Obeys(keyword, st, r);
      var n := |st.trace|;
      assert Yielded(encode, loads, r.trace[n]);
      var end := Loop(keyword, body, st);
      assert end == Loop(keyword, body, r);
      LoopYielded(keyword, encode, loads, body, r);
      LoopRounds(keyword, body, r);
      assert end.trace[n] == end.trace[..n + 1][n];
      YieldedCons(encode, loads, end.trace, n);
    }
  }

  /**
   * Each round of a keyword's loop holds the page `fetch_data` made of the
   * reply that round got at its cursor, and the vectors of that page's names.
   */
  lemma CrawlYielded(keyword: string, encode: Encoder, loads: Loads, st: LoopState)
    ensures YieldedFrom(encode, loads, Crawl(keyword, encode, loads, st).trace, |st.trace|)
  {
    StepDecides(keyword, encode, loads);
    LoopYielded(keyword, encode, loads, StepOf(keyword, encode, loads), st);
  }

  /** The replies the rounds that sent a request got, in order. */
  function Replies(rounds: seq<Round>): (rs: seq<Response>)
    ensures |rs| <= |rounds|
  {
    if rounds == [] then [] else (if rounds[0].query.Some? then [rounds[0].reply] else []) + Replies(rounds[1..])
  }

  /**
   * The requests consume the replies in order: the replies the rounds got,
   * followed by those left, are the replies there were, except that once
   * they ran out one more request failed as unreachable.
   */
  lemma {:induction false} LoopReplies(keyword: string, body: Body, st: LoopState)
    requires Lawful(keyword, body)
    ensures var end := Loop(keyword, body, st);
            |st.trace| <= |end.trace| && Paging.Consumed(Replies(end.trace[|st.trace|..]), st.server, end.server)
    decreases |st.server| + Flag(st.cursor)
  {
    LoopRounds(keyword, body, st);
    var end := Loop(keyword, body, st);
    var n := |st.trace|;
    if Truthy(st.cursor) {
      var r := body(st);
      assert Obeys(keyword, st, r);
      var last := r.trace[n];
      assert end == Loop(keyword, body, r);
      LoopReplies(keyword, body, r);
      LoopRounds(keyword, body, r);
      assert end.trace[n] == end.trace[..n + 1][n] == last;
      assert end.trace[n..][1..] == end.trace[n + 1..];
      var got := Replies(end.trace[n + 1..]);
      assert Replies(end.trace[n..]) == (if last.query.Some? then [last.reply] else []) + got;
      if last.query.None? {
        assert [] + got == got;
      } else if st.server == [] {
        assert end == r;
        assert end.trace[n + 1..] == [];
        Paging.ConsumedOne(st.server);
      } else {
        Paging.ConsumedCons(st.server, got, end.server);
      }
    } else {
      assert end.trace[n..] == [] && [] + st.server == st.server;
    }
  }

  function InsertedRows(keyword: string, rounds: seq<Round>): seq<UserRow> {
    if rounds == [] then [] else Payload(keyword, rounds[0]) + InsertedRows(keyword, rounds[1..])
  }

  /** The collection gains exactly the payloads of the rounds whose insert succeeded, in order. */
  lemma {:induction false} LoopAppends(keyword: string, body: Body, st: LoopState)
    requires Lawful(keyword, body)
    ensures var end := Loop(keyword, body, st);
            |st.trace| <= |end.trace| && end.rows == st.rows + InsertedRows(keyword, end.trace[|st.trace|..])
    decreases |st.server| + Flag(st.cursor)
  {
    LoopRounds(keyword, body, st);
    var end := Loop(keyword, body, st);
    var n := |st.trace|;
    if Truthy(st.cursor) {
      var r := body(st);
      assert Obeys(keyword, st, r);
      assert end == Loop(keyword, body, r);
      LoopAppends(keyword, body, r);
      LoopRounds(keyword, body, r);
      assert end.trace[n] == end.trace[..n + 1][n];
      assert end.trace[n..][1..] == end.trace[n + 1..];
      AppendsAfterRound(keyword, st.rows, r.rows, end.rows, end.trace[n..]);
    } else {
      assert end.trace[n..] == [];
    }
  }

  lemma AppendsAfterRound(keyword: string, before: seq<UserRow>, mid: seq<UserRow>, after: seq<UserRow>, rounds: seq<Round>)
    requires rounds != []
    requires mid == before + Payload(keyword, rounds[0])
    requires after == mid + InsertedRows(keyword, rounds[1..])
    ensures after == before + InsertedRows(keyword, rounds)
  {
    var first, others := Payload(keyword, rounds[0]), InsertedRows(keyword, rounds[1..]);
    assert InsertedRows(keyword, rounds) == first + others;
    AppendTwice(before, first, others);
  }

  /** The metadata of a stored author: `{"uid": <non-empty text>, "name": <non-empty text>}`. */
  predicate AuthorMetadata(m: JValue) {
    && m.JObj? && |m.fields| == 2
    && m.fields[0].key == "uid" && m.fields[0].value.JStr? && m.fields[0].value.s != []
    && m.fields[1].key == "name" && m.fields[1].value.JStr? && m.fields[1].value.s != []
  }

  /** Every row sound rounds insert carries the keyword and the metadata of a named author. */
  lemma {:induction false} InsertedRowsTagged(keyword: string, rounds: seq<Round>)
    requires SoundFrom(rounds, 0)
    ensures forall row :: row in InsertedRows(keyword, rounds) ==> row.keyword == keyword && AuthorMetadata(row.metadata)
  {
    if rounds != [] {
      assert forall i :: 0 <= i < |rounds| - 1 ==> rounds[1..][i] == rounds[i + 1];
      InsertedRowsTagged(keyword, rounds[1..]);
      var r := rounds[0];
      assert Sound(r);
      if r.inserted {
        var rows := InsertPayload(r.users, r.vectors, keyword).value;
        forall row | row in rows
          ensures row.keyword == keyword && AuthorMetadata(row.metadata)
        {
          var i :| 0 <= i < |rows| && rows[i] == row;
          assert r.users[i] in r.users;
        }
      }
    }
  }

  // ---------------------------------------------------------------------
  // The seed file and the whole run
  // ---------------------------------------------------------------------

  /** The seed file: absent, not UTF-8 (the read raises and ends the run), or its keywords. */
  datatype Seed = Missing | Undecodable | Keywords(keywords: seq<string>)

  /** `[line.strip() for line in f]` over the file read as UTF-8: one keyword per line, blank ones kept. */
  function ReadKeywords(file: Option<seq<byte>>, decode: Decoder): (s: Seed)
    ensures file.None? <==> s.Missing?
    ensures s.Undecodable? <==> file.Some? && decode(Utf8, file.value).None?
    ensures s.Keywords? ==> var lines := Text.Lines(ReadText(decode, Utf8, file.value).value);
              |s.keywords| == |lines| && forall i :: 0 <= i < |lines| ==> s.keywords[i] == Text.Strip(lines[i])
  {
    match file
    case None => Missing
    case Some(content) =>
      match ReadText(decode, Utf8, content)
      case None => Undecodable
      case Some(text) => Keywords(AllStripped(Text.Lines(text)))
  }

  datatype Progress = Progress(server: seq<Response>, rows: seq<UserRow>, faults: seq<bool>, traces: seq<seq<Round>>)

  /** `for keyword in keywords:` each keyword's loop in turn. */
  function CrawlKeywords(keywords: seq<string>, encode: Encoder, loads: Loads, p: Progress): Progress
    decreases |keywords|
  {
    if keywords == [] then p
    else
      var end := Crawl(keywords[0], encode, loads, Begin(p.server, p.rows, p.faults));
      CrawlKeywords(keywords[1..], encode, loads, Progress(end.server, end.rows, end.faults, p.traces + [end.trace]))
  }

  method CrawlAll(store: Collection<UserRow>, keywords: seq<string>, server: seq<Response>, encode: Encoder, loads: Loads)
    returns (traces: seq<seq<Round>>, rest: seq<Response>)
    modifies store
    ensures Progress(rest, store.rows, store.faults, traces)
         == CrawlKeywords(keywords, encode, loads, Progress(server, old(store.rows), old(store.faults), []))
  {
    traces, rest := [], server;
    for i := 0 to |keywords|
      invariant CrawlKeywords(keywords, encode, loads, Progress(server, old(store.rows), old(store.faults), []))
             == CrawlKeywords(keywords[i..], encode, loads, Progress(rest, store.rows, store.faults, traces))
    {
      assert keywords[i..][0] == keywords[i] && keywords[i..][1..] == keywords[i + 1..];
      var trace;
      trace, rest := CrawlKeyword(store, keywords[i], rest, encode, loads);
      traces := traces + [trace];
    }
  }

  /** A row stored for one of `keywords`, with the metadata of a named author. */
  predicate RowOf(keywords: seq<string>, row: UserRow) {
    row.keyword in keywords && AuthorMetadata(row.metadata)
  }

  /** `b` is `a` followed by rows of `keywords`. */
  predicate Extends(a: seq<UserRow>, b: seq<UserRow>, keywords: seq<string>) {
    |a| <= |b| && b[..|a|] == a && forall i :: |a| <= i < |b| ==> RowOf(keywords, b[i])
  }

  lemma ExtendsChain(a: seq<UserRow>, b: seq<UserRow>, c: seq<UserRow>, keywords: seq<string>)
    requires keywords != [] && Extends(a, b, keywords) && Extends(b, c, keywords[1..])
    ensures Extends(a, c, keywords)
  {
    assert c[..|a|] == c[..|b|][..|a|];
    forall i | |a| <= i < |c| ensures RowOf(keywords, c[i]) {
      if i < |b| {
        assert c[i] == c[..|b|][i];
      } else {
        assert RowOf(keywords[1..], c[i]);
      }
    }
  }

  /** The loop of the first keyword only appends rows of that keyword. */
  lemma KeywordRows(keywords: seq<string>, encode: Encoder, loads: Loads, p: Progress)
    requires keywords != []
    ensures Extends(p.rows, Crawl(keywords[0], encode, loads, Begin(p.server, p.rows, p.faults)).rows, keywords)
  {
    var st := Begin(p.server, p.rows, p.faults);
    var body := StepOf(keywords[0], encode, loads);
    StepLawful(keywords[0], encode, loads);
    var end := Crawl(keywords[0], encode, loads, st);
    assert end == Loop(keywords[0], body, st);
    LoopAppends(keywords[0], body, st);
    LoopSound(keywords[0], body, st);
    assert end.trace[0..] == end.trace;
    InsertedRowsTagged(keywords[0], end.trace);
    var added := InsertedRows(keywords[0], end.trace);
    assert end.rows == p.rows + added;
    ExtendsBy(p.rows, added, keywords);
  }

  /** Appending rows of the first keyword extends the collection by rows of `keywords`. */
  lemma ExtendsBy(rows: seq<UserRow>, added: seq<UserRow>, keywords: seq<string>)
    requires keywords != []
    requires forall row :: row in added ==> row.keyword == keywords[0] && AuthorMetadata(row.metadata)
    ensures Extends(rows, rows + added, keywords)
  {
    forall i | |rows| <= i < |rows + added| ensures RowOf(keywords, (rows + added)[i]) {
      assert (rows + added)[i] == added[i - |rows|];
    }
    assert (rows + added)[..|rows|] == rows;
  }

  /** Keywords only extend the collection, every row they add carries one of them, and each keyword has its own rounds. */
  lemma {:induction false} CrawlKeywordsRows(keywords: seq<string>, encode: Encoder, loads: Loads, p: Progress)
    ensures var q := CrawlKeywords(keywords, encode, loads, p);
            Extends(p.rows, q.rows, keywords) && |q.traces| == |p.traces| + |keywords|
    decreases |keywords|
  {
    if keywords == [] {
      assert p.rows[..|p.rows|] == p.rows;
    } else {
      var end := Crawl(keywords[0], encode, loads, Begin(p.server, p.rows, p.faults));
      var p' := Progress(end.server, end.rows, end.faults, p.traces + [end.trace]);
      KeywordRows(keywords, encode, loads, p);
      CrawlKeywordsRows(keywords[1..], encode, loads, p');
      ExtendsChain(p.rows, p'.rows, CrawlKeywords(keywords, encode, loads, p).rows, keywords);
    }
  }

  /**
   * `main` after `init_milvus` recreated the collection: read `抖音.txt`, then
   * crawl every keyword. `file` is its content, `None` when it does not exist.
   */
  method RunAsync(store: Collection<UserRow>, file: Option<seq<byte>>, decode: Decoder, server: seq<Response>,
                  encode: Encoder, loads: Loads)
    returns (seed: Seed, traces: seq<seq<Round>>)
    modifies store
    ensures seed == ReadKeywords(file, decode)
    ensures !seed.Keywords? ==> traces == [] && store.rows == [] && store.faults == old(store.faults)
    ensures seed.Keywords? ==>
              var p := CrawlKeywords(seed.keywords, encode, loads, Progress(server, [], old(store.faults), []));
              traces == p.traces && store.rows == p.rows && store.faults == p.faults
  {
    store.Recreate();
    traces := [];
    seed := Missing;
    if file.None? {
      return;
    }
    var text := ReadText(decode, Utf8, file.value);
    if text.None? {
      seed := Undecodable;
      return;
    }
    seed := Keywords(AllStripped(Text.Lines(text.value)));
    var rest;
    traces, rest := CrawlAll(store, seed.keywords, server, encode, loads);
  }

  /** After a run every row carries a line of the seed file, stripped, and the metadata of a named author. */
  lemma AsyncRowsTagged(file: Option<seq<byte>>, decode: Decoder, server: seq<Response>, faults: seq<bool>, encode: Encoder, loads: Loads)
    requires ReadKeywords(file, decode).Keywords?
    ensures var ks := ReadKeywords(file, decode).keywords;
            var p := CrawlKeywords(ks, encode, loads, Progress(server, [], faults, []));
            forall row :: row in p.rows ==> row.keyword in ks && AuthorMetadata(row.metadata)
  {
    var ks := ReadKeywords(file, decode).keywords;
    var p0 := Progress(server, [], faults, []);
    CrawlKeywordsRows(ks, encode, loads, p0);
    var p := CrawlKeywords(ks, encode, loads, p0);
    forall row | row in p.rows
      ensures RowOf(ks, row)
    {
      var i :| 0 <= i < |p.rows| && p.rows[i] == row;
    }
  }
}
