/**
 * The search crawler (`test_milvus.py`): for each platform, read its seed
 * keywords, page through the platform's user search for each keyword, embed
 * every page's user names and insert the page into the `user_data`
 * collection, stopping a keyword at the first page that yields nothing,
 * fails to embed or to insert, or has no next cursor.
 */
module SearchCrawler {
  import opened Wrappers
  import opened Json
  import opened Http
  import opened Embedding
  import opened VectorStore
  import opened SeedFile
  import Text
  import Paging

  /** A user a search page lists: the raw `name` value and `str()` of its uid. */
  datatype SearchUser = SearchUser(name: JValue, uid: string)

  /** What `fetch_data` returns: the users, and the next cursor (`JNull` for `None`). */
  datatype SearchPage = SearchPage(users: seq<SearchUser>, next: JValue)

  /** `return [], None`. */
  const Failed := SearchPage([], JNull)

  /** The query of `fetch_data`; `None` for a platform it does not support, which raises before any request. */
  function BuildQuery(platform: string, keyword: string, arg: JValue): (q: Option<Query>)
    ensures q.Some? <==> platform == "douyin" || platform == "kuaishou"
    ensures q.Some? ==> q.value.keyword == keyword && q.value.value == PyStr(arg)
    ensures q.Some? ==> (q.value.param == "cursor" <==> platform == "douyin")
  {
    if platform == "douyin" then Some(Query("cursor", keyword, PyStr(arg)))
    else if platform == "kuaishou" then Some(Query("page", keyword, PyStr(arg)))
    else None
  }

  /** A dict entry whose record under `key` is present and a dict. */
  predicate HasRecord(entry: JValue, key: string) {
    entry.JObj? && Lookup(entry.fields, key).Some? && Lookup(entry.fields, key).value.JObj?
  }

  /**
   * The user such an entry describes: the record's `nameKey` (`""` when
   * absent) and `str()` of its `idKey` (`""` when absent).
   */
  function Listing(entry: JValue, key: string, nameKey: string, idKey: string): SearchUser
    requires HasRecord(entry, key)
  {
    var record := Lookup(entry.fields, key).value;
    SearchUser(Lookup(record.fields, nameKey).GetOr(JStr("")), PyStr(Lookup(record.fields, idKey).GetOr(JStr(""))))
  }

  /** An entry the parser keeps: a dict record giving a non-empty name and a non-empty uid. */
  predicate Listed(entry: JValue, key: string, nameKey: string, idKey: string) {
    HasRecord(entry, key) && Truthy(Listing(entry, key, nameKey, idKey).name) && Listing(entry, key, nameKey, idKey).uid != []
  }

  /** An entry that makes the parser raise: a dict whose record under `key` is non-empty but no dict. */
  predicate BadRecord(entry: JValue, key: string) {
    entry.JObj? && Lookup(entry.fields, key).Some? && Truthy(Lookup(entry.fields, key).value) && !Lookup(entry.fields, key).value.JObj?
  }

  /**
   * The body of a parser's loop on one entry: a dict entry whose record under
   * `key` (default `{}`) is non-empty gives a user from that record, kept
   * when both its name and uid are non-empty; a non-empty record that is not
   * a dict raises; anything else is skipped.
   */
  function UserEntry(entry: JValue, key: string, nameKey: string, idKey: string): (r: Verdict<SearchUser>)
    ensures r.Keep? <==> Listed(entry, key, nameKey, idKey)
    ensures r.Keep? ==> r.value == Listing(entry, key, nameKey, idKey)
    ensures r.Raise? <==> BadRecord(entry, key)
  {
    if !entry.JObj? then Drop
    else
      var record := Get(entry, key, JObj([])).value;
      if !Truthy(record) then Drop
      else if !record.JObj? then Raise
      else
        var name := Get(record, nameKey, JStr("")).value;
        var uid := PyStr(Get(record, idKey, JStr("")).value);
        if Truthy(name) && uid != [] then Keep(SearchUser(name, uid)) else Drop
  }

  /** One entry of Douyin's `user_list`: the user under `user_info`, from `nickname` and `uid`. */
  function DouyinUser(entry: JValue): (r: Verdict<SearchUser>)
    ensures r.Keep? <==> Listed(entry, "user_info", "nickname", "uid")
    ensures r.Keep? ==> r.value == Listing(entry, "user_info", "nickname", "uid")
    ensures r.Raise? <==> BadRecord(entry, "user_info")
  {
    UserEntry(entry, "user_info", "nickname", "uid")
  }

  /** One entry of Kuaishou's `mixFeeds`: the user under `user`, from `user_name` and `user_id`. */
  function KuaishouUser(entry: JValue): (r: Verdict<SearchUser>)
    ensures r.Keep? <==> Listed(entry, "user", "user_name", "user_id")
    ensures r.Keep? ==> r.value == Listing(entry, "user", "user_name", "user_id")
    ensures r.Raise? <==> BadRecord(entry, "user")
  {
    UserEntry(entry, "user", "user_name", "user_id")
  }

  /** Every user a page lists has a non-empty name and a non-empty uid. */
  predicate ListsNamedUsers(page: SearchPage) {
    forall u :: u in page.users ==> Truthy(u.name) && u.uid != []
  }

  /** The entries of Douyin's `user_list` (default `[]`) in the decoded reply; `None` when reaching them raises. */
  function DouyinItems(data: JValue, loads: Loads): (items: Option<seq<JValue>>)
    ensures items.Some? ==> Redecode(data, loads).Some? && Redecode(data, loads).value.JObj?
  {
    var d :- Redecode(data, loads);
    var list :- Get(d, "user_list", JArr([]));
    Iterate(list)
  }

  /**
   * The Douyin branch on the decoded reply: the users of the `user_list`
   * entries the loop keeps, and `cursor` (`None` when absent); `None` when a
   * step raises (and `fetch_data` returns `[], None`).
   */
  function DouyinPage(data: JValue, loads: Loads): (r: Option<SearchPage>)
    ensures r.Some? <==> DouyinItems(data, loads).Some? && Collect(DouyinItems(data, loads).value, DouyinUser).Some?
    ensures r.Some? ==> r.value.users == Collect(DouyinItems(data, loads).value, DouyinUser).value
    ensures r.Some? ==> r.value.next == Lookup(Redecode(data, loads).value.fields, "cursor").GetOr(JNull)
    ensures r.Some? ==> ListsNamedUsers(r.value)
  {
    var items :- DouyinItems(data, loads);
    var users :- Collect(items, DouyinUser);
    assert ListsNamedUsers(SearchPage(users, JNull)) by {
      forall u | u in users ensures Truthy(u.name) && u.uid != [] {
        var j :| 0 <= j < |users| && users[j] == u;
        var i :| 0 <= i < |items| && DouyinUser(items[i]) == Keep(users[j]);
      }
    }
    Some(SearchPage(users, Get(Redecode(data, loads).value, "cursor", JNull).value))
  }

  /** The `data` object (default `{}`) of the decoded reply; `None` when reaching it raises. */
  function KuaishouInner(data: JValue, loads: Loads): Option<JValue> {
    var d :- Redecode(data, loads);
    Get(d, "data", JObj([]))
  }

  /** The entries of `data.mixFeeds` (default `[]`); `None` when reaching them raises. */
  function KuaishouItems(data: JValue, loads: Loads): (items: Option<seq<JValue>>)
    ensures items.Some? ==> KuaishouInner(data, loads).Some? && KuaishouInner(data, loads).value.JObj?
  {
    var inner :- KuaishouInner(data, loads);
    var feeds :- Get(inner, "mixFeeds", JArr([]));
    Iterate(feeds)
  }

  /**
   * The Kuaishou branch on the decoded reply: the users of the `mixFeeds`
   * entries the loop keeps, and `data.pcursor`, with `"no_more"` and an
   * absent cursor both turned into `None`.
   */
  function KuaishouPage(data: JValue, loads: Loads): (r: Option<SearchPage>)
    ensures r.Some? <==> KuaishouItems(data, loads).Some? && Collect(KuaishouItems(data, loads).value, KuaishouUser).Some?
    ensures r.Some? ==> r.value.users == Collect(KuaishouItems(data, loads).value, KuaishouUser).value
    ensures r.Some? ==> var next := Lookup(KuaishouInner(data, loads).value.fields, "pcursor").GetOr(JNull);
                        r.value.next == if next == JStr("no_more") then JNull else next
    ensures r.Some? ==> ListsNamedUsers(r.value) && r.value.next != JStr("no_more")
  {
    var items :- KuaishouItems(data, loads);
    var users :- Collect(items, KuaishouUser);
    assert ListsNamedUsers(SearchPage(users, JNull)) by {
      forall u | u in users ensures Truthy(u.name) && u.uid != [] {
        var j :| 0 <= j < |users| && users[j] == u;
        var i :| 0 <= i < |items| && KuaishouUser(items[i]) == Keep(users[j]);
      }
    }
    var next := Get(KuaishouInner(data, loads).value, "pcursor", JNull).value;
    Some(SearchPage(users, if next == JStr("no_more") then JNull else next))
  }

  /** The users of a Douyin page are, in order, those of exactly the entries the loop keeps. */
  lemma DouyinUsersInOrder(data: JValue, loads: Loads)
    requires DouyinPage(data, loads).Some?
    ensures var items, users := DouyinItems(data, loads).value, DouyinPage(data, loads).value.users;
            var ps := KeptPositions(items, DouyinUser);
            && |users| == |ps| && (forall i :: 0 <= i < |items| && Listed(items[i], "user_info", "nickname", "uid") ==> i in ps)
            && forall j :: 0 <= j < |users| ==> Listed(items[ps[j]], "user_info", "nickname", "uid") &&
                                                users[j] == Listing(items[ps[j]], "user_info", "nickname", "uid")
  {
    CollectKeepsInOrder(DouyinItems(data, loads).value, DouyinUser);
  }

  /** The users of a Kuaishou page are, in order, those of exactly the entries the loop keeps. */
  lemma KuaishouUsersInOrder(data: JValue, loads: Loads)
    requires KuaishouPage(data, loads).Some?
    ensures var items, users := KuaishouItems(data, loads).value, KuaishouPage(data, loads).value.users;
            var ps := KeptPositions(items, KuaishouUser);
            && |users| == |ps| && (forall i :: 0 <= i < |items| && Listed(items[i], "user", "user_name", "user_id") ==> i in ps)
            && forall j :: 0 <= j < |users| ==> Listed(items[ps[j]], "user", "user_name", "user_id") &&
                                                users[j] == Listing(items[ps[j]], "user", "user_name", "user_id")
  {
    CollectKeepsInOrder(KuaishouItems(data, loads).value, KuaishouUser);
  }

  /** The page a reply yields: only a 2xx JSON reply is parsed, by the branch of the platform. */
  function ParseReply(platform: string, reply: Response, loads: Loads): (r: Option<SearchPage>)
    ensures SuccessJson(reply).None? ==> r.None?
    ensures SuccessJson(reply).Some? && platform == "douyin" ==> r == DouyinPage(SuccessJson(reply).value, loads)
    ensures SuccessJson(reply).Some? && platform != "douyin" ==> r == KuaishouPage(SuccessJson(reply).value, loads)
    ensures r.Some? ==> ListsNamedUsers(r.value)
    ensures r.Some? && platform != "douyin" ==> r.value.next != JStr("no_more")
  {
    var data :- SuccessJson(reply);
    if platform == "douyin" then DouyinPage(data, loads) else KuaishouPage(data, loads)
  }

  /** One `fetch_data` call: the query sent (if any), the page, and the replies left. */
  datatype Fetched = Fetched(query: Option<Query>, page: SearchPage, rest: seq<Response>)

  function FetchSpec(platform: string, keyword: string, arg: JValue, server: seq<Response>, loads: Loads): (f: Fetched)
    ensures f.query == BuildQuery(platform, keyword, arg)
    ensures f.query.None? ==> f.rest == server && f.page == Failed
    ensures f.query.Some? ==> f.rest == Rest(server) && f.page == ParseReply(platform, Next(server), loads).GetOr(Failed)
    ensures f.page.users != [] ==> SuccessJson(Next(server)).Some? && |f.rest| < |server|
    ensures ListsNamedUsers(f.page)
    ensures platform == "kuaishou" ==> f.page.next != JStr("no_more")
  {
    var q := BuildQuery(platform, keyword, arg);
    if q.None? then Fetched(None, Failed, server)
    else Fetched(q, ParseReply(platform, Next(server), loads).GetOr(Failed), Rest(server))
  }

  method ParseDouyin(data: JValue, loads: Loads) returns (r: Option<SearchPage>)
    ensures r == DouyinPage(data, loads)
  {
    var d :- Redecode(data, loads);
    var list :- Get(d, "user_list", JArr([]));
    var items :- Iterate(list);
    var users :- Harvest(items, DouyinUser);
    r := Some(SearchPage(users, Get(d, "cursor", JNull).value));
  }

  method ParseKuaishou(data: JValue, loads: Loads) returns (r: Option<SearchPage>)
    ensures r == KuaishouPage(data, loads)
  {
    var d :- Redecode(data, loads);
    var inner :- Get(d, "data", JObj([]));
    var feeds :- Get(inner, "mixFeeds", JArr([]));
    var items :- Iterate(feeds);
    var users :- Harvest(items, KuaishouUser);
    var next := Get(inner, "pcursor", JNull).value;
    if next == JStr("no_more") {
      next := JNull;
    }
    r := Some(SearchPage(users, next));
  }

  /** `fetch_data(url, keyword, arg, platform)` against the scripted replies. */
  method Fetch(platform: string, keyword: string, arg: JValue, server: seq<Response>, loads: Loads) returns (f: Fetched)
    ensures f == FetchSpec(platform, keyword, arg, server, loads)
  {
    var q := BuildQuery(platform, keyword, arg);
    if q.None? {
      return Fetched(None, Failed, server);
    }
    var page := Failed;
    var data := SuccessJson(Next(server));
    if data.Some? {
      var parsed: Option<SearchPage>;
      if platform == "douyin" {
        parsed := ParseDouyin(data.value, loads);
      } else {
        parsed := ParseKuaishou(data.value, loads);
      }
      page := parsed.GetOr(Failed);
    }
    f := Fetched(q, page, Rest(server));
  }

  /** `vectorize_data`: no vectors for no users, otherwise one vector per name, or none at all when encoding fails. */
  function Vectorize(users: seq<SearchUser>, encode: Encoder): (vectors: seq<Vector>)
    ensures vectors == [] <==> users == [] || exists i :: 0 <= i < |users| && (!users[i].name.JStr? || encode(users[i].name.s).None?)
    ensures vectors != [] ==> |vectors| == |users|
    ensures vectors != [] ==> forall i :: 0 <= i < |users| ==> users[i].name.JStr? && encode(users[i].name.s) == Some(vectors[i])
  {
    var names := seq(|users|, i requires 0 <= i < |users| => users[i].name);
    assert forall i :: 0 <= i < |users| ==> names[i] == users[i].name;
    EmbedNames(encode, names)
  }

  /** `{"name": ..., "uid": ...}`, the metadata of one row. */
  function Metadata(u: SearchUser): JValue {
    JObj([Field("name", u.name), Field("uid", JStr(u.uid))])
  }

  /** The columns `insert_into_milvus` sends, as rows: every row tagged with the page's keyword. */
  function InsertPayload(users: seq<SearchUser>, vectors: seq<Vector>, keyword: string): (rows: Option<seq<UserRow>>)
    ensures rows.Some? <==> |vectors| == |users|
    ensures rows.Some? ==> |rows.value| == |users|
    ensures rows.Some? ==> forall i :: 0 <= i < |users| ==> rows.value[i] == UserRow(vectors[i], Metadata(users[i]), keyword)
  {
    UserColumns(vectors, seq(|users|, i requires 0 <= i < |users| => Metadata(users[i])), seq(|users|, _ => keyword))
  }

  // ---------------------------------------------------------------------
  // The pagination loop of one keyword
  // ---------------------------------------------------------------------

  /**
   * What one round of the loop did: the query, the reply it got
   * (`Unreachable` when none was sent), the page, the vectors and whether
   * the insert succeeded.
   */
  datatype PageStep = PageStep(query: Option<Query>, reply: Response, users: seq<SearchUser>, next: JValue, vectors: seq<Vector>, inserted: bool)

  /** The loop's variables, the replies left, the collection, and the rounds so far. */
  datatype CrawlState = CrawlState(page: int, nextPage: JValue, server: seq<Response>, rows: seq<UserRow>, faults: seq<bool>, trace: seq<PageStep>)

  function Begin(server: seq<Response>, rows: seq<UserRow>, faults: seq<bool>): CrawlState {
    CrawlState(1, JStr("0"), server, rows, faults, [])
  }

  /** The argument of the next request: the page number on Kuaishou, the cursor on Douyin (`"0"` first). */
  function RequestArg(api: string, page: int, nextPage: JValue): JValue {
    if api == "kuaishou" then JInt(page) else if page == 1 then JStr("0") else nextPage
  }

  /** The last page, by the cursor a page returned. */
  predicate AtEnd(api: string, next: JValue) {
    if api == "kuaishou" then next == JNull || next == JStr("no_more") else !Truthy(next)
  }

  /** A round after which the loop asks for another page. */
  predicate Continued(api: string, s: PageStep) {
    s.users != [] && s.vectors != [] && s.inserted && !AtEnd(api, s.next)
  }

  /** Every user of a round is named; an inserted round embedded every name. */
  predicate Sound(s: PageStep) {
    && (forall u :: u in s.users ==> Truthy(u.name) && u.uid != [])
    && (s.inserted ==> |s.vectors| == |s.users| && forall u :: u in s.users ==> u.name.JStr?)
  }

  /** The rows an insert of the round added. */
  function Payload(keyword: string, s: PageStep): seq<UserRow> {
    if s.inserted then InsertPayload(s.users, s.vectors, keyword).GetOr([]) else []
  }

  datatype Stepped = Stepped(state: CrawlState, more: bool)

  /** One round of `while True`. */
  function Step(api: string, keyword: string, encode: Encoder, loads: Loads, st: CrawlState): (r: Stepped)
    ensures |r.state.trace| == |st.trace| + 1 && r.state.trace[..|st.trace|] == st.trace
    ensures r.more <==> Continued(api, r.state.trace[|st.trace|])
    ensures r.more ==> |r.state.server| < |st.server| && r.state.page == st.page + 1
    ensures r.state.nextPage == r.state.trace[|st.trace|].next
    ensures r.state.trace[|st.trace|].query == BuildQuery(api, keyword, RequestArg(api, st.page, st.nextPage))
    ensures Takes(st.server, r.state.trace[|st.trace|], r.state.server)
    ensures r.state.rows == st.rows + Payload(keyword, r.state.trace[|st.trace|])
    ensures Sound(r.state.trace[|st.trace|])
    ensures Yielded(api, encode, loads, r.state.trace[|st.trace|])
  {
    var f := FetchSpec(api, keyword, RequestArg(api, st.page, st.nextPage), st.server, loads);
    var users := f.page.users;
    var vectors := Vectorize(users, encode);
    var ins := if vectors == [] then Stored(st.rows, st.faults, false)
               else InsertOutcome(st.rows, st.faults, InsertPayload(users, vectors, keyword));
    var reply := if f.query.Some? then Next(st.server) else Unreachable;
    var step := PageStep(f.query, reply, users, f.page.next, vectors, ins.ok);
    var next := st.(nextPage := f.page.next, server := f.rest, rows := ins.rows, faults := ins.faults, trace := st.trace + [step]);
    assert next.trace[|st.trace|] == step;
    if Continued(api, step) then Stepped(next.(page := st.page + 1), true) else Stepped(next, false)
  }

  /** A round of the loop as a function of the state before it. */
  type Round = CrawlState -> Stepped

  function StepOf(api: string, keyword: string, encode: Encoder, loads: Loads): Round {
    st => Step(api, keyword, encode, loads, st)
  }

  /** What a round does to the loop's state, whatever the replies, the model and the collection answer. */
  predicate Obeys(api: string, keyword: string, st: CrawlState, r: Stepped) {
    && |r.state.trace| == |st.trace| + 1 && r.state.trace[..|st.trace|] == st.trace
    && (r.more <==> Continued(api, r.state.trace[|st.trace|]))
    && (r.more ==> |r.state.server| < |st.server| && r.state.page == st.page + 1)
    && r.state.nextPage == r.state.trace[|st.trace|].next
    && r.state.trace[|st.trace|].query == BuildQuery(api, keyword, RequestArg(api, st.page, st.nextPage))
    && Takes(st.server, r.state.trace[|st.trace|], r.state.server)
    && r.state.rows == st.rows + Payload(keyword, r.state.trace[|st.trace|])
    && Sound(r.state.trace[|st.trace|])
  }

  /** A round that sent a request got the next reply and consumed it; one that sent none left the replies alone. */
  predicate Takes(before: seq<Response>, s: PageStep, after: seq<Response>) {
    if s.query.Some? then s.reply == Next(before) && after == Rest(before)
    else s.reply == Unreachable && after == before
  }

  /**
   * A round holds what its reply yields: the page `fetch_data` parses from it
   * (`[], None` when no request was sent), the vectors of that page's names,
   * and an insert only after vectors were made.
   */
  predicate Yielded(api: string, encode: Encoder, loads: Loads, s: PageStep) {
    && SearchPage(s.users, s.next) == (if s.query.Some? then ParseReply(api, s.reply, loads).GetOr(Failed) else Failed)
    && s.vectors == Vectorize(s.users, encode)
    && (s.inserted ==> s.vectors != [])
  }

  ghost predicate Lawful(api: string, keyword: string, step: Round) {
    forall st {:trigger Obeys(api, keyword, st, step(st))} :: Obeys(api, keyword, st, step(st))
  }

  lemma StepLawful(api: string, keyword: string, encode: Encoder, loads: Loads)
    ensures Lawful(api, keyword, StepOf(api, keyword, encode, loads))
  {
    forall st ensures Obeys(api, keyword, st, StepOf(api, keyword, encode, loads)(st)) {
      var r := Step(api, keyword, encode, loads, st);
    }
  }

  /** Rounds from `st` until one does not ask for another page. */
  function Loop(api: string, keyword: string, step: Round, st: CrawlState): CrawlState
    requires Lawful(api, keyword, step)
    decreases |st.server|
  {
    var r := step(st);
    assert Obeys(api, keyword, st, r);
    if r.more then Loop(api, keyword, step, r.state) else r.state
  }

  /** The loop from `st` to its `break`. */
  function Crawl(api: string, keyword: string, encode: Encoder, loads: Loads, st: CrawlState): CrawlState {
    StepLawful(api, keyword, encode, loads);
    Loop(api, keyword, StepOf(api, keyword, encode, loads), st)
  }

  /** The pages of one keyword, `page = 1; next_page = "0"; while True: ...`. */
  method CrawlKeyword(store: Collection<UserRow>, api: string, keyword: string, server: seq<Response>, encode: Encoder, loads: Loads)
    returns (trace: seq<PageStep>, rest: seq<Response>)
    modifies store
    ensures var end := Crawl(api, keyword, encode, loads, Begin(server, old(store.rows), old(store.faults)));
            store.rows == end.rows && store.faults == end.faults && trace == end.trace && rest == end.server
  {
    var page := 1;
    var nextPage := JStr("0");
    trace, rest := [], server;
    while true
      invariant Crawl(api, keyword, encode, loads, Begin(server, old(store.rows), old(store.faults)))
             == Crawl(api, keyword, encode, loads, CrawlState(page, nextPage, rest, store.rows, store.faults, trace))
      decreases |rest|
    {
      ghost var r := Step(api, keyword, encode, loads, CrawlState(page, nextPage, rest, store.rows, store.faults, trace));
      var f := Fetch(api, keyword, RequestArg(api, page, nextPage), rest, loads);
      var users := f.page.users;
      var reply := if f.query.Some? then Next(rest) else Unreachable;
      rest, nextPage := f.rest, f.page.next;
      if users == [] {
        trace := trace + [PageStep(f.query, reply, users, nextPage, [], false)];
        assert r.state == CrawlState(page, nextPage, rest, store.rows, store.faults, trace);
        return;
      }
      var vectors := Vectorize(users, encode);
      if vectors == [] {
        trace := trace + [PageStep(f.query, reply, users, nextPage, vectors, false)];
        assert r.state == CrawlState(page, nextPage, rest, store.rows, store.faults, trace);
        return;
      }
      var ok := store.Insert(InsertPayload(users, vectors, keyword));
      trace := trace + [PageStep(f.query, reply, users, nextPage, vectors, ok)];
      if !ok || AtEnd(api, nextPage) {
        assert r.state == CrawlState(page, nextPage, rest, store.rows, store.faults, trace);
        return;
      }
      page := page + 1;
      assert r.state == CrawlState(page, nextPage, rest, store.rows, store.faults, trace);
    }
  }

  // ---------------------------------------------------------------------
  // Properties of one keyword's loop
  // ---------------------------------------------------------------------

  /**
   * The loop makes at least one request and at most one more than there are
   * replies, and only appends to the rounds before it.
   */
  lemma {:induction false} LoopExtends(api: string, keyword: string, step: Round, st: CrawlState)
    requires Lawful(api, keyword, step)
    ensures var end := Loop(api, keyword, step, st);
            && |st.trace| < |end.trace| <= |st.trace| + |st.server| + 1
            && end.trace[..|st.trace| + 1] == step(st).state.trace
    decreases |st.server|
  {
    var r := step(st);
    assert Obeys(api, keyword, st, r);
    if r.more {
      LoopExtends(api, keyword, step, r.state);
      RoundBasics(api, keyword, step, r.state);
      var end := Loop(api, keyword, step, r.state);
      assert end.trace[..|r.state.trace|] == end.trace[..|r.state.trace| + 1][..|r.state.trace|];
    }
  }

  /** Every round of `trace` from position `from` on, except the last, asked for another page. */
  predicate ContinuedFrom(api: string, trace: seq<PageStep>, from: nat) {
    forall i :: from <= i < |trace| - 1 ==> Continued(api, trace[i])
  }

  lemma ContinuedCons(api: string, trace: seq<PageStep>, n: nat)
    requires n < |trace| && Continued(api, trace[n]) && ContinuedFrom(api, trace, n + 1)
    ensures ContinuedFrom(api, trace, n)
  {
  }

  /** The last round of the loop met a `break`. */
  lemma {:induction false} LoopStops(api: string, keyword: string, step: Round, st: CrawlState)
    requires Lawful(api, keyword, step)
    ensures var end := Loop(api, keyword, step, st);
            |st.trace| < |end.trace| && !Continued(api, end.trace[|end.trace| - 1])
    decreases |st.server|
  {
    var r := step(st);
    RoundBasics(api, keyword, step, st);
    if r.more {
      LoopStops(api, keyword, step, r.state);
    } else {
      assert Loop(api, keyword, step, st) == r.state;
    }
  }

  /** Every round but the last asked for another page, and the last one did not. */
  lemma {:induction false} LoopExits(api: string, keyword: string, step: Round, st: CrawlState)
    requires Lawful(api, keyword, step)
    ensures var end := Loop(api, keyword, step, st);
            && |st.trace| < |end.trace|
            && ContinuedFrom(api, end.trace, |st.trace|)
            && !Continued(api, end.trace[|end.trace| - 1])
    decreases |st.server|
  {
    var r := step(st);
    var end := Loop(api, keyword, step, st);
    LoopStops(api, keyword, step, st);
    RoundBasics(api, keyword, step, st);
    if r.more {
      LoopExits(api, keyword, step, r.state);
      LoopExtends(api, keyword, step, st);
      assert end == Loop(api, keyword, step, r.state);
      assert end.trace[|st.trace|] == end.trace[..|st.trace| + 1][|st.trace|];
      ContinuedCons(api, end.trace, |st.trace|);
    } else {
      assert end == r.state;
      assert |end.trace| - 1 == |st.trace|;
    }
  }

  /** The rounds of `trace` from position `from` on are sound. */
  predicate SoundFrom(trace: seq<PageStep>, from: nat) {
    forall i :: from <= i < |trace| ==> Sound(trace[i])
  }

  lemma SoundCons(trace: seq<PageStep>, n: nat)
    requires n < |trace| && Sound(trace[n]) && SoundFrom(trace, n + 1)
    ensures SoundFrom(trace, n)
  {
  }

  /** What a lawful round promises about the rounds and the `break`, without the rest of `Obeys`. */
  lemma RoundBasics(api: string, keyword: string, step: Round, st: CrawlState)
    requires Lawful(api, keyword, step)
    ensures var r := step(st);
            && |r.state.trace| == |st.trace| + 1 && r.state.trace[..|st.trace|] == st.trace
            && (r.more <==> Continued(api, r.state.trace[|st.trace|]))
            && (r.more ==> |r.state.server| < |st.server|)
            && Sound(r.state.trace[|st.trace|])
  {
    assert Obeys(api, keyword, st, step(st));
  }

  /** Every round of the loop is sound. */
  lemma {:induction false} LoopSound(api: string, keyword: string, step: Round, st: CrawlState)
    requires Lawful(api, keyword, step)
    ensures SoundFrom(Loop(api, keyword, step, st).trace, |st.trace|)
    decreases |st.server|
  {
    var r := step(st);
    RoundBasics(api, keyword, step, st);
    if r.more {
      LoopSound(api, keyword, step, r.state);
      LoopExtends(api, keyword, step, st);
      var end := Loop(api, keyword, step, r.state);
      assert end == Loop(api, keyword, step, st);
      assert end.trace[|st.trace|] == end.trace[..|st.trace| + 1][|st.trace|];
      SoundCons(end.trace, |st.trace|);
    } else {
      assert Loop(api, keyword, step, st) == r.state;
      SoundCons(r.state.trace, |st.trace|);
    }
  }

  /** Every round the step makes holds what its reply yields. */
  ghost predicate Deciding(api: string, keyword: string, encode: Encoder, loads: Loads, step: Round)
    requires Lawful(api, keyword, step)
  {
    forall st: CrawlState {:trigger Yielded(api, encode, loads, step(st).state.trace[|st.trace|])} ::
      |st.trace| < |step(st).state.trace| ==> Yielded(api, encode, loads, step(st).state.trace[|st.trace|])
  }

  /** The real round is lawful and holds what its reply yields. */
  lemma StepDecides(api: string, keyword: string, encode: Encoder, loads: Loads)
    ensures Lawful(api, keyword, StepOf(api, keyword, encode, loads))
    ensures Deciding(api, keyword, encode, loads, StepOf(api, keyword, encode, loads))
  {
    StepLawful(api, keyword, encode, loads);
    forall st ensures Yielded(api, encode, loads, StepOf(api, keyword, encode, loads)(st).state.trace[|st.trace|]) {
      var r := Step(api, keyword, encode, loads, st);
    }
  }

  /** The rounds of `trace` from position `from` on hold what their replies yield. */
  predicate YieldedFrom(api: string, encode: Encoder, loads: Loads, trace: seq<PageStep>, from: nat) {
    forall i {:trigger Yielded(api, encode, loads, trace[i])} :: from <= i < |trace| ==> Yielded(api, encode, loads, trace[i])
  }

  lemma {:induction false} LoopYielded(api: string, keyword: string, encode: Encoder, loads: Loads, step: Round, st: CrawlState)
    requires Lawful(api, keyword, step) && Deciding(api, keyword, encode, loads, step)
    ensures YieldedFrom(api, encode, loads, Loop(api, keyword, step, st).trace, |st.trace|)
    decreases |st.server|
  {
    var r := step(st);
    assert Obeys(api, keyword, st, r);
    var n := |st.trace|;
    assert Yielded(api, encode, loads, r.state.trace[n]);
    var end := Loop(api, keyword, step, st);
    if r.more {
      assert end == Loop(api, keyword, step, r.state);
      LoopYielded(api, keyword, encode, loads, step, r.state);
      LoopExtends(api, keyword, step, st);
      assert end.trace[n] == end.trace[..n + 1][n];
    } else {
      assert end == r.state;
    }
  }

  /**
   * Each round of a keyword's crawl holds the page `fetch_data` parsed from
   * the reply that round got, that page's vectors, and inserts only after
   * vectors were made.
   */
  lemma CrawlYielded(api: string, keyword: string, encode: Encoder, loads: Loads, st: CrawlState)
    ensures YieldedFrom(api, encode, loads, Crawl(api, keyword, encode, loads, st).trace, |st.trace|)
  {
    StepDecides(api, keyword, encode, loads);
    LoopYielded(api, keyword, encode, loads, StepOf(api, keyword, encode, loads), st);
  }

  /** The replies the rounds that sent a request got, in order. */
  function Replies(steps: seq<PageStep>): (rs: seq<Response>)
    ensures |rs| <= |steps|
  {
    if steps == [] then [] else (if steps[0].query.Some? then [steps[0].reply] else []) + Replies(steps[1..])
  }

  /**
   * The requests consume the replies in order: the replies the rounds got,
   * followed by those left, are the replies there were, except that once
   * they ran out one more request failed as unreachable.
   */
  lemma {:induction false} LoopReplies(api: string, keyword: string, step: Round, st: CrawlState)
    requires Lawful(api, keyword, step)
    ensures var end := Loop(api, keyword, step, st);
            |st.trace| <= |end.trace| && Paging.Consumed(Replies(end.trace[|st.trace|..]), st.server, end.server)
    decreases |st.server|
  {
    var r := step(st);
    assert Obeys(api, keyword, st, r);
    var n := |st.trace|;
    var s := r.state.trace[n];
    var end := Loop(api, keyword, step, st);
    LoopExtends(api, keyword, step, st);
    assert end.trace[n] == end.trace[..n + 1][n] == s;
    assert end.trace[n..][1..] == end.trace[n + 1..];
    var got := Replies(end.trace[n + 1..]);
    assert Replies(end.trace[n..]) == (if s.query.Some? then [s.reply] else []) + got;
    if r.more {
      assert end == Loop(api, keyword, step, r.state);
      LoopReplies(api, keyword, step, r.state);
      assert s.query.Some?;
      Paging.ConsumedCons(st.server, got, end.server);
    } else {
      assert end == r.state;
      assert end.trace[n + 1..] == [];
      if s.query.Some? {
        Paging.ConsumedOne(st.server);
      } else {
        assert [] + st.server == st.server;
      }
    }
  }

  /** The rows a sequence of rounds inserted, in order. */
  function InsertedRows(keyword: string, steps: seq<PageStep>): seq<UserRow> {
    if steps == [] then [] else Payload(keyword, steps[0]) + InsertedRows(keyword, steps[1..])
  }

  /** The collection gains exactly the payloads of the rounds whose insert succeeded, in order. */
  lemma {:induction false} LoopAppends(api: string, keyword: string, step: Round, st: CrawlState)
    requires Lawful(api, keyword, step)
    ensures var end := Loop(api, keyword, step, st);
            |st.trace| <= |end.trace| && end.rows == st.rows + InsertedRows(keyword, end.trace[|st.trace|..])
    decreases |st.server|
  {
    var r := step(st);
    var n := |st.trace|;
    assert Obeys(api, keyword, st, r);
    LoopExtends(api, keyword, step, st);
    var end := Loop(api, keyword, step, st);
    if r.more {
      assert end == Loop(api, keyword, step, r.state);
      LoopAppends(api, keyword, step, r.state);
      AppendsAfterRound(keyword, st.rows, r.state.rows, end.rows, end.trace[n..]);
    } else {
      assert end == r.state;
      AppendsAfterRound(keyword, st.rows, r.state.rows, end.rows, end.trace[n..]);
    }
  }

  /** The rows of a round followed by those of the rounds after it. */
  lemma AppendsAfterRound(keyword: string, before: seq<UserRow>, mid: seq<UserRow>, after: seq<UserRow>, steps: seq<PageStep>)
    requires steps != []
    requires mid == before + Payload(keyword, steps[0])
    requires after == mid + InsertedRows(keyword, steps[1..])
    ensures after == before + InsertedRows(keyword, steps)
  {
    var first, others := Payload(keyword, steps[0]), InsertedRows(keyword, steps[1..]);
    assert InsertedRows(keyword, steps) == first + others;
    AppendTwice(before, first, others);
  }

  /** A name that the collection can hold: `{"name": <non-empty text>, "uid": <non-empty text>}`. */
  predicate UserMetadata(m: JValue) {
    && m.JObj? && |m.fields| == 2
    && m.fields[0].key == "name" && m.fields[0].value.JStr? && m.fields[0].value.s != []
    && m.fields[1].key == "uid" && m.fields[1].value.JStr? && m.fields[1].value.s != []
  }

  /** Every row sound rounds insert carries the keyword and the metadata of a named user. */
  lemma {:induction false} InsertedRowsTagged(keyword: string, steps: seq<PageStep>)
    requires SoundFrom(steps, 0)
    ensures forall row :: row in InsertedRows(keyword, steps) ==> row.keyword == keyword && UserMetadata(row.metadata)
  {
    if steps != [] {
      assert forall i :: 0 <= i < |steps| - 1 ==> steps[1..][i] == steps[i + 1];
      InsertedRowsTagged(keyword, steps[1..]);
      var s := steps[0];
      assert Sound(s);
      if s.inserted {
        var rows := InsertPayload(s.users, s.vectors, keyword).value;
        forall row | row in rows
          ensures row.keyword == keyword && UserMetadata(row.metadata)
        {
          var i :| 0 <= i < |rows| && rows[i] == row;
          assert s.users[i] in s.users;
        }
      }
    }
  }

  /** From position `from` on, the i-th request of `trace` asks Kuaishou for page i + 1. */
  predicate PagesFrom(keyword: string, trace: seq<PageStep>, from: nat) {
    forall i :: from <= i < |trace| ==> trace[i].query == Some(Query("page", keyword, IntToDecimal(i + 1)))
  }

  /** On Kuaishou the k-th request of a keyword asks for `page=k`. */
  lemma {:induction false} KuaishouPagesCount(keyword: string, step: Round, st: CrawlState)
    requires Lawful("kuaishou", keyword, step)
    requires st.page == |st.trace| + 1
    ensures PagesFrom(keyword, Loop("kuaishou", keyword, step, st).trace, |st.trace|)
    decreases |st.server|
  {
    var r := step(st);
    assert Obeys("kuaishou", keyword, st, r);
    var end := Loop("kuaishou", keyword, step, st);
    if r.more {
      assert end == Loop("kuaishou", keyword, step, r.state);
      KuaishouPagesCount(keyword, step, r.state);
      LoopExtends("kuaishou", keyword, step, st);
      assert end.trace[|st.trace|] == end.trace[..|st.trace| + 1][|st.trace|];
    } else {
      assert end == r.state;
    }
  }

  /** On Douyin the first request sends cursor `"0"` and every later one the cursor the previous page returned. */
  lemma {:induction false} DouyinCursorPassThrough(keyword: string, step: Round, st: CrawlState)
    requires Lawful("douyin", keyword, step)
    requires st.page == |st.trace| + 1
    requires st.trace != [] ==> st.nextPage == st.trace[|st.trace| - 1].next
    ensures var end := Loop("douyin", keyword, step, st);
            forall i :: |st.trace| <= i < |end.trace| ==>
              end.trace[i].query == Some(Query("cursor", keyword, if i == 0 then "0" else PyStr(end.trace[i - 1].next)))
    decreases |st.server|
  {
    var r := step(st);
    assert Obeys("douyin", keyword, st, r);
    var end := Loop("douyin", keyword, step, st);
    if r.more {
      assert end == Loop("douyin", keyword, step, r.state);
      DouyinCursorPassThrough(keyword, step, r.state);
      LoopExtends("douyin", keyword, step, st);
      assert end.trace[|st.trace|] == end.trace[..|st.trace| + 1][|st.trace|];
      if st.trace != [] {
        assert end.trace[|st.trace| - 1] == end.trace[..|st.trace| + 1][|st.trace| - 1];
      }
    } else if st.trace != [] {
      assert end == r.state;
      assert end.trace[|st.trace| - 1] == st.trace[|st.trace| - 1];
    }
  }

  // ---------------------------------------------------------------------
  // Keywords, platforms and the whole run
  // ---------------------------------------------------------------------

  /** `read_keywords`: `content` is `None` when the file does not exist. */
  function ReadKeywords(content: Option<seq<byte>>, decode: Decoder): (ks: seq<string>)
    ensures content.None? ==> ks == []
    ensures content.Some? && decode(Utf8, content.value).Some? ==>
              ks == NonBlankStripped(Text.Split(ReadText(decode, Utf8, content.value).value, '\n'))
    ensures content.Some? && decode(Utf8, content.value).None? && decode(Gbk, content.value).Some? ==>
              ks == NonBlankStripped(Text.Split(ReadText(decode, Gbk, content.value).value, '\n'))
    ensures content.Some? && decode(Utf8, content.value).None? && decode(Gbk, content.value).None? ==> ks == []
    ensures forall i :: 0 <= i < |ks| ==> Trimmed(ks[i])
  {
    if content.None? then []
    else
      assert [Utf8, Gbk][0] == Utf8 && [Utf8, Gbk][1] == Gbk;
      match FirstDecoding([Utf8, Gbk], decode, content.value)
      case None => []
      case Some(e) => NonBlankStripped(Text.Split(ReadText(decode, e, content.value).value, '\n'))
  }

  /** The encoding loop of `read_keywords`. */
  method LoadKeywords(content: Option<seq<byte>>, decode: Decoder) returns (ks: seq<string>)
    ensures ks == ReadKeywords(content, decode)
  {
    if content.None? {
      return [];
    }
    var encodings := [Utf8, Gbk];
    for j := 0 to |encodings|
      invariant forall k :: 0 <= k < j ==> decode(encodings[k], content.value).None?
    {
      var text := ReadText(decode, encodings[j], content.value);
      if text.Some? {
        return NonBlankStripped(Text.Split(text.value, '\n'));
      }
    }
    return [];
  }

  /** The collection and replies after some keywords, and each keyword's rounds. */
  datatype Progress = Progress(server: seq<Response>, rows: seq<UserRow>, faults: seq<bool>, traces: seq<seq<PageStep>>)

  /** `for keyword in keywords:` the loop of each keyword in turn. */
  function CrawlKeywords(api: string, keywords: seq<string>, encode: Encoder, loads: Loads, p: Progress): Progress
    decreases |keywords|
  {
    if keywords == [] then p
    else
      var end := Crawl(api, keywords[0], encode, loads, Begin(p.server, p.rows, p.faults));
      CrawlKeywords(api, keywords[1..], encode, loads, Progress(end.server, end.rows, end.faults, p.traces + [end.trace]))
  }

  method CrawlPlatform(store: Collection<UserRow>, api: string, keywords: seq<string>, server: seq<Response>, encode: Encoder, loads: Loads)
    returns (traces: seq<seq<PageStep>>, rest: seq<Response>)
    modifies store
    ensures Progress(rest, store.rows, store.faults, traces)
         == CrawlKeywords(api, keywords, encode, loads, Progress(server, old(store.rows), old(store.faults), []))
  {
    traces, rest := [], server;
    for i := 0 to |keywords|
      invariant CrawlKeywords(api, keywords, encode, loads, Progress(server, old(store.rows), old(store.faults), []))
             == CrawlKeywords(api, keywords[i..], encode, loads, Progress(rest, store.rows, store.faults, traces))
    {
      assert keywords[i..][0] == keywords[i] && keywords[i..][1..] == keywords[i + 1..];
      var trace;
      trace, rest := CrawlKeyword(store, api, keywords[i], rest, encode, loads);
      traces := traces + [trace];
    }
  }

  /** A row stored for one of `keywords`, with the metadata of a named user. */
  predicate RowOf(keywords: seq<string>, row: UserRow) {
    row.keyword in keywords && UserMetadata(row.metadata)
  }

  /** `b` is `a` followed by rows of `keywords`. */
  predicate Extends(a: seq<UserRow>, b: seq<UserRow>, keywords: seq<string>) {
    |a| <= |b| && b[..|a|] == a && forall i :: |a| <= i < |b| ==> RowOf(keywords, b[i])
  }

  lemma ExtendsChain(a: seq<UserRow>, b: seq<UserRow>, c: seq<UserRow>, keywords: seq<string>)
    requires keywords != [] && Extends(a, b, keywords) && Extends(b, c, keywords[1..])
    ensures Extends(a, c, keywords)
  {
    assert c[..|a|] == c[..|b|][..|a|];
    forall i | |a| <= i < |c| ensures RowOf(keywords, c[i]) {
      if i < |b| {
        assert c[i] == c[..|b|][i];
      } else {
        assert RowOf(keywords[1..], c[i]);
      }
    }
  }

  /** Rows of `first` from empty, then rows of `second`: every row belongs to one of the two. */
  lemma ExtendsTwice(mid: seq<UserRow>, end: seq<UserRow>, first: seq<string>, second: seq<string>)
    requires Extends([], mid, first) && Extends(mid, end, second)
    ensures forall row :: row in end ==> RowOf(first, row) || RowOf(second, row)
  {
    forall row | row in end ensures RowOf(first, row) || RowOf(second, row) {
      var i :| 0 <= i < |end| && end[i] == row;
      if i < |mid| {
        assert row == end[..|mid|][i];
      }
    }
  }

  /** Appending rows of the first keyword extends the collection with rows of the keywords. */
  lemma AppendExtends(before: seq<UserRow>, added: seq<UserRow>, keywords: seq<string>)
    requires keywords != []
    requires forall row :: row in added ==> row.keyword == keywords[0] && UserMetadata(row.metadata)
    ensures Extends(before, before + added, keywords)
  {
    var after := before + added;
    forall i | |before| <= i < |after| ensures RowOf(keywords, after[i]) {
      assert after[i] == added[i - |before|];
    }
    assert after[..|before|] == before;
  }

  /** The loop of the first keyword only appends rows of that keyword. */
  lemma KeywordRows(api: string, keywords: seq<string>, encode: Encoder, loads: Loads, p: Progress)
    requires keywords != []
    ensures Extends(p.rows, Crawl(api, keywords[0], encode, loads, Begin(p.server, p.rows, p.faults)).rows, keywords)
  {
    var st := Begin(p.server, p.rows, p.faults);
    var body := StepOf(api, keywords[0], encode, loads);
    StepLawful(api, keywords[0], encode, loads);
    var end := Crawl(api, keywords[0], encode, loads, st);
    assert end == Loop(api, keywords[0], body, st);
    LoopAppends(api, keywords[0], body, st);
    LoopSound(api, keywords[0], body, st);
    assert end.trace[0..] == end.trace;
    InsertedRowsTagged(keywords[0], end.trace);
    AppendExtends(p.rows, InsertedRows(keywords[0], end.trace), keywords);
  }

  /** Keywords only extend the collection, and every row they add carries one of them and a named user. */
  lemma {:induction false} CrawlKeywordsRows(api: string, keywords: seq<string>, encode: Encoder, loads: Loads, p: Progress)
    ensures Extends(p.rows, CrawlKeywords(api, keywords, encode, loads, p).rows, keywords)
    decreases |keywords|
  {
    if keywords == [] {
      assert p.rows[..|p.rows|] == p.rows;
    } else {
      var end := Crawl(api, keywords[0], encode, loads, Begin(p.server, p.rows, p.faults));
      var p' := Progress(end.server, end.rows, end.faults, p.traces + [end.trace]);
      KeywordRows(api, keywords, encode, loads, p);
      CrawlKeywordsRows(api, keywords[1..], encode, loads, p');
      ExtendsChain(p.rows, p'.rows, CrawlKeywords(api, keywords, encode, loads, p).rows, keywords);
    }
  }

  /**
   * `main`: recreate the collection, then crawl Douyin with the keywords of
   * `抖音.txt` and Kuaishou with those of `快手.txt`, sharing the replies.
   */
  method RunSearch(store: Collection<UserRow>, douyinFile: Option<seq<byte>>, kuaishouFile: Option<seq<byte>>, decode: Decoder,
                   server: seq<Response>, encode: Encoder, loads: Loads)
    returns (douyin: seq<seq<PageStep>>, kuaishou: seq<seq<PageStep>>)
    modifies store
    ensures var d := CrawlKeywords("douyin", ReadKeywords(douyinFile, decode), encode, loads, Progress(server, [], old(store.faults), []));
            var k := CrawlKeywords("kuaishou", ReadKeywords(kuaishouFile, decode), encode, loads, Progress(d.server, d.rows, d.faults, []));
            douyin == d.traces && kuaishou == k.traces && store.rows == k.rows && store.faults == k.faults
  {
    store.Recreate();
    var rest := server;
    douyin, kuaishou := [], [];
    var douyinKeywords := LoadKeywords(douyinFile, decode);
    if douyinKeywords != [] {
      douyin, rest := CrawlPlatform(store, "douyin", douyinKeywords, rest, encode, loads);
    }
    var kuaishouKeywords := LoadKeywords(kuaishouFile, decode);
    if kuaishouKeywords != [] {
      kuaishou, rest := CrawlPlatform(store, "kuaishou", kuaishouKeywords, rest, encode, loads);
    }
  }

  /** After a run every row of the collection names a user and carries a keyword of its platform's seed file. */
  lemma SearchRowsTagged(douyinFile: Option<seq<byte>>, kuaishouFile: Option<seq<byte>>, decode: Decoder,
                         server: seq<Response>, faults: seq<bool>, encode: Encoder, loads: Loads)
    ensures var dk := ReadKeywords(douyinFile, decode);
            var kk := ReadKeywords(kuaishouFile, decode);
            var d := CrawlKeywords("douyin", dk, encode, loads, Progress(server, [], faults, []));
            var k := CrawlKeywords("kuaishou", kk, encode, loads, Progress(d.server, d.rows, d.faults, []));
            forall row :: row in k.rows ==> (row.keyword in dk || row.keyword in kk) && UserMetadata(row.metadata)
  {
    var dk := ReadKeywords(douyinFile, decode);
    var kk := ReadKeywords(kuaishouFile, decode);
    var p := Progress(server, [], faults, []);
    var d := CrawlKeywords("douyin", dk, encode, loads, p);
    var p' := Progress(d.server, d.rows, d.faults, []);
    CrawlKeywordsRows("douyin", dk, encode, loads, p);
    CrawlKeywordsRows("kuaishou", kk, encode, loads, p');
    ExtendsTwice(d.rows, CrawlKeywords("kuaishou", kk, encode, loads, p').rows, dk, kk);
  }
}
