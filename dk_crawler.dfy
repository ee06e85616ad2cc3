/**
 * The seed-file crawler (`dk.py`): detect the encoding of a platform's seed
 * file, read its keywords, and for each keyword follow the platform's search
 * cursor from `"0"` while it is non-empty, embedding and inserting every page
 * of users on the way. Failures of a request or of an insert do not stop the
 * run; an exception outside them (a file that cannot be read, a Kuaishou
 * cursor that `int()` refuses) ends the platform.
 */
module DkCrawler {
  import opened Wrappers
  import opened Json
  import opened Http
  import opened Embedding
  import opened VectorStore
  import opened SeedFile
  import Text
  import Paging

  /** The platform names `process_platform` and `fetch_data` dispatch on. */
  const Douyin: string := "抖音"
  const Kuaishou: string := "快手"

  // ---------------------------------------------------------------------
  // The seed file
  // ---------------------------------------------------------------------

  predicate StartsWith(content: seq<byte>, prefix: seq<byte>) {
    |prefix| <= |content| && content[..|prefix|] == prefix
  }

  /** The UTF-8 signature (section 6 of RFC 3629). */
  const Utf8Bom: seq<byte> := [0xEF, 0xBB, 0xBF]
  /** The UTF-16 byte-order marks, little- and big-endian (section 3.2 of RFC 2781). */
  const Utf16LeBom: seq<byte> := [0xFF, 0xFE]
  const Utf16BeBom: seq<byte> := [0xFE, 0xFF]

  predicate HasBom(content: seq<byte>) {
    StartsWith(content, Utf8Bom) || StartsWith(content, Utf16LeBom) || StartsWith(content, Utf16BeBom)
  }

  /** The encodings tried, in order, on a file without a byte-order mark. */
  const Candidates: seq<Encoding> := [Utf8, Gbk, Gb2312, Gb18030, Utf16]

  /**
   * The encoding `process_platform` reads the file with: the one its
   * byte-order mark names, or else the first candidate that decodes the whole
   * content; `None` is the `ValueError` raised when none does.
   */
  function DetectEncoding(content: seq<byte>, decode: Decoder): (e: Option<Encoding>)
    ensures StartsWith(content, Utf8Bom) ==> e == Some(Utf8Sig)
    ensures !StartsWith(content, Utf8Bom) && HasBom(content) ==> e == Some(Utf16)
    ensures !HasBom(content) ==> (e.None? <==> forall k :: 0 <= k < |Candidates| ==> decode(Candidates[k], content).None?)
    ensures !HasBom(content) && e.Some? ==>
              decode(e.value, content).Some? &&
              exists k :: 0 <= k < |Candidates| && Candidates[k] == e.value &&
                forall j :: 0 <= j < k ==> decode(Candidates[j], content).None?
  {
    if StartsWith(content, Utf8Bom) then Some(Utf8Sig)
    else if StartsWith(content, Utf16LeBom) || StartsWith(content, Utf16BeBom) then Some(Utf16)
    else FirstDecoding(Candidates, decode, content)
  }

  /** No content starts with both marks, so the order of the two tests does not change the encoding chosen. */
  lemma BomsExclusive(content: seq<byte>)
    requires StartsWith(content, Utf8Bom)
    ensures !StartsWith(content, Utf16LeBom) && !StartsWith(content, Utf16BeBom)
  {
    assert content[0] == content[..3][0] == 0xEF;
    assert content[..2][0] == content[0];
  }

  /** The mark tests and the `for ... else` over the candidates. */
  method DetectEncodingLoop(content: seq<byte>, decode: Decoder) returns (e: Option<Encoding>)
    ensures e == DetectEncoding(content, decode)
  {
    if StartsWith(content, Utf8Bom) {
      return Some(Utf8Sig);
    } else if StartsWith(content, Utf16LeBom) || StartsWith(content, Utf16BeBom) {
      return Some(Utf16);
    }
    for k := 0 to |Candidates|
      invariant forall j :: 0 <= j < k ==> decode(Candidates[j], content).None?
    {
      if decode(Candidates[k], content).Some? {
        assert FirstDecoding(Candidates, decode, content) == Some(Candidates[k]) by {
          FirstDecodingIsFirst(Candidates, decode, content, k);
        }
        return Some(Candidates[k]);
      }
    }
    return None;
  }

  /** The first candidate that decodes, when all those before it fail. */
  lemma {:induction false} FirstDecodingIsFirst(candidates: seq<Encoding>, decode: Decoder, content: seq<byte>, k: nat)
    requires k < |candidates| && decode(candidates[k], content).Some?
    requires forall j :: 0 <= j < k ==> decode(candidates[j], content).None?
    ensures FirstDecoding(candidates, decode, content) == Some(candidates[k])
  {
    if k > 0 {
      FirstDecodingIsFirst(candidates[1..], decode, content, k - 1);
    }
  }

  /**
   * The keywords of `process_platform`: the stripped, non-blank lines of the
   * file read under the detected encoding. `None` stands for each exception
   * that ends the platform before any request: a missing file, no encoding,
   * content the chosen encoding cannot decode, and a file with no keyword.
   */
  function ReadKeywords(file: Option<seq<byte>>, decode: Decoder): (ks: Option<seq<string>>)
    ensures file.None? ==> ks.None?
    ensures file.Some? && DetectEncoding(file.value, decode).None? ==> ks.None?
    ensures file.Some? && DetectEncoding(file.value, decode).Some? ==>
              var text := ReadText(decode, DetectEncoding(file.value, decode).value, file.value);
              && (text.None? ==> ks.None?)
              && (text.Some? ==> (ks.None? <==> NonBlankStripped(Text.Lines(text.value)) == []))
              && (text.Some? && ks.Some? ==> ks.value == NonBlankStripped(Text.Lines(text.value)))
    ensures ks.Some? ==> ks.value != [] && forall i :: 0 <= i < |ks.value| ==> Trimmed(ks.value[i])
    ensures ks.Some? ==> exists e :: DetectEncoding(file.value, decode) == Some(e) && decode(e, file.value).Some?
  {
    var content :- file;
    var e :- DetectEncoding(content, decode);
    var text :- ReadText(decode, e, content);
    var ks := NonBlankStripped(Text.Lines(text));
    if ks == [] then None else Some(ks)
  }

  method LoadKeywords(file: Option<seq<byte>>, decode: Decoder) returns (ks: Option<seq<string>>)
    ensures ks == ReadKeywords(file, decode)
  {
    if file.None? {
      return None;
    }
    var e := DetectEncodingLoop(file.value, decode);
    if e.None? {
      return None;
    }
    var text := ReadText(decode, e.value, file.value);
    if text.None? {
      return None;
    }
    var keywords := NonBlankStripped(Text.Lines(text.value));
    ks := if keywords == [] then None else Some(keywords);
  }

  // ---------------------------------------------------------------------
  // One request: `fetch_data`
  // ---------------------------------------------------------------------

  /** A user record of `fetch_data`; `following` is always `0`. */
  datatype DkUser = DkUser(name: JValue, uid: JValue, description: JValue, followers: JValue)

  /** What `fetch_data` returns: the records and the next cursor. */
  datatype DkPage = DkPage(users: seq<DkUser>, next: JValue)

  /** `([], "")`: the result of every failure and of an unknown platform. */
  const Empty := DkPage([], JStr(""))

  /**
   * Kuaishou's `page` parameter: `1` for the cursor `"0"`, else `int(cursor)`;
   * `None` when `int()` raises, which happens before the request's `try`.
   */
  function PageParam(cursor: JValue): (page: Option<int>)
    ensures cursor == JStr("0") ==> page == Some(1)
    ensures cursor != JStr("0") ==> page == PyInt(cursor)
  {
    if cursor == JStr("0") then Some(1) else PyInt(cursor)
  }

  /** A returned page number `n` other than 0 is requested as page `n`. */
  lemma PageParamOfNumber(n: int)
    requires n != 0
    ensures PageParam(JStr(IntToDecimal(n))) == Some(n)
    ensures PageParam(JInt(n)) == Some(n)
  {
    ParseIntRoundTrip(n);
    if IntToDecimal(n) == "0" {
      ParseIntRoundTrip(0);
    }
  }

  /** The request of `fetch_data`; `None` when building it raises. */
  function DkQuery(platform: string, keyword: string, cursor: JValue): (q: Option<Query>)
    ensures q.None? <==> platform == Kuaishou && PageParam(cursor).None?
    ensures q.Some? && platform == Kuaishou ==> q.value == Query("page", keyword, IntToDecimal(PageParam(cursor).value))
    ensures platform != Kuaishou ==> q == Some(Query("cursor", keyword, PyStr(cursor)))
  {
    if platform == Kuaishou then
      var page :- PageParam(cursor);
      Some(Query("page", keyword, IntToDecimal(page)))
    else Some(Query("cursor", keyword, PyStr(cursor)))
  }

  /**
   * A Douyin `user_list` entry: every dict is kept, its `nick_name` and
   * `user_id` (`""` when absent) as name and uid, an empty description, and
   * its `fans_cnt` (`0` when absent) as followers; anything else makes `.get`
   * raise.
   */
  function DouyinRecord(user: JValue): (r: Verdict<DkUser>)
    ensures !r.Drop?
    ensures r.Keep? <==> user.JObj?
    ensures r.Keep? ==> r.value == DkUser(Lookup(user.fields, "nick_name").GetOr(JStr("")), Lookup(user.fields, "user_id").GetOr(JStr("")),
                                          JStr(""), Lookup(user.fields, "fans_cnt").GetOr(JInt(0)))
  {
    if user.JObj? then
      Keep(DkUser(Get(user, "nick_name", JStr("")).value, Get(user, "user_id", JStr("")).value, JStr(""),
                  Get(user, "fans_cnt", JInt(0)).value))
    else Raise
  }

  /**
   * A Kuaishou `users` entry, likewise unfiltered: `user_name`, `user_id` and
   * `user_text` (`""` when absent) as name, uid and description, and
   * `fansCount` (`0` when absent) as followers.
   */
  function KuaishouRecord(user: JValue): (r: Verdict<DkUser>)
    ensures !r.Drop?
    ensures r.Keep? <==> user.JObj?
    ensures r.Keep? ==> r.value == DkUser(Lookup(user.fields, "user_name").GetOr(JStr("")), Lookup(user.fields, "user_id").GetOr(JStr("")),
                                          Lookup(user.fields, "user_text").GetOr(JStr("")), Lookup(user.fields, "fansCount").GetOr(JInt(0)))
  {
    if user.JObj? then
      Keep(DkUser(Get(user, "user_name", JStr("")).value, Get(user, "user_id", JStr("")).value,
                  Get(user, "user_text", JStr("")).value, Get(user, "fansCount", JInt(0)).value))
    else Raise
  }

  /** `data.get("data", {}).get("data", {})`; `None` when either level is not a dict. */
  function DouyinInner(data: JValue): (r: Option<JValue>)
    ensures r.Some? ==> r.value.JObj?
  {
    var outer :- Get(data, "data", JObj([]));
    var inner :- Get(outer, "data", JObj([]));
    if inner.JObj? then Some(inner) else None
  }

  /** `user_list` of the inner object (`None` by default). */
  function UserList(data: JValue): (r: Option<JValue>)
    ensures r.Some? <==> DouyinInner(data).Some?
  {
    var inner :- DouyinInner(data);
    Get(inner, "user_list", JNull)
  }

  /**
   * The Douyin branch of `fetch_data` on a decoded body; `None` when it
   * raises. A non-empty user list yields one record per user, in order,
   * and `str()` of the returned cursor (`""` by default).
   */
  function DouyinUsers(data: JValue): (r: Option<DkPage>)
    ensures UserList(data).None? ==> r.None?
    ensures UserList(data).Some? && !Truthy(UserList(data).value) ==> r == Some(Empty)
    ensures r.Some? ==> r.value.next.JStr?
    ensures r.Some? && Truthy(UserList(data).value) ==>
              var items := Iterate(UserList(data).value);
              && items.Some?
              && |r.value.users| == |items.value|
              && (forall i :: 0 <= i < |items.value| ==> items.value[i].JObj? && r.value.users[i] == DouyinRecord(items.value[i]).value)
              && r.value.next == JStr(PyStr(Get(DouyinInner(data).value, "cursor", JStr("")).value))
    ensures UserList(data).Some? && Truthy(UserList(data).value) && r.None? ==>
              Iterate(UserList(data).value).None? ||
              exists i :: 0 <= i < |Iterate(UserList(data).value).value| && !Iterate(UserList(data).value).value[i].JObj?
  {
    var inner :- DouyinInner(data);
    var list := Get(inner, "user_list", JNull).value;
    if !Truthy(list) then Some(Empty)
    else
      var items :- Iterate(list);
      var users :- Collect(items, DouyinRecord);
      CollectKeepsAll(items, DouyinRecord);
      Some(DkPage(users, JStr(PyStr(Get(inner, "cursor", JStr("")).value))))
  }

  /**
   * The Kuaishou branch of `fetch_data`: only `result == 1` is a success; the
   * next cursor is `pcursor` (`""` by default), or `""` when `recoPcursor`
   * is `"no_more"`.
   */
  function KuaishouUsers(data: JValue): (r: Option<DkPage>)
    ensures !data.JObj? ==> r.None?
    ensures data.JObj? && !IsOne(Get(data, "result", JNull).value) ==> r == Some(Empty)
    ensures r.Some? && IsOne(Get(data, "result", JNull).value) ==>
              var items := Iterate(Get(data, "users", JArr([])).value);
              && items.Some?
              && |r.value.users| == |items.value|
              && (forall i :: 0 <= i < |items.value| ==> items.value[i].JObj? && r.value.users[i] == KuaishouRecord(items.value[i]).value)
              && r.value.next == if Get(data, "recoPcursor", JNull).value == JStr("no_more") then JStr("")
                                 else Get(data, "pcursor", JStr("")).value
  {
    var result :- Get(data, "result", JNull);
    if !IsOne(result) then Some(Empty)
    else
      var items :- Iterate(Get(data, "users", JArr([])).value);
      var users :- Collect(items, KuaishouRecord);
      CollectKeepsAll(items, KuaishouRecord);
      var next := Get(data, "pcursor", JStr("")).value;
      Some(DkPage(users, if Get(data, "recoPcursor", JNull).value == JStr("no_more") then JStr("") else next))
  }

  /**
   * `fetch_data` after the request: a reply that is not a 2xx JSON body, a
   * body the parser raises on and an unknown platform all give `([], "")`.
   */
  function ParseReply(platform: string, reply: Response): (p: DkPage)
    ensures SuccessJson(reply).None? ==> p == Empty
    ensures platform != Douyin && platform != Kuaishou ==> p == Empty
    ensures SuccessJson(reply).Some? && platform == Douyin ==> p == DouyinUsers(SuccessJson(reply).value).GetOr(Empty)
    ensures SuccessJson(reply).Some? && platform == Kuaishou ==> p == KuaishouUsers(SuccessJson(reply).value).GetOr(Empty)
  {
    match SuccessJson(reply)
    case None => Empty
    case Some(data) =>
      if platform == Douyin then DouyinUsers(data).GetOr(Empty)
      else if platform == Kuaishou then KuaishouUsers(data).GetOr(Empty)
      else Empty
  }

  /** On Douyin the next cursor is always a string, so the cursor sent is the text returned. */
  lemma DouyinCursorIsText(reply: Response)
    ensures ParseReply(Douyin, reply).next.JStr?
  {
  }

  // ---------------------------------------------------------------------
  // Embedding and the insert payload
  // ---------------------------------------------------------------------

  /** `vectorize_data`: the model on `user.get('name', '')` of each record. */
  function Vectorize(users: seq<DkUser>, encode: Encoder): (vectors: seq<Vector>)
    ensures vectors != [] ==> |vectors| == |users| && users != []
    ensures vectors != [] ==> forall i :: 0 <= i < |users| ==> users[i].name.JStr? && encode(users[i].name.s) == Some(vectors[i])
    ensures users != [] && (forall i :: 0 <= i < |users| ==> users[i].name.JStr? && encode(users[i].name.s).Some?) ==> vectors != []
  {
    var names := seq(|users|, i requires 0 <= i < |users| => users[i].name);
    assert forall i :: 0 <= i < |users| ==> names[i] == users[i].name;
    EmbedNames(encode, names)
  }

  /** The object `json.dumps` serialises for a record, in key order. */
  function Record(u: DkUser): (m: JValue)
    ensures UserRecord(m)
  {
    JObj([Field("name", u.name), Field("uid", u.uid), Field("description", u.description),
          Field("following", JInt(0)), Field("followers", u.followers)])
  }

  /** The metadata of a stored user: the five keys of a record, `following` always `0`. */
  predicate UserRecord(m: JValue) {
    && m.JObj? && |m.fields| == 5
    && m.fields[0].key == "name" && m.fields[1].key == "uid" && m.fields[2].key == "description"
    && m.fields[3] == Field("following", JInt(0)) && m.fields[4].key == "followers"
  }

  /** Each key of the serialised record holds the user's field, `following` holds `0`. */
  lemma RecordFields(u: DkUser)
    ensures var m := Record(u).fields;
            && Lookup(m, "name") == Some(u.name) && Lookup(m, "uid") == Some(u.uid)
            && Lookup(m, "description") == Some(u.description) && Lookup(m, "following") == Some(JInt(0))
            && Lookup(m, "followers") == Some(u.followers)
  {
  }

  /** `insert_data`, as rows: the vectors, the serialised records and `[keyword] * len(users)`. */
  function InsertPayload(users: seq<DkUser>, vectors: seq<Vector>, keyword: string): (rows: Option<seq<UserRow>>)
    ensures rows.Some? <==> |vectors| == |users|
    ensures rows.Some? ==> |rows.value| == |users|
    ensures rows.Some? ==> forall i :: 0 <= i < |users| ==>
              rows.value[i] == UserRow(vectors[i], Record(users[i]), keyword) && UserRecord(rows.value[i].metadata)
  {
    UserColumns(vectors, seq(|users|, i requires 0 <= i < |users| => Record(users[i])), seq(|users|, _ => keyword))
  }

  // ---------------------------------------------------------------------
  // The `while cursor` loop of one keyword
  // ---------------------------------------------------------------------

  /** One round: the request, its reply, the page, the vectors and whether the insert succeeded. */
  datatype Round = Round(query: Query, reply: Response, users: seq<DkUser>, next: JValue, vectors: seq<Vector>, inserted: bool)

  /** The cursor, the replies left, the collection, and the rounds so far. */
  datatype LoopState = LoopState(cursor: JValue, server: seq<Response>, rows: seq<UserRow>, faults: seq<bool>, trace: seq<Round>)

  /** A state after a round, or after the exception that ended the platform. */
  datatype Stepped = Stepped(state: LoopState, aborted: bool)

  function Begin(server: seq<Response>, rows: seq<UserRow>, faults: seq<bool>): LoopState {
    LoopState(JStr("0"), server, rows, faults, [])
  }

  /** `1` while the loop goes on: with the replies left it bounds the rounds still to come. */
  function Flag(cursor: JValue): nat {
    if Truthy(cursor) then 1 else 0
  }

  /** The rows an insert of the round added. */
  function Payload(keyword: string, r: Round): seq<UserRow> {
    if r.inserted then InsertPayload(r.users, r.vectors, keyword).GetOr([]) else []
  }

  /** The faults left after the round: an insert is attempted, and consumes one, exactly when there are vectors. */
  function AfterInsert(faults: seq<bool>, attempted: bool): seq<bool> {
    if attempted && faults != [] then faults[1..] else faults
  }

  /** One pass of the loop body. */
  function Step(platform: string, keyword: string, encode: Encoder, st: LoopState): (r: Stepped)
    ensures Obeys(platform, keyword, st, r)
    ensures !r.aborted ==> Yielded(platform, encode, r.state.trace[|st.trace|])
  {
    match DkQuery(platform, keyword, st.cursor)
    case None => Stepped(st, true)
    case Some(q) =>
      var reply := Next(st.server);
      var page := ParseReply(platform, reply);
      var vectors := if page.users == [] then [] else Vectorize(page.users, encode);
      var ins := if vectors == [] then Stored(st.rows, st.faults, false)
                 else InsertOutcome(st.rows, st.faults, InsertPayload(page.users, vectors, keyword));
      var round := Round(q, reply, page.users, page.next, vectors, ins.ok);
      var next := LoopState(page.next, Rest(st.server), ins.rows, ins.faults, st.trace + [round]);
      assert next.trace[|st.trace|] == round;
      Stepped(next, false)
  }

  /** The loop body as a function of the state before it. */
  type Body = LoopState -> Stepped

  function StepOf(platform: string, keyword: string, encode: Encoder): Body {
    st => Step(platform, keyword, encode, st)
  }

  /** What one pass does, whatever the replies, the model and the collection answer. */
  predicate Obeys(platform: string, keyword: string, st: LoopState, r: Stepped) {
    && (r.aborted <==> DkQuery(platform, keyword, st.cursor).None?)
    && (r.aborted ==> r.state == st)
    && (!r.aborted ==>
          && |r.state.trace| == |st.trace| + 1 && r.state.trace[..|st.trace|] == st.trace
          && var last := r.state.trace[|st.trace|];
          && DkQuery(platform, keyword, st.cursor) == Some(last.query)
          && last.reply == Next(st.server) && r.state.server == Rest(st.server)
          && r.state.cursor == last.next
          && |r.state.server| + Flag(last.next) <= |st.server|
          && (SuccessJson(last.reply).None? || (platform != Douyin && platform != Kuaishou) ==>
                last.users == [] && last.next == JStr(""))
          && (last.inserted ==> last.users != [] && last.vectors != [])
          && r.state.rows == st.rows + Payload(keyword, last)
          && r.state.faults == AfterInsert(st.faults, last.vectors != []))
  }

  ghost predicate Lawful(platform: string, keyword: string, body: Body) {
    forall st {:trigger Obeys(platform, keyword, st, body(st))} :: Obeys(platform, keyword, st, body(st))
  }

  lemma StepLawful(platform: string, keyword: string, encode: Encoder)
    ensures Lawful(platform, keyword, StepOf(platform, keyword, encode))
  {
    forall st ensures Obeys(platform, keyword, st, StepOf(platform, keyword, encode)(st)) {
      var r := Step(platform, keyword, encode, st);
    }
  }

  /** `while cursor:` passes from `st` until the cursor is falsy or the body raises. */
  function Loop(platform: string, keyword: string, body: Body, st: LoopState): Stepped
    requires Lawful(platform, keyword, body)
    decreases |st.server| + Flag(st.cursor)
  {
    if !Truthy(st.cursor) then Stepped(st, false)
    else
      var r := body(st);
      assert Obeys(platform, keyword, st, r);
      if r.aborted then r else Loop(platform, keyword, body, r.state)
  }

  /** The loop of one keyword from `st`. */
  function Crawl(platform: string, keyword: string, encode: Encoder, st: LoopState): Stepped {
    StepLawful(platform, keyword, encode);
    Loop(platform, keyword, StepOf(platform, keyword, encode), st)
  }

  /** `cursor = "0"; while cursor: ...` for one keyword; `aborted` when `fetch_data` raised. */
  method CrawlKeyword(store: Collection<UserRow>, platform: string, keyword: string, server: seq<Response>, encode: Encoder)
    returns (trace: seq<Round>, rest: seq<Response>, aborted: bool)
    modifies store
    ensures var end := Crawl(platform, keyword, encode, Begin(server, old(store.rows), old(store.faults)));
            && trace == end.state.trace && rest == end.state.server && aborted == end.aborted
            && store.rows == end.state.rows && store.faults == end.state.faults
  {
    var cursor := JStr("0");
    trace, rest, aborted := [], server, false;
    while Truthy(cursor)
      invariant Crawl(platform, keyword, encode, Begin(server, old(store.rows), old(store.faults)))
             == Crawl(platform, keyword, encode, LoopState(cursor, rest, store.rows, store.faults, trace))
      decreases |rest| + Flag(cursor)
    {
      ghost var r := Step(platform, keyword, encode, LoopState(cursor, rest, store.rows, store.faults, trace));
      var q := DkQuery(platform, keyword, cursor);
      if q.None? {
        aborted := true;
        return;
      }
      var reply := Next(rest);
      var page := ParseReply(platform, reply);
      rest, cursor := Rest(rest), page.next;
      var vectors: seq<Vector> := [];
      var ok := false;
      if page.users != [] {
        vectors := Vectorize(page.users, encode);
        if vectors != [] {
          ok := store.Insert(InsertPayload(page.users, vectors, keyword));
        }
      }
      trace := trace + [Round(q.value, reply, page.users, cursor, vectors, ok)];
      assert r.state == LoopState(cursor, rest, store.rows, store.faults, trace);
    }
  }

  // ---------------------------------------------------------------------
  // Properties of one keyword's loop
  // ---------------------------------------------------------------------

  /**
   * The loop only appends rounds, at most one per reply plus one more, and
   * stops exactly when the body raised or the cursor became falsy: every
   * round but the last returned a non-empty cursor, whether or not its page
   * had users, its names embedded or its insert succeeded.
   */
  lemma {:induction false} LoopRounds(platform: string, keyword: string, body: Body, st: LoopState)
    requires Lawful(platform, keyword, body)
    ensures var end := Loop(platform, keyword, body, st);
            && |st.trace| <= |end.state.trace| <= |st.trace| + |st.server| + Flag(st.cursor)
            && end.state.trace[..|st.trace|] == st.trace
            && (|end.state.trace| == |st.trace| ==> end.state == st)
            && (end.aborted || !Truthy(end.state.cursor))
    decreases |st.server| + Flag(st.cursor)
  {
    var end := Loop(platform, keyword, body, st);
    if Truthy(st.cursor) {
      var r := body(st);
      assert Obeys(platform, keyword, st, r);
      if !r.aborted {
        assert end == Loop(platform, keyword, body, r.state);
        LoopRounds(platform, keyword, body, r.state);
        var n := |st.trace|;
        assert end.state.trace[..n] == end.state.trace[..n + 1][..n];
      }
    }
  }

  /** The cursor of `st` is the one its last round returned. */
  predicate CursorOfLast(st: LoopState) {
    st.trace != [] && st.cursor == st.trace[|st.trace| - 1].next
  }

  /** The cursor the loop ends with is the one the last round returned. */
  lemma {:induction false} LoopLastCursor(platform: string, keyword: string, body: Body, st: LoopState)
    requires Lawful(platform, keyword, body)
    ensures var end := Loop(platform, keyword, body, st);
            |st.trace| < |end.state.trace| ==> CursorOfLast(end.state)
    decreases |st.server| + Flag(st.cursor)
  {
    if Truthy(st.cursor) {
      var r := body(st);
      assert Obeys(platform, keyword, st, r);
      if !r.aborted {
        assert CursorOfLast(r.state);
        LoopLastCursor(platform, keyword, body, r.state);
        LoopRounds(platform, keyword, body, r.state);
      }
    }
  }

  /** A round's cursor is non-empty exactly when another round follows it or the body raised. */
  lemma {:induction false} LoopCursors(platform: string, keyword: string, body: Body, st: LoopState)
    requires Lawful(platform, keyword, body)
    ensures var end := Loop(platform, keyword, body, st);
            forall i :: |st.trace| <= i < |end.state.trace| ==>
              (Truthy(end.state.trace[i].next) <==> i < |end.state.trace| - 1 || end.aborted)
    decreases |st.server| + Flag(st.cursor)
  {
    var end := Loop(platform, keyword, body, st);
    if Truthy(st.cursor) {
      var r := body(st);
      assert Obeys(platform, keyword, st, r);
      if !r.aborted {
        assert end == Loop(platform, keyword, body, r.state);
        LoopRounds(platform, keyword, body, r.state);
        LoopCursors(platform, keyword, body, r.state);
        var n := |st.trace|;
        assert end.state.trace[n] == end.state.trace[..n + 1][n];
        var last := |end.state.trace| - 1;
        forall i | n <= i <= last ensures Truthy(end.state.trace[i].next) <==> i < last || end.aborted {
          if i == n && n == last {
            assert end.state == r.state;
          } else if i == n {
            assert Truthy(r.state.cursor);
          }
        }
      } else {
        assert end == r;
      }
    } else {
      assert end.state == st;
    }
  }

  /** The aborting exception is Kuaishou's `int(cursor)` on a cursor it cannot parse; Douyin never aborts. */
  lemma {:induction false} LoopAborts(platform: string, keyword: string, body: Body, st: LoopState)
    requires Lawful(platform, keyword, body)
    ensures var end := Loop(platform, keyword, body, st);
            end.aborted ==> platform == Kuaishou && Truthy(end.state.cursor) && PageParam(end.state.cursor).None?
    decreases |st.server| + Flag(st.cursor)
  {
    if Truthy(st.cursor) {
      var r := body(st);
      assert Obeys(platform, keyword, st, r);
      if !r.aborted {
        LoopAborts(platform, keyword, body, r.state);
      }
    }
  }

  /** A reply that is no usable page ends the keyword: its round is the last, and the loop did not raise after it. */
  lemma FailedReplyEndsKeyword(platform: string, keyword: string, body: Body, st: LoopState)
    requires Lawful(platform, keyword, body)
    ensures var end := Loop(platform, keyword, body, st);
            forall i :: |st.trace| <= i < |end.state.trace| && SuccessJson(end.state.trace[i].reply).None? ==>
              i == |end.state.trace| - 1 && !end.aborted
  {
    LoopRounds(platform, keyword, body, st);
    LoopCursors(platform, keyword, body, st);
    LoopLastCursor(platform, keyword, body, st);
    RoundsFrom(platform, keyword, body, st);
  }

  /** A failed reply (or an unknown platform) gives `([], "")`, and an insert only follows users and vectors. */
  predicate SoundRound(platform: string, r: Round) {
    && (SuccessJson(r.reply).None? || (platform != Douyin && platform != Kuaishou) ==> r.users == [] && r.next == JStr(""))
    && (r.inserted ==> r.users != [] && r.vectors != [])
  }

  /** Every round of the loop is sound. */
  lemma {:induction false} RoundsFrom(platform: string, keyword: string, body: Body, st: LoopState)
    requires Lawful(platform, keyword, body)
    ensures forall i :: |st.trace| <= i < |Loop(platform, keyword, body, st).state.trace| ==>
              SoundRound(platform, Loop(platform, keyword, body, st).state.trace[i])
    decreases |st.server| + Flag(st.cursor)
  {
    if Truthy(st.cursor) {
      var r := body(st);
      assert Obeys(platform, keyword, st, r);
      if !r.aborted {
        var end := Loop(platform, keyword, body, st);
        assert end == Loop(platform, keyword, body, r.state);
        RoundsFrom(platform, keyword, body, r.state);
        LoopRounds(platform, keyword, body, r.state);
        var n := |st.trace|;
        forall i | n <= i < |end.state.trace| ensures SoundRound(platform, end.state.trace[i]) {
          if i == n {
            assert end.state.trace[n] == end.state.trace[..n + 1][n];
          }
        }
      } else {
        assert Loop(platform, keyword, body, st) == r;
      }
    }
  }

  /**
   * A round holds what its reply yields: the page `fetch_data` makes of it,
   * and the vectors of that page's names (none for a page without users).
   */
  predicate Yielded(platform: string, encode: Encoder, r: Round) {
    && DkPage(r.users, r.next) == ParseReply(platform, r.reply)
    && r.vectors == (if r.users == [] then [] else Vectorize(r.users, encode))
  }

  /** Every round the body makes holds what its reply yields. */
  ghost predicate Deciding(platform: string, keyword: string, encode: Encoder, body: Body)
    requires Lawful(platform, keyword, body)
  {
    forall st: LoopState {:trigger Yielded(platform, encode, body(st).state.trace[|st.trace|])} ::
      !body(st).aborted && |st.trace| < |body(st).state.trace| ==> Yielded(platform, encode, body(st).state.trace[|st.trace|])
  }

  /** The real body is lawful and each of its rounds holds what its reply yields. */
  lemma StepDecides(platform: string, keyword: string, encode: Encoder)
    ensures Lawful(platform, keyword, StepOf(platform, keyword, encode))
    ensures Deciding(platform, keyword, encode, StepOf(platform, keyword, encode))
  {
    StepLawful(platform, keyword, encode);
    forall st | !StepOf(platform, keyword, encode)(st).aborted
      ensures Yielded(platform, encode, StepOf(platform, keyword, encode)(st).state.trace[|st.trace|])
    {
      var r := Step(platform, keyword, encode, st);
    }
  }

  /** The rounds of `trace` from position `from` on hold what their replies yield. */
  predicate YieldedFrom(platform: string, encode: Encoder, trace: seq<Round>, from: nat) {
    forall i {:trigger Yielded(platform, encode, trace[i])} :: from <= i < |trace| ==> Yielded(platform, encode, trace[i])
  }

  lemma {:induction false} LoopYielded(platform: string, keyword: string, encode: Encoder, body: Body, st: LoopState)
    requires Lawful(platform, keyword, body) && Deciding(platform, keyword, encode, body)
    ensures YieldedFrom(platform, encode, Loop(platform, keyword, body, st).state.trace, |st.trace|)
    decreases |st.server| + Flag(st.cursor)
  {
    var end := Loop(platform, keyword, body, st);
    if Truthy(st.cursor) {
      var r := body(st);
      assert Obeys(platform, keyword, st, r);
      if !r.aborted {
        var n := |st.trace|;
        assert Yielded(platform, encode, r.state.trace[n]);
        assert end == Loop(platform, keyword, body, r.state);
        LoopYielded(platform, keyword, encode, body, r.state);
        LoopRounds(platform, keyword, body, r.state);
        assert end.state.trace[n] == end.state.trace[..n + 1][n];
        YieldedCons(platform, encode, end.state.trace, n);
      } else {
        assert end == r;
      }
    } else {
      assert end.state == st;
    }
  }

  lemma YieldedCons(platform: string, encode: Encoder, trace: seq<Round>, n: nat)
    requires n < |trace| && Yielded(platform, encode, trace[n]) && YieldedFrom(platform, encode, trace, n + 1)
    ensures YieldedFrom(platform, encode, trace, n)
  {
  }

  /**
   * Each round of a keyword's loop holds the page `fetch_data` made of the
   * reply that round got, and the vectors of that page's names.
   */
  lemma CrawlYielded(platform: string, keyword: string, encode: Encoder, st: LoopState)
    ensures YieldedFrom(platform, encode, Crawl(platform, keyword, encode, st).state.trace, |st.trace|)
  {
    StepDecides(platform, keyword, encode);
    LoopYielded(platform, keyword, encode, StepOf(platform, keyword, encode), st);
  }

  /** The replies the rounds got, in order. */
  function Replies(rounds: seq<Round>): (rs: seq<Response>)
    ensures |rs| == |rounds|
  {
    if rounds == [] then [] else [rounds[0].reply] + Replies(rounds[1..])
  }

  /**
   * The requests consume the replies in order: the replies the rounds got,
   * followed by those left, are the replies there were, except that once
   * they ran out one more request failed as unreachable.
   */
  lemma {:induction false} LoopReplies(platform: string, keyword: string, body: Body, st: LoopState)
    requires Lawful(platform, keyword, body)
    ensures var end := Loop(platform, keyword, body, st);
            |st.trace| <= |end.state.trace| && Paging.Consumed(Replies(end.state.trace[|st.trace|..]), st.server, end.state.server)
    decreases |st.server| + Flag(st.cursor)
  {
    LoopRounds(platform, keyword, body, st);
    var end := Loop(platform, keyword, body, st);
    var n := |st.trace|;
    if Truthy(st.cursor) {
      var r := body(st);
      assert Obeys(platform, keyword, st, r);
      if !r.aborted {
        assert end == Loop(platform, keyword, body, r.state);
        LoopReplies(platform, keyword, body, r.state);
        LoopRounds(platform, keyword, body, r.state);
        assert end.state.trace[n] == end.state.trace[..n + 1][n];
        assert end.state.trace[n..][1..] == end.state.trace[n + 1..];
        var got := Replies(end.state.trace[n + 1..]);
        assert Replies(end.state.trace[n..]) == [Next(st.server)] + got;
        if st.server == [] {
          assert end.state == r.state;
          assert end.state.trace[n + 1..] == [];
          Paging.ConsumedOne(st.server);
        } else {
          Paging.ConsumedCons(st.server, got, end.state.server);
        }
      } else {
        assert end == r;
        assert end.state.trace[n..] == [] && [] + st.server == st.server;
      }
    } else {
      assert end.state == st;
      assert end.state.trace[n..] == [] && [] + st.server == st.server;
    }
  }

  /** The rows a sequence of rounds inserted, in order. */
  function InsertedRows(keyword: string, rounds: seq<Round>): seq<UserRow> {
    if rounds == [] then [] else Payload(keyword, rounds[0]) + InsertedRows(keyword, rounds[1..])
  }

  /** The collection gains exactly the payloads of the rounds whose insert succeeded, in order. */
  lemma {:induction false} LoopAppends(platform: string, keyword: string, body: Body, st: LoopState)
    requires Lawful(platform, keyword, body)
    ensures var end := Loop(platform, keyword, body, st);
            |st.trace| <= |end.state.trace| && end.state.rows == st.rows + InsertedRows(keyword, end.state.trace[|st.trace|..])
    decreases |st.server| + Flag(st.cursor)
  {
    LoopRounds(platform, keyword, body, st);
    var end := Loop(platform, keyword, body, st);
    var n := |st.trace|;
    if Truthy(st.cursor) {
      var r := body(st);
      assert Obeys(platform, keyword, st, r);
      if !r.aborted {
        assert end == Loop(platform, keyword, body, r.state);
        LoopAppends(platform, keyword, body, r.state);
        LoopRounds(platform, keyword, body, r.state);
        assert end.state.trace[n] == end.state.trace[..n + 1][n];
        assert end.state.trace[n..][1..] == end.state.trace[n + 1..];
        AppendsAfterRound(keyword, st.rows, r.state.rows, end.state.rows, end.state.trace[n..]);
      } else {
        assert end.state.trace[n..] == [];
      }
    } else {
      assert end.state.trace[n..] == [];
    }
  }

  lemma AppendsAfterRound(keyword: string, before: seq<UserRow>, mid: seq<UserRow>, after: seq<UserRow>, rounds: seq<Round>)
    requires rounds != []
    requires mid == before + Payload(keyword, rounds[0])
    requires after == mid + InsertedRows(keyword, rounds[1..])
    ensures after == before + InsertedRows(keyword, rounds)
  {
    var first, others := Payload(keyword, rounds[0]), InsertedRows(keyword, rounds[1..]);
    assert InsertedRows(keyword, rounds) == first + others;
    AppendTwice(before, first, others);
  }

  /** Every row the rounds insert carries the keyword and the record of a user of one of them. */
  lemma {:induction false} InsertedRowsTagged(keyword: string, rounds: seq<Round>)
    ensures forall row :: row in InsertedRows(keyword, rounds) ==>
              row.keyword == keyword && UserRecord(row.metadata) &&
              exists r, u :: r in rounds && u in r.users && row.metadata == Record(u)
  {
    if rounds != [] {
      InsertedRowsTagged(keyword, rounds[1..]);
      var r := rounds[0];
      assert forall x :: x in rounds[1..] ==> x in rounds;
      if r.inserted && |r.vectors| == |r.users| {
        var rows := InsertPayload(r.users, r.vectors, keyword).value;
        forall row | row in rows
          ensures row.keyword == keyword && UserRecord(row.metadata)
          ensures exists x, u :: x in rounds && u in x.users && row.metadata == Record(u)
        {
          var i :| 0 <= i < |rows| && rows[i] == row;
          assert r in rounds && r.users[i] in r.users;
        }
      }
    }
  }

  /**
   * Each request sends the cursor the previous round returned (`"0"` for the
   * first): as `cursor=` on Douyin, as `page=` on Kuaishou.
   */
  lemma {:induction false} LoopPassesCursor(platform: string, keyword: string, body: Body, st: LoopState)
    requires Lawful(platform, keyword, body)
    requires st.cursor == if st.trace == [] then JStr("0") else st.trace[|st.trace| - 1].next
    ensures var end := Loop(platform, keyword, body, st);
            forall i :: |st.trace| <= i < |end.state.trace| ==>
              Some(end.state.trace[i].query) == DkQuery(platform, keyword, if i == 0 then JStr("0") else end.state.trace[i - 1].next)
    decreases |st.server| + Flag(st.cursor)
  {
    if Truthy(st.cursor) {
      var r := body(st);
      assert Obeys(platform, keyword, st, r);
      if !r.aborted {
        var end := Loop(platform, keyword, body, st);
        var n := |st.trace|;
        assert end == Loop(platform, keyword, body, r.state);
        LoopPassesCursor(platform, keyword, body, r.state);
        LoopRounds(platform, keyword, body, r.state);
        assert end.state.trace[n] == end.state.trace[..n + 1][n];
        if n > 0 {
          assert end.state.trace[n - 1] == end.state.trace[..n + 1][n - 1];
        }
      }
    }
  }

  /** On an unknown platform every keyword costs one request, which returns nothing. */
  lemma UnknownPlatformOneRound(platform: string, keyword: string, encode: Encoder, server: seq<Response>, rows: seq<UserRow>, faults: seq<bool>)
    requires platform != Douyin && platform != Kuaishou
    ensures var end := Crawl(platform, keyword, encode, Begin(server, rows, faults));
            |end.state.trace| == 1 && end.state.trace[0].users == [] && !end.aborted && end.state.rows == rows
  {
    var st := Begin(server, rows, faults);
    var r := Step(platform, keyword, encode, st);
    StepLawful(platform, keyword, encode);
    assert Loop(platform, keyword, StepOf(platform, keyword, encode), r.state) == Stepped(r.state, false);
  }

  // ---------------------------------------------------------------------
  // A platform and the whole run
  // ---------------------------------------------------------------------

  /** The replies and the collection after some keywords, each keyword's rounds, and whether the platform ended in an exception. */
  datatype Progress = Progress(server: seq<Response>, rows: seq<UserRow>, faults: seq<bool>, traces: seq<seq<Round>>, aborted: bool)

  /** `for keyword in keywords:` each keyword's loop, until one raises. */
  function CrawlKeywords(platform: string, keywords: seq<string>, encode: Encoder, p: Progress): Progress
    decreases |keywords|
  {
    if keywords == [] then p
    else
      var end := Crawl(platform, keywords[0], encode, Begin(p.server, p.rows, p.faults));
      var q := Progress(end.state.server, end.state.rows, end.state.faults, p.traces + [end.state.trace], end.aborted);
      if end.aborted then q else CrawlKeywords(platform, keywords[1..], encode, q)
  }

  /** `process_platform`: the keywords, then their loops; an unreadable file ends it before any request. */
  function Process(platform: string, file: Option<seq<byte>>, decode: Decoder, encode: Encoder, p: Progress): (end: Progress)
    ensures ReadKeywords(file, decode).None? ==> end.aborted && end.server == p.server && end.rows == p.rows && end.traces == p.traces
  {
    match ReadKeywords(file, decode)
    case None => p.(aborted := true)
    case Some(keywords) => CrawlKeywords(platform, keywords, encode, p)
  }

  method CrawlPlatform(store: Collection<UserRow>, platform: string, keywords: seq<string>, server: seq<Response>, encode: Encoder)
    returns (traces: seq<seq<Round>>, rest: seq<Response>, aborted: bool)
    modifies store
    ensures Progress(rest, store.rows, store.faults, traces, aborted)
         == CrawlKeywords(platform, keywords, encode, Progress(server, old(store.rows), old(store.faults), [], false))
  {
    traces, rest, aborted := [], server, false;
    for i := 0 to |keywords|
      invariant CrawlKeywords(platform, keywords, encode, Progress(server, old(store.rows), old(store.faults), [], false))
             == CrawlKeywords(platform, keywords[i..], encode, Progress(rest, store.rows, store.faults, traces, false))
    {
      assert keywords[i..][0] == keywords[i] && keywords[i..][1..] == keywords[i + 1..];
      var trace;
      trace, rest, aborted := CrawlKeyword(store, platform, keywords[i], rest, encode);
      traces := traces + [trace];
      if aborted {
        return;
      }
    }
    assert keywords[|keywords|..] == [];
  }

  method ProcessPlatform(store: Collection<UserRow>, platform: string, file: Option<seq<byte>>, decode: Decoder,
                         server: seq<Response>, encode: Encoder)
    returns (traces: seq<seq<Round>>, rest: seq<Response>, aborted: bool)
    modifies store
    ensures Progress(rest, store.rows, store.faults, traces, aborted)
         == Process(platform, file, decode, encode, Progress(server, old(store.rows), old(store.faults), [], false))
  {
    var keywords := LoadKeywords(file, decode);
    if keywords.None? {
      return [], server, true;
    }
    traces, rest, aborted := CrawlPlatform(store, platform, keywords.value, server, encode);
  }

  /** A row stored for one of `keywords`, with a user record. */
  predicate RowOf(keywords: seq<string>, row: UserRow) {
    row.keyword in keywords && UserRecord(row.metadata)
  }

  /** `b` is `a` followed by rows of `keywords`. */
  predicate Extends(a: seq<UserRow>, b: seq<UserRow>, keywords: seq<string>) {
    |a| <= |b| && b[..|a|] == a && forall i :: |a| <= i < |b| ==> RowOf(keywords, b[i])
  }

  lemma ExtendsChain(a: seq<UserRow>, b: seq<UserRow>, c: seq<UserRow>, keywords: seq<string>)
    requires keywords != [] && Extends(a, b, keywords) && Extends(b, c, keywords[1..])
    ensures Extends(a, c, keywords)
  {
    assert c[..|a|] == c[..|b|][..|a|];
    forall i | |a| <= i < |c| ensures RowOf(keywords, c[i]) {
      if i < |b| {
        assert c[i] == c[..|b|][i];
      } else {
        assert RowOf(keywords[1..], c[i]);
      }
    }
  }

  /** The loop of the first keyword only appends rows of that keyword. */
  lemma KeywordRows(platform: string, keywords: seq<string>, encode: Encoder, p: Progress)
    requires keywords != []
    ensures Extends(p.rows, Crawl(platform, keywords[0], encode, Begin(p.server, p.rows, p.faults)).state.rows, keywords)
  {
    var st := Begin(p.server, p.rows, p.faults);
    var body := StepOf(platform, keywords[0], encode);
    StepLawful(platform, keywords[0], encode);
    var end := Crawl(platform, keywords[0], encode, st);
    assert end == Loop(platform, keywords[0], body, st);
    LoopAppends(platform, keywords[0], body, st);
    assert end.state.trace[0..] == end.state.trace;
    InsertedRowsTagged(keywords[0], end.state.trace);
    var added := InsertedRows(keywords[0], end.state.trace);
    assert end.state.rows == p.rows + added;
    forall i | |p.rows| <= i < |end.state.rows| ensures RowOf(keywords, end.state.rows[i]) {
      assert end.state.rows[i] == added[i - |p.rows|];
    }
    assert end.state.rows[..|p.rows|] == p.rows;
  }

  /** Every row the keywords' loops add carries one of the keywords and a user record. */
  lemma {:induction false} CrawlKeywordsRows(platform: string, keywords: seq<string>, encode: Encoder, p: Progress)
    requires !p.aborted
    ensures Extends(p.rows, CrawlKeywords(platform, keywords, encode, p).rows, keywords)
    decreases |keywords|
  {
    if keywords == [] {
      assert p.rows[..|p.rows|] == p.rows;
    } else {
      var end := Crawl(platform, keywords[0], encode, Begin(p.server, p.rows, p.faults));
      var p' := Progress(end.state.server, end.state.rows, end.state.faults, p.traces + [end.state.trace], end.aborted);
      KeywordRows(platform, keywords, encode, p);
      if !end.aborted {
        CrawlKeywordsRows(platform, keywords[1..], encode, p');
        ExtendsChain(p.rows, p'.rows, CrawlKeywords(platform, keywords, encode, p).rows, keywords);
      }
    }
  }

  /** One trace per keyword crawled, all of them unless a keyword raised, which only Kuaishou's loop does. */
  lemma {:induction false} CrawlKeywordsTraces(platform: string, keywords: seq<string>, encode: Encoder, p: Progress)
    requires !p.aborted
    ensures var q := CrawlKeywords(platform, keywords, encode, p);
            && |p.traces| <= |q.traces| <= |p.traces| + |keywords|
            && (!q.aborted ==> |q.traces| == |p.traces| + |keywords|)
            && (q.aborted ==> platform == Kuaishou)
    decreases |keywords|
  {
    if keywords != [] {
      var st := Begin(p.server, p.rows, p.faults);
      var body := StepOf(platform, keywords[0], encode);
      StepLawful(platform, keywords[0], encode);
      var end := Crawl(platform, keywords[0], encode, st);
      assert end == Loop(platform, keywords[0], body, st);
      LoopAborts(platform, keywords[0], body, st);
      if !end.aborted {
        var p' := Progress(end.state.server, end.state.rows, end.state.faults, p.traces + [end.state.trace], end.aborted);
        CrawlKeywordsTraces(platform, keywords[1..], encode, p');
      }
    }
  }

  /**
   * `main`: recreate the collection, then process Douyin with `抖音.txt`.
   * `file` is that file's content, `None` when it does not exist.
   */
  method RunDk(store: Collection<UserRow>, file: Option<seq<byte>>, decode: Decoder, server: seq<Response>, encode: Encoder)
    returns (traces: seq<seq<Round>>, aborted: bool)
    modifies store
    ensures var p := Process(Douyin, file, decode, encode, Progress(server, [], old(store.faults), [], false));
            traces == p.traces && aborted == p.aborted && store.rows == p.rows && store.faults == p.faults
  {
    store.Recreate();
    var rest;
    traces, rest, aborted := ProcessPlatform(store, Douyin, file, decode, server, encode);
  }

  /**
   * After a run every row carries a keyword of the seed file and a user
   * record, and on Douyin the run ends in an exception only when the file
   * could not be read: then nothing was requested.
   */
  lemma DkRunRows(file: Option<seq<byte>>, decode: Decoder, server: seq<Response>, faults: seq<bool>, encode: Encoder)
    ensures var p := Process(Douyin, file, decode, encode, Progress(server, [], faults, [], false));
            && (forall row :: row in p.rows ==> ReadKeywords(file, decode).Some? && row.keyword in ReadKeywords(file, decode).value && UserRecord(row.metadata))
            && (p.aborted <==> ReadKeywords(file, decode).None?)
            && (p.aborted ==> p.traces == [] && p.server == server)
  {
    var p0 := Progress(server, [], faults, [], false);
    var ks := ReadKeywords(file, decode);
    if ks.Some? {
      CrawlKeywordsRows(Douyin, ks.value, encode, p0);
      CrawlKeywordsTraces(Douyin, ks.value, encode, p0);
      var p := Process(Douyin, file, decode, encode, p0);
      forall row | row in p.rows
        ensures row.keyword in ks.value && UserRecord(row.metadata)
      {
        var i :| 0 <= i < |p.rows| && p.rows[i] == row;
        assert RowOf(ks.value, p.rows[i]);
      }
    }
  }
}
