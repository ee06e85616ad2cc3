/**
 * The Douyin comment fetcher (`Douyin/comment_fetcher_douyin.py`): for each
 * task line `aweme_id author_id author_name` of its file, page through the
 * video's comments with an offset cursor and store every comment, and the
 * reply attached to it, as a row of the `douyin_comments` collection. Videos
 * whose comments are already stored are skipped.
 */
module DouyinComments {
  import opened Wrappers
  import opened Json
  import opened Http
  import opened Embedding
  import opened VectorStore
  import opened SeedFile
  import opened Paging
  import Text

  /** The video a task names: its id and its author's id and nickname, as written in the task line. */
  datatype Video = Video(photoId: string, authorId: string, authorName: string)

  /** A row of `douyin_comments`. */
  datatype CommentRow = CommentRow(
    commentId: int, photoId: string, authorName: string, authorId: int, content: string, vector: Vector,
    time: string, likes: int, area: string, isReply: bool, videoAuthorId: string, videoAuthorName: string)

  // ---------------------------------------------------------------------
  // One comment: `process_and_insert_comment`
  // ---------------------------------------------------------------------

  /**
   * The entity built for a comment; `None` when building it raises: a
   * comment or `user` that is not a dict, a text the model cannot embed, or
   * a `cid`, `uid` or `digg_count` that `int()` refuses.
   */
  function Entity(c: JValue, isReply: bool, v: Video, encode: Encoder): (row: Option<CommentRow>)
    ensures row.Some? ==> c.JObj? && Get(c, "user", JObj([])).value.JObj?
    ensures row.Some? ==> row.value.photoId == v.photoId && row.value.videoAuthorId == v.authorId &&
                          row.value.videoAuthorName == v.authorName && row.value.isReply == isReply
    ensures row.Some? ==> Get(c, "text", JStr("")).value == JStr(row.value.content) &&
                          encode(row.value.content) == Some(row.value.vector)
  {
    if !c.JObj? then None
    else
      var content := Get(c, "text", JStr("")).value;
      if !content.JStr? then None
      else
        var vector :- encode(content.s);
        var cid :- PyInt(Get(c, "cid", JInt(0)).value);
        var user := Get(c, "user", JObj([])).value;
        if !user.JObj? then None
        else
          var uid :- PyInt(Get(user, "uid", JInt(0)).value);
          var likes :- PyInt(Get(c, "digg_count", JInt(0)).value);
          Some(CommentRow(cid, v.photoId, PyStr(Get(user, "nickname", JStr("")).value), uid, content.s, vector,
                          PyStr(Get(c, "create_time", JStr("")).value), likes, PyStr(Get(user, "region", JStr("")).value),
                          isReply, v.authorId, v.authorName))
  }

  /** A comment that carries only its text is stored with `0` for every number and `""` for every other text. */
  lemma EntityDefaults(text: string, isReply: bool, v: Video, encode: Encoder)
    requires encode(text).Some?
    ensures var row := Entity(JObj([Field("text", JStr(text))]), isReply, v, encode);
            && row.Some?
            && row.value.commentId == 0 && row.value.authorId == 0 && row.value.likes == 0
            && row.value.authorName == "" && row.value.time == "" && row.value.area == ""
            && row.value.content == text
  {
    var c := JObj([Field("text", JStr(text))]);
    assert Get(c, "text", JStr("")) == Some(JStr(text));
    assert Get(c, "cid", JInt(0)) == Some(JInt(0));
    assert Get(c, "user", JObj([])) == Some(JObj([]));
    assert Get(c, "digg_count", JInt(0)) == Some(JInt(0));
    assert Get(c, "create_time", JStr("")) == Some(JStr(""));
  }

  /** The batch `collection.insert(entity)` sends; Milvus refuses numbers outside `INT64`. */
  function Batch(row: CommentRow): (batch: Option<seq<CommentRow>>)
    ensures batch.Some? <==> IsInt64(row.commentId) && IsInt64(row.authorId) && IsInt64(row.likes)
    ensures batch.Some? ==> batch.value == [row]
  {
    if IsInt64(row.commentId) && IsInt64(row.authorId) && IsInt64(row.likes) then Some([row]) else None
  }

  /** A comment to store, and the `is_reply` flag it is stored with. */
  datatype Entry = Entry(comment: JValue, isReply: bool)

  /** One `process_and_insert_comment`: any exception is swallowed; an insert is attempted once the entity exists. */
  function InsertOne(rows: seq<CommentRow>, faults: seq<bool>, e: Entry, v: Video, encode: Encoder): (s: Stored<CommentRow>)
    ensures |rows| <= |s.rows| <= |rows| + 1 && s.rows[..|rows|] == rows
    ensures |s.rows| == |rows| + 1 ==> Entity(e.comment, e.isReply, v, encode) == Some(s.rows[|rows|])
  {
    match Entity(e.comment, e.isReply, v, encode)
    case None => Stored(rows, faults, false)
    case Some(row) => InsertOutcome(rows, faults, Batch(row))
  }

  // ---------------------------------------------------------------------
  // A page of comments: `save_to_milvus`
  // ---------------------------------------------------------------------

  /**
   * The reply attached to a comment: `Some(None)` when there is none (or it is
   * falsy), `None` when the test itself raises (a comment that is a number,
   * or a list or string that passes the `in` test but cannot be indexed by a
   * key).
   */
  function ReplyOf(c: JValue): (r: Option<Option<JValue>>)
    ensures c.JObj? ==> r.Some?
    ensures r.Some? && r.value.Some? ==> Truthy(r.value.value) && Subscript(c, "reply_comment") == r.value
  {
    match In(c, "reply_comment")
    case None => None
    case Some(false) => Some(None)
    case Some(true) =>
      match Subscript(c, "reply_comment")
      case None => None
      case Some(reply) => if Truthy(reply) then Some(Some(reply)) else Some(None)
  }

  /** The comments `save_to_milvus` stores, in order; `complete` is false when the reply test raised and ended the page. */
  datatype Flat = Flat(entries: seq<Entry>, complete: bool)

  /** The number of comments among `items` that carry a reply. */
  function CountReplies(items: seq<JValue>): nat {
    if items == [] then 0
    else CountReplies(items[..|items| - 1]) + (if ReplyOf(items[|items| - 1]) == Some(None) || ReplyOf(items[|items| - 1]).None? then 0 else 1)
  }

  /** Each comment with `is_reply=False`, immediately followed by its reply with `is_reply=True`; `total_count` is the number of entries. */
  function Flatten(items: seq<JValue>): (f: Flat)
    ensures |f.entries| <= 2 * |items|
  {
    if items == [] then Flat([], true)
    else
      var f := Flatten(items[..|items| - 1]);
      if !f.complete then f
      else
        var c := items[|items| - 1];
        var e := f.entries + [Entry(c, false)];
        match ReplyOf(c)
        case None => Flat(e, false)
        case Some(None) => Flat(e, true)
        case Some(Some(reply)) => Flat(e + [Entry(reply, true)], true)
  }

  /**
   * The loop runs to the end exactly when no reply test raises, and then
   * stores every comment and one more entry per reply; otherwise it ends
   * right after the comment whose test raised.
   */
  lemma {:induction false} FlattenCounts(items: seq<JValue>)
    ensures var f := Flatten(items);
            && (f.complete <==> forall i :: 0 <= i < |items| ==> ReplyOf(items[i]).Some?)
            && (f.complete ==> |f.entries| == |items| + CountReplies(items))
            && (!f.complete ==> f.entries != [] && !f.entries[|f.entries| - 1].isReply &&
                                ReplyOf(f.entries[|f.entries| - 1].comment).None?)
    decreases |items|
  {
    if items != [] {
      var front := items[..|items| - 1];
      FlattenCounts(front);
      assert forall i :: 0 <= i < |front| ==> front[i] == items[i];
    }
  }

  /** Every entry with `is_reply=True` directly follows a comment stored with `is_reply=False` whose reply it is. */
  ghost predicate RepliesFollow(entries: seq<Entry>) {
    forall k :: 0 <= k < |entries| && entries[k].isReply ==>
      k > 0 && !entries[k - 1].isReply && ReplyOf(entries[k - 1].comment) == Some(Some(entries[k].comment))
  }

  /** Every entry stored with `is_reply=True` directly follows the comment it is the reply of. */
  lemma {:induction false} FlattenPairs(items: seq<JValue>)
    ensures RepliesFollow(Flatten(items).entries)
    decreases |items|
  {
    if items != [] {
      var i := |items| - 1;
      FlattenPairs(items[..i]);
      if Flatten(items[..i]).complete {
        FlattenStep(items, i);
        assert items[..i + 1] == items;
        RepliesFollowOne(Flatten(items[..i]).entries, items[i]);
      } else {
        assert Flatten(items) == Flatten(items[..i]);
      }
    }
  }

  /** The entries of one more comment keep every reply after its comment. */
  lemma RepliesFollowOne(entries: seq<Entry>, c: JValue)
    requires RepliesFollow(entries)
    ensures RepliesFollow(entries + OneComment(c).entries)
  {
    var all := entries + OneComment(c).entries;
    var n := |entries|;
    forall k | 0 <= k < |all| && all[k].isReply
      ensures k > 0 && !all[k - 1].isReply && ReplyOf(all[k - 1].comment) == Some(Some(all[k].comment))
    {
      if k < n {
        assert all[k] == entries[k] && all[k - 1] == entries[k - 1];
      } else {
        assert k == n + 1 && all[n] == Entry(c, false);
      }
    }
  }

  /** The entries inserted one after the other. */
  function InsertEntries(rows: seq<CommentRow>, faults: seq<bool>, entries: seq<Entry>, v: Video, encode: Encoder): (s: Stored<CommentRow>)
    ensures |rows| <= |s.rows| <= |rows| + |entries| && s.rows[..|rows|] == rows
    ensures forall i :: |rows| <= i < |s.rows| ==> s.rows[i].photoId == v.photoId && s.rows[i].videoAuthorId == v.authorId &&
                                                   s.rows[i].videoAuthorName == v.authorName
  {
    if entries == [] then Stored(rows, faults, true)
    else
      var s := InsertEntries(rows, faults, entries[..|entries| - 1], v, encode);
      var t := InsertOne(s.rows, s.faults, entries[|entries| - 1], v, encode);
      assert t.rows[..|rows|] == t.rows[..|s.rows|][..|rows|];
      t
  }

  /** `save_to_milvus` on a truthy `comments`: nothing when `len()` refuses it. */
  datatype Saved = Saved(rows: seq<CommentRow>, faults: seq<bool>, count: nat)

  function Save(comments: JValue, v: Video, encode: Encoder, rows: seq<CommentRow>, faults: seq<bool>): (s: Saved)
    ensures |rows| <= |s.rows| && s.rows[..|rows|] == rows
    ensures forall i :: |rows| <= i < |s.rows| ==> s.rows[i].photoId == v.photoId
  {
    match Iterate(comments)
    case None => Saved(rows, faults, 0)
    case Some(items) =>
      var f := Flatten(items);
      var s := InsertEntries(rows, faults, f.entries, v, encode);
      Saved(s.rows, s.faults, |f.entries|)
  }

  /** `Save` on comments that `len()` accepts. */
  lemma SaveOfList(comments: JValue, v: Video, encode: Encoder, rows: seq<CommentRow>, faults: seq<bool>, list: seq<JValue>)
    requires Iterate(comments) == Some(list)
    ensures var s := InsertEntries(rows, faults, Flatten(list).entries, v, encode);
            Save(comments, v, encode, rows, faults) == Saved(s.rows, s.faults, |Flatten(list).entries|)
  {
  }

  /** Once the reply test has raised, later comments change nothing. */
  lemma {:induction false} FlattenStops(items: seq<JValue>, k: nat)
    requires k <= |items| && !Flatten(items[..k]).complete
    ensures Flatten(items) == Flatten(items[..k])
    decreases |items|
  {
    if k == |items| {
      assert items[..k] == items;
    } else {
      var front := items[..|items| - 1];
      assert front[..k] == items[..k];
      FlattenStops(front, k);
    }
  }

  /** What the loop body stores for one comment: the comment, then its reply; incomplete when the reply test raised. */
  function OneComment(c: JValue): (one: Flat)
    ensures 1 <= |one.entries| <= 2 && one.entries[0] == Entry(c, false)
    ensures |one.entries| == 2 <==> ReplyOf(c).Some? && ReplyOf(c).value.Some?
    ensures |one.entries| == 2 ==> one.entries[1] == Entry(ReplyOf(c).value.value, true)
    ensures one.complete <==> ReplyOf(c).Some?
  {
    match ReplyOf(c)
    case None => Flat([Entry(c, false)], false)
    case Some(None) => Flat([Entry(c, false)], true)
    case Some(Some(reply)) => Flat([Entry(c, false), Entry(reply, true)], true)
  }

  /** One more comment, after a prefix whose reply tests all succeeded. */
  lemma FlattenStep(items: seq<JValue>, i: nat)
    requires i < |items| && Flatten(items[..i]).complete
    ensures Flatten(items[..i + 1]) == Flat(Flatten(items[..i]).entries + OneComment(items[i]).entries, OneComment(items[i]).complete)
  {
    assert items[..i + 1][..i] == items[..i];
    var done := Flatten(items[..i]).entries;
    var c := items[i];
    if ReplyOf(c).Some? && ReplyOf(c).value.Some? {
      assert done + [Entry(c, false)] + [Entry(ReplyOf(c).value.value, true)] == done + OneComment(c).entries;
    }
  }

  lemma InsertEntriesSnoc(rows: seq<CommentRow>, faults: seq<bool>, entries: seq<Entry>, e: Entry, v: Video, encode: Encoder)
    ensures var s := InsertEntries(rows, faults, entries, v, encode);
            InsertEntries(rows, faults, entries + [e], v, encode) == InsertOne(s.rows, s.faults, e, v, encode)
  {
    assert (entries + [e])[..|entries|] == entries;
  }

  /** Inserting two runs of entries one after the other is inserting their concatenation. */
  lemma {:induction false} InsertEntriesAppend(rows: seq<CommentRow>, faults: seq<bool>, first: seq<Entry>, second: seq<Entry>, v: Video, encode: Encoder)
    ensures var s := InsertEntries(rows, faults, first, v, encode);
            var t := InsertEntries(s.rows, s.faults, second, v, encode);
            var u := InsertEntries(rows, faults, first + second, v, encode);
            u.rows == t.rows && u.faults == t.faults
    decreases |second|
  {
    if second == [] {
      assert first + second == first;
    } else {
      var front := second[..|second| - 1];
      var last := second[|second| - 1];
      var s := InsertEntries(rows, faults, first, v, encode);
      var mid := InsertEntries(s.rows, s.faults, front, v, encode);
      var whole := InsertEntries(rows, faults, first + front, v, encode);
      InsertEntriesAppend(rows, faults, first, front, v, encode);
      assert whole.rows == mid.rows && whole.faults == mid.faults;
      assert second == front + [last];
      InsertEntriesSnoc(s.rows, s.faults, front, last, v, encode);
      assert first + second == (first + front) + [last];
      InsertEntriesSnoc(rows, faults, first + front, last, v, encode);
    }
  }

  class CommentStore {
    /** Every row inserted so far, oldest first. */
    var rows: seq<CommentRow>
    /** Scripted outcome of the coming insert calls: `true` makes that call raise. */
    var faults: seq<bool>

    constructor (rows: seq<CommentRow>, faults: seq<bool>)
      ensures this.rows == rows && this.faults == faults
    {
      this.rows := rows;
      this.faults := faults;
    }

    /** `process_and_insert_comment(comment, is_reply)`. */
    method ProcessAndInsert(e: Entry, v: Video, encode: Encoder)
      modifies this
      ensures rows == InsertOne(old(rows), old(faults), e, v, encode).rows
      ensures faults == InsertOne(old(rows), old(faults), e, v, encode).faults
    {
      var row := Entity(e.comment, e.isReply, v, encode);
      if row.Some? {
        var s := InsertOutcome(rows, faults, Batch(row.value));
        rows, faults := s.rows, s.faults;
      }
    }

    /** The body of the loop of `save_to_milvus` for one comment. */
    method SaveComment(c: JValue, v: Video, encode: Encoder) returns (one: Flat)
      modifies this
      ensures one == OneComment(c)
      ensures rows == InsertEntries(old(rows), old(faults), one.entries, v, encode).rows
      ensures faults == InsertEntries(old(rows), old(faults), one.entries, v, encode).faults
    {
      InsertEntriesSnoc(rows, faults, [], Entry(c, false), v, encode);
      ProcessAndInsert(Entry(c, false), v, encode);
      var reply := ReplyOf(c);
      if reply.None? {
        return Flat([Entry(c, false)], false);
      } else if reply.value.None? {
        return Flat([Entry(c, false)], true);
      }
      InsertEntriesSnoc(old(rows), old(faults), [Entry(c, false)], Entry(reply.value.value, true), v, encode);
      ProcessAndInsert(Entry(reply.value.value, true), v, encode);
      assert [Entry(c, false)] + [Entry(reply.value.value, true)] == [Entry(c, false), Entry(reply.value.value, true)];
      one := Flat([Entry(c, false), Entry(reply.value.value, true)], true);
    }

    /** `save_to_milvus(collection, comments, ...)`: the loop over the comments and their replies. */
    method SaveToMilvus(comments: JValue, v: Video, encode: Encoder) returns (count: nat)
      modifies this
      ensures rows == Save(comments, v, encode, old(rows), old(faults)).rows
      ensures faults == Save(comments, v, encode, old(rows), old(faults)).faults
      ensures count == Save(comments, v, encode, old(rows), old(faults)).count
    {
      count := 0;
      var items := Iterate(comments);
      if items.None? {
        return;
      }
      var list := items.value;
      ghost var done: seq<Entry> := [];
      for i := 0 to |list|
        invariant Flatten(list[..i]) == Flat(done, true)
        invariant count == |done|
        invariant rows == InsertEntries(old(rows), old(faults), done, v, encode).rows
        invariant faults == InsertEntries(old(rows), old(faults), done, v, encode).faults
      {
        FlattenStep(list, i);
        InsertEntriesAppend(old(rows), old(faults), done, OneComment(list[i]).entries, v, encode);
        var one := SaveComment(list[i], v, encode);
        done := done + one.entries;
        count := count + |one.entries|;
        if !one.complete {
          FlattenStops(list, i + 1);
          SaveOfList(comments, v, encode, old(rows), old(faults), list);
          return;
        }
      }
      assert list[..|list|] == list;
      SaveOfList(comments, v, encode, old(rows), old(faults), list);
    }

    /** `fetch_video_comments(aweme_id, ...)` from cursor `"0"`, each further page in turn instead of by a recursive call. */
    method FetchVideoComments(v: Video, server: seq<Response>, encode: Encoder) returns (pages: seq<CommentPage>, rest: seq<Response>)
      modifies this
      ensures var end := Fetch(v, encode, State("0", server, old(rows), old(faults), []));
              pages == end.pages && rest == end.server && rows == end.rows && faults == end.faults
    {
      ghost var start := State("0", server, rows, faults, []);
      var cursor := "0";
      pages, rest := [], server;
      var more := true;
      while more
        invariant more ==> Fetch(v, encode, start) == Fetch(v, encode, State(cursor, rest, rows, faults, pages))
        invariant !more ==> Fetch(v, encode, start) == State(cursor, rest, rows, faults, pages)
        decreases |rest| + (if more then 1 else 0)
      {
        ghost var r := Turn(v, encode, State(cursor, rest, rows, faults, pages));
        TurnLawful(v, encode);
        assert TurnOf(v, encode)(State(cursor, rest, rows, faults, pages)) == r;
        var reply := Next(rest);
        var d := Decide(cursor, reply);
        var count := 0;
        if d.save.Some? {
          count := SaveToMilvus(d.save.value, v, encode);
        }
        pages := pages + [Page(cursor, reply, d.save, count, d.next)];
        rest := Rest(rest);
        if d.next.None? {
          more := false;
        } else {
          cursor := d.next.value;
        }
        assert r == State(cursor, rest, rows, faults, pages);
      }
    }

    /** The body of `main`'s loop for the task of one line. */
    method ProcessTask(task: Option<Video>, seen: set<string>, videos: seq<Video>, pages: seq<seq<CommentPage>>,
                       server: seq<Response>, encode: Encoder)
      returns (seen': set<string>, videos': seq<Video>, pages': seq<seq<CommentPage>>, rest: seq<Response>)
      modifies this
      ensures Run(seen', rest, rows, faults, videos', pages') ==
              Process(task, FetcherOf(encode), Run(seen, server, old(rows), old(faults), videos, pages))
    {
      seen', videos', pages', rest := seen, videos, pages, server;
      if task.Some? && task.value.photoId !in seen {
        assert FetcherOf(encode)(task.value, State("0", server, rows, faults, [])) ==
               Fetch(task.value, encode, State("0", server, rows, faults, []));
        var got, left := FetchVideoComments(task.value, server, encode);
        seen' := seen + {task.value.photoId};
        videos', pages', rest := videos + [task.value], pages + [got], left;
      }
    }

    /** `main`'s loop over the lines of the task file, from the resume set `seen`. */
    method RunLines(lines: seq<string>, seen: set<string>, server: seq<Response>, encode: Encoder)
      returns (seen': set<string>, videos: seq<Video>, pages: seq<seq<CommentPage>>, rest: seq<Response>)
      modifies this
      ensures Run(seen', rest, rows, faults, videos, pages) ==
              RunTasks(Tasks(lines), FetcherOf(encode), Run(seen, server, old(rows), old(faults), [], []))
    {
      seen', videos, pages, rest := seen, [], [], server;
      ghost var start := Run(seen, server, rows, faults, [], []);
      ghost var tasks := Tasks(lines);
      for i := 0 to |lines|
        invariant RunTasks(tasks[..i], FetcherOf(encode), start) == Run(seen', rest, rows, faults, videos, pages)
      {
        var task := ParseTask(lines[i]);
        RunTasksSnoc(tasks, i, FetcherOf(encode), start);
        seen', videos, pages, rest := ProcessTask(task, seen', videos, pages, rest, encode);
      }
      assert tasks[..|lines|] == tasks;
    }

    /**
     * `main`: the resume set from the stored `photo_id`s (empty when the
     * query fails), then each task line of the file read as UTF-8; a missing
     * or undecodable file ends the run before any video.
     */
    method RunFetcher(file: Option<seq<byte>>, decode: Decoder, queryOk: bool, server: seq<Response>, encode: Encoder)
      returns (seen: set<string>, videos: seq<Video>, pages: seq<seq<CommentPage>>, rest: seq<Response>)
      modifies this
      ensures var start := Run(Hydrate(old(rows), queryOk), server, old(rows), old(faults), [], []);
              var end := if file.None? || ReadText(decode, Utf8, file.value).None? then start
                         else RunTasks(Tasks(Text.Lines(ReadText(decode, Utf8, file.value).value)), FetcherOf(encode), start);
              && seen == end.seen && videos == end.videos && pages == end.pages && rest == end.server
              && rows == end.rows && faults == end.faults
    {
      seen := Hydrate(rows, queryOk);
      videos, pages, rest := [], [], server;
      if file.None? {
        return;
      }
      var text := ReadText(decode, Utf8, file.value);
      if text.None? {
        return;
      }
      seen, videos, pages, rest := RunLines(Text.Lines(text.value), seen, server, encode);
    }
  }

  // ---------------------------------------------------------------------
  // Pages of a video: `fetch_video_comments`
  // ---------------------------------------------------------------------

  /** `data.get("data", {}).get("comments", [])`; `None` when either level is no dict. */
  function Comments(data: JValue): (r: Option<JValue>)
    ensures r.Some? <==> data.JObj? && Get(data, "data", JObj([])).value.JObj?
  {
    var inner :- Get(data, "data", JObj([]));
    Get(inner, "comments", JArr([]))
  }

  /** `data.get("data", {}).get("has_more", False)`, on a reply whose comments were read. */
  function HasMore(data: JValue): JValue
    requires Comments(data).Some?
  {
    Get(Get(data, "data", JObj([])).value, "has_more", JBool(false)).value
  }

  /**
   * The body of `fetch_video_comments` after the request: a page is saved
   * when the reply is a 200 JSON object whose comments are truthy, and the
   * next page is `str(int(cursor) + len(comments))`, requested only when
   * `has_more` is truthy. Any exception on the way ends the video.
   */
  function Decide(cursor: string, reply: Response): (d: Decision<string, JValue>)
    ensures d.save.Some? <==> Ok(reply) && Comments(reply.body.value).Some? && Truthy(Comments(reply.body.value).value)
    ensures d.save.Some? ==> d.save == Comments(reply.body.value)
    ensures d.next.Some? <==> d.save.Some? && ParseInt(cursor).Some? && PyLen(d.save.value).Some? &&
                              Truthy(HasMore(reply.body.value))
    ensures d.next.Some? ==> d.next.value == IntToDecimal(ParseInt(cursor).value + PyLen(d.save.value).value)
  {
    if !Ok(reply) then Decision(None, None)
    else
      var data := reply.body.value;
      match Comments(data)
      case None => Decision(None, None)
      case Some(comments) =>
        if !Truthy(comments) then Decision(None, None)
        else if ParseInt(cursor).None? || PyLen(comments).None? then Decision(Some(comments), None)
        else
          var next := IntToDecimal(ParseInt(cursor).value + PyLen(comments).value);
          Decision(Some(comments), if Truthy(HasMore(data)) then Some(next) else None)
  }

  /** A page of comments, with its offset cursor; the state of the requests for one video. */
  type CommentPage = Page<string, JValue>
  type FetchState = State<string, CommentRow, JValue>

  /** What every row stored for video `v` satisfies: it carries the video's id. */
  function OfVideo(v: Video): CommentRow -> bool {
    (row: CommentRow) => row.photoId == v.photoId
  }

  /** Conversions between a cursor and its offset, and the count of comments a page listed, as values. */
  type Reader = string -> Option<int>
  type Shower = int -> string
  type Counter = CommentPage -> nat

  /** Python's `int()` and `str()` on the offset cursor, and `len(comments)` of a page. */
  const ReadInt: Reader := s => ParseInt(s)
  const ShowInt: Shower := i => IntToDecimal(i)
  const CountOf: Counter := page => Listed(page)

  /** The offset cursor: a further page is asked for at `show(read(cursor) + count(page))`. */
  predicate Offsets(read: Reader, show: Shower, count: Counter, st: FetchState, after: FetchState)
    requires |after.pages| > |st.pages|
  {
    var page := after.pages[|st.pages|];
    page.next.Some? ==> read(st.cursor).Some? && page.next.value == show(read(st.cursor).value + count(page))
  }

  /** `Decide`, as a value. */
  const DecideReply: Decider<string, JValue> := (cursor, reply) => Decide(cursor, reply)

  ghost predicate Offsetting(v: Video, read: Reader, show: Shower, count: Counter, body: Turner<string, CommentRow, JValue>)
    requires Lawful(OfVideo(v), body)
  {
    forall st :: Offsets(read, show, count, st, body(st))
  }

  /** One request of `fetch_video_comments` from `st`: the page it adds, and the state the next request starts from. */
  function Turn(v: Video, encode: Encoder, st: FetchState): (after: FetchState)
    ensures Obeys(OfVideo(v), st, after)
  {
    var reply := Next(st.server);
    var d := Decide(st.cursor, reply);
    var s := if d.save.Some? then Save(d.save.value, v, encode, st.rows, st.faults) else Saved(st.rows, st.faults, 0);
    var page := Page(st.cursor, reply, d.save, s.count, d.next);
    assert (st.pages + [page])[..|st.pages|] == st.pages;
    State(d.next.GetOr(st.cursor), Rest(st.server), s.rows, s.faults, st.pages + [page])
  }

  function TurnOf(v: Video, encode: Encoder): Turner<string, CommentRow, JValue> {
    st => Turn(v, encode, st)
  }

  lemma TurnLawful(v: Video, encode: Encoder)
    ensures Lawful(OfVideo(v), TurnOf(v, encode))
    ensures Offsetting(v, ReadInt, ShowInt, CountOf, TurnOf(v, encode))
    ensures Deciding(OfVideo(v), DecideReply, TurnOf(v, encode))
  {
    forall st ensures Obeys(OfVideo(v), st, TurnOf(v, encode)(st)) && Offsets(ReadInt, ShowInt, CountOf, st, TurnOf(v, encode)(st))
                      && Decided(DecideReply, TurnOf(v, encode)(st).pages[|st.pages|]) {
      TurnDecides(v, encode, st);
      DecidedOffsets(st, Turn(v, encode, st));
    }
  }

  /** The page a request adds holds what `Decide` made of its reply. */
  lemma TurnDecides(v: Video, encode: Encoder, st: FetchState)
    ensures Decided(DecideReply, Turn(v, encode, st).pages[|st.pages|])
  {
    var page := Turn(v, encode, st).pages[|st.pages|];
    assert page.cursor == st.cursor && page.reply == Next(st.server);
    assert page.save == Decide(st.cursor, Next(st.server)).save;
  }

  /** A page decided at the cursor it was requested with asks for the next one at `str(int(cursor) + len(comments))`. */
  lemma DecidedOffsets(st: FetchState, after: FetchState)
    requires |after.pages| > |st.pages| && after.pages[|st.pages|].cursor == st.cursor
    requires Decided(DecideReply, after.pages[|st.pages|])
    ensures Offsets(ReadInt, ShowInt, CountOf, st, after)
  {
    var page := after.pages[|st.pages|];
    var d := Decide(page.cursor, page.reply);
    assert page.save == d.save && page.next == d.next;
    if page.next.Some? {
      var offset, len := ParseInt(st.cursor).value, PyLen(d.save.value).value;
      assert CountOf(page) == len && ReadInt(st.cursor) == Some(offset);
      assert ShowInt(offset + len) == IntToDecimal(offset + len);
    }
  }

  /** The pages of one video from `st`. */
  function Fetch(v: Video, encode: Encoder, st: FetchState): FetchState {
    TurnLawful(v, encode);
    Paginate(OfVideo(v), TurnOf(v, encode), st)
  }

  /** `len(comments)` of a saved page, `0` for a page with nothing to save. */
  function Listed(page: CommentPage): nat {
    if page.save.Some? then PyLen(page.save.value).GetOr(0) else 0
  }

  /** The comments the pages listed, together. */
  function ListedAll(count: Counter, pages: seq<CommentPage>): nat {
    if pages == [] then 0 else count(pages[0]) + ListedAll(count, pages[1..])
  }

  /** From page `n` on, every page is requested at `show(c + m)`, where `m` counts the comments the pages from `n` before it listed. */
  ghost predicate CursorsFrom(show: Shower, count: Counter, pages: seq<CommentPage>, n: nat, c: int) {
    forall k :: n <= k < |pages| ==> pages[k].cursor == show(c + ListedAll(count, pages[n..k]))
  }

  /** A page at `show(c)` followed by pages counted on from `c` plus its own count. */
  lemma CursorsCons(show: Shower, count: Counter, pages: seq<CommentPage>, n: nat, c: int)
    requires n < |pages| && pages[n].cursor == show(c)
    requires CursorsFrom(show, count, pages, n + 1, c + count(pages[n]))
    ensures CursorsFrom(show, count, pages, n, c)
  {
    forall k | n <= k < |pages| ensures pages[k].cursor == show(c + ListedAll(count, pages[n..k])) {
      if k == n {
        assert pages[n..k] == [];
      } else {
        ListedAllFront(count, pages, n, k);
        assert pages[k].cursor == show(c + count(pages[n]) + ListedAll(count, pages[n + 1..k]));
      }
    }
  }

  /** The count of pages `n..k` is that of page `n` and those after it. */
  lemma ListedAllFront(count: Counter, pages: seq<CommentPage>, n: nat, k: nat)
    requires n < k <= |pages|
    ensures ListedAll(count, pages[n..k]) == count(pages[n]) + ListedAll(count, pages[n + 1..k])
  {
    assert pages[n..k][1..] == pages[n + 1..k];
  }

  /**
   * The offset cursor, whatever the conversions, as long as reading a shown
   * offset gives it back: from cursor `show(c)`, every page is requested at
   * `show(c + m)`, where `m` counts the comments the pages before it listed.
   */
  lemma {:induction false} PageOffsets(v: Video, body: Turner<string, CommentRow, JValue>, read: Reader, show: Shower, count: Counter, st: FetchState, c: int)
    requires Lawful(OfVideo(v), body) && Offsetting(v, read, show, count, body)
    requires forall i :: read(show(i)) == Some(i)
    requires st.cursor == show(c)
    ensures CursorsFrom(show, count, Paginate(OfVideo(v), body, st).pages, |st.pages|, c)
    decreases |st.server|
  {
    var after := body(st);
    assert Obeys(OfVideo(v), st, after);
    var n := |st.pages|;
    var end := Paginate(OfVideo(v), body, st);
    var page := after.pages[n];
    PaginateHead(OfVideo(v), body, st);
    assert end.pages[n] == end.pages[..n + 1][n] == page;
    if page.next.Some? {
      assert Offsets(read, show, count, st, after);
      assert read(show(c)) == Some(c);
      PageOffsets(v, body, read, show, count, after, c + count(page));
      assert end == Paginate(OfVideo(v), body, after);
      CursorsCons(show, count, end.pages, n, c);
    } else {
      assert end == after;
      assert end.pages[n..n] == [];
    }
  }

  /** The cursor text of an offset reads back as that offset. */
  lemma ReadShowRoundTrip()
    ensures forall i :: ReadInt(ShowInt(i)) == Some(i)
  {
    forall i ensures ReadInt(ShowInt(i)) == Some(i) {
      ParseIntRoundTrip(i);
    }
  }

  /**
   * `next_cursor = str(int(cursor) + len(comments))`: from cursor `"0"`,
   * the `k`-th request of a video is at the decimal text of the number of
   * comments the pages before it listed.
   */
  lemma FetchOffsets(v: Video, encode: Encoder, server: seq<Response>, rows: seq<CommentRow>, faults: seq<bool>)
    ensures DecimalCursors(Fetch(v, encode, State("0", server, rows, faults, [])).pages)
  {
    var st := State("0", server, rows, faults, []);
    TurnLawful(v, encode);
    ReadShowRoundTrip();
    assert st.cursor == ShowInt(0);
    PageOffsets(v, TurnOf(v, encode), ReadInt, ShowInt, CountOf, st, 0);
    CursorsInDecimal(Fetch(v, encode, st).pages);
  }

  /** Each page is requested at the decimal text of the number of comments the pages before it listed. */
  ghost predicate DecimalCursors(pages: seq<CommentPage>) {
    forall k :: 0 <= k < |pages| ==> pages[k].cursor == IntToDecimal(ListedAll(CountOf, pages[..k]))
  }

  lemma CursorsInDecimal(pages: seq<CommentPage>)
    requires CursorsFrom(ShowInt, CountOf, pages, 0, 0)
    ensures DecimalCursors(pages)
  {
    forall k | 0 <= k < |pages| ensures pages[k].cursor == IntToDecimal(ListedAll(CountOf, pages[..k])) {
      assert pages[0..k] == pages[..k];
    }
  }

  /**
   * The stop rule of the real request: every page holds what `Decide` made
   * of its reply, so a further page follows exactly a 200 JSON reply with
   * truthy comments, a parsable cursor, a `len()` and a truthy `has_more`.
   */
  lemma PagesDecided(v: Video, encode: Encoder, st: FetchState)
    ensures var pages := Fetch(v, encode, st).pages;
            forall k :: |st.pages| <= k < |pages| ==>
              pages[k].save == Decide(pages[k].cursor, pages[k].reply).save &&
              pages[k].next == Decide(pages[k].cursor, pages[k].reply).next
  {
    TurnLawful(v, encode);
    PaginateDecided(OfVideo(v), TurnOf(v, encode), DecideReply, st);
    var pages := Fetch(v, encode, st).pages;
    forall k | |st.pages| <= k < |pages|
      ensures pages[k].save == Decide(pages[k].cursor, pages[k].reply).save &&
              pages[k].next == Decide(pages[k].cursor, pages[k].reply).next
    {
      assert Decided(DecideReply, pages[k]);
    }
  }

  // ---------------------------------------------------------------------
  // Task lines and the resume set: `main`
  // ---------------------------------------------------------------------

  /** `aweme_id video_author_id video_author_name` of a stripped line; `None` for a blank line or one with fewer than three words. */
  function ParseTask(line: string): (t: Option<Video>)
    ensures t.Some? ==> && t.value.photoId != [] && Text.NoSpace(t.value.photoId)
                        && t.value.authorId != [] && Text.NoSpace(t.value.authorId)
                        && t.value.authorName != [] && Text.NoSpace(t.value.authorName)
  {
    var parts := Text.Words(Text.Strip(line));
    if |parts| >= 3 then Some(Video(parts[0], parts[1], parts[2])) else None
  }

  /**
   * A line names a video exactly when it has at least three words: the
   * first three, in order, each non-empty and free of whitespace; a blank
   * line names none.
   */
  lemma ParseTaskWords(line: string)
    ensures Text.AllSpace(line) ==> ParseTask(line).None?
    ensures ParseTask(line).Some? <==> |Text.Words(Text.Strip(line))| >= 3
    ensures ParseTask(line).Some? ==>
              var v := ParseTask(line).value;
              && Text.Words(Text.Strip(line))[..3] == [v.photoId, v.authorId, v.authorName]
              && v.photoId != [] && Text.NoSpace(v.photoId) && v.authorId != [] && v.authorName != []
  {
  }

  /** A line of three words separated by spaces names the video of those three words. */
  lemma ParseTaskOfLine(id: string, author: string, name: string)
    requires id != [] && author != [] && name != []
    requires Text.NoSpace(id) && Text.NoSpace(author) && Text.NoSpace(name)
    ensures ParseTask(id + " " + author + " " + name) == Some(Video(id, author, name))
  {
    var line := id + " " + author + " " + name;
    StripOfLine(id, author, name);
    WordsOfLine(id, author, name);
    assert Text.Words(Text.Strip(line)) == [id, author, name];
  }

  /** A line that starts and ends with a word is its own `strip()`. */
  lemma StripOfLine(id: string, author: string, name: string)
    requires id != [] && name != [] && Text.NoSpace(id) && Text.NoSpace(name)
    ensures Text.Strip(id + " " + author + " " + name) == id + " " + author + " " + name
  {
    var line := id + " " + author + " " + name;
    assert line[0] == id[0] && line[|line| - 1] == name[|name| - 1];
    Text.StripKeepsTrimmed(line);
  }

  /** `split()` of three words joined by single spaces gives back the three words. */
  lemma WordsOfLine(id: string, author: string, name: string)
    requires id != [] && author != [] && name != []
    requires Text.NoSpace(id) && Text.NoSpace(author) && Text.NoSpace(name)
    ensures Text.Words(id + " " + author + " " + name) == [id, author, name]
  {
    Text.WordsOfWord(author, name);
    Text.WordsOfSingle(name);
    Text.WordsOfWord(id, author + " " + name);
    assert id + " " + author + " " + name == id + " " + (author + " " + name);
  }

  /** `existing_videos`: the `photo_id`s the query returned (`photo_id != ''`), or none when the query raised. */
  function Hydrate(rows: seq<CommentRow>, queryOk: bool): (seen: set<string>)
    ensures forall id :: id in seen <==> queryOk && id != "" && exists i :: 0 <= i < |rows| && rows[i].photoId == id
  {
    if queryOk then set i | 0 <= i < |rows| && rows[i].photoId != "" :: rows[i].photoId else {}
  }

  /** The resume set, the replies left, the collection, and the videos fetched with their pages. */
  datatype Run = Run(seen: set<string>, server: seq<Response>, rows: seq<CommentRow>, faults: seq<bool>,
                     videos: seq<Video>, pages: seq<seq<CommentPage>>)

  /** The pages of one video, from the state before it, as a function. */
  type Fetcher = (Video, FetchState) -> FetchState

  function FetcherOf(encode: Encoder): Fetcher {
    (v, st) => Fetch(v, encode, st)
  }

  /** The task each line names, in file order. */
  function Tasks(lines: seq<string>): (tasks: seq<Option<Video>>)
    ensures |tasks| == |lines| && forall i :: 0 <= i < |lines| ==> tasks[i] == ParseTask(lines[i])
  {
    seq(|lines|, i requires 0 <= i < |lines| => ParseTask(lines[i]))
  }

  /** One task line: skipped when malformed or already in the resume set; otherwise its video is fetched and its id added. */
  function Process(task: Option<Video>, fetch: Fetcher, r: Run): (end: Run)
    ensures task.None? || task.value.photoId in r.seen ==> end == r
    ensures task.Some? ==> end.seen == r.seen + {task.value.photoId}
    ensures task.Some? && task.value.photoId !in r.seen ==>
              end.videos == r.videos + [task.value] && |end.pages| == |r.pages| + 1 && end.pages[..|r.pages|] == r.pages
  {
    match task
    case None => r
    case Some(v) =>
      if v.photoId in r.seen then r
      else
        var end := fetch(v, State("0", r.server, r.rows, r.faults, []));
        Run(r.seen + {v.photoId}, end.server, end.rows, end.faults, r.videos + [v], r.pages + [end.pages])
  }

  /** Running the first `i + 1` tasks is running the first `i`, then task `i`. */
  lemma RunTasksSnoc(tasks: seq<Option<Video>>, i: nat, fetch: Fetcher, r: Run)
    requires i < |tasks|
    ensures RunTasks(tasks[..i + 1], fetch, r) == Process(tasks[i], fetch, RunTasks(tasks[..i], fetch, r))
  {
    assert tasks[..i + 1][..i] == tasks[..i];
  }

  /** The task lines in file order. */
  function RunTasks(tasks: seq<Option<Video>>, fetch: Fetcher, r: Run): (end: Run)
    ensures r.seen <= end.seen
    ensures |r.videos| <= |end.videos| && end.videos[..|r.videos|] == r.videos
  {
    if tasks == [] then r else Process(tasks[|tasks| - 1], fetch, RunTasks(tasks[..|tasks| - 1], fetch, r))
  }

  /** A video id named by one of the tasks. */
  ghost predicate Named(tasks: seq<Option<Video>>, id: string) {
    exists i :: 0 <= i < |tasks| && tasks[i].Some? && tasks[i].value.photoId == id
  }

  /** The resume set ends as the hydrated ids plus every id a line names. */
  lemma {:induction false} ResumeSeen(tasks: seq<Option<Video>>, fetch: Fetcher, r: Run)
    ensures var end := RunTasks(tasks, fetch, r);
            forall id :: id in end.seen <==> id in r.seen || Named(tasks, id)
    decreases |tasks|
  {
    if tasks != [] {
      var front := tasks[..|tasks| - 1];
      var task := tasks[|tasks| - 1];
      ResumeSeen(front, fetch, r);
      var mid := RunTasks(front, fetch, r);
      var end := RunTasks(tasks, fetch, r);
      assert end.seen == if task.Some? then mid.seen + {task.value.photoId} else mid.seen;
      forall id | Named(front, id) ensures Named(tasks, id) {
        var i :| 0 <= i < |front| && front[i].Some? && front[i].value.photoId == id;
        assert tasks[i] == front[i];
      }
      forall id | Named(tasks, id) ensures id in end.seen || id in r.seen {
        var i :| 0 <= i < |tasks| && tasks[i].Some? && tasks[i].value.photoId == id;
        if i < |front| {
          assert front[i] == tasks[i];
          assert Named(front, id);
        }
      }
    }
  }

  /**
   * The videos fetched are named by the lines and were not in the set
   * before, and no id is fetched twice, however often its line repeats.
   */
  lemma {:induction false} ResumeVideos(tasks: seq<Option<Video>>, fetch: Fetcher, r: Run)
    ensures var end := RunTasks(tasks, fetch, r);
            && |r.videos| <= |end.videos| && end.videos[..|r.videos|] == r.videos
            && |end.pages| - |r.pages| == |end.videos| - |r.videos|
            && (forall k :: |r.videos| <= k < |end.videos| ==> end.videos[k].photoId !in r.seen && Named(tasks, end.videos[k].photoId))
            && (forall k :: |r.videos| <= k < |end.videos| ==> end.videos[k].photoId in end.seen)
            && (forall j, k :: |r.videos| <= j < k < |end.videos| ==> end.videos[j].photoId != end.videos[k].photoId)
    decreases |tasks|
  {
    if tasks != [] {
      var front := tasks[..|tasks| - 1];
      var task := tasks[|tasks| - 1];
      ResumeVideos(front, fetch, r);
      ResumeSeen(front, fetch, r);
      var mid := RunTasks(front, fetch, r);
      var end := RunTasks(tasks, fetch, r);
      forall k | |r.videos| <= k < |mid.videos| ensures Named(tasks, mid.videos[k].photoId) {
        var id := mid.videos[k].photoId;
        var i :| 0 <= i < |front| && front[i].Some? && front[i].value.photoId == id;
        assert tasks[i] == front[i];
      }
      if task.Some? && task.value.photoId !in mid.seen {
        var v := task.value;
        assert Named(tasks, v.photoId) by {
          assert tasks[|tasks| - 1] == task;
        }
        assert end.videos == mid.videos + [v];
        assert end.videos[..|mid.videos|] == mid.videos;
        assert end.videos[..|r.videos|] == mid.videos[..|r.videos|];
      }
    }
  }

  /** A fetch that only appends rows, each tagged with the video fetched. */
  predicate Tagged(v: Video, st: FetchState, end: FetchState) {
    |st.rows| <= |end.rows| && end.rows[..|st.rows|] == st.rows &&
    forall i :: |st.rows| <= i < |end.rows| ==> end.rows[i].photoId == v.photoId
  }

  ghost predicate Tags(fetch: Fetcher) {
    forall v, st :: Tagged(v, st, fetch(v, st))
  }

  lemma FetcherTags(encode: Encoder)
    ensures Tags(FetcherOf(encode))
  {
    forall v, st ensures Tagged(v, st, FetcherOf(encode)(v, st)) {
      TurnLawful(v, encode);
      PaginateRows(OfVideo(v), TurnOf(v, encode), st);
    }
  }

  /** Every stored row's video id is in the set, so a later run skips every video that stored anything. */
  ghost predicate Covers(r: Run) {
    Hydrate(r.rows, true) <= r.seen
  }

  lemma {:induction false} RunKeepsCover(tasks: seq<Option<Video>>, fetch: Fetcher, r: Run)
    requires Tags(fetch) && Covers(r)
    ensures Covers(RunTasks(tasks, fetch, r))
    decreases |tasks|
  {
    if tasks != [] {
      var mid := RunTasks(tasks[..|tasks| - 1], fetch, r);
      RunKeepsCover(tasks[..|tasks| - 1], fetch, r);
      var task := tasks[|tasks| - 1];
      if task.Some? && task.value.photoId !in mid.seen {
        var v := task.value;
        var st := State("0", mid.server, mid.rows, mid.faults, []);
        assert Tagged(v, st, fetch(v, st));
        var end := RunTasks(tasks, fetch, r);
        forall id | id in Hydrate(end.rows, true) ensures id in end.seen {
          var i :| 0 <= i < |end.rows| && end.rows[i].photoId == id;
          if i < |mid.rows| {
            assert end.rows[i] == end.rows[..|mid.rows|][i];
            assert id in Hydrate(mid.rows, true);
          }
        }
      }
    }
  }
}
