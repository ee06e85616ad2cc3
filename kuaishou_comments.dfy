/**
 * The Kuaishou comment fetcher (`Kuaishou/comment_fetcher.py`): page through
 * the comments of one video with the `pcursor` the API returns, and store
 * each root comment, followed by the sub-comments the page's
 * `subCommentsMap` lists under its id, as rows of the `kuaishou_comments`
 * collection.
 */
module KuaishouComments {
  import opened Wrappers
  import opened Json
  import opened Http
  import opened Embedding
  import opened VectorStore
  import opened Paging

  /** A row of `kuaishou_comments`. */
  datatype CommentRow = CommentRow(
    commentId: int, photoId: string, authorName: string, authorId: int, content: string, vector: Vector,
    time: string, likes: int, area: string, isReply: bool)

  // ---------------------------------------------------------------------
  // One comment: `process_and_insert_comment`
  // ---------------------------------------------------------------------

  /**
   * The entity built for a comment; `None` when building it raises: a
   * comment that is not a dict, a text the model cannot embed, or a
   * `comment_id`, `author_id` or `likedCount` that `int()` refuses.
   */
  function Entity(c: JValue, isReply: bool, photoId: string, encode: Encoder): (row: Option<CommentRow>)
    ensures row.Some? ==> c.JObj? && row.value.photoId == photoId && row.value.isReply == isReply
    ensures row.Some? ==> Get(c, "content", JStr("")).value == JStr(row.value.content) &&
                          encode(row.value.content) == Some(row.value.vector)
  {
    if !c.JObj? then None
    else
      var content := Get(c, "content", JStr("")).value;
      if !content.JStr? then None
      else
        var vector :- encode(content.s);
        var cid :- PyInt(Get(c, "comment_id", JInt(0)).value);
        var uid :- PyInt(Get(c, "author_id", JInt(0)).value);
        var likes :- PyInt(Get(c, "likedCount", JInt(0)).value);
        Some(CommentRow(cid, photoId, PyStr(Get(c, "author_name", JStr("")).value), uid, content.s, vector,
                        PyStr(Get(c, "time", JStr("")).value), likes, PyStr(Get(c, "authorArea", JStr("")).value), isReply))
  }

  /** A comment that carries only its text is stored with `0` for every number and `""` for every other text. */
  lemma EntityDefaults(text: string, isReply: bool, photoId: string, encode: Encoder)
    requires encode(text).Some?
    ensures var row := Entity(JObj([Field("content", JStr(text))]), isReply, photoId, encode);
            && row.Some?
            && row.value.commentId == 0 && row.value.authorId == 0 && row.value.likes == 0
            && row.value.authorName == "" && row.value.time == "" && row.value.area == ""
            && row.value.content == text
  {
    var c := JObj([Field("content", JStr(text))]);
    assert Get(c, "content", JStr("")) == Some(JStr(text));
    assert Get(c, "comment_id", JInt(0)) == Some(JInt(0));
    assert Get(c, "author_id", JInt(0)) == Some(JInt(0));
    assert Get(c, "likedCount", JInt(0)) == Some(JInt(0));
    assert Get(c, "author_name", JStr("")) == Some(JStr(""));
    assert Get(c, "time", JStr("")) == Some(JStr(""));
    assert Get(c, "authorArea", JStr("")) == Some(JStr(""));
  }

  /** The batch `collection.insert(entity)` sends; Milvus refuses numbers outside `INT64`. */
  function Batch(row: CommentRow): (batch: Option<seq<CommentRow>>)
    ensures batch.Some? <==> IsInt64(row.commentId) && IsInt64(row.authorId) && IsInt64(row.likes)
    ensures batch.Some? ==> batch.value == [row]
  {
    if IsInt64(row.commentId) && IsInt64(row.authorId) && IsInt64(row.likes) then Some([row]) else None
  }

  /**
   * One `process_and_insert_comment(comment)`: any exception is swallowed;
   * an insert is attempted once the entity exists. No call passes
   * `is_reply`, so every comment, root or sub-comment, is built with the
   * default `False`.
   */
  function InsertOne(rows: seq<CommentRow>, faults: seq<bool>, c: JValue, photoId: string, encode: Encoder): (s: Stored<CommentRow>)
    ensures |rows| <= |s.rows| <= |rows| + 1 && s.rows[..|rows|] == rows
    ensures |s.rows| == |rows| + 1 ==> Entity(c, false, photoId, encode) == Some(s.rows[|rows|])
  {
    match Entity(c, false, photoId, encode)
    case None => Stored(rows, faults, false)
    case Some(row) => InsertOutcome(rows, faults, Batch(row))
  }

  // ---------------------------------------------------------------------
  // A page of comments: `save_to_milvus`
  // ---------------------------------------------------------------------

  /**
   * The sub-comments stored after a root comment:
   * `sub_comments_map[str(comment.get("comment_id"))].get("subComments", [])`
   * when that key is `in` the map, none otherwise; `None` when a step
   * raises (a comment that is not a dict, a map that supports no `in` or
   * cannot be indexed by the key, an entry that is not a dict, or
   * sub-comments without a `len()`, which are exactly those that cannot be
   * iterated).
   */
  function SubsOf(c: JValue, subMap: JValue): (r: Option<seq<JValue>>)
    ensures !c.JObj? ==> r.None?
  {
    var id :- Get(c, "comment_id", JNull);
    var key := PyStr(id);
    var present :- In(subMap, key);
    if !present then Some([])
    else
      var entry :- Subscript(subMap, key);
      var subs :- Get(entry, "subComments", JArr([]));
      Iterate(subs)
  }


  /** A dict comment whose id keys an entry listing `subs` has exactly those sub-comments, in order. */
  lemma SubsOfPresent(c: JValue, subMap: JValue, subs: seq<JValue>)
    requires c.JObj? && subMap.JObj?
    requires var entry := Lookup(subMap.fields, PyStr(Get(c, "comment_id", JNull).value));
             entry.Some? && entry.value.JObj? && Lookup(entry.value.fields, "subComments") == Some(JArr(subs))
    ensures SubsOf(c, subMap) == Some(subs)
  {
  }

  /** The comments `save_to_milvus` stores, in order; `complete` is false when a sub-comment lookup raised and ended the page. */
  datatype Flat = Flat(entries: seq<JValue>, complete: bool)

  /** What the loop body stores for one root comment: the comment, then its sub-comments; incomplete when their lookup raised. */
  function OneRoot(c: JValue, subMap: JValue): (one: Flat)
    ensures |one.entries| >= 1 && one.entries[0] == c
    ensures one.complete <==> SubsOf(c, subMap).Some?
    ensures one.complete ==> one.entries[1..] == SubsOf(c, subMap).value
    ensures !one.complete ==> one.entries == [c]
  {
    match SubsOf(c, subMap)
    case None => Flat([c], false)
    case Some(subs) => Flat([c] + subs, true)
  }

  /** A dict root comment whose id is not a key of the dict map contributes only itself. */
  lemma OneRootAbsent(c: JValue, subMap: JValue)
    requires c.JObj? && subMap.JObj?
    requires Lookup(subMap.fields, PyStr(Get(c, "comment_id", JNull).value)).None?
    ensures SubsOf(c, subMap) == Some([]) && OneRoot(c, subMap) == Flat([c], true)
  {
    assert [c] + [] == [c];
  }

  /** Each root comment, immediately followed by its sub-comments; `total_count` is the number of entries. */
  function Flatten(roots: seq<JValue>, subMap: JValue): Flat {
    if roots == [] then Flat([], true)
    else
      var f := Flatten(roots[..|roots| - 1], subMap);
      if !f.complete then f
      else
        var one := OneRoot(roots[|roots| - 1], subMap);
        Flat(f.entries + one.entries, one.complete)
  }

  /** The number of sub-comments listed for the roots. */
  function SubTotal(roots: seq<JValue>, subMap: JValue): nat {
    if roots == [] then 0
    else SubTotal(roots[..|roots| - 1], subMap) + |SubsOf(roots[|roots| - 1], subMap).GetOr([])|
  }

  /** The loop runs to the end exactly when no sub-comment lookup raises. */
  lemma {:induction false} FlattenComplete(roots: seq<JValue>, subMap: JValue)
    ensures Flatten(roots, subMap).complete <==> forall i :: 0 <= i < |roots| ==> SubsOf(roots[i], subMap).Some?
    decreases |roots|
  {
    if roots != [] {
      var front := roots[..|roots| - 1];
      FlattenComplete(front, subMap);
      assert Flatten(roots, subMap).complete <==> Flatten(front, subMap).complete && SubsOf(roots[|roots| - 1], subMap).Some?;
      ListedSnoc(roots, subMap, front);
    }
  }

  /** Every root comment's lookup succeeds exactly when those of the front and of the last one do. */
  lemma ListedSnoc(roots: seq<JValue>, subMap: JValue, front: seq<JValue>)
    requires roots != [] && front == roots[..|roots| - 1]
    ensures (forall i :: 0 <= i < |roots| ==> SubsOf(roots[i], subMap).Some?) <==>
            (forall i :: 0 <= i < |front| ==> SubsOf(front[i], subMap).Some?) && SubsOf(roots[|roots| - 1], subMap).Some?
  {
    assert forall i :: 0 <= i < |front| ==> front[i] == roots[i];
  }

  /** When the loop ran to the end, `total_count` is the number of root comments plus the number of sub-comments listed for them. */
  lemma {:induction false} FlattenCounts(roots: seq<JValue>, subMap: JValue)
    requires Flatten(roots, subMap).complete
    ensures |Flatten(roots, subMap).entries| == |roots| + SubTotal(roots, subMap)
    decreases |roots|
  {
    if roots != [] {
      FlattenCounts(roots[..|roots| - 1], subMap);
    }
  }

  /** When a lookup raised, the loop ended right after the root comment whose lookup it was. */
  lemma {:induction false} FlattenEndsAtFault(roots: seq<JValue>, subMap: JValue)
    requires !Flatten(roots, subMap).complete
    ensures var entries := Flatten(roots, subMap).entries;
            entries != [] && SubsOf(entries[|entries| - 1], subMap).None?
    decreases |roots|
  {
    var front := roots[..|roots| - 1];
    if Flatten(front, subMap).complete {
      assert Flatten(roots, subMap).entries == Flatten(front, subMap).entries + [roots[|roots| - 1]];
    } else {
      FlattenEndsAtFault(front, subMap);
    }
  }

  /** One more root comment, after a prefix whose lookups all succeeded. */
  lemma FlattenStep(roots: seq<JValue>, subMap: JValue, i: nat)
    requires i < |roots| && Flatten(roots[..i], subMap).complete
    ensures Flatten(roots[..i + 1], subMap) ==
            Flat(Flatten(roots[..i], subMap).entries + OneRoot(roots[i], subMap).entries, OneRoot(roots[i], subMap).complete)
  {
    assert roots[..i + 1][..i] == roots[..i];
  }

  /** Once a lookup has raised, later root comments change nothing. */
  lemma {:induction false} FlattenStops(roots: seq<JValue>, subMap: JValue, k: nat)
    requires k <= |roots| && !Flatten(roots[..k], subMap).complete
    ensures Flatten(roots, subMap) == Flatten(roots[..k], subMap)
    decreases |roots|
  {
    if k == |roots| {
      assert roots[..k] == roots;
    } else {
      var front := roots[..|roots| - 1];
      assert front[..k] == roots[..k];
      FlattenStops(front, subMap, k);
    }
  }

  /** When the whole page was stored, so was each prefix of its root comments, first. */
  lemma {:induction false} FlattenPrefix(roots: seq<JValue>, subMap: JValue, j: nat)
    requires j <= |roots| && Flatten(roots, subMap).complete
    ensures var f, g := Flatten(roots, subMap), Flatten(roots[..j], subMap);
            g.complete && |g.entries| <= |f.entries| && f.entries[..|g.entries|] == g.entries
    decreases |roots|
  {
    if j == |roots| {
      assert roots[..j] == roots;
    } else {
      var front := roots[..|roots| - 1];
      assert front[..j] == roots[..j];
      FlattenPrefix(front, subMap, j);
      var f, mid, g := Flatten(roots, subMap).entries, Flatten(front, subMap).entries, Flatten(roots[..j], subMap).entries;
      assert f[..|mid|] == mid;
      assert f[..|g|] == mid[..|g|];
    }
  }

  /**
   * Where each root comment lands: when the page was stored whole, root
   * comment `i` is entry `i + m`, where `m` counts the sub-comments of the
   * root comments before it, and its own sub-comments follow it in order.
   */
  lemma FlattenPlaces(roots: seq<JValue>, subMap: JValue, i: nat, at: nat)
    requires i < |roots| && Flatten(roots, subMap).complete
    requires at == i + SubTotal(roots[..i], subMap)
    ensures SubsOf(roots[i], subMap).Some?
    ensures Placed(Flatten(roots, subMap).entries, at, roots[i], SubsOf(roots[i], subMap).value)
  {
    var entries, before, one := Flatten(roots, subMap).entries, Flatten(roots[..i], subMap).entries, OneRoot(roots[i], subMap).entries;
    FlattenUpTo(roots, subMap, i);
    var subs := SubsOf(roots[i], subMap).value;
    assert one == [roots[i]] + subs;
    PlacesOf(entries, before, roots[i], subs, at);
  }

  /** A page stored whole starts with the entries of its first `i` root comments, then those of root comment `i`. */
  lemma FlattenUpTo(roots: seq<JValue>, subMap: JValue, i: nat)
    requires i < |roots| && Flatten(roots, subMap).complete
    ensures var before, one := Flatten(roots[..i], subMap).entries, OneRoot(roots[i], subMap);
            && one.complete && |before| == i + SubTotal(roots[..i], subMap)
            && |before + one.entries| <= |Flatten(roots, subMap).entries|
            && Flatten(roots, subMap).entries[..|before + one.entries|] == before + one.entries
  {
    FlattenPrefix(roots, subMap, i + 1);
    FlattenPrefix(roots, subMap, i);
    FlattenStep(roots, subMap, i);
    FlattenCounts(roots[..i], subMap);
  }

  /** `entries` hold `c` at `at`, and `subs` right after it. */
  predicate Placed(entries: seq<JValue>, at: nat, c: JValue, subs: seq<JValue>) {
    at + 1 + |subs| <= |entries| && entries[at] == c && entries[at + 1..at + 1 + |subs|] == subs
  }

  /** Entries that start with `before`, then `c`, then `subs`, hold `c` at `|before|` and `subs` right after it. */
  lemma PlacesOf(entries: seq<JValue>, before: seq<JValue>, c: JValue, subs: seq<JValue>, at: nat)
    requires at == |before|
    requires |before + ([c] + subs)| <= |entries| && entries[..|before + ([c] + subs)|] == before + ([c] + subs)
    ensures Placed(entries, at, c, subs)
  {
    var whole := before + ([c] + subs);
    assert entries[at] == whole[at];
    assert entries[at + 1..at + 1 + |subs|] == entries[..|whole|][at + 1..];
  }

  /** With the default `{}` for `subCommentsMap`, a page of dict comments stores exactly its root comments, in order. */
  lemma {:induction false} FlattenWithoutMap(roots: seq<JValue>)
    requires forall i :: 0 <= i < |roots| ==> roots[i].JObj?
    ensures Flatten(roots, JObj([])) == Flat(roots, true)
    decreases |roots|
  {
    if roots != [] {
      var front := roots[..|roots| - 1];
      DictsFront(roots, front);
      FlattenWithoutMap(front);
      var last := roots[|roots| - 1];
      OneRootAbsent(last, JObj([]));
      FlattenSnoc(roots, JObj([]));
      assert front + [last] == roots;
    }
  }

  /** The loop's last root comment, after a front whose lookups all succeeded. */
  lemma FlattenSnoc(roots: seq<JValue>, subMap: JValue)
    requires roots != [] && Flatten(roots[..|roots| - 1], subMap).complete
    ensures var one := OneRoot(roots[|roots| - 1], subMap);
            Flatten(roots, subMap) == Flat(Flatten(roots[..|roots| - 1], subMap).entries + one.entries, one.complete)
  {
  }

  lemma DictsFront(roots: seq<JValue>, front: seq<JValue>)
    requires roots != [] && front == roots[..|roots| - 1]
    requires forall i :: 0 <= i < |roots| ==> roots[i].JObj?
    ensures forall i :: 0 <= i < |front| ==> front[i].JObj?
  {
    assert forall i :: 0 <= i < |front| ==> front[i] == roots[i];
  }

  /** The entries inserted one after the other. */
  function InsertEntries(rows: seq<CommentRow>, faults: seq<bool>, entries: seq<JValue>, photoId: string, encode: Encoder): (s: Stored<CommentRow>)
    ensures |rows| <= |s.rows| <= |rows| + |entries| && s.rows[..|rows|] == rows
    ensures forall i :: |rows| <= i < |s.rows| ==> s.rows[i].photoId == photoId && !s.rows[i].isReply
  {
    if entries == [] then Stored(rows, faults, true)
    else
      var s := InsertEntries(rows, faults, entries[..|entries| - 1], photoId, encode);
      var t := InsertOne(s.rows, s.faults, entries[|entries| - 1], photoId, encode);
      assert t.rows[..|rows|] == t.rows[..|s.rows|][..|rows|];
      t
  }

  lemma InsertEntriesSnoc(rows: seq<CommentRow>, faults: seq<bool>, entries: seq<JValue>, c: JValue, photoId: string, encode: Encoder)
    ensures var s := InsertEntries(rows, faults, entries, photoId, encode);
            InsertEntries(rows, faults, entries + [c], photoId, encode) == InsertOne(s.rows, s.faults, c, photoId, encode)
  {
    assert (entries + [c])[..|entries|] == entries;
  }

  /** Inserting two runs of entries one after the other is inserting their concatenation. */
  lemma {:induction false} InsertEntriesAppend(rows: seq<CommentRow>, faults: seq<bool>, first: seq<JValue>, second: seq<JValue>,
                                               photoId: string, encode: Encoder)
    ensures var s := InsertEntries(rows, faults, first, photoId, encode);
            var t := InsertEntries(s.rows, s.faults, second, photoId, encode);
            var u := InsertEntries(rows, faults, first + second, photoId, encode);
            u.rows == t.rows && u.faults == t.faults
    decreases |second|
  {
    if second == [] {
      assert first + second == first;
    } else {
      var front := second[..|second| - 1];
      var last := second[|second| - 1];
      var s := InsertEntries(rows, faults, first, photoId, encode);
      var mid := InsertEntries(s.rows, s.faults, front, photoId, encode);
      var whole := InsertEntries(rows, faults, first + front, photoId, encode);
      InsertEntriesAppend(rows, faults, first, front, photoId, encode);
      assert whole.rows == mid.rows && whole.faults == mid.faults;
      assert second == front + [last];
      InsertEntriesSnoc(s.rows, s.faults, front, last, photoId, encode);
      assert first + second == (first + front) + [last];
      InsertEntriesSnoc(rows, faults, first + front, last, photoId, encode);
    }
  }

  /** `save_to_milvus` on a truthy `root_comments`: nothing when `len()` refuses it; `count` is `total_count`. */
  datatype Saved = Saved(rows: seq<CommentRow>, faults: seq<bool>, count: nat)

  function Save(comments: JValue, subMap: JValue, photoId: string, encode: Encoder, rows: seq<CommentRow>, faults: seq<bool>): (s: Saved)
    ensures |rows| <= |s.rows| && s.rows[..|rows|] == rows
    ensures forall i :: |rows| <= i < |s.rows| ==> s.rows[i].photoId == photoId && !s.rows[i].isReply
  {
    match Iterate(comments)
    case None => Saved(rows, faults, 0)
    case Some(roots) =>
      var f := Flatten(roots, subMap);
      var s := InsertEntries(rows, faults, f.entries, photoId, encode);
      Saved(s.rows, s.faults, |f.entries|)
  }

  lemma SnocSlice(c: JValue, list: seq<JValue>, j: nat)
    requires j < |list|
    ensures [c] + list[..j + 1] == ([c] + list[..j]) + [list[j]]
  {
    assert list[..j + 1] == list[..j] + [list[j]];
  }

  class CommentStore {
    /** Every row inserted so far, oldest first. */
    var rows: seq<CommentRow>
    /** Scripted outcome of the coming insert calls: `true` makes that call raise. */
    var faults: seq<bool>

    constructor (rows: seq<CommentRow>, faults: seq<bool>)
      ensures this.rows == rows && this.faults == faults
    {
      this.rows := rows;
      this.faults := faults;
    }

    /** `process_and_insert_comment(comment)`. */
    method ProcessAndInsert(c: JValue, photoId: string, encode: Encoder)
      modifies this
      ensures rows == InsertOne(old(rows), old(faults), c, photoId, encode).rows
      ensures faults == InsertOne(old(rows), old(faults), c, photoId, encode).faults
    {
      var row := Entity(c, false, photoId, encode);
      if row.Some? {
        var s := InsertOutcome(rows, faults, Batch(row.value));
        rows, faults := s.rows, s.faults;
      }
    }

    /** The body of the loop of `save_to_milvus` for one root comment, with the inner loop over its sub-comments. */
    method SaveRoot(c: JValue, subMap: JValue, photoId: string, encode: Encoder) returns (one: Flat)
      modifies this
      ensures one == OneRoot(c, subMap)
      ensures rows == InsertEntries(old(rows), old(faults), one.entries, photoId, encode).rows
      ensures faults == InsertEntries(old(rows), old(faults), one.entries, photoId, encode).faults
    {
      InsertEntriesSnoc(rows, faults, [], c, photoId, encode);
      ProcessAndInsert(c, photoId, encode);
      var subs := SubsOf(c, subMap);
      if subs.None? {
        return Flat([c], false);
      }
      var list := subs.value;
      ghost var done := [c];
      for j := 0 to |list|
        invariant done == [c] + list[..j]
        invariant rows == InsertEntries(old(rows), old(faults), done, photoId, encode).rows
        invariant faults == InsertEntries(old(rows), old(faults), done, photoId, encode).faults
      {
        InsertEntriesSnoc(old(rows), old(faults), done, list[j], photoId, encode);
        ProcessAndInsert(list[j], photoId, encode);
        SnocSlice(c, list, j);
        done := done + [list[j]];
      }
      assert list[..|list|] == list;
      one := Flat([c] + list, true);
    }

    /** `save_to_milvus(collection, comments, sub_comments_map, photo_id)`: nothing when `len()` refuses the comments, else the loop over them. */
    method SaveToMilvus(comments: JValue, subMap: JValue, photoId: string, encode: Encoder) returns (count: nat)
      modifies this
      ensures Saved(rows, faults, count) == Save(comments, subMap, photoId, encode, old(rows), old(faults))
    {
      var items := Iterate(comments);
      if items.None? {
        return 0;
      }
      count := SaveRoots(items.value, subMap, photoId, encode);
    }

    /** The loop over the root comments: each with its sub-comments, until a sub-comment lookup raises. */
    method SaveRoots(roots: seq<JValue>, subMap: JValue, photoId: string, encode: Encoder) returns (count: nat)
      modifies this
      ensures var f := Flatten(roots, subMap);
              && count == |f.entries|
              && rows == InsertEntries(old(rows), old(faults), f.entries, photoId, encode).rows
              && faults == InsertEntries(old(rows), old(faults), f.entries, photoId, encode).faults
    {
      count := 0;
      ghost var done: seq<JValue> := [];
      for i := 0 to |roots|
        invariant Flatten(roots[..i], subMap) == Flat(done, true)
        invariant count == |done|
        invariant rows == InsertEntries(old(rows), old(faults), done, photoId, encode).rows
        invariant faults == InsertEntries(old(rows), old(faults), done, photoId, encode).faults
      {
        FlattenStep(roots, subMap, i);
        InsertEntriesAppend(old(rows), old(faults), done, OneRoot(roots[i], subMap).entries, photoId, encode);
        var one := SaveRoot(roots[i], subMap, photoId, encode);
        done := done + one.entries;
        count := count + |one.entries|;
        if !one.complete {
          FlattenStops(roots, subMap, i + 1);
          return;
        }
      }
      assert roots[..|roots|] == roots;
    }

    /** `fetch_video_comments(photo_id, collection)` from pcursor `""`, each further page in turn instead of by a recursive call. */
    method FetchVideoComments(photoId: string, server: seq<Response>, encode: Encoder) returns (pages: seq<CommentPage>, rest: seq<Response>)
      modifies this
      ensures var end := Fetch(photoId, encode, State(JStr(""), server, old(rows), old(faults), []));
              pages == end.pages && rest == end.server && rows == end.rows && faults == end.faults
    {
      ghost var start := State(JStr(""), server, rows, faults, []);
      var cursor := JStr("");
      pages, rest := [], server;
      var more := true;
      while more
        invariant more ==> Fetch(photoId, encode, start) == Fetch(photoId, encode, State(cursor, rest, rows, faults, pages))
        invariant !more ==> Fetch(photoId, encode, start) == State(cursor, rest, rows, faults, pages)
        decreases |rest| + (if more then 1 else 0)
      {
        ghost var r := Turn(photoId, encode, State(cursor, rest, rows, faults, pages));
        TurnLawful(photoId, encode);
        assert TurnOf(photoId, encode)(State(cursor, rest, rows, faults, pages)) == r;
        var reply := Next(rest);
        var d := Decide(reply);
        var count := 0;
        if d.save.Some? {
          count := SaveToMilvus(d.save.value.roots, d.save.value.subMap, photoId, encode);
        }
        pages := pages + [Page(cursor, reply, d.save, count, d.next)];
        rest := Rest(rest);
        if d.next.None? {
          more := false;
        } else {
          cursor := d.next.value;
        }
        assert r == State(cursor, rest, rows, faults, pages);
      }
    }

    /** `main`: the video id typed in; an empty one fetches nothing. */
    method RunFetcher(photoId: string, server: seq<Response>, encode: Encoder) returns (pages: seq<CommentPage>, rest: seq<Response>)
      modifies this
      ensures photoId == "" ==> pages == [] && rest == server && rows == old(rows) && faults == old(faults)
      ensures photoId != "" ==>
                var end := Fetch(photoId, encode, State(JStr(""), server, old(rows), old(faults), []));
                pages == end.pages && rest == end.server && rows == end.rows && faults == end.faults
    {
      if photoId == "" {
        return [], server;
      }
      pages, rest := FetchVideoComments(photoId, server, encode);
    }
  }

  // ---------------------------------------------------------------------
  // Pages of a video: `fetch_video_comments`
  // ---------------------------------------------------------------------

  /** `data.get("data", {})`, when it is a dict; `None` when it or `data` is not, so that a further `.get` raises. */
  function Inner(data: JValue): (r: Option<JValue>)
    ensures r.Some? <==> data.JObj? && Get(data, "data", JObj([])).value.JObj?
    ensures r.Some? ==> r.value.JObj? && r == Get(data, "data", JObj([]))
  {
    var inner :- Get(data, "data", JObj([]));
    if inner.JObj? then Some(inner) else None
  }

  /** The root comments of a page and the map of their sub-comments, as handed to `save_to_milvus`. */
  datatype Listing = Listing(roots: JValue, subMap: JValue)

  /** The display of one root comment and its replies runs without raising. */
  predicate Shows(c: JValue, subMap: JValue)
    ensures Shows(c, subMap) ==> c.JObj? && (subMap.JObj? || subMap.JArr? || subMap.JStr?)
    ensures c.JObj? && subMap.JObj? && Lookup(subMap.fields, PyStr(Lookup(c.fields, "comment_id").GetOr(JNull))).None? ==> Shows(c, subMap)
  {
    && c.JObj?
    && var key := PyStr(Get(c, "comment_id", JNull).value);
    && In(subMap, key).Some?
    && (In(subMap, key).value ==>
          && Subscript(subMap, key).Some?
          && var subs := Get(Subscript(subMap, key).value, "subComments", JArr([]));
          && subs.Some?
          && (Truthy(subs.value) ==> Iterate(subs.value).Some? && forall s :: s in Iterate(subs.value).value ==> s.JObj?))
  }

  /** The display loop over the root comments runs to the end; it only prints, but anything it raises ends the video. */
  predicate Listable(roots: JValue, subMap: JValue)
    ensures Listable(roots, subMap) ==> PyLen(roots).Some?
    ensures roots.JArr? && (forall c :: c in roots.elems ==> Shows(c, subMap)) ==> Listable(roots, subMap)
  {
    Iterate(roots).Some? && forall c :: c in Iterate(roots).value ==> Shows(c, subMap)
  }

  /**
   * The body of `fetch_video_comments` after the request: the root
   * comments are saved when the reply is a 200 JSON object whose
   * `rootComments` are truthy; the next page is requested at the returned
   * `pcursor` only after the display loop ran through, and only when that
   * `pcursor` is truthy and not `"no_more"`. Any exception on the way ends
   * the video.
   */
  function Decide(reply: Response): (d: Decision<JValue, Listing>)
    ensures d.save.Some? <==> Ok(reply) && Inner(reply.body.value).Some? &&
                              Truthy(Get(Inner(reply.body.value).value, "rootComments", JArr([])).value)
    ensures d.save.Some? ==> var inner := Inner(reply.body.value).value;
                             d.save.value == Listing(Get(inner, "rootComments", JArr([])).value, Get(inner, "subCommentsMap", JObj([])).value)
    ensures d.next.Some? <==> d.save.Some? && Listable(d.save.value.roots, d.save.value.subMap) &&
                              var next := Get(Inner(reply.body.value).value, "pcursor", JNull).value;
                              Truthy(next) && next != JStr("no_more")
    ensures d.next.Some? ==> d.next.value == Get(Inner(reply.body.value).value, "pcursor", JNull).value
  {
    if !Ok(reply) then Decision(None, None)
    else
      match Inner(reply.body.value)
      case None => Decision(None, None)
      case Some(inner) =>
        var roots := Get(inner, "rootComments", JArr([])).value;
        if !Truthy(roots) then Decision(None, None)
        else
          var listing := Listing(roots, Get(inner, "subCommentsMap", JObj([])).value);
          var next := Get(inner, "pcursor", JNull).value;
          Decision(Some(listing), if Listable(roots, listing.subMap) && Truthy(next) && next != JStr("no_more") then Some(next) else None)
  }

  /** A page of root comments, with its `pcursor`; the state of the requests for one video. */
  type CommentPage = Page<JValue, Listing>
  type FetchState = State<JValue, CommentRow, Listing>

  /** What every row stored for video `photoId` satisfies: it carries the video's id, and `is_reply` is `False`. */
  function OfPhoto(photoId: string): CommentRow -> bool {
    (row: CommentRow) => row.photoId == photoId && !row.isReply
  }

  /** `Decide`, as a value; the cursor a page was requested with plays no part. */
  const DecideReply: Decider<JValue, Listing> := (cursor, reply) => Decide(reply)

  /** One request of `fetch_video_comments` from `st`: the page it adds, and the state the next request starts from. */
  function Turn(photoId: string, encode: Encoder, st: FetchState): (after: FetchState)
    ensures Obeys(OfPhoto(photoId), st, after)
  {
    var reply := Next(st.server);
    var d := Decide(reply);
    var s := if d.save.Some? then Save(d.save.value.roots, d.save.value.subMap, photoId, encode, st.rows, st.faults)
             else Saved(st.rows, st.faults, 0);
    var page := Page(st.cursor, reply, d.save, s.count, d.next);
    assert (st.pages + [page])[..|st.pages|] == st.pages;
    State(d.next.GetOr(st.cursor), Rest(st.server), s.rows, s.faults, st.pages + [page])
  }

  function TurnOf(photoId: string, encode: Encoder): Turner<JValue, CommentRow, Listing> {
    st => Turn(photoId, encode, st)
  }

  lemma TurnLawful(photoId: string, encode: Encoder)
    ensures Lawful(OfPhoto(photoId), TurnOf(photoId, encode))
    ensures Deciding(OfPhoto(photoId), DecideReply, TurnOf(photoId, encode))
  {
    forall st ensures Obeys(OfPhoto(photoId), st, TurnOf(photoId, encode)(st))
                      && Decided(DecideReply, TurnOf(photoId, encode)(st).pages[|st.pages|]) {
      TurnDecides(photoId, encode, st);
    }
  }

  /** The page a request adds holds what `Decide` made of its reply. */
  lemma TurnDecides(photoId: string, encode: Encoder, st: FetchState)
    ensures Decided(DecideReply, Turn(photoId, encode, st).pages[|st.pages|])
  {
    var page := Turn(photoId, encode, st).pages[|st.pages|];
    assert page.reply == Next(st.server);
    assert page.save == Decide(Next(st.server)).save;
  }

  /** The pages of one video from `st`. */
  function Fetch(photoId: string, encode: Encoder, st: FetchState): FetchState {
    TurnLawful(photoId, encode);
    Paginate(OfPhoto(photoId), TurnOf(photoId, encode), st)
  }

  /**
   * The `pcursor` chain: the first request is at `""`, each further one at
   * the `pcursor` the page before it returned, which is truthy and not
   * `"no_more"`; the last page is the only one that asks for no further
   * page.
   */
  lemma FetchCursors(photoId: string, encode: Encoder, server: seq<Response>, rows: seq<CommentRow>, faults: seq<bool>)
    ensures var pages := Fetch(photoId, encode, State(JStr(""), server, rows, faults, [])).pages;
            && pages != [] && pages[0].cursor == JStr("")
            && (forall k :: 0 <= k < |pages| ==> (pages[k].next.Some? <==> k < |pages| - 1))
            && (forall k :: 0 < k < |pages| ==> pages[k - 1].next == Some(pages[k].cursor) &&
                                                Truthy(pages[k].cursor) && pages[k].cursor != JStr("no_more"))
  {
    var st := State(JStr(""), server, rows, faults, []);
    TurnLawful(photoId, encode);
    PaginatePages(OfPhoto(photoId), TurnOf(photoId, encode), st);
    PaginateDecided(OfPhoto(photoId), TurnOf(photoId, encode), DecideReply, st);
    var pages := Fetch(photoId, encode, st).pages;
    assert pages[0] == TurnOf(photoId, encode)(st).pages[0];
    forall k | 0 < k < |pages|
      ensures pages[k - 1].next == Some(pages[k].cursor) && Truthy(pages[k].cursor) && pages[k].cursor != JStr("no_more")
    {
      DecidedCursor(pages[k - 1]);
    }
  }

  /** A page that holds what `Decide` made of its reply asks for no further page at a falsy `pcursor` or at `"no_more"`. */
  lemma DecidedCursor(page: CommentPage)
    requires Decided(DecideReply, page) && page.next.Some?
    ensures Truthy(page.next.value) && page.next.value != JStr("no_more")
  {
    assert page.next == Decide(page.reply).next;
  }

  /**
   * The stop rule of the real request: every page holds what `Decide` made
   * of its reply, so a page without root comments (or with a reply that is
   * no 200 JSON object) ends the video, and a further page follows exactly
   * a listable page whose `pcursor` is truthy and not `"no_more"`.
   */
  lemma PagesDecided(photoId: string, encode: Encoder, st: FetchState)
    ensures var pages := Fetch(photoId, encode, st).pages;
            forall k :: |st.pages| <= k < |pages| ==>
              pages[k].save == Decide(pages[k].reply).save && pages[k].next == Decide(pages[k].reply).next
  {
    TurnLawful(photoId, encode);
    PaginateDecided(OfPhoto(photoId), TurnOf(photoId, encode), DecideReply, st);
    var pages := Fetch(photoId, encode, st).pages;
    forall k | |st.pages| <= k < |pages|
      ensures pages[k].save == Decide(pages[k].reply).save && pages[k].next == Decide(pages[k].reply).next
    {
      assert Decided(DecideReply, pages[k]);
    }
  }

  /** Rows are only appended, and every row the fetch stores carries the video's id and `is_reply` `False`, sub-comments included. */
  lemma FetchRows(photoId: string, encode: Encoder, st: FetchState)
    ensures var end := Fetch(photoId, encode, st);
            && |st.rows| <= |end.rows| && end.rows[..|st.rows|] == st.rows
            && (forall i :: |st.rows| <= i < |end.rows| ==> end.rows[i].photoId == photoId && !end.rows[i].isReply)
  {
    TurnLawful(photoId, encode);
    PaginateRows(OfPhoto(photoId), TurnOf(photoId, encode), st);
    var end := Fetch(photoId, encode, st);
    forall i | |st.rows| <= i < |end.rows| ensures end.rows[i].photoId == photoId && !end.rows[i].isReply {
      assert OfPhoto(photoId)(end.rows[i]);
    }
  }

  /** Each page consumes the next reply, in order, until a page asks for no further one or the replies run out. */
  lemma FetchReplies(photoId: string, encode: Encoder, st: FetchState)
    ensures var end := Fetch(photoId, encode, st);
            Consumed(Replies(end.pages[|st.pages|..]), st.server, end.server)
  {
    TurnLawful(photoId, encode);
    PaginateReplies(OfPhoto(photoId), TurnOf(photoId, encode), st);
  }
}
