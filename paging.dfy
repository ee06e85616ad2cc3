/**
 * Cursor pagination as the comment fetchers do it, whatever the cursor,
 * the stored row and the saved part of a reply are: one request at a time
 * against the scripted replies, each adding a page, until a page asks for
 * no further one. The laws a single request obeys are stated once here, and
 * what they give for a whole run of requests is proved once, by induction
 * on the replies left.
 */
module Paging {
  import opened Wrappers
  import opened Http

  /** One request: the cursor sent, the reply, what was handed to saving, how many entries the save counted, and the next cursor. */
  datatype Page<C, S> = Page(cursor: C, reply: Response, save: Option<S>, saved: nat, next: Option<C>)

  /** The cursor of the coming request, the replies left, the collection, and the pages so far. */
  datatype State<C, R, S> = State(cursor: C, server: seq<Response>, rows: seq<R>, faults: seq<bool>, pages: seq<Page<C, S>>)

  /** What one reply decides: what is handed to saving, if anything, and the cursor of the next request, if one is made. */
  datatype Decision<C, S> = Decision(save: Option<S>, next: Option<C>)

  /**
   * What one request does, whatever the replies, the model and the
   * collection answer: it adds one page for the next reply, and a further
   * page is asked for only after a reply that was there, at the cursor the
   * page names; rows are only appended, and each satisfies `tag`.
   */
  predicate Obeys<C(==), R(==), S(==)>(tag: R -> bool, st: State<C, R, S>, after: State<C, R, S>) {
    && |after.pages| == |st.pages| + 1 && after.pages[..|st.pages|] == st.pages
    && var page := after.pages[|st.pages|];
    && page.cursor == st.cursor && page.reply == Next(st.server)
    && after.cursor == page.next.GetOr(st.cursor)
    && (page.next.Some? ==> st.server != [])
    && after.server == Rest(st.server)
    && |st.rows| <= |after.rows| && after.rows[..|st.rows|] == st.rows
    && (forall i :: |st.rows| <= i < |after.rows| ==> tag(after.rows[i]))
  }

  /** One request, as a function of the state before it. */
  type Turner<!C, !R, !S> = State<C, R, S> -> State<C, R, S>

  ghost predicate Lawful<C(!new), R(!new), S(!new)>(tag: R -> bool, body: Turner<C, R, S>) {
    forall st :: Obeys(tag, st, body(st))
  }

  /** What a reply at a cursor decides, as a value. */
  type Decider<!C, S> = (C, Response) -> Decision<C, S>

  /** A page holds what `decide` made of its reply at its cursor. */
  predicate Decided<C(==), S(==)>(decide: Decider<C, S>, page: Page<C, S>) {
    page.save == decide(page.cursor, page.reply).save && page.next == decide(page.cursor, page.reply).next
  }

  ghost predicate Deciding<C(!new), R(!new), S(!new)>(tag: R -> bool, decide: Decider<C, S>, body: Turner<C, R, S>)
    requires Lawful(tag, body)
  {
    forall st {:trigger Decided(decide, body(st).pages[|st.pages|])} :: Decided(decide, body(st).pages[|st.pages|])
  }

  /** Requests from `st` until a reply stops them. */
  function Paginate<C(==, !new), R(==, !new), S(==, !new)>(tag: R -> bool, body: Turner<C, R, S>, st: State<C, R, S>): (end: State<C, R, S>)
    requires Lawful(tag, body)
    ensures |st.pages| < |end.pages|
    decreases |st.server|
  {
    var after := body(st);
    assert Obeys(tag, st, after);
    if after.pages[|st.pages|].next.None? then after else Paginate(tag, body, after)
  }

  /** The pages before `st` stay, and the first new page is the one the body adds. */
  lemma {:induction false} PaginateHead<C(!new), R(!new), S(!new)>(tag: R -> bool, body: Turner<C, R, S>, st: State<C, R, S>)
    requires Lawful(tag, body)
    ensures var end := Paginate(tag, body, st);
            end.pages[..|st.pages| + 1] == body(st).pages
    decreases |st.server|
  {
    var after := body(st);
    assert Obeys(tag, st, after);
    var n := |st.pages|;
    if after.pages[n].next.Some? {
      var end := Paginate(tag, body, after);
      assert end == Paginate(tag, body, st);
      PaginateHead(tag, body, after);
      assert Obeys(tag, after, body(after));
      assert end.pages[..n + 1] == end.pages[..n + 2][..n + 1];
    }
  }

  /**
   * Pagination appends pages, and asks for a further page exactly after
   * every page but the last; each page's cursor is the next cursor of the
   * page before it.
   */
  lemma {:induction false} PaginatePages<C(!new), R(!new), S(!new)>(tag: R -> bool, body: Turner<C, R, S>, st: State<C, R, S>)
    requires Lawful(tag, body)
    ensures var end := Paginate(tag, body, st);
            var n := |st.pages|;
            && n < |end.pages| && end.pages[..n] == st.pages
            && end.pages[n] == body(st).pages[n]
            && (forall k :: n <= k < |end.pages| ==> (end.pages[k].next.Some? <==> k < |end.pages| - 1))
            && (forall k :: n <= k < |end.pages| - 1 ==> end.pages[k + 1].cursor == end.pages[k].next.value)
    decreases |st.server|
  {
    var after := body(st);
    assert Obeys(tag, st, after);
    var n := |st.pages|;
    if after.pages[n].next.Some? {
      var end := Paginate(tag, body, after);
      assert end == Paginate(tag, body, st);
      PaginatePages(tag, body, after);
      assert Obeys(tag, after, body(after));
      assert end.pages[..n] == end.pages[..n + 1][..n];
      assert end.pages[n] == end.pages[..n + 1][n];
      forall k | n <= k < |end.pages| ensures end.pages[k].next.Some? <==> k < |end.pages| - 1 {
        if k == n {
          assert n + 1 < |end.pages|;
        }
      }
      forall k | n <= k < |end.pages| - 1 ensures end.pages[k + 1].cursor == end.pages[k].next.value {
        if k == n {
          assert end.pages[n + 1] == body(after).pages[n + 1];
        }
      }
    } else {
      assert after == Paginate(tag, body, st);
    }
  }

  /** The replies the pages got, in order. */
  function Replies<C, S>(pages: seq<Page<C, S>>): (rs: seq<Response>)
    ensures |rs| == |pages|
  {
    if pages == [] then [] else [pages[0].reply] + Replies(pages[1..])
  }

  /**
   * The replies `got` consumed `before` in order, leaving `left`; once the
   * replies ran out, one more request failed as unreachable.
   */
  ghost predicate Consumed(got: seq<Response>, before: seq<Response>, left: seq<Response>) {
    got + left == before || (left == [] && got == before + [Unreachable])
  }

  lemma ConsumedOne(before: seq<Response>)
    ensures Consumed([Next(before)], before, Rest(before))
  {
    if before != [] {
      assert [before[0]] + before[1..] == before;
    }
  }

  lemma ConsumedCons(before: seq<Response>, got: seq<Response>, left: seq<Response>)
    requires before != [] && Consumed(got, Rest(before), left)
    ensures Consumed([Next(before)] + got, before, left)
  {
    assert [before[0]] + before[1..] == before;
  }

  /**
   * Each page consumes the next reply, in order: the replies the pages got,
   * followed by those left, are the replies there were, except that once
   * they run out one more request fails, and that page is the last.
   */
  lemma {:induction false} PaginateReplies<C(!new), R(!new), S(!new)>(tag: R -> bool, body: Turner<C, R, S>, st: State<C, R, S>)
    requires Lawful(tag, body)
    ensures Consumed(Replies(Paginate(tag, body, st).pages[|st.pages|..]), st.server, Paginate(tag, body, st).server)
    decreases |st.server|
  {
    var after := body(st);
    assert Obeys(tag, st, after);
    var n := |st.pages|;
    var end := Paginate(tag, body, st);
    PaginateHead(tag, body, st);
    assert end.pages[n] == end.pages[..n + 1][n] == after.pages[n];
    if after.pages[n].next.Some? {
      assert end == Paginate(tag, body, after);
      PaginateReplies(tag, body, after);
      assert end.pages[n..][1..] == end.pages[n + 1..];
      ConsumedCons(st.server, Replies(end.pages[n + 1..]), end.server);
    } else {
      assert end == after;
      assert end.pages[n..] == [end.pages[n]];
      ConsumedOne(st.server);
    }
  }

  /** Rows are only appended, and every row stored satisfies `tag`. */
  lemma {:induction false} PaginateRows<C(!new), R(!new), S(!new)>(tag: R -> bool, body: Turner<C, R, S>, st: State<C, R, S>)
    requires Lawful(tag, body)
    ensures var end := Paginate(tag, body, st);
            && |st.rows| <= |end.rows| && end.rows[..|st.rows|] == st.rows
            && (forall i :: |st.rows| <= i < |end.rows| ==> tag(end.rows[i]))
    decreases |st.server|
  {
    var after := body(st);
    assert Obeys(tag, st, after);
    if after.pages[|st.pages|].next.Some? {
      var end := Paginate(tag, body, after);
      assert end == Paginate(tag, body, st);
      PaginateRows(tag, body, after);
      assert end.rows[..|st.rows|] == end.rows[..|after.rows|][..|st.rows|];
      forall i | |st.rows| <= i < |end.rows| ensures tag(end.rows[i]) {
        if i < |after.rows| {
          assert end.rows[i] == end.rows[..|after.rows|][i];
        }
      }
    } else {
      assert after == Paginate(tag, body, st);
    }
  }

  /** Every page from `n` on holds what `decide` made of its reply. */
  ghost predicate DecidedFrom<C, S>(decide: Decider<C, S>, pages: seq<Page<C, S>>, n: nat) {
    forall k {:trigger Decided(decide, pages[k])} :: n <= k < |pages| ==> Decided(decide, pages[k])
  }

  /** Pages made by a step that decides each page by `decide` all hold what `decide` made of their replies. */
  lemma {:induction false} PaginateDecided<C(!new), R(!new), S(!new)>(tag: R -> bool, body: Turner<C, R, S>, decide: Decider<C, S>, st: State<C, R, S>)
    requires Lawful(tag, body) && Deciding(tag, decide, body)
    ensures DecidedFrom(decide, Paginate(tag, body, st).pages, |st.pages|)
    decreases |st.server|
  {
    var after := body(st);
    assert Obeys(tag, st, after);
    var n := |st.pages|;
    var end := Paginate(tag, body, st);
    PaginateHead(tag, body, st);
    assert end.pages[n] == end.pages[..n + 1][n] == after.pages[n];
    assert Decided(decide, after.pages[n]);
    if after.pages[n].next.Some? {
      assert end == Paginate(tag, body, after);
      PaginateDecided(tag, body, decide, after);
      DecidedCons(decide, end.pages, n);
    } else {
      assert end == after;
      assert end.pages[n..] == [after.pages[n]];
    }
  }

  lemma DecidedCons<C, S>(decide: Decider<C, S>, pages: seq<Page<C, S>>, n: nat)
    requires n < |pages| && Decided(decide, pages[n]) && DecidedFrom(decide, pages, n + 1)
    ensures DecidedFrom(decide, pages, n)
  {
  }
}
