# TikHub crawlers: a verified model of the paging, parsing and storing logic

The repository is a set of Python crawlers around the TikHub API. They search
Douyin and Kuaishou for users by keyword, or fetch the comments of given
videos. They turn each JSON page into user records or comment rows, embed a
text of each with a sentence-transformer model, and insert the rows into a
Milvus collection. This project models the sequential logic inside that glue:

- `test_milvus.py`, the search crawler: per-platform URL choice, the Douyin
  and Kuaishou page parsers, the empty-input guard of `vectorize_data`, the
  three-column insert payload, `read_keywords`, and the `while True` page loop
  of `main` (`search_crawler.dfy`);
- `dk.py`: the byte-order-mark probe and the ordered encoding fallback of
  `process_platform`, the keyword read, the page parameter, the two parsers,
  and the `while cursor` loop (`dk_crawler.dfy`);
- `douyin_kuaishou_crawler_async.py`: the `business_data` parser, its cursor,
  the keyword read, the metadata and keyword columns, and the crawl loop
  (`async_crawler.dfy`);
- `Douyin/comment_fetcher_douyin.py`: the comment field mapping, the
  flattening of comments with their `reply_comment`, the offset cursor
  `str(int(cursor) + len(comments))` and its stop rule, the task-line parser,
  and the `existing_videos` resume set (`douyin_comments.dfy`);
- `Kuaishou/comment_fetcher.py`: the comment field mapping, the flattening of
  root comments with their sub-comments, and the `pcursor` rule
  (`kuaishou_comments.dfy`).

The foreign parts become oracles fixed in advance:

- The server is a finite sequence of responses. Each request consumes one
  response, and once the sequence runs out every request fails like an
  unreachable host, so every crawl terminates (`http.dfy`).
- The embedding model is a function from a text to an optional vector of 384
  reals (`embedding.dfy`).
- The text decoders are a function from an encoding and bytes to an optional
  text (`seed_file.dfy`).
- A Milvus collection is a class holding its rows, oldest first, and a script
  saying which of the coming insert calls raise (`store.dfy`).

JSON values, with Python's dynamic behaviour on them (`.get` on a non-dict
raises, iterating a string yields characters, truthiness, `str()`, `int()`),
are in `json.dfy`. The Python string operations the crawlers use (`strip`,
`split`, `split()`, iterating a text file) are in `text.dfy`. The request loop
shared by both comment fetchers, and what holds for it whatever the reply
decides, is in `paging.dfy`.

The loops of the source are methods with loop invariants, each proved
equal to a recursive specification function. Lemmas about those functions
tie every round of a crawl to the reply it consumed, the page parsed from
that reply, the vectors made of it and the rows inserted. The recursion of
the comment fetchers over their next page is a loop over the response
sequence, without Python's recursion-depth limit. What the model does not capture is listed under "Left out".

## Model

| member | source | states |
|---|---|---|
| SearchCrawler.BuildQuery | test_milvus.py:84-97 | a query is built exactly for `douyin` and `kuaishou`; it carries the keyword and `str()` of the argument, as `cursor` on Douyin and as `page` on Kuaishou; any other platform raises before a request |
| SearchCrawler.UserEntry | test_milvus.py:120-129 | the loop body keeps an entry exactly when it is a dict whose record under the key is a dict giving a non-empty name and a non-empty `str(uid)`, and the kept user is that name (default `""`) and that `str(uid)`; it raises exactly on a dict entry whose record is non-empty but no dict; anything else is skipped |
| SearchCrawler.DouyinUser | test_milvus.py:120-129 | a Douyin `user_list` entry is kept exactly when its `user_info` is a dict with a non-empty `nickname` and a non-empty `str(uid)`, as that user; it raises exactly when `user_info` is non-empty and no dict |
| SearchCrawler.KuaishouUser | test_milvus.py:154-163 | a Kuaishou `mixFeeds` entry is kept exactly when its `user` is a dict with a non-empty `user_name` and a non-empty `str(user_id)`, as that user; it raises exactly when `user` is non-empty and no dict |
| SearchCrawler.DouyinItems | test_milvus.py:113-116 | Douyin's `user_list` is reached only in a body that is, once re-decoded, a dict |
| SearchCrawler.KuaishouItems | test_milvus.py:147-151 | Kuaishou's `mixFeeds` is reached only when the body's `data` is a dict |
| SearchCrawler.DouyinPage | test_milvus.py:113-137 | a Douyin body parses exactly when its `user_list` can be reached and no entry raises; the users are then what the loop collects from `user_list`, all named, and the next cursor is the body's `cursor`, `None` when absent |
| SearchCrawler.KuaishouPage | test_milvus.py:147-174 | a Kuaishou body parses exactly when `data.mixFeeds` can be reached and no entry raises; the users are then what the loop collects from `mixFeeds`, all named, and the next cursor is `data.pcursor`, with `"no_more"` and absence both `None` |
| SearchCrawler.DouyinUsersInOrder | test_milvus.py:119-129 | the users of a Douyin page are, in order, the users of exactly the `user_list` entries the loop keeps |
| SearchCrawler.KuaishouUsersInOrder | test_milvus.py:153-163 | the users of a Kuaishou page are, in order, the users of exactly the `mixFeeds` entries the loop keeps |
| SearchCrawler.ParseReply | test_milvus.py:102-179 | a reply that is not 2xx JSON gives no page; otherwise the page is exactly the Douyin or Kuaishou parse of its body |
| SearchCrawler.ParseDouyin | test_milvus.py:116-137 | the loop over `user_list` yields exactly the Douyin page |
| SearchCrawler.ParseKuaishou | test_milvus.py:151-174 | the loop over `mixFeeds` yields exactly the Kuaishou page |
| SearchCrawler.FetchSpec | test_milvus.py:75-183 | a request is sent exactly for a supported platform; it consumes one reply and the page is what `ParseReply` makes of that reply, `[], None` when it fails; an unsupported platform consumes none and returns `[], None`; users come only from a 2xx JSON reply; all listed users are named; Kuaishou never reports `"no_more"` |
| SearchCrawler.Fetch | test_milvus.py:75-183 | the `fetch_data` body computes `FetchSpec` |
| SearchCrawler.Vectorize | test_milvus.py:193-206 | no vectors exactly when there are no users or some name cannot be encoded; otherwise one vector per user, the encoding of that user's name |
| SearchCrawler.InsertPayload | test_milvus.py:235-251 | the columns form rows exactly when there is one vector per user; row i holds vector i, `{"name", "uid"}` of user i and the keyword |
| SearchCrawler.Step | test_milvus.py:285-324 | one round appends one step; it consumes the next reply exactly when a query was built, and its page is what `fetch_data` parses from that reply; its vectors are those of the page's names; it asks for another page exactly when users, vectors and the insert succeeded and the cursor is not the last; it sends the page number on Kuaishou and the cursor (`"0"` first) on Douyin; the collection gains exactly the round's rows |
| SearchCrawler.RequestArg | test_milvus.py:289 | defines the argument of a request: the page number on Kuaishou, `"0"` on the first Douyin page and the previous `next_page` after it |
| SearchCrawler.AtEnd | test_milvus.py:312-319 | defines the `break` tests on the returned cursor: `None` or `"no_more"` on Kuaishou, a falsy cursor on Douyin |
| SearchCrawler.CrawlKeyword | test_milvus.py:283-324 | the `while True` loop of one keyword leaves the collection, the rounds and the replies the loop function gives |
| SearchCrawler.Loop | test_milvus.py:285-324 | defines the rounds of one keyword from a state: a round, then further rounds while it asks for another page |
| SearchCrawler.Crawl | test_milvus.py:283-324 | defines one keyword's loop as the real round repeated from the start state |
| SearchCrawler.LoopExtends | test_milvus.py:285-321 | a keyword's loop makes at least one request and at most one more than there are replies, and keeps the rounds before it |
| SearchCrawler.LoopStops | test_milvus.py:294-320 | the loop for a keyword ends on a round that met a `break` |
| SearchCrawler.LoopExits | test_milvus.py:294-320 | every round of a keyword but the last continued, and the last one met a `break` |
| SearchCrawler.LoopSound | test_milvus.py:294-308 | every round of the loop lists only named users, and an inserted round embedded every name |
| SearchCrawler.LoopAppends | test_milvus.py:304-308 | the collection gains exactly the rows of the rounds whose insert succeeded, in order |
| SearchCrawler.InsertedRowsTagged | test_milvus.py:237-244 | every inserted row carries the keyword and `{"name": <non-empty text>, "uid": <non-empty text>}` |
| SearchCrawler.StepDecides | test_milvus.py:285-308 | the real round obeys the loop's rules and holds what its reply yields |
| SearchCrawler.LoopYielded | test_milvus.py:285-321 | every round of a keyword's loop holds the page `fetch_data` parsed from the reply it consumed and the vectors of that page's names, and inserted only after vectors were made |
| SearchCrawler.CrawlYielded | test_milvus.py:285-321 | every round of the real loop holds what its reply yields |
| SearchCrawler.Replies | test_milvus.py:287-292 | the replies of the rounds that sent a request, one per such round |
| SearchCrawler.LoopReplies | test_milvus.py:285-321 | the rounds of a keyword consume the replies in order, one per request; once they run out, one more request fails and its round is the last |
| SearchCrawler.KuaishouPagesCount | test_milvus.py:283-292 | on Kuaishou the k-th request of a keyword asks for `page=k` |
| SearchCrawler.DouyinCursorPassThrough | test_milvus.py:284-292 | on Douyin the first request sends cursor `"0"` and every later one `str()` of the cursor the previous page returned |
| SearchCrawler.ReadKeywords | test_milvus.py:211-227 | a missing file gives no keywords; a file UTF-8 decodes gives, in order, the stripped non-blank pieces of its text split on `'\n'`; otherwise, one GBK decodes gives the same of its GBK text; a file neither decodes gives none |
| SearchCrawler.LoadKeywords | test_milvus.py:213-227 | the encoding loop (UTF-8, then GBK) returns the keywords `ReadKeywords` defines |
| SearchCrawler.CrawlPlatform | test_milvus.py:280-326 | the `for keyword` loop runs each keyword's loop in turn, threading the replies and the collection |
| SearchCrawler.CrawlKeywords | test_milvus.py:280-326 | defines the `for keyword` loop: each keyword's loop in turn, threading the replies, the collection and the insert outcomes |
| SearchCrawler.KeywordRows | test_milvus.py:285-326 | one keyword's loop only appends rows tagged with that keyword and a named user |
| SearchCrawler.CrawlKeywordsRows | test_milvus.py:272-326 | a platform's keywords only append to the collection, and every added row carries one of them and a named user |
| SearchCrawler.RunSearch | test_milvus.py:258-328 | a run recreates the collection, crawls Douyin with `抖音.txt`, then Kuaishou with `快手.txt`, sharing the replies |
| SearchCrawler.SearchRowsTagged | test_milvus.py:258-328 | after a run every row names a user and carries a keyword of its platform's seed file |
| DkCrawler.DetectEncoding | dk.py:182-198 | a UTF-8 signature selects `utf-8-sig`, a UTF-16 mark `utf-16`; otherwise the result is the first candidate (`utf-8`, `gbk`, `gb2312`, `gb18030`, `utf-16`) that decodes the whole content, and it fails exactly when none does |
| DkCrawler.BomsExclusive | dk.py:183-186 | content with the UTF-8 signature starts with neither UTF-16 mark, so the order of the two tests does not matter |
| DkCrawler.DetectEncodingLoop | dk.py:183-198 | the mark tests and the `for ... else` loop compute `DetectEncoding` |
| DkCrawler.FirstDecodingIsFirst | dk.py:189-196 | when every earlier candidate fails and candidate k decodes, candidate k is chosen |
| DkCrawler.ReadKeywords | dk.py:175-205 | a missing file, no encoding, or an undecodable text ends the platform; otherwise the keywords are, in order, the stripped non-blank lines of the text the detected encoding decodes, and the platform ends when there are none |
| DkCrawler.LoadKeywords | dk.py:179-205 | reading the file computes `ReadKeywords` |
| DkCrawler.PageParam | dk.py:88-92 | Kuaishou's page is `1` for the cursor `"0"` and `int(cursor)` otherwise |
| DkCrawler.PageParamOfNumber | dk.py:88-92 | a page number n other than 0 that Kuaishou returns, as text or as a number, is requested as page n |
| DkCrawler.DkQuery | dk.py:88-107 | building the request fails exactly on Kuaishou with a cursor `int()` rejects; Kuaishou sends `page=` of the parsed page, and every other platform sends `cursor=` of `str(cursor)` |
| DkCrawler.DouyinRecord | dk.py:120-129 | a Douyin user that is a dict gives the record of its `nick_name`, `user_id` (default `""`), an empty description and `fans_cnt` (default `0`); any other user raises |
| DkCrawler.KuaishouRecord | dk.py:140-149 | a Kuaishou user that is a dict gives the record of its `user_name`, `user_id`, `user_text` (default `""`) and `fansCount` (default `0`); any other user raises |
| DkCrawler.DouyinInner | dk.py:116-117 | `data.get("data", {}).get("data", {})` is a dict whenever it does not raise |
| DkCrawler.UserList | dk.py:116-117 | the user list is found exactly when the inner object is |
| DkCrawler.DouyinUsers | dk.py:114-133 | an empty or missing user list gives `([], "")`; otherwise there is one record per user, in order, and the cursor is `str()` of the inner `cursor`; a parse fails only on a list that cannot be iterated or on a user that is not a dict |
| DkCrawler.KuaishouUsers | dk.py:135-155 | a non-dict body raises; `result` other than 1 gives `([], "")`; otherwise there is one record per user, in order, and the cursor is `pcursor`, or `""` when `recoPcursor` is `"no_more"` |
| DkCrawler.ParseReply | dk.py:108-161 | a reply that is not 2xx JSON, a body that raises, or an unknown platform gives `([], "")`; otherwise the platform's parser decides |
| DkCrawler.DouyinCursorIsText | dk.py:118 | the Douyin cursor returned is always a string |
| DkCrawler.Vectorize | dk.py:164-172 | vectors exist only for a non-empty list, one per record, each the encoding of its name; they exist whenever every name is encodable text |
| DkCrawler.InsertPayload | dk.py:219-223 | the columns form rows exactly when there is one vector per record; row i holds vector i, the keyword and the five-key record of user i (`name`, `uid`, `description`, `following` 0, `followers`) |
| DkCrawler.Record | dk.py:221 | the object `json.dumps(user)` serialises has the five keys `name`, `uid`, `description`, `following` and `followers`, in that order, with `following` 0 |
| DkCrawler.RecordFields | dk.py:221 | each key of the serialised record holds the user's field of that name, and `following` holds 0 |
| DkCrawler.Step | dk.py:213-232 | one pass raises only where the request cannot be built, and then changes nothing; otherwise it consumes one reply, records one round whose page is what the platform's parser makes of that reply and whose vectors are those of its names, takes the returned cursor, inserts only after users and vectors, and uses up one scripted insert outcome exactly when there were vectors |
| DkCrawler.CrawlKeyword | dk.py:212-232 | the `while cursor` loop of one keyword leaves the rounds, the replies, the collection and the abort flag that the loop function gives |
| DkCrawler.Loop | dk.py:213-232 | defines the passes of `while cursor` from a state: a pass, then further passes while the cursor is truthy, stopping at a pass that raises |
| DkCrawler.Crawl | dk.py:212-232 | defines one keyword's loop as the real pass repeated from cursor `"0"` |
| DkCrawler.LoopRounds | dk.py:213-215 | the loop only appends rounds, at most one per reply plus one, and it ends exactly when the body raised or the cursor is falsy |
| DkCrawler.LoopLastCursor | dk.py:215 | the cursor the loop ends with is the one the last round returned |
| DkCrawler.LoopCursors | dk.py:213-215 | a round's cursor is non-empty exactly when another round follows it or the body raised, whether or not its page had users or its insert succeeded |
| DkCrawler.LoopAborts | dk.py:88-92 | the loop aborts only on Kuaishou, on a non-empty cursor that `int()` cannot parse |
| DkCrawler.FailedReplyEndsKeyword | dk.py:159-161 | a reply that is no usable page ends the keyword: its round is the last, and the loop did not raise |
| DkCrawler.RoundsFrom | dk.py:216-232 | in every round a failed reply or an unknown platform gives no users and an empty cursor, and an insert only follows users and vectors |
| DkCrawler.LoopAppends | dk.py:216-230 | the collection gains exactly the rows of the rounds whose insert succeeded, in order |
| DkCrawler.InsertedRowsTagged | dk.py:219-223 | every inserted row carries the keyword and the five-key record of a user listed by one of the rounds |
| DkCrawler.StepDecides | dk.py:213-223 | the real pass obeys the loop's rules and each round it records holds what its reply yields |
| DkCrawler.LoopYielded | dk.py:213-232 | every round of a keyword's loop holds what the platform's parser made of the reply it consumed, and the vectors of that page's names |
| DkCrawler.CrawlYielded | dk.py:213-232 | every round of the real loop holds what its reply yields |
| DkCrawler.Replies | dk.py:215 | the replies of the rounds, one per round |
| DkCrawler.LoopReplies | dk.py:213-232 | the rounds of a keyword consume the replies in order, one per round; once they run out, one more request fails and its round is the last |
| DkCrawler.LoopPassesCursor | dk.py:212-215 | each request sends the cursor the previous round returned (`"0"` first), as `cursor=` on Douyin and as `page=` on Kuaishou |
| DkCrawler.UnknownPlatformOneRound | dk.py:93-97 | on an unknown platform each keyword makes one request that returns nothing and inserts nothing |
| DkCrawler.CrawlPlatform | dk.py:210-232 | the `for keyword` loop runs each keyword's loop in turn until one raises |
| DkCrawler.CrawlKeywords | dk.py:210-232 | defines the `for keyword` loop: each keyword's loop in turn, stopping after one that raised |
| DkCrawler.ProcessPlatform | dk.py:175-237 | `process_platform` reads the keywords, then crawls them; an unreadable file ends it before any request |
| DkCrawler.Process | dk.py:175-237 | `process_platform` as a function: a file whose keywords cannot be read ends the platform before any request, leaving the replies, the collection and the traces as they were |
| DkCrawler.KeywordRows | dk.py:212-232 | one keyword's loop only appends rows tagged with that keyword and a user record |
| DkCrawler.CrawlKeywordsRows | dk.py:210-232 | the keywords only append to the collection, and every added row carries one of them and a user record |
| DkCrawler.CrawlKeywordsTraces | dk.py:210-237 | there is one trace per keyword crawled, all of them unless a keyword raised, which only Kuaishou can |
| DkCrawler.RunDk | dk.py:240-253 | a run recreates the collection, then processes Douyin with `抖音.txt` |
| DkCrawler.DkRunRows | dk.py:240-253 | after a run every row carries a keyword of the seed file and a user record; the run ends in an exception exactly when the file could not be read, and then nothing was requested |
| AsyncCrawler.Author | douyin_kuaishou_crawler_async.py:120-125 | an author is found only in a dict item whose `type` equals 1, and only when that author is a dict |
| AsyncCrawler.BusinessUser | douyin_kuaishou_crawler_async.py:119-131 | an item never raises; it is kept exactly when it has an author with a truthy nickname and a non-empty `str(uid)`, and the kept user is that nickname and uid |
| AsyncCrawler.Outer | douyin_kuaishou_crawler_async.py:116 | `data.get("data", {})` is usable exactly when the body and its `data` are dicts |
| AsyncCrawler.ParseData | douyin_kuaishou_crawler_async.py:112-139 | a body whose `data` is not a dict raises; every user returned is named; the cursor is `data.cursor` (`None` when absent); the users are the items the filter keeps |
| AsyncCrawler.ParsedUsersInOrder | douyin_kuaishou_crawler_async.py:119-131 | the users are, in order, the authors of exactly the items that pass the filter |
| AsyncCrawler.FetchAsWritten | douyin_kuaishou_crawler_async.py:85-151 | the call raises out of `fetch_data` exactly when the cursor is not a string or a 2xx body is not JSON; any other failed reply gives `([], None)`; a 2xx JSON reply gives what `ParseData` makes of the decoded body, `([], None)` when that raises; every user returned is named |
| AsyncCrawler.NumericCursorCrashes | douyin_kuaishou_crawler_async.py:96-171 | a page whose `data.cursor` is the number 10 has a truthy cursor, and the next call with it raises out of `fetch_data` |
| AsyncCrawler.NonJsonReplyCrashes | douyin_kuaishou_crawler_async.py:107-151 | a 2xx reply that is not JSON raises out of `fetch_data` |
| AsyncCrawler.Fetch | douyin_kuaishou_crawler_async.py:85-151 | every exception gives `([], None)`: a cursor that is not a string or a failed reply yields no users; otherwise the result is what the code as written returns; users come only from a 2xx JSON reply and are all named |
| AsyncCrawler.Vectorize | douyin_kuaishou_crawler_async.py:72-83 | there are no vectors exactly when there are no users or some name is not a string or cannot be encoded; otherwise there is one per user, the encoding of that user's name |
| AsyncCrawler.InsertPayload | douyin_kuaishou_crawler_async.py:175-186 | the columns form rows exactly when there is one vector per user; row i holds vector i, `{"uid", "name"}` of user i and the keyword |
| AsyncCrawler.Step | douyin_kuaishou_crawler_async.py:170-194 | one pass of the loop over the corrected `fetch_data`: it records one round at the current cursor, sends it when it is a string and then consumes the next reply, holds the page `Fetch` makes of that reply (`([], None)` where the code as written raises) and the vectors of its names, takes the returned cursor, consumes one insert outcome whenever the page had users, and the collection gains exactly the round's rows |
| AsyncCrawler.Request | douyin_kuaishou_crawler_async.py:95-98 | defines the request of a round: `keyword` and `cursor` as query parameters, sent only when the cursor is a string, the one type `cursor.encode` accepts |
| AsyncCrawler.CrawlKeyword | douyin_kuaishou_crawler_async.py:169-194 | the `while cursor` loop of one keyword leaves the rounds, the replies and the collection that the loop function gives |
| AsyncCrawler.Loop | douyin_kuaishou_crawler_async.py:170-194 | defines the passes of `while cursor` from a state: a pass, then further passes while the cursor is truthy |
| AsyncCrawler.Crawl | douyin_kuaishou_crawler_async.py:169-194 | defines one keyword's loop as the real pass, over the corrected `fetch_data`, repeated from cursor `"0"` |
| AsyncCrawler.LoopRounds | douyin_kuaishou_crawler_async.py:169-193 | the loop makes at least one request, at most one per reply plus one, and stops exactly when the cursor is falsy: every round but the last returned a truthy cursor, with or without users |
| AsyncCrawler.LoopPassesCursor | douyin_kuaishou_crawler_async.py:169-193 | each request sends the cursor the previous round returned (`"0"` first), as long as it is a string |
| AsyncCrawler.LoopSound | douyin_kuaishou_crawler_async.py:173-190 | every round lists only named users, and an inserted round embedded every name |
| AsyncCrawler.LoopAppends | douyin_kuaishou_crawler_async.py:173-190 | the collection gains exactly the rows of the rounds whose insert succeeded, in order |
| AsyncCrawler.InsertedRowsTagged | douyin_kuaishou_crawler_async.py:175-186 | every inserted row carries the keyword and `{"uid": <non-empty text>, "name": <non-empty text>}` |
| AsyncCrawler.StepDecides | douyin_kuaishou_crawler_async.py:170-190 | the real pass obeys the loop's rules and its round holds what its reply yields |
| AsyncCrawler.LoopYielded | douyin_kuaishou_crawler_async.py:169-193 | every round of a keyword's loop holds what `fetch_data` made of the reply it consumed at its cursor, and the vectors of that page's names |
| AsyncCrawler.CrawlYielded | douyin_kuaishou_crawler_async.py:169-193 | every round of the real loop holds what its reply yields |
| AsyncCrawler.Replies | douyin_kuaishou_crawler_async.py:171 | the replies of the rounds that sent a request, one per such round |
| AsyncCrawler.LoopReplies | douyin_kuaishou_crawler_async.py:169-193 | the rounds of a keyword consume the replies in order, one per request; once they run out, one more request fails |
| AsyncCrawler.ReadKeywords | douyin_kuaishou_crawler_async.py:161-166 | the file is missing, or not UTF-8, or gives one stripped keyword per line, blank lines included |
| AsyncCrawler.CrawlAll | douyin_kuaishou_crawler_async.py:168-194 | over the corrected `fetch_data`, the `for keyword` loop runs each keyword's loop in turn |
| AsyncCrawler.CrawlKeywords | douyin_kuaishou_crawler_async.py:168-194 | defines the `for keyword` loop, over the corrected `fetch_data`: each keyword's loop in turn |
| AsyncCrawler.KeywordRows | douyin_kuaishou_crawler_async.py:169-194 | one keyword's loop only appends rows tagged with that keyword and a named author |
| AsyncCrawler.CrawlKeywordsRows | douyin_kuaishou_crawler_async.py:168-194 | the keywords only append to the collection, every added row carries one of them and a named author, and each keyword has its own trace |
| AsyncCrawler.RunAsync | douyin_kuaishou_crawler_async.py:155-196 | a run recreates the collection, reads `抖音.txt` and, over the corrected `fetch_data`, crawls every line; a missing or undecodable file ends the run with an empty collection |
| AsyncCrawler.AsyncRowsTagged | douyin_kuaishou_crawler_async.py:155-196 | after a run every row carries a stripped line of the seed file and a named author |
| DouyinComments.Entity | Douyin/comment_fetcher_douyin.py:60-78 | an entity exists only for a dict comment whose `user` is a dict; it carries the video id, author id and author name of its task line and the `is_reply` flag; its content is the comment's `text` and its vector is the encoding of that text |
| DouyinComments.EntityDefaults | Douyin/comment_fetcher_douyin.py:62-77 | a comment that carries only its text is stored with `0` for every number and `""` for every other text |
| DouyinComments.Batch | Douyin/comment_fetcher_douyin.py:27-35 | the collection accepts the one-row batch exactly when `comment_id`, `author_id` and `likes` fit `INT64` |
| DouyinComments.InsertOne | Douyin/comment_fetcher_douyin.py:60-86 | one `process_and_insert_comment` adds at most one row, and only the entity of that comment; every exception is swallowed |
| DouyinComments.ReplyOf | Douyin/comment_fetcher_douyin.py:95 | the reply test never raises on a dict comment; a reply it finds is truthy and is `comment["reply_comment"]` |
| DouyinComments.Flatten | Douyin/comment_fetcher_douyin.py:89-97 | the loop stores at most two entries per comment |
| DouyinComments.FlattenCounts | Douyin/comment_fetcher_douyin.py:84-105 | the loop runs to the end exactly when no reply test raises, and then `total_count` is the number of comments plus the number of replies; otherwise it ends right after the comment whose test raised |
| DouyinComments.FlattenPairs | Douyin/comment_fetcher_douyin.py:90-96 | every entry stored with `is_reply=True` directly follows the comment it is the reply of, which was stored with `is_reply=False` |
| DouyinComments.OneComment | Douyin/comment_fetcher_douyin.py:90-97 | the loop body stores the comment with `is_reply=False`, then its reply with `is_reply=True` exactly when it has one, and it is incomplete exactly when the reply test raised |
| DouyinComments.FlattenStops | Douyin/comment_fetcher_douyin.py:103-105 | once a reply test has raised, later comments change nothing |
| DouyinComments.InsertEntries | Douyin/comment_fetcher_douyin.py:89-97 | the entries' inserts only append, at most one row per entry, each tagged with the video being crawled |
| DouyinComments.InsertEntriesAppend | Douyin/comment_fetcher_douyin.py:89-97 | inserting two runs of entries in turn is inserting their concatenation |
| DouyinComments.Save | Douyin/comment_fetcher_douyin.py:55-105 | `save_to_milvus` only appends rows of the video being crawled |
| DouyinComments.SaveOfList | Douyin/comment_fetcher_douyin.py:57-101 | on comments that `len()` accepts, saving inserts the flattened entries in order and counts them |
| DouyinComments.CommentStore.ProcessAndInsert | Douyin/comment_fetcher_douyin.py:60-86 | the method changes the collection as `InsertOne` says |
| DouyinComments.CommentStore.SaveComment | Douyin/comment_fetcher_douyin.py:90-97 | the loop body stores the entries of `OneComment`, in order |
| DouyinComments.CommentStore.SaveToMilvus | Douyin/comment_fetcher_douyin.py:55-105 | the loop over the comments and their replies leaves the collection and the count that `Save` defines |
| DouyinComments.Comments | Douyin/comment_fetcher_douyin.py:133 | `data.get("data", {}).get("comments", [])` does not raise exactly when the body and its `data` are dicts |
| DouyinComments.Decide | Douyin/comment_fetcher_douyin.py:131-155 | a page is saved exactly when the reply is a 200 JSON object with truthy comments; the next page is requested exactly when, in addition, the cursor parses, the comments have a `len()` and `has_more` is truthy, and it is `str(int(cursor) + len(comments))` |
| DouyinComments.Turn | Douyin/comment_fetcher_douyin.py:122-158 | one request consumes one reply, adds one page at the current cursor, moves to the cursor the page names, and only appends rows of the video |
| DouyinComments.TurnLawful | Douyin/comment_fetcher_douyin.py:122-158 | the request obeys the pagination rules, decides every page by `Decide`, and asks for the next page at `str(int(cursor) + len(comments))` |
| DouyinComments.TurnDecides | Douyin/comment_fetcher_douyin.py:131-155 | the page a request adds holds what `Decide` made of its reply |
| DouyinComments.DecidedOffsets | Douyin/comment_fetcher_douyin.py:146 | a page decided at the cursor it was requested with asks for the next one at `str(int(cursor) + len(comments))` |
| DouyinComments.PageOffsets | Douyin/comment_fetcher_douyin.py:146-150 | for any conversions where reading a shown offset gives it back: from cursor `show(c)`, every page is requested at `show(c + m)`, where `m` counts the comments the earlier pages listed |
| DouyinComments.ReadShowRoundTrip | Douyin/comment_fetcher_douyin.py:146 | `int(str(i)) == i` for every offset i |
| DouyinComments.FetchOffsets | Douyin/comment_fetcher_douyin.py:124-150 | from cursor `"0"`, the k-th request of a video is at the decimal text of the number of comments the earlier pages listed |
| DouyinComments.CursorsInDecimal | Douyin/comment_fetcher_douyin.py:146 | offsets counted from 0 and shown by `str()` are the decimal cursors |
| DouyinComments.PagesDecided | Douyin/comment_fetcher_douyin.py:131-155 | every page of a video holds what `Decide` made of its reply at its cursor |
| DouyinComments.Fetch | Douyin/comment_fetcher_douyin.py:107-158 | defines the pages of one video: `Paginate` over the Douyin turn, each page asking for the next at its offset cursor |
| DouyinComments.CommentStore.FetchVideoComments | Douyin/comment_fetcher_douyin.py:107-158 | the recursion over pages, run as a loop, leaves the pages, the replies and the collection that the pagination function gives |
| DouyinComments.ParseTask | Douyin/comment_fetcher_douyin.py:180-189 | a task line names a video only by three non-empty words free of whitespace: its id, its author id and its author name |
| DouyinComments.ParseTaskWords | Douyin/comment_fetcher_douyin.py:180-189 | a blank line names no video; a line names one exactly when it has at least three words, and these are its first three words, in order, each non-empty |
| DouyinComments.ParseTaskOfLine | Douyin/comment_fetcher_douyin.py:180-189 | a line of three words separated by spaces names the video of those three words |
| DouyinComments.StripOfLine | Douyin/comment_fetcher_douyin.py:180 | a line that starts and ends with a word is its own `strip()` |
| DouyinComments.WordsOfLine | Douyin/comment_fetcher_douyin.py:185 | `split()` of three words joined by single spaces gives back the three words |
| DouyinComments.Hydrate | Douyin/comment_fetcher_douyin.py:165-174 | the resume set is exactly the non-empty stored `photo_id`s, or empty when the query raised |
| DouyinComments.Tasks | Douyin/comment_fetcher_douyin.py:179-189 | there is one task per line of the file, in order, each parsed from its line |
| DouyinComments.Process | Douyin/comment_fetcher_douyin.py:186-202 | a malformed line or an id already in the resume set changes nothing; a line naming a video adds its id to the resume set, and a new video is fetched once, appending it and its pages |
| DouyinComments.RunTasks | Douyin/comment_fetcher_douyin.py:179-204 | running the lines in order only grows the resume set and only appends fetched videos |
| DouyinComments.RunTasksSnoc | Douyin/comment_fetcher_douyin.py:179-204 | running the first i + 1 lines is running the first i, then line i |
| DouyinComments.ResumeSeen | Douyin/comment_fetcher_douyin.py:192-202 | the resume set ends as the starting ids plus every id a line names |
| DouyinComments.ResumeVideos | Douyin/comment_fetcher_douyin.py:192-202 | each fetched video is named by a line, was not in the starting set, and ends in it; no id is fetched twice however often its line repeats; one page list per video |
| DouyinComments.FetcherTags | Douyin/comment_fetcher_douyin.py:107-158 | a video's fetch only appends rows, each tagged with that video's id |
| DouyinComments.RunKeepsCover | Douyin/comment_fetcher_douyin.py:165-202 | if every stored video id is in the resume set before the run, it still is after it, so a later run skips every video that stored anything |
| DouyinComments.CommentStore.ProcessTask | Douyin/comment_fetcher_douyin.py:185-204 | one line is skipped when malformed or already seen; otherwise its video is fetched and its id is added |
| DouyinComments.CommentStore.RunLines | Douyin/comment_fetcher_douyin.py:179-204 | the loop over the lines runs each task in file order |
| DouyinComments.CommentStore.RunFetcher | Douyin/comment_fetcher_douyin.py:160-206 | a run builds the resume set from the stored ids (empty when the query fails), then runs every task line of the file read as UTF-8; a missing or undecodable file ends it before any video |
| Paging.Paginate | Douyin/comment_fetcher_douyin.py:107-158 | pagination makes at least one request |
| Paging.PaginateHead | Douyin/comment_fetcher_douyin.py:122-150 | the pages before the start stay, and the first new page is the one the first request adds |
| Paging.PaginatePages | Douyin/comment_fetcher_douyin.py:139-152 | pagination only appends pages; a further page is asked for exactly after every page but the last, and each page's cursor is the next cursor of the page before it |
| Paging.Replies | Douyin/comment_fetcher_douyin.py:129 | one reply per page |
| Paging.PaginateReplies | Douyin/comment_fetcher_douyin.py:129 | each page consumes the next reply, in order; once the replies run out, one more request fails and that page is the last |
| Paging.PaginateRows | Douyin/comment_fetcher_douyin.py:135-137 | pagination only appends rows, and every row it stores satisfies the tag the requests keep |
| Paging.PaginateDecided | Douyin/comment_fetcher_douyin.py:131-152 | when each request decides its page by one rule, every page holds what that rule made of its reply |
| KuaishouComments.Entity | Kuaishou/comment_fetcher.py:58-74 | an entity exists only for a dict comment; it carries the video id and the `is_reply` flag, its content is the comment's `content` and its vector is the encoding of that content |
| KuaishouComments.EntityDefaults | Kuaishou/comment_fetcher.py:60-73 | a comment that carries only its content is stored with `0` for every number and `""` for every other text |
| KuaishouComments.Batch | Kuaishou/comment_fetcher.py:27-35 | the collection accepts the one-row batch exactly when `comment_id`, `author_id` and `likes` fit `INT64` |
| KuaishouComments.InsertOne | Kuaishou/comment_fetcher.py:58-95 | one `process_and_insert_comment` adds at most one row, the entity of that comment built with `is_reply` `False`; every exception is swallowed |
| KuaishouComments.SubsOf | Kuaishou/comment_fetcher.py:90-92 | the sub-comment lookup raises on a root comment that is not a dict |
| KuaishouComments.SubsOfPresent | Kuaishou/comment_fetcher.py:90-92 | a dict root comment whose `str(comment_id)` keys an entry listing `subs` has exactly those sub-comments, in order |
| KuaishouComments.OneRoot | Kuaishou/comment_fetcher.py:87-96 | the loop body stores the root comment first, then exactly its sub-comments; when their lookup raises, only the root comment is stored |
| KuaishouComments.OneRootAbsent | Kuaishou/comment_fetcher.py:90-91 | a dict root comment whose id is not a key of the dict map contributes only itself |
| KuaishouComments.FlattenComplete | Kuaishou/comment_fetcher.py:86-104 | the loop runs to the end exactly when no sub-comment lookup raises |
| KuaishouComments.ListedSnoc | Kuaishou/comment_fetcher.py:86-96 | every root comment's lookup succeeds exactly when those of the front and of the last one do |
| KuaishouComments.FlattenCounts | Kuaishou/comment_fetcher.py:85-96 | when the loop runs to the end, `total_count` is the number of root comments plus the number of sub-comments listed for them |
| KuaishouComments.Flatten | Kuaishou/comment_fetcher.py:86-96 | defines the entries the `for comment in comments` loop saves: each root, then its sub-comments, stopping after a root whose `subCommentsMap` lookup raised |
| KuaishouComments.FlattenEndsAtFault | Kuaishou/comment_fetcher.py:90-104 | when a lookup raised, the loop ended right after the root comment whose lookup it was |
| KuaishouComments.FlattenStep | Kuaishou/comment_fetcher.py:86-96 | one more root comment adds its own entries after those of the earlier ones |
| KuaishouComments.FlattenStops | Kuaishou/comment_fetcher.py:102-104 | once a lookup has raised, later root comments change nothing |
| KuaishouComments.FlattenPrefix | Kuaishou/comment_fetcher.py:86-96 | when the whole page was stored, so was each prefix of its root comments, first |
| KuaishouComments.FlattenPlaces | Kuaishou/comment_fetcher.py:86-96 | when the page was stored whole, root comment i is entry i + m, where m counts the sub-comments of the root comments before it, and its own sub-comments follow it in order |
| KuaishouComments.FlattenUpTo | Kuaishou/comment_fetcher.py:86-96 | a page stored whole starts with the entries of its first i root comments, then those of root comment i |
| KuaishouComments.PlacesOf | Kuaishou/comment_fetcher.py:86-96 | entries that start with `before`, then a root comment, then its sub-comments hold that comment at `|before|` and the sub-comments right after it |
| KuaishouComments.FlattenWithoutMap | Kuaishou/comment_fetcher.py:86-96 | with the default `{}` for `subCommentsMap`, a page of dict comments stores exactly its root comments, in order |
| KuaishouComments.FlattenSnoc | Kuaishou/comment_fetcher.py:86-96 | the last root comment's entries follow those of a front whose lookups all succeeded |
| KuaishouComments.InsertEntries | Kuaishou/comment_fetcher.py:86-96 | the entries' inserts only append, at most one row per entry, each with the video id and `is_reply` `False` |
| KuaishouComments.InsertEntriesSnoc | Kuaishou/comment_fetcher.py:86-96 | inserting one more entry is one more `process_and_insert_comment` |
| KuaishouComments.InsertEntriesAppend | Kuaishou/comment_fetcher.py:86-96 | inserting two runs of entries in turn is inserting their concatenation |
| KuaishouComments.Save | Kuaishou/comment_fetcher.py:53-104 | `save_to_milvus` only appends rows, each with the video id and `is_reply` `False` |
| KuaishouComments.CommentStore.ProcessAndInsert | Kuaishou/comment_fetcher.py:58-82 | the method changes the collection as `InsertOne` says |
| KuaishouComments.CommentStore.SaveRoot | Kuaishou/comment_fetcher.py:87-96 | the loop body and its inner loop over the sub-comments store the entries of `OneRoot`, in order |
| KuaishouComments.CommentStore.SaveRoots | Kuaishou/comment_fetcher.py:85-96 | the loop over the root comments inserts exactly the flattened entries, in order, and counts them |
| KuaishouComments.CommentStore.SaveToMilvus | Kuaishou/comment_fetcher.py:53-104 | `save_to_milvus` leaves the collection and the count that `Save` defines |
| KuaishouComments.Inner | Kuaishou/comment_fetcher.py:132-133 | `data.get("data", {})` is usable exactly when the body and its `data` are dicts |
| KuaishouComments.Shows | Kuaishou/comment_fetcher.py:148-165 | displaying a root comment raises unless it is a dict and the sub-comment map is a container; a dict root whose `str(comment_id)` is not a key of a dict map always displays |
| KuaishouComments.Listable | Kuaishou/comment_fetcher.py:147-165 | the display loop runs through only over a value `len()` accepts, and always over a list whose root comments each display |
| KuaishouComments.Decide | Kuaishou/comment_fetcher.py:130-176 | root comments are saved exactly when the reply is a 200 JSON object with truthy `rootComments`, together with `subCommentsMap` (default `{}`); the next page is requested exactly when, in addition, the display loop runs through and `pcursor` is truthy and not `"no_more"`, and it is requested at that `pcursor` |
| KuaishouComments.Turn | Kuaishou/comment_fetcher.py:121-179 | one request consumes one reply, adds one page at the current `pcursor`, moves to the cursor the page names, and only appends rows of the video with `is_reply` `False` |
| KuaishouComments.TurnLawful | Kuaishou/comment_fetcher.py:121-179 | the request obeys the pagination rules and decides every page by `Decide` |
| KuaishouComments.TurnDecides | Kuaishou/comment_fetcher.py:130-176 | the page a request adds holds what `Decide` made of its reply |
| KuaishouComments.FetchCursors | Kuaishou/comment_fetcher.py:106-171 | the first request is at `""`, each further one at the `pcursor` the page before it returned, which is truthy and not `"no_more"`; only the last page asks for no further page |
| KuaishouComments.DecidedCursor | Kuaishou/comment_fetcher.py:169 | a decided page never asks for a further page at a falsy `pcursor` or at `"no_more"` |
| KuaishouComments.PagesDecided | Kuaishou/comment_fetcher.py:130-176 | every page of a video holds what `Decide` made of its reply |
| KuaishouComments.Fetch | Kuaishou/comment_fetcher.py:106-179 | defines the pages of one video: `Paginate` over the Kuaishou turn, each page asking for the next at its `pcursor` |
| KuaishouComments.FetchRows | Kuaishou/comment_fetcher.py:63-137 | a fetch only appends rows, and every row it stores carries the video id and `is_reply` `False`, sub-comments included |
| KuaishouComments.FetchReplies | Kuaishou/comment_fetcher.py:128-171 | each page consumes the next reply, in order, until a page asks for no further one or the replies run out |
| KuaishouComments.CommentStore.FetchVideoComments | Kuaishou/comment_fetcher.py:106-179 | the recursion over pages, run as a loop, leaves the pages, the replies and the collection that the pagination function gives |
| KuaishouComments.CommentStore.RunFetcher | Kuaishou/comment_fetcher.py:181-191 | an empty video id fetches nothing; any other is fetched from `pcursor` `""` |
| Text.IsSpace | test_milvus.py:219 | the whitespace of `strip()` and `split()` includes space, tab, newline, carriage return, vertical tab and form feed, and excludes letters, digits, `_` and `-` |
| Text.Strip | test_milvus.py:219 | `strip()` never lengthens a text, gives `""` exactly for an all-whitespace text, and otherwise starts and ends with non-whitespace |
| Text.StripIs | test_milvus.py:219 | `strip()` keeps exactly the text between the leading and the trailing whitespace |
| Text.StripKeepsTrimmed | test_milvus.py:219 | a text with no whitespace at either end is its own `strip()` |
| Text.StripIdempotent | test_milvus.py:219 | stripping twice is stripping once |
| Text.StripIgnoresTrailingSpace | dk.py:202 | a line's trailing `'\n'` (any whitespace) does not change its `strip()` |
| Text.SpaceRunEnd | test_milvus.py:219 | the whitespace run from a position ends at the first non-whitespace character or at the end |
| Text.SpaceRunStart | test_milvus.py:219 | the whitespace run ending at a position starts right after a non-whitespace character, or at the bound |
| Text.CoreOfSnoc | dk.py:202 | appending whitespace leaves where the text proper starts and ends |
| Text.IndexOf | test_milvus.py:219 | the position of the first separator, or the end when there is none |
| Text.Split | test_milvus.py:219 | `split('\n')` gives at least one piece, no piece holds the separator, and joining the pieces with it gives back the text |
| Text.Lines | dk.py:202 | iterating a text-mode file yields non-empty lines that concatenate to the text; each holds `'\n'` only as its last character, and every line but the last ends with it |
| Text.Universal | dk.py:201 | a text-mode read leaves no `'\r'` and never lengthens the text |
| Text.RemoveSpaces | Douyin/comment_fetcher_douyin.py:185 | the characters kept are no whitespace |
| Text.SpaceIndex | Douyin/comment_fetcher_douyin.py:185 | the first whitespace position, with none before it |
| Text.SpaceIndexIs | Douyin/comment_fetcher_douyin.py:185 | the first whitespace position is the only position with no whitespace before it and whitespace, or the end, at it |
| Text.Words | Douyin/comment_fetcher_douyin.py:185 | `split()` yields non-empty words with no whitespace in them |
| Text.RemoveSpacesOfWord | Douyin/comment_fetcher_douyin.py:185 | removing whitespace keeps a leading word whole |
| Text.WordsCoverText | Douyin/comment_fetcher_douyin.py:185 | the words of a text, glued together, are exactly the text without its whitespace |
| Text.SpaceIndexOfWord | Douyin/comment_fetcher_douyin.py:185 | a word followed by whitespace ends at the first whitespace position |
| Text.SpaceIndexOfSingle | Douyin/comment_fetcher_douyin.py:185 | a text with no whitespace has no whitespace position |
| Text.WordsOfSingle | Douyin/comment_fetcher_douyin.py:185 | a single word splits into itself |
| Text.WordsOfWord | Douyin/comment_fetcher_douyin.py:185-189 | a word followed by a space splits off as the first word |
| Json.Lookup | test_milvus.py:107-116 | a key is found exactly when some member has it, and the value found is that of its last member, as the JSON decoder keeps it |
| Json.LookupBelow | test_milvus.py:116 | the same search among the first `n` members |
| Json.Keys | test_milvus.py:120 | the distinct keys of a dict's members, each once: a key is listed exactly when some member has it |
| Json.KeysGrow | test_milvus.py:120 | the keys of the first m members come first among the keys of all members |
| Json.Get | test_milvus.py:116 | `.get(key, default)` raises exactly on a value that is no dict, gives the default for a missing key and the stored value otherwise |
| Json.Truthy | douyin_kuaishou_crawler_async.py:170 | defines Python truthiness, which `while cursor`, `if users` and `if user_info` test |
| Json.TruthyAsPython | douyin_kuaishou_crawler_async.py:170 | a value is falsy exactly when it is `None`, `False`, `0`, or has length 0 |
| Json.IsOne | dk.py:136 | `result == 1` holds only of a truthy value; on integers and booleans it holds exactly when `int()` gives 1, so `True` passes too |
| Json.In | Douyin/comment_fetcher_douyin.py:95 | `in` raises exactly on a value that is no container, and on a dict tests for the key |
| Json.Subscript | Kuaishou/comment_fetcher.py:91 | `v[key]` succeeds exactly on a dict holding the key |
| Json.PyLen | test_milvus.py:117 | `len()` is defined exactly on what can be iterated, and counts what iteration yields: a dict's distinct keys, each once |
| Json.Iterate | test_milvus.py:120 | `for x in v` raises exactly on a value that is no list, string or dict; a list yields its elements, a string its characters and a dict its distinct keys, each once, in the order they first occur |
| Json.DigitChar | test_milvus.py:126 | a decimal digit's character has that value |
| Json.NatToDecimal | test_milvus.py:126 | `str()` of a natural number is a non-empty run of digits |
| Json.IntToDecimal | test_milvus.py:126 | `str()` of an integer is never empty |
| Json.DigitsOfNat | test_milvus.py:126 | the digits of a natural number have its value |
| Json.DecimalTrimmed | dk.py:91 | `str()` of an integer has no surrounding whitespace, so `strip()` keeps it |
| Json.ParseInt | dk.py:91 | `int()` of a text raises on a blank text; a result comes only from a non-blank stripped text, and a negative one only from a leading minus |
| Json.ParseDigits | dk.py:91 | `int()` of a run of digits is their value |
| Json.ParseNegated | dk.py:91 | `int()` of a minus sign and digits is the negated value |
| Json.ParseIntRoundTrip | dk.py:91 | `int(str(i)) == i` for every integer |
| Json.PyStr | test_milvus.py:126 | `str()` of a string is that string, and of anything else is non-empty text |
| Json.PyInt | Kuaishou/comment_fetcher.py:64-71 | `int()` of an integer is that integer, and raises on `None`, a list or a dict |
| Json.Collect | test_milvus.py:119-129 | the user list fails exactly when some item makes the loop body raise; otherwise it holds at most one record per item, each one the body built from some item |
| Json.KeptPositions | test_milvus.py:119-129 | the positions of the kept items, increasing, each kept and every kept one listed |
| Json.CollectKeepsInOrder | test_milvus.py:119-129 | when no item raises, the list holds exactly the records of the kept items, in their order |
| Json.PositionsLift | test_milvus.py:119-129 | positions kept among the items before the last are kept among all of them |
| Json.PositionsSnoc | test_milvus.py:119-129 | keeping the last item adds its position and its record at the end |
| Json.CollectKeepsAll | dk.py:119-129 | a body that keeps every item builds one record per item, in order |
| Json.KeptFront | dk.py:119-129 | every item of the front is kept when every item is |
| Json.CollectSnoc | test_milvus.py:119-129 | the loop's last step appends the last item's record |
| Json.KeptOneEach | dk.py:119-129 | one record per earlier item plus the last item's record is one record per item |
| Json.Harvest | test_milvus.py:119-129 | the loop, run item by item, builds the list `Collect` describes |
| Embedding.EncodeAll | test_milvus.py:200 | `model.encode(texts)` gives one vector per text, in order, and fails exactly when some text fails |
| Embedding.AsTexts | douyin_kuaishou_crawler_async.py:78 | the batch consists of texts exactly when every value is a string |
| Embedding.EncodeValues | douyin_kuaishou_crawler_async.py:78 | encoding values fails exactly when one is not a string or cannot be encoded, and otherwise gives one vector per value |
| Embedding.EmbedNames | test_milvus.py:193-206 | `vectorize_data` gives no vectors exactly for no names or a failing batch, and otherwise one vector per name, in order |
| VectorStore.InsertOutcome | test_milvus.py:248-254 | an insert succeeds exactly when the batch fits the schema and the call does not raise; then the whole batch is appended, otherwise nothing; each call consumes one scripted outcome |
| VectorStore.AppendTwice | test_milvus.py:248 | appending two batches in turn is appending their concatenation |
| VectorStore.Collection.Recreate | test_milvus.py:58-64 | `init_milvus` leaves an empty collection |
| VectorStore.Collection.Insert | test_milvus.py:248-254 | the method changes the collection as `InsertOutcome` says and reports whether the insert succeeded |
| VectorStore.UserColumns | test_milvus.py:237-248 | the column-wise payload is accepted exactly when its columns have equal lengths, and then row `i` holds the `i`-th vector, metadata and keyword |
| SeedFile.ReadText | test_milvus.py:216-217 | reading a file in text mode succeeds exactly when it decodes, and leaves no `'\r'` |
| SeedFile.FirstDecoding | dk.py:189-198 | the encoding chosen is the first candidate that decodes the content; none is chosen exactly when none decodes it |
| SeedFile.NonBlankStripped | test_milvus.py:219 | the keywords are stripped, non-empty, and no more than the lines |
| SeedFile.NonBlankPositions | test_milvus.py:219 | the positions of the non-blank lines, increasing, each non-blank and every non-blank one listed |
| SeedFile.NonBlankStrippedInOrder | test_milvus.py:219 | the keywords are, in order, the stripped lines at exactly the non-blank positions |
| SeedFile.AllStripped | douyin_kuaishou_crawler_async.py:163 | one keyword per line, each that line stripped |
| SeedFile.SplitAndLinesAgree | test_milvus.py:219 | splitting on `'\n'` and iterating line by line give the same keywords once lines are stripped and blank ones dropped |
| Http.Next | test_milvus.py:102 | once the replies run out, a request gets no response |
| Http.Rest | test_milvus.py:102 | each request consumes one reply |
| Http.SuccessJson | test_milvus.py:103-107 | a body is read exactly when the status passes `raise_for_status()` and the body is JSON |
| Http.Ok | Douyin/comment_fetcher_douyin.py:131 | defines the reply the comment fetchers read: status exactly 200 (also Kuaishou/comment_fetcher.py:130) with a JSON body |
| Http.Redecode | test_milvus.py:113-114 | a decoded body that is not a string is kept as it is |

## Left out

- DouyinComments.CommentStore.FetchVideoComments, KuaishouComments.CommentStore.FetchVideoComments: `fetch_video_comments` calls itself once per page while its `httpx.AsyncClient` is still open (Douyin/comment_fetcher_douyin.py:150, Kuaishou/comment_fetcher.py:171), so the call chain grows by one frame and one open client per page. Past Python's recursion limit the deepest call raises `RecursionError`, which its own `except Exception` (Douyin/comment_fetcher_douyin.py:157, Kuaishou/comment_fetcher.py:178) catches, so that video's comments end early. The model's loop has no depth bound and does not model the open clients.
- HTTP transport: headers, the API key, timeouts, `verify=False`, the `asyncio.sleep` delays and the `async` structure. The calls run one after another and are modelled as sequential code; a transport failure is an `Unreachable` response.
- Percent-encoding of the keyword and cursor (`urllib.parse.quote`, section 2.1 of RFC 3986): a query keeps the keyword and the cursor as texts.
- `json.dumps` of the metadata: a row holds the metadata object that would be serialised. The `VARCHAR` lengths of the schemas (500 and 100 for the user collection, and those of the comment collections) are not checked: that the server refuses an over-long text is not modelled.
- The Milvus lifecycle: connecting, listing and dropping collections, declaring the schema, `create_index`, `load`, `flush` and `disconnect`. Of the calls against the store, only `insert` is modelled, plus `Recreate` for `init_milvus` and the photo ids a `query` returns for the resume set. The query's `limit`, and the read-back that `dk.py` prints after a run, are not modelled.
- The sentence-transformer model and its float32 vectors: the model is an oracle from a text to an optional vector of 384 reals. Loading the model is not modelled, and neither is what the library does with an item that is not a string: any such item fails the whole batch.
- The actual UTF-8, GBK, GB2312, GB18030 and UTF-16 decoders: decoding is an oracle. A decode error that shows up in the middle of iterating a file, rather than at the first read, is treated as failing the whole read.
- The `.env` loading, and the writing of a default `.env` when the file is absent, at import time: configuration I/O.
- Console output: every `print`, and the display loop of `Kuaishou/comment_fetcher.py:144-165`, which is modelled only in so far as an exception it raises ends the video.
- `input()` in `Kuaishou/comment_fetcher.py:184`: the video id is a parameter of `RunFetcher`.
- Files that only do I/O: `Kuaishou/single_video_downloader.py`, `checkMulvus.py`, `test_api.py` and `Douyin/APP API Demo/profile_videos_downloader.py` are not part of this model.
- Json.PyStr: `str()` of a list or a dict is a fixed non-empty text, not Python's `repr` of it. That text becomes a stored `uid` (test_milvus.py:126, test_milvus.py:160, douyin_kuaishou_crawler_async.py:128), the cursor `dk.py` sends next (dk.py:118) and the key looked up in `subCommentsMap` (Kuaishou/comment_fetcher.py:90), so for a list or dict value the text stored or sent differs from the program's; for `None`, booleans, integers and strings it is exact.
- Json.ParseInt: `int()` on a text accepts surrounding whitespace, a sign and ASCII digits; the underscores between digits and the non-ASCII digits that Python also accepts are not modelled.
- Json.PyInt: `int()` of a float (truncation) is not modelled, because JSON numbers with a fraction are not part of the JSON model. Integers are unbounded; only the `INT64` range check of the store limits them.
- JSON objects are member lists in document order, not hash tables. A key that occurs twice is one dict key: it is iterated and counted once, at the place it first occurs, and looked up with the value of its last member, as a Python dict built from the members in order keeps it.
- AsyncCrawler.Step, AsyncCrawler.CrawlAll, AsyncCrawler.RunAsync: the crawl loop is built on the corrected `Fetch` (see Findings), where a non-string cursor or a 2xx reply that is not JSON gives `([], None)` and ends only that keyword. As written, `fetch_data` raises `UnboundLocalError` there (`FetchAsWritten` gives `Crash`), nothing in `main` catches it, and the whole run stops after the collection was recreated, so no later round or keyword runs. The model does not state this stop of the run as written; `NumericCursorCrashes` and `NonJsonReplyCrashes` show the inputs that reach it.

## Findings

| source | as written | input that shows it | evidently intended | confidence | as-written member | corrected member |
|---|---|---|---|---|---|---|
| douyin_kuaishou_crawler_async.py:95-151 | the catch-all handler prints `data`, but `data` is bound only once `response.json()` succeeded; when `cursor.encode` fails on a cursor that is not a string, or a 2xx reply is not JSON, the handler itself raises `UnboundLocalError` and the crawl stops | a page whose `data.cursor` is the number `10`: the next round calls `fetch_data` with the cursor `10`; or a 200 reply whose body is not JSON | every exception gives `([], None)`, as the other handlers do, which ends that keyword | not executed | AsyncCrawler.FetchAsWritten, AsyncCrawler.NumericCursorCrashes, AsyncCrawler.NonJsonReplyCrashes | AsyncCrawler.Fetch |
