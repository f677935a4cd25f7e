# PlayHead: a session-scoped YouTube question-answering client, modelled in Dafny

PlayHead lets a user ingest YouTube videos or playlists and then ask questions about them. The web
client keeps a session id in browser storage. It sends ingest and chat requests tagged with that
session, keeps a deduplicated catalog of the ingested videos, and keeps the conversation
transcript. The Python backend does three things. It extracts video ids and transcripts. It stores
chunk embeddings in a vector index. It answers from the retrieved context.

This project models four parts of that system:

- `app.dfy` (module `App`) models the client component in `frontend/src/App.tsx` as the class
  `Client`. The class has the component's state as fields: `sessionId`, a storage map, `videos`,
  `messages`, `ingesting`, `chatting`, `ingestStatus`, and the two input fields. Each asynchronous
  handler is split into a step that starts the request and a step that settles it. The network
  reply is a parameter of the settle step. Overlapping requests are therefore sequences of these
  steps, and the model makes no claim about the order in which they settle. The catalog merge is
  the function `Merge`. The method `MergeVideos` implements it with the handler's loop. Lemmas
  state what the merge promises: no id is lost or invented, old entries form a prefix, new entries
  are the first occurrences of unseen ids in incoming order, ids stay distinct, and merging twice
  equals merging once. The ghost counters of `Client.Valid()` state the transcript's turn-taking.
  There is one user turn per started chat. There is one system turn per settled chat and per
  refusal for want of a session. No turn ever has the `assistant` role.
- `db.dfy` (module `Db`) models the backend's per-session video registry (`backend/db.py`) as the
  class `Database`, with dedup-on-insert by `video_id`.
- `scraper.dfy` (module `Scraper`) models `backend/scraper.py`. It covers video-id extraction from
  a URL that has already been split into host, path and query, as `urlparse` does per section 3
  of RFC 3986. It also covers the playlist-entry filter and the assembly of scraped records.
  yt-dlp's result and the transcript service are inputs.
- `rag.dfy` (module `Rag`) models the parts of `backend/rag.py` that are its own logic. These are
  vector ids, vector order and metadata, batching of upserts into at most 100, and context
  selection with the fixed no-context answer. The text splitter, the embedding model, the index
  search and the language model are function parameters.
- `strings.dfy` (module `Strings`) provides Python's `str.split` on one character and `str.join`,
  proved inverse to each other. It also provides the decimal rendering of a natural number, proved
  injective by reading it back. `wrappers.dfy` defines `Option`.

The code behaves in some ways a reader might not expect; the model follows the code:

- A chat answer is appended with role `system`, not `assistant`.
- The ingest handler does not refuse a second start while one is running. Only the disabled
  button prevents it.
- After an ingest, the returned session id is compared with the id the handler saw when it
  started. It is not compared with the current one.
- The `/session` fetch does not test the response status. A JSON body without `session_id` sets
  the in-memory id to `undefined`, which every use tests as false and the model writes as "". It
  also stores the text `"undefined"` under `session_id`, which the next page load restores as the
  session id.
- The JSON body of an ingest response is read before its status is tested. A body that is not
  JSON therefore lands in the connection-error branch, whatever the status.

## Model

| member | source | states |
|---|---|---|
| App.MergeVideos | frontend/src/App.tsx:92-100 | the copy-and-push loop over the incoming videos computes exactly the catalog `Merge(prev, incoming)` |
| App.MergeIds | frontend/src/App.tsx:92-100 | an id is in the merged catalog iff it was in the catalog or in the incoming list: nothing lost, nothing invented |
| App.Merge | frontend/src/App.tsx:92-100 | the previous catalog is a prefix of the merged one, so existing entries are never overwritten or reordered, and at most one entry is added per incoming video |
| App.MergeAppendsAdditions | frontend/src/App.tsx:92-100 | the merge appends exactly the incoming videos whose id is neither in the catalog nor earlier in the batch, in incoming order, so in-batch duplicates collapse to the first |
| App.MergeKeepsDistinct | frontend/src/App.tsx:92-100 | if the catalog's `video_id`s are pairwise distinct, they remain so after a merge |
| App.MergeNothingNew | frontend/src/App.tsx:95 | a batch whose every id is already present leaves the catalog unchanged |
| App.MergeIdempotent | frontend/src/App.tsx:92-100 | merging the same list twice gives the same catalog as merging it once |
| App.MergeDedupExample | frontend/src/App.tsx:92-100 | merging `[a]` and then `[a', b]`, where `a'` shares `a`'s id, gives `[a, b]` |
| App.StoredSession | frontend/src/App.tsx:45-46 | a non-empty stored `session_id` is read as is; a missing or empty one reads as "" |
| App.SessionSettled | frontend/src/App.tsx:50-57 | a fetched id becomes the session and is stored under `session_id`; a body without the field stores "undefined" and leaves the session falsy; a failure changes nothing; other storage keys are untouched |
| App.SessionSurvivesReload | frontend/src/App.tsx:44-57 | after a fetched id has been stored, storage reads back that id, and the next load fetches again exactly when the id was empty |
| App.PayloadFor | frontend/src/App.tsx:66-69 | the ingest payload carries the url, and carries `session_id` exactly when the current session id is non-empty |
| App.FailureStatus | frontend/src/App.tsx:103 | a non-ok ingest status is "Ingestion failed: " followed by the backend's non-empty detail, or by "Unknown error" |
| App.FailureStatusShowsDetail | frontend/src/App.tsx:103 | detail "bad url" gives the status "Ingestion failed: bad url" |
| App.ResponseTurn | frontend/src/App.tsx:131-139 | a settled chat's turn has role `system`; its content is the answer on success and "Error getting response." on a non-ok status or a throw |
| App.CountRoleSnoc | frontend/src/App.tsx:120 | appending a turn adds one to the count of its role and leaves the other counts unchanged |
| App.Client.constructor | frontend/src/App.tsx:25-42 | initial state: empty inputs and session, the single welcome turn, idle flags, and the catalog restored from storage and written back |
| App.Client.SetUrl | frontend/src/App.tsx:169 | typing sets the url field |
| App.Client.SetQuery | frontend/src/App.tsx:241 | typing sets the question field |
| App.Client.BeginBootstrap | frontend/src/App.tsx:44-50 | a fetch is made exactly when `NeedsSessionFetch` holds of storage; otherwise the stored `session_id` becomes the session; with a fetch the session stays as it was |
| App.Client.SettleBootstrap | frontend/src/App.tsx:50-57 | the session and storage become `SessionSettled` of the reply |
| App.Client.BeginIngest | frontend/src/App.tsx:61-75 | an empty url is a no-op; otherwise the client is busy with "Starting ingestion..." and the request carries `PayloadFor(url, sessionId)` and the id seen at start |
| App.Client.SettleIngest | frontend/src/App.tsx:82-109 | success: the complete status, the merged catalog written to storage, and a returned non-empty id that differs from the id seen at start is adopted and stored; failure: the detail or connection status with session, storage and catalog unchanged; never busy afterwards; the transcript invariant is kept |
| App.Client.BeginChat | frontend/src/App.tsx:112-128 | a send click while chatting and an empty question do nothing; with no session exactly one system error turn is appended and nothing is sent; otherwise the user turn is appended, the question cleared, the client marked busy, and the request is `{query, session_id}` |
| App.Client.SettleChat | frontend/src/App.tsx:131-141 | exactly one turn, `ResponseTurn(reply)`, is appended after all earlier turns, which are unchanged; the client is idle; the transcript invariant is kept |
| Db.WithVideo | backend/db.py:17-18 | after the insert rule the list holds the video's id; the old list is a prefix; the list is unchanged iff the id was present; otherwise the video is appended last |
| Db.AddTwiceIsAddOnce | backend/db.py:17-18 | adding the same video twice leaves the list as after one add |
| Db.WithVideoKeepsDistinct | backend/db.py:17-18 | the insert rule keeps `video_id`s pairwise distinct |
| Db.Database.constructor | backend/db.py:6-10 | the registry starts with no sessions |
| Db.Database.AddVideo | backend/db.py:12-18 | the session gets an entry even for a duplicate; its list becomes `WithVideo` of the old list (or of `[]`); every other session's list is unchanged; distinct ids per session are kept |
| Db.Database.GetVideos | backend/db.py:20-22 | a known session's stored list, `[]` for an unknown one, and no entry is created |
| Strings.Split | backend/scraper.py:28 | `str.split` on one character returns at least one part, and no part contains the separator |
| Strings.JoinSplit | backend/scraper.py:28 | joining the parts of a split with the separator gives back the string |
| Strings.SplitJoin | backend/scraper.py:28 | splitting the join of separator-free parts gives back the parts |
| Strings.NatToString | backend/rag.py:57 | the rendering of a chunk index is a non-empty string of decimal digits with no leading zero except for 0 itself |
| Strings.Join | backend/rag.py:96 | the join starts with the first part; its length is the parts' total length plus one separator between each pair of neighbours; no parts give "" |
| Strings.DigitsValueOfNatToString | backend/rag.py:57 | reading the rendering back gives the index, so distinct indices render differently |
| Scraper.VideoId | backend/scraper.py:19-29 | an id is found only on the four recognised hosts, and always on the short-link hosts (possibly empty) |
| Scraper.FirstValue | backend/scraper.py:26 | `parse_qs(...).get('v', [None])[0]`: None iff no pair for the key has a non-blank value, otherwise a non-blank value that occurs for the key |
| Scraper.FirstValueIsFirst | backend/scraper.py:26 | the value returned is that of the first pair for the key with a non-blank value |
| Scraper.ShortsPathSplit | backend/scraper.py:27-28 | a path under `/shorts/` has at least three segments, and the third onward are the segments after the prefix |
| Scraper.ShortLinkId | backend/scraper.py:22-23 | on `youtu.be` or `www.youtu.be` the id is the path without its first character |
| Scraper.WatchId | backend/scraper.py:24-26 | on `youtube.com` or `www.youtube.com` with path `/watch`, the id is `FirstValue` of the query for `v`: present iff some `v` value is non-blank, and then non-empty |
| Scraper.ShortsId | backend/scraper.py:27-28 | on those hosts with a `/shorts/` path, the id is slash-free and the path is the prefix, the id, and then nothing or a slash and more |
| Scraper.UnrecognisedUrlHasNoId | backend/scraper.py:19-29 | any other host, or any other path on the full hosts, yields None |
| Scraper.CollectIds | backend/scraper.py:36-40 | the collected ids are never more than the entries |
| Scraper.CollectIdsOne | backend/scraper.py:38-40 | a single entry contributes its `id` exactly when it is a non-null entry that has one; a null entry or one without `id` contributes nothing |
| Scraper.CollectIdsStopsAtFailure | backend/scraper.py:35-42 | a failure while iterating at position k returns exactly the ids collected before k |
| Scraper.CollectIdsAppend | backend/scraper.py:38-40 | without failures, the ids of two runs of entries are the ids of each in order |
| Scraper.PlaylistVideos | backend/scraper.py:31-43 | the loop returns `CollectIds` of the entries, and `[]` when extraction fails or there are no entries |
| Scraper.GetVideoIds | backend/scraper.py:45-51 | a non-empty extracted id gives `[id]`; otherwise exactly the playlist's ids |
| Scraper.ScrapeRecords | backend/scraper.py:65-82 | never more records than ids; each record's id is one of the ids, its url is the watch url of its id, and its text is that id's non-empty transcript |
| Scraper.ScrapeRecordsAppend | backend/scraper.py:71-78 | records follow id order: the records of a concatenation of ids are the records of each part in turn, so a repeated id gives a repeated record |
| Scraper.ScrapeRecordsOne | backend/scraper.py:72-78 | a single id gives one record with its watch url and transcript when the transcript is non-empty, and none otherwise |
| Scraper.ScrapeRecordsComplete | backend/scraper.py:70-78 | every id with a non-empty transcript has a record |
| Scraper.Scrape | backend/scraper.py:65-82 | the ids are those of `get_video_ids`, and the loop returns `ScrapeRecords` of them |
| Rag.VectorId | backend/rag.py:57 | the id is the session id, `_`, the video id, `_`, then a non-empty run of decimal digits whose value is the chunk index `i` |
| Rag.VectorIdInjective | backend/rag.py:57 | two chunks of the same video in the same session get the same id only if they have the same index |
| Rag.ItemVectors | backend/rag.py:55-64 | one vector per chunk of an item |
| Rag.VectorAt | backend/rag.py:53-64 | one vector per chunk; chunk i of item p sits after all chunks of the items before p, with id `session_video_i`, the chunk's embedding, and metadata text, source url, video id and session id |
| Rag.Vectors | backend/rag.py:53-64 | the number of vectors is the total number of chunks |
| Rag.BuildVectors | backend/rag.py:53-64 | the nested loop builds exactly `Vectors` of the items |
| Rag.Batches | backend/rag.py:69-72 | the batches concatenate to the vector list, number ceil(n/100), each is non-empty with at most 100 vectors, and all but the last have exactly 100 |
| Rag.Ingest | backend/rag.py:48-75 | the upserts concatenate to the vector list, obey the batch bounds, and there are none exactly when there are no vectors |
| Rag.ContextTexts | backend/rag.py:88-91 | there are no more context parts than matches |
| Rag.ContextTextsOne | backend/rag.py:88-91 | a single match contributes its metadata's `text` value exactly when its metadata has a `text` entry, and nothing otherwise |
| Rag.ContextTextsAppend | backend/rag.py:88-91 | the parts of two runs of matches are the parts of each in match order |
| Rag.ContextTextsEmpty | backend/rag.py:88-93 | there are no parts iff no match has metadata with a `text` entry |
| Rag.ContextParts | backend/rag.py:88-91 | the loop collects exactly `ContextTexts` of the matches |
| Rag.Chat | backend/rag.py:77-123 | with no context parts the answer is the fixed no-context string and the model is not invoked; otherwise the model receives the parts joined by a blank line, and its reply is the answer |

## Left out

- Rendering, styling and the status-line display (frontend/src/App.tsx:144-255). The model keeps
  only two facts from that code. A click on the disabled send button does not fire. The Enter key
  calls the chat handler unguarded.
- App.Client.BeginIngest: the handler itself does not check `ingesting`. Only the disabled ingest
  button (frontend/src/App.tsx:173) keeps a second ingest from starting, and the model does not
  add a check.
- Real `fetch`, `localStorage`, JSON encoding and `console`. Replies are values of `SessionReply`,
  `IngestReply` and `ChatReply`. Storage is a map for the string entries. The catalog's stored
  entry is the field `savedVideos`, and its JSON text is not modelled.
- The parse of the stored catalog at start-up (frontend/src/App.tsx:37). The constructor is given
  the restored list. A malformed stored value, which makes `JSON.parse` throw, is not modelled.
- Scheduling. The model does not say when an asynchronous step runs or in what order overlapping
  requests settle. In particular, the first of two overlapping chats to settle clears `chatting`
  while the other is still running, and the model shows this only as the per-step effect.
- Reply bodies whose fields have unexpected types, for example an ok ingest body without
  `videos`, or an ok chat body without `answer`.
- The `Database` singleton mechanics (backend/db.py:6-10). The model has one instance. The
  aliasing of the returned and stored Python lists is not modelled.
- yt-dlp, the transcript API and the percent-decoding done by `urlparse`/`parse_qs`. The URL
  arrives split and decoded, with `hostname` already lower-cased ("" when absent). The transcript
  service is a deterministic function from id to optional text.
- The text splitter (chunk size 1000, overlap 200), the embedding model, Pinecone index creation
  and its `top_k`/filter semantics, the prompt template and the Gemini call. They are function
  parameters or omitted, and embeddings are sequences of reals in place of floats.
- `_init_index`, `frontend/src/App.jsx` (a superseded variant of the client), `backend/app.py` (HTTP
  plumbing) and `backend/debug_api.py` (a manual probe script) are not part of this model.
