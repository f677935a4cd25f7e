/**
  The backend's YouTube scraper: video-id extraction from an already parsed
  URL, the playlist entry filter, and the assembly of scraped records. The
  URL arrives split into host, path and query parts, as `urlparse` splits it
  (section 3 of RFC 3986); yt-dlp and the transcript service are inputs.
*/
module Scraper {
  import opened Wrappers
  import Strings

  /**
    A parsed URL: `hostname` as the parser reports it ("" when there is none),
    the path, and the query's name/value pairs in order, already percent-decoded.
  */
  datatype ParsedUrl = ParsedUrl(hostname: string, path: string, query: seq<(string, string)>)

  const WatchUrlPrefix := "https://www.youtube.com/watch?v="
  const ShortsPrefix := "/shorts/"

  /**
    `parse_qs(query).get(key, [None])[0]`: the first value given for `key`;
    `parse_qs` drops pairs with a blank value.
  */
  function FirstValue(query: seq<(string, string)>, key: string): (r: Option<string>)
    ensures r.None? <==> forall j :: 0 <= j < |query| ==> query[j].0 != key || query[j].1 == ""
    ensures r.Some? ==> r.value != "" && (key, r.value) in query
  {
    if query == [] then None
    else if query[0].0 == key && query[0].1 != "" then Some(query[0].1)
    else FirstValue(query[1..], key)
  }

  /** The value found is the one of the first pair for `key` with a non-blank value. */
  lemma {:induction false} FirstValueIsFirst(query: seq<(string, string)>, key: string, j: nat)
    requires j < |query| && query[j].0 == key && query[j].1 != ""
    requires forall i :: 0 <= i < j ==> query[i].0 != key || query[i].1 == ""
    ensures FirstValue(query, key) == Some(query[j].1)
  {
    if j > 0 {
      FirstValueIsFirst(query[1..], key, j - 1);
    }
  }

  /** After its leading slash, a `/shorts/` path is a slash-free word, a slash, and the rest. */
  lemma ShortsPathTail(path: string)
    requires |path| >= |ShortsPrefix| && path[..|ShortsPrefix|] == ShortsPrefix
    ensures path[0] == '/' && '/' !in path[1..7]
    ensures path[1..] == path[1..7] + ['/'] + path[|ShortsPrefix|..]
  {
  }

  /**
    A path starting with `/shorts/` splits into at least three segments, and
    from the third on they are the segments of what follows the prefix.
  */
  lemma ShortsPathSplit(path: string)
    requires |path| >= |ShortsPrefix| && path[..|ShortsPrefix|] == ShortsPrefix
    ensures |Strings.Split(path, '/')| >= 3
    ensures Strings.Split(path, '/')[2..] == Strings.Split(path[|ShortsPrefix|..], '/')
  {
    ShortsPathTail(path);
    var x := path[1..];
    var rest := path[|ShortsPrefix|..];
    assert path == [] + ['/'] + x;
    Strings.SplitAfterHead([], '/', x);
    Strings.SplitAfterHead(path[1..7], '/', rest);
    var parts := Strings.Split(path, '/');
    assert parts == [[]] + ([path[1..7]] + Strings.Split(rest, '/'));
    assert parts[2..] == Strings.Split(rest, '/');
  }

  /** `_get_video_id`: Some(id) for the three recognised URL shapes, None for everything else. */
  function VideoId(u: ParsedUrl): (r: Option<string>)
    ensures r.Some? ==> u.hostname in {"youtu.be", "www.youtu.be", "youtube.com", "www.youtube.com"}
    ensures u.hostname in {"youtu.be", "www.youtu.be"} ==> r.Some?
  {
    if u.hostname in {"youtu.be", "www.youtu.be"} then
      Some(if u.path == "" then "" else u.path[1..])
    else if u.hostname in {"youtube.com", "www.youtube.com"} && u.path == "/watch" then
      FirstValue(u.query, "v")
    else if u.hostname in {"youtube.com", "www.youtube.com"}
         && |u.path| >= |ShortsPrefix| && u.path[..|ShortsPrefix|] == ShortsPrefix then
      ShortsPathSplit(u.path);
      Some(Strings.Split(u.path, '/')[2])
    else
      None
  }

  /** On a short-link host the id is the path without its first character: "/" + id gives the path back. */
  lemma ShortLinkId(u: ParsedUrl)
    requires u.hostname in {"youtu.be", "www.youtu.be"}
    ensures VideoId(u).Some?
    ensures u.path != "" ==> u.path == [u.path[0]] + VideoId(u).value
    ensures u.path == "" ==> VideoId(u).value == ""
  {
  }

  /** On a full host with path `/watch` the id is the first non-blank `v` value, and None without one. */
  lemma WatchId(u: ParsedUrl)
    requires u.hostname in {"youtube.com", "www.youtube.com"} && u.path == "/watch"
    ensures VideoId(u).Some? <==> exists j :: 0 <= j < |u.query| && u.query[j].0 == "v" && u.query[j].1 != ""
    ensures VideoId(u).Some? ==> VideoId(u).value != ""
    ensures VideoId(u) == FirstValue(u.query, "v")
  {
  }

  /**
    On a full host with a `/shorts/` path the id is the third `/`-separated
    segment: a slash-free piece that the path continues with, directly after
    the prefix, up to its end or the next `/`.
  */
  lemma {:induction false} ShortsId(u: ParsedUrl)
    requires u.hostname in {"youtube.com", "www.youtube.com"}
    requires |u.path| >= |ShortsPrefix| && u.path[..|ShortsPrefix|] == ShortsPrefix
    ensures VideoId(u).Some?
    ensures var id := VideoId(u).value;
      '/' !in id
      && (u.path == ShortsPrefix + id
          || exists tail :: u.path == ShortsPrefix + id + "/" + tail)
  {
    var rest := u.path[|ShortsPrefix|..];
    assert u.path == ShortsPrefix + rest by {
      assert u.path == u.path[..|ShortsPrefix|] + rest;
    }
    ShortsPathSplit(u.path);
    var parts := Strings.Split(rest, '/');
    var id := parts[0];
    assert VideoId(u) == Some(id);
    Strings.SplitFirst(rest, '/');
    if |parts| > 1 {
      var tail := Strings.Join(parts[1..], ['/']);
      assert u.path == ShortsPrefix + id + "/" + tail;
    }
  }

  /**
    Any other host, and on the full hosts any path other than `/watch` or one
    under `/shorts/`, yields None.
  */
  lemma UnrecognisedUrlHasNoId(u: ParsedUrl)
    requires u.hostname !in {"youtu.be", "www.youtu.be"}
    requires u.hostname in {"youtube.com", "www.youtube.com"} ==>
      u.path != "/watch" && !(|u.path| >= |ShortsPrefix| && u.path[..|ShortsPrefix|] == ShortsPrefix)
    ensures VideoId(u) == None
  {
  }

  /** One element of yt-dlp's `entries`: a null entry, an entry dict with or without `id`, or a failure while iterating. */
  datatype Entry = NullEntry | Entry(id: Option<string>) | Broken

  /** What `extract_info` gives: a failure, or an info dict with or without `entries`. */
  datatype PlaylistInfo = ExtractFailed | Info(entries: Option<seq<Entry>>)

  /** The ids of `entries`, in order, up to the first failure. */
  function CollectIds(entries: seq<Entry>): (ids: seq<string>)
    ensures |ids| <= |entries|
  {
    if entries == [] then []
    else
      match entries[0]
      case Broken => []
      case NullEntry => CollectIds(entries[1..])
      case Entry(id) => (if id.Some? then [id.value] else []) + CollectIds(entries[1..])
  }

  /** A single entry contributes its id exactly when it is an entry dict with an `id`. */
  lemma CollectIdsOne(e: Entry)
    ensures CollectIds([e]) == if e.Entry? && e.id.Some? then [e.id.value] else []
  {
  }

  /** A failure at position `k` leaves exactly the ids collected before it. */
  lemma {:induction false} CollectIdsStopsAtFailure(entries: seq<Entry>, k: nat)
    requires k < |entries| && entries[k] == Broken
    ensures CollectIds(entries) == CollectIds(entries[..k])
  {
    if k > 0 {
      CollectIdsStopsAtFailure(entries[1..], k - 1);
      assert entries[1..][..k - 1] == entries[..k][1..];
    }
  }

  /** Without failures, collecting over a concatenation is the concatenation of the collections. */
  lemma {:induction false} CollectIdsAppend(a: seq<Entry>, b: seq<Entry>)
    requires forall k :: 0 <= k < |a| ==> a[k] != Broken
    ensures CollectIds(a + b) == CollectIds(a) + CollectIds(b)
  {
    if a == [] {
      assert a + b == b;
    } else {
      assert (a + b)[0] == a[0];
      assert (a + b)[1..] == a[1..] + b;
      CollectIdsAppend(a[1..], b);
      var h := if a[0].Entry? && a[0].id.Some? then [a[0].id.value] else [];
      assert CollectIds(a + b) == h + CollectIds(a[1..] + b);
      assert CollectIds(a) == h + CollectIds(a[1..]);
      assert h + (CollectIds(a[1..]) + CollectIds(b)) == (h + CollectIds(a[1..])) + CollectIds(b);
    }
  }

  /** `_get_playlist_videos`: the loop over `entries`, stopping with the ids so far when iteration fails. */
  method PlaylistVideos(info: PlaylistInfo) returns (ids: seq<string>)
    ensures ids == if info.Info? && info.entries.Some? then CollectIds(info.entries.value) else []
  {
    ids := [];
    if info.Info? && info.entries.Some? {
      var entries := info.entries.value;
      var i := 0;
      while i < |entries|
        invariant 0 <= i <= |entries|
        invariant forall k :: 0 <= k < i ==> entries[k] != Broken
        invariant CollectIds(entries) == ids + CollectIds(entries[i..])
        decreases |entries| - i
      {
        if entries[i] == Broken {
          break;
        }
        if entries[i].Entry? && entries[i].id.Some? {
          ids := ids + [entries[i].id.value];
        }
        assert entries[i..][1..] == entries[i + 1..];
        i := i + 1;
      }
      if i < |entries| {
        assert entries[i..][0] == Broken;
      }
    }
  }

  /** `get_video_ids`: the extracted id alone when it is non-empty, otherwise the playlist's ids. */
  method GetVideoIds(u: ParsedUrl, info: PlaylistInfo) returns (ids: seq<string>)
    ensures VideoId(u).Some? && VideoId(u).value != "" ==> ids == [VideoId(u).value]
    ensures !(VideoId(u).Some? && VideoId(u).value != "") ==>
      ids == if info.Info? && info.entries.Some? then CollectIds(info.entries.value) else []
  {
    var id := VideoId(u);
    if id.Some? && id.value != "" {
      return [id.value];
    }
    ids := PlaylistVideos(info);
  }

  /** One scraped video as `scrape` returns it. */
  datatype Scraped = Scraped(videoId: string, url: string, text: string)

  /** The records `scrape` assembles from `ids`, given what the transcript service answers for each id. */
  function ScrapeRecords(ids: seq<string>, transcript: string -> Option<string>): (r: seq<Scraped>)
    ensures |r| <= |ids|
    ensures forall k :: 0 <= k < |r| ==>
      r[k].videoId in ids && r[k].url == WatchUrlPrefix + r[k].videoId
      && r[k].text != "" && transcript(r[k].videoId) == Some(r[k].text)
  {
    if ids == [] then []
    else
      var t := transcript(ids[|ids| - 1]);
      var init := ScrapeRecords(ids[..|ids| - 1], transcript);
      if t.Some? && t.value != "" then
        init + [Scraped(ids[|ids| - 1], WatchUrlPrefix + ids[|ids| - 1], t.value)]
      else init
  }

  /** Every id with a non-empty transcript gets a record: nothing is dropped but the transcript-less ids. */
  lemma {:induction false} ScrapeRecordsComplete(ids: seq<string>, transcript: string -> Option<string>, k: nat)
    requires k < |ids| && transcript(ids[k]).Some? && transcript(ids[k]).value != ""
    ensures exists j :: 0 <= j < |ScrapeRecords(ids, transcript)| && ScrapeRecords(ids, transcript)[j].videoId == ids[k]
  {
    var r := ScrapeRecords(ids, transcript);
    if k == |ids| - 1 {
      assert r[|r| - 1].videoId == ids[k];
    } else {
      ScrapeRecordsComplete(ids[..|ids| - 1], transcript, k);
      var j :| 0 <= j < |ScrapeRecords(ids[..|ids| - 1], transcript)|
        && ScrapeRecords(ids[..|ids| - 1], transcript)[j].videoId == ids[k];
      assert r[j].videoId == ids[k];
    }
  }

  /**
    Records follow id order, one per id with a non-empty transcript, a
    repeated id giving a repeated record: scraping a concatenation of ids
    concatenates the records.
  */
  lemma {:induction false} ScrapeRecordsAppend(a: seq<string>, b: seq<string>, transcript: string -> Option<string>)
    ensures ScrapeRecords(a + b, transcript) == ScrapeRecords(a, transcript) + ScrapeRecords(b, transcript)
    decreases |b|
  {
    if b == [] {
      assert a + b == a;
    } else {
      var b' := b[..|b| - 1];
      ScrapeRecordsAppend(a, b', transcript);
      assert (a + b)[..|a + b| - 1] == a + b';
      assert (a + b)[|a + b| - 1] == b[|b| - 1];
    }
  }

  /** The records of a single id: one record exactly when its transcript is non-empty. */
  lemma ScrapeRecordsOne(id: string, transcript: string -> Option<string>)
    ensures transcript(id).Some? && transcript(id).value != "" ==>
      ScrapeRecords([id], transcript) == [Scraped(id, WatchUrlPrefix + id, transcript(id).value)]
    ensures !(transcript(id).Some? && transcript(id).value != "") ==> ScrapeRecords([id], transcript) == []
  {
    assert [id][..0] == [];
  }

  /** `scrape`: the loop over the ids that keeps one record per id with a non-empty transcript. */
  method Scrape(u: ParsedUrl, info: PlaylistInfo, transcript: string -> Option<string>)
    returns (ids: seq<string>, results: seq<Scraped>)
    ensures VideoId(u).Some? && VideoId(u).value != "" ==> ids == [VideoId(u).value]
    ensures !(VideoId(u).Some? && VideoId(u).value != "") ==>
      ids == if info.Info? && info.entries.Some? then CollectIds(info.entries.value) else []
    ensures results == ScrapeRecords(ids, transcript)
  {
    ids := GetVideoIds(u, info);
    results := [];
    for i := 0 to |ids|
      invariant results == ScrapeRecords(ids[..i], transcript)
    {
      var text := transcript(ids[i]);
      if text.Some? && text.value != "" {
        results := results + [Scraped(ids[i], WatchUrlPrefix + ids[i], text.value)];
      }
      assert ids[..i + 1][..i] == ids[..i];
    }
    assert ids[..|ids|] == ids;
  }
}
