/**
  The backend's per-session video registry: a single `Database` object whose
  dictionary `session_videos` maps a session id to the list of video records
  ingested for it, deduplicated by `video_id`.
*/
module Db {

  /** A video record: the `video_id` key the registry inspects, and the rest of the dictionary. */
  datatype VideoData = VideoData(videoId: string, fields: map<string, string>)

  /** Some record in `videos` carries `id`. */
  predicate HasVideo(videos: seq<VideoData>, id: string) {
    exists k :: 0 <= k < |videos| && videos[k].videoId == id
  }

  /** No two records in `videos` share a `video_id`. */
  predicate DistinctIds(videos: seq<VideoData>) {
    forall i, j :: 0 <= i < j < |videos| ==> videos[i].videoId != videos[j].videoId
  }

  /** A session's list after the dedup-on-insert rule has considered `video`. */
  function WithVideo(videos: seq<VideoData>, video: VideoData): (r: seq<VideoData>)
    ensures HasVideo(r, video.videoId)
    ensures videos <= r && |r| <= |videos| + 1
    ensures r == videos <==> HasVideo(videos, video.videoId)
    ensures |r| == |videos| + 1 ==> r[|videos|] == video
  {
    if HasVideo(videos, video.videoId) then videos
    else
      var r := videos + [video];
      assert r[|videos|] == video;
      r
  }

  /** Adding a video a second time leaves the list as after the first add. */
  lemma AddTwiceIsAddOnce(videos: seq<VideoData>, video: VideoData)
    ensures WithVideo(WithVideo(videos, video), video) == WithVideo(videos, video)
  {
  }

  /** The insert rule keeps `video_id`s pairwise distinct. */
  lemma WithVideoKeepsDistinct(videos: seq<VideoData>, video: VideoData)
    requires DistinctIds(videos)
    ensures DistinctIds(WithVideo(videos, video))
  {
  }

  class Database {
    var sessionVideos: map<string, seq<VideoData>>

    /** Every session's list is free of duplicate `video_id`s. */
    ghost predicate Valid()
      reads this
    {
      forall s :: s in sessionVideos ==> DistinctIds(sessionVideos[s])
    }

    /** The single registry starts empty. */
    constructor ()
      ensures Valid() && sessionVideos == map[]
    {
      sessionVideos := map[];
    }

    /** `add_video`: creates the session's entry if missing, then appends `video` unless its id is present. */
    method AddVideo(sessionId: string, video: VideoData)
      requires Valid()
      modifies this
      ensures Valid()
      ensures sessionId in sessionVideos
      ensures sessionVideos.Keys == old(sessionVideos).Keys + {sessionId}
      ensures sessionVideos[sessionId]
           == WithVideo(if sessionId in old(sessionVideos) then old(sessionVideos)[sessionId] else [], video)
      ensures forall s :: s in old(sessionVideos) && s != sessionId ==> sessionVideos[s] == old(sessionVideos)[s]
    {
      if sessionId !in sessionVideos {
        sessionVideos := sessionVideos[sessionId := []];
      }
      var videos := sessionVideos[sessionId];
      WithVideoKeepsDistinct(videos, video);
      if !HasVideo(videos, video.videoId) {
        sessionVideos := sessionVideos[sessionId := videos + [video]];
      }
    }

    /** `get_videos`: the stored list of a known session, `[]` for an unknown one, and no entry is created. */
    method GetVideos(sessionId: string) returns (videos: seq<VideoData>)
      ensures sessionId in sessionVideos ==> videos == sessionVideos[sessionId]
      ensures sessionId !in sessionVideos ==> videos == []
    {
      videos := if sessionId in sessionVideos then sessionVideos[sessionId] else [];
    }
  }
}
