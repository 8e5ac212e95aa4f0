/**
 * The batch job: for one tracked channel, find the comments not announced
 * yet, record them, look up the titles of their videos and plan one
 * Telegram message per comment.
 */
module CheckMessages {
  import opened Basics
  import opened Database

  type VideoId = string

  /** A value handed to the message template; a missing title is `undefined`. */
  datatype Value = Text(text: string) | Undefined

  /**
   * A comment thread as the comments API lists it: the id of its top-level
   * comment, the `videoId` field of that comment's snippet, and the other
   * fields of the snippet.
   */
  datatype Comment = Comment(id: CommentId, videoId: VideoId, snippet: map<string, Value>)

  /** A video as the videos API lists it. */
  datatype Video = Video(id: VideoId, title: string)

  /** A message before translation: phrase key, locale and substitutions. */
  datatype Message = Message(phrase: string, locale: string, params: map<string, Value>)

  /** One planned `sendMessage`, fired `delayMs` milliseconds after planning. */
  datatype Send = Send(chatId: ChatId, message: Message, delayMs: nat)

  const NoNewCommentsPhrase: string := "No new comments"
  const NewCommentPhrase: string := "newCommentMessage"

  /** Pause between two comment messages (one message per second). */
  const SendInterval: nat := 1000

  function Ids(comments: seq<Comment>): (ids: seq<CommentId>)
    ensures |ids| == |comments|
    ensures forall i :: 0 <= i < |comments| ==> ids[i] == comments[i].id
  {
    seq(|comments|, i requires 0 <= i < |comments| => comments[i].id)
  }

  // ---------------------------------------------------------------------------
  // Reconciler
  // ---------------------------------------------------------------------------

  /**
   * The leading run of `latest` whose ids are not in `seen`: the longest
   * unseen prefix, cut at the first seen comment.
   */
  function NewComments(seen: seq<CommentId>, latest: seq<Comment>): (newComments: seq<Comment>)
    ensures newComments <= latest
    ensures forall i :: 0 <= i < |newComments| ==> newComments[i].id !in seen
    ensures |newComments| < |latest| ==> latest[|newComments|].id in seen
    ensures newComments == [] <==> latest == [] || latest[0].id in seen
  {
    if latest == [] || latest[0].id in seen then []
    else [latest[0]] + NewComments(seen, latest[1..])
  }

  /**
   * Every unseen prefix of `latest` is a prefix of the result, so a comment
   * that follows a seen one is never reported.
   */
  lemma {:induction false} NewCommentsIsLongest(seen: seq<CommentId>, latest: seq<Comment>, k: nat)
    requires k <= |latest|
    ensures (forall i :: 0 <= i < k ==> latest[i].id !in seen) <==> k <= |NewComments(seen, latest)|
  {
    var newComments := NewComments(seen, latest);
    if k > |newComments| {
      assert latest[|newComments|].id in seen;
    }
  }

  /** With nothing seen, the whole page is new. */
  lemma NothingSeenAllNew(latest: seq<Comment>)
    ensures NewComments([], latest) == latest
  {
  }

  /** Inserts `ids` in the given order, the k-th one stamped `clock(k)`. */
  method RecordSeen(db: CommentsTable, channel: ChannelId, ids: seq<CommentId>, clock: nat -> int)
    modifies db
    ensures db.rows == Recorded(old(db.rows), channel, ids, clock)
  {
    var i := 0;
    while i < |ids|
      invariant 0 <= i <= |ids|
      invariant db.rows == Recorded(old(db.rows), channel, ids[..i], clock)
    {
      assert ids[..i + 1][..i] == ids[..i];
      var ok := db.Insert(channel, ids[i], clock(i));
      i := i + 1;
    }
    assert ids[..|ids|] == ids;
  }

  /**
   * `takeNewComments` as the job runs it: the new comments are inserted in
   * the order they were fetched, newest first, so the newest comment gets
   * the earliest timestamp of the batch.
   */
  method TakeNewCommentsAsWritten(db: CommentsTable, channel: ChannelId, seen: seq<CommentId>,
                                  latest: seq<Comment>, clock: nat -> int)
    returns (newComments: seq<Comment>)
    modifies db
    ensures newComments == NewComments(seen, latest)
    ensures db.rows == Recorded(old(db.rows), channel, Ids(newComments), clock)
  {
    newComments := NewComments(seen, latest);
    if |newComments| > 0 {
      RecordSeen(db, channel, Ids(newComments), clock);
    }
  }

  /**
   * `takeNewComments` with the new comments inserted oldest first, so that
   * the newest one carries the latest timestamp and stays in the seen window.
   */
  method TakeNewComments(db: CommentsTable, channel: ChannelId, seen: seq<CommentId>,
                         latest: seq<Comment>, clock: nat -> int)
    returns (newComments: seq<Comment>)
    modifies db
    ensures newComments == NewComments(seen, latest)
    ensures db.rows == Recorded(old(db.rows), channel, Reverse(Ids(newComments)), clock)
  {
    newComments := NewComments(seen, latest);
    if |newComments| > 0 {
      RecordSeen(db, channel, Reverse(Ids(newComments)), clock);
    }
  }

  /** Ids of a prefix of a page with distinct ids are distinct. */
  lemma PrefixIdsDistinct(newComments: seq<Comment>, latest: seq<Comment>)
    requires newComments <= latest && Distinct(Ids(latest))
    ensures Distinct(Ids(newComments)) && Distinct(Reverse(Ids(newComments)))
  {
    assert forall i :: 0 <= i < |newComments| ==> Ids(newComments)[i] == Ids(latest)[i];
  }

  /**
   * Recording oldest first: when the clock rises and the newest comment is
   * not a key yet, it gets the last reading, and every other row of the
   * channel is strictly older.
   */
  lemma {:induction false} NewestRecordedLast(t: SeenTable, channel: ChannelId, newComments: seq<Comment>,
                                              latest: seq<Comment>, clock: nat -> int, k: CommentId)
    requires newComments <= latest && newComments != [] && Distinct(Ids(latest))
    requires newComments[0].id !in t
    requires forall j :: j in t && t[j].channelId == channel ==> t[j].timestamp < clock(0)
    requires forall a: nat, b: nat :: a < b ==> clock(a) < clock(b)
    requires k in Recorded(t, channel, Reverse(Ids(newComments)), clock)
    ensures var t' := Recorded(t, channel, Reverse(Ids(newComments)), clock);
            && newComments[0].id in t'
            && t'[newComments[0].id] == SeenRow(channel, clock(|newComments| - 1))
            && (k != newComments[0].id && t'[k].channelId == channel ==> t'[k].timestamp < clock(|newComments| - 1))
  {
    var order := Reverse(Ids(newComments));
    var n := |newComments|;
    PrefixIdsDistinct(newComments, latest);
    assert order[n - 1] == newComments[0].id;
    RecordedStamps(t, channel, order, clock, n - 1);
    if k != newComments[0].id {
      assert clock(0) <= clock(n - 1) by {
        if n - 1 > 0 { assert clock(0) < clock(n - 1); }
      }
      if k in t {
        RecordedKeepsRows(t, channel, order, clock, k);
      } else {
        RecordedKeys(t, channel, order, clock);
        var i :| 0 <= i < |order| && order[i] == k;
        RecordedStamps(t, channel, order, clock, i);
        assert i < n - 1;
      }
    }
  }

  /**
   * With the oldest-first recording, a second run over the same page reports
   * nothing: whatever the seen query returns next contains the newest comment.
   */
  lemma SecondRunReportsNothing(t: SeenTable, channel: ChannelId, seen: seq<CommentId>,
                                latest: seq<Comment>, clock: nat -> int, seen': seq<CommentId>)
    requires Distinct(Ids(latest))
    requires NewComments(seen, latest) != []
    requires latest[0].id !in t
    requires forall j :: j in t && t[j].channelId == channel ==> t[j].timestamp < clock(0)
    requires forall a: nat, b: nat :: a < b ==> clock(a) < clock(b)
    requires IsRecent(Recorded(t, channel, Reverse(Ids(NewComments(seen, latest))), clock), channel, seen')
    ensures NewComments(seen', latest) == []
  {
    var newComments := NewComments(seen, latest);
    var t' := Recorded(t, channel, Reverse(Ids(newComments)), clock);
    var newest := latest[0].id;
    RecordedKeys(t, channel, Reverse(Ids(newComments)), clock);
    assert Reverse(Ids(newComments))[|newComments| - 1] == newest;
    assert newest in t';
    NewestRecordedLast(t, channel, newComments, latest, clock, newest);
    assert newest in ChannelKeys(t', channel);
    assert |seen'| > 0;
    if newest !in seen' {
      NewestRecordedLast(t, channel, newComments, latest, clock, seen'[0]);
      assert false;
    }
  }

  /**
   * A row with at least a window's worth of strictly newer rows of its
   * channel is left out of whatever the seen query returns.
   */
  lemma {:induction false} CrowdedOutOfWindow(t: SeenTable, channel: ChannelId, seen': seq<CommentId>,
                                              x: CommentId, newer: seq<CommentId>)
    requires IsRecent(t, channel, seen')
    requires x in ChannelKeys(t, channel) && Distinct(newer) && x !in newer
    requires |newer| >= SeenWindow
    requires forall i :: 0 <= i < |newer| ==> newer[i] in ChannelKeys(t, channel)
    requires forall i :: 0 <= i < |newer| ==> t[x].timestamp < t[newer[i]].timestamp
    ensures x !in seen'
  {
    if x in seen' {
      var k :| 0 <= k < |seen'| && seen'[k] == x;
      forall i | 0 <= i < |newer| ensures newer[i] in seen' {
        if newer[i] !in seen' {
          assert false;
        }
      }
      DistinctCardinality(seen');
      DistinctCardinality(newer);
      SubsetCardinality((set y | y in newer) + {x}, set y | y in seen');
      assert false;
    }
  }

  /**
   * As written, recording in fetched order: when one run records more than a
   * window's worth of never-seen comments under a rising clock, the newest
   * comment gets the oldest row, falls out of the seen window, and the next
   * run over the same page reports it again.
   */
  lemma AsWrittenReannouncesNewest(t: SeenTable, channel: ChannelId, seen: seq<CommentId>,
                                   latest: seq<Comment>, clock: nat -> int, seen': seq<CommentId>)
    requires Distinct(Ids(latest))
    requires forall i :: 0 <= i < |latest| ==> latest[i].id !in t
    requires |NewComments(seen, latest)| > SeenWindow
    requires forall a: nat, b: nat :: a < b ==> clock(a) < clock(b)
    requires IsRecent(Recorded(t, channel, Ids(NewComments(seen, latest)), clock), channel, seen')
    ensures NewComments(seen', latest) != [] && NewComments(seen', latest)[0] == latest[0]
  {
    var newComments := NewComments(seen, latest);
    var ids := Ids(newComments);
    PrefixIdsDistinct(newComments, latest);
    var t' := Recorded(t, channel, ids, clock);
    forall j | 0 <= j < |ids|
      ensures ids[j] in t' && t'[ids[j]] == SeenRow(channel, clock(j))
    {
      assert ids[j] == latest[j].id;
      RecordedStamps(t, channel, ids, clock, j);
    }
    forall j | 1 <= j < |ids|
      ensures ids[j] in ChannelKeys(t', channel) && t'[ids[0]].timestamp < t'[ids[j]].timestamp
    {
      assert clock(0) < clock(j);
    }
    var laterIds := ids[1..];
    assert Distinct(laterIds);
    assert ids[0] in ChannelKeys(t', channel);
    CrowdedOutOfWindow(t', channel, seen', ids[0], laterIds);
    assert ids[0] == latest[0].id;
  }

  /** A page of six new comments, newest first. */
  function SixComments(): seq<Comment> {
    [Comment("a", "v", map[]), Comment("b", "v", map[]), Comment("c", "v", map[]),
     Comment("d", "v", map[]), Comment("e", "v", map[]), Comment("f", "v", map[])]
  }

  /** A clock that advances by one millisecond per reading. */
  function Tick(k: nat): int {
    k
  }

  /** The six ids of the example page are distinct. */
  lemma SixIdsDistinct()
    ensures Distinct(Ids(SixComments()))
  {
    assert Ids(SixComments()) == ["a", "b", "c", "d", "e", "f"];
  }

  /**
   * The smallest case: six new comments on an empty table, one millisecond
   * apart; the next run announces comment "a" again.
   */
  lemma SixCommentsReannounced(seen': seq<CommentId>)
    requires IsRecent(Recorded(map[], "UC", Ids(NewComments([], SixComments())), Tick), "UC", seen')
    ensures NewComments([], SixComments()) == SixComments()
    ensures NewComments(seen', SixComments()) != []
    ensures NewComments(seen', SixComments())[0].id == "a"
  {
    NothingSeenAllNew(SixComments());
    SixIdsDistinct();
    AsWrittenReannouncesNewest(map[], "UC", [], SixComments(), Tick, seen');
  }

  // ---------------------------------------------------------------------------
  // Video titles
  // ---------------------------------------------------------------------------

  /**
   * The id list `fetchVideos` asks the videos API for, or None when there
   * is nothing to ask and the lookup is skipped.
   */
  function VideoRequest(comments: seq<Comment>): (request: Option<seq<VideoId>>)
    ensures request.None? <==> comments == []
    ensures request.Some? ==> Distinct(request.value)
    ensures request.Some? ==> forall v :: v in request.value <==>
              exists i :: 0 <= i < |comments| && comments[i].videoId == v
  {
    if |comments| == 0 then None
    else
      var ids := seq(|comments|, i requires 0 <= i < |comments| => comments[i].videoId);
      assert forall i :: 0 <= i < |ids| ==> ids[i] == comments[i].videoId;
      assert forall v :: v in Uniq(ids) <==> v in ids;
      Some(Uniq(ids))
  }

  /** The id-to-title object the reduce builds: a later video overrides. */
  function Titles(videos: seq<Video>): map<VideoId, string>
    decreases |videos|
  {
    if videos == [] then map[]
    else
      var last := videos[|videos| - 1];
      Titles(videos[..|videos| - 1])[last.id := last.title]
  }

  /** No later video in `videos` has the id of `videos[i]`. */
  predicate LastWithId(videos: seq<Video>, i: nat)
    requires i < |videos|
  {
    forall j :: i < j < |videos| ==> videos[j].id != videos[i].id
  }

  /** Every listed video has a title, each taken from the last video with its id. */
  lemma {:induction false} TitlesSpec(videos: seq<Video>)
    ensures Titles(videos).Keys == set i | 0 <= i < |videos| :: videos[i].id
    ensures forall i :: 0 <= i < |videos| && LastWithId(videos, i) ==>
              Titles(videos)[videos[i].id] == videos[i].title
    decreases |videos|
  {
    if videos != [] {
      var init := videos[..|videos| - 1];
      TitlesSpec(init);
      assert (set i | 0 <= i < |videos| :: videos[i].id)
          == (set i | 0 <= i < |init| :: init[i].id) + {videos[|videos| - 1].id};
      forall i | 0 <= i < |videos| - 1 && LastWithId(videos, i)
        ensures Titles(videos)[videos[i].id] == videos[i].title
      {
        assert LastWithId(init, i);
      }
    }
  }

  /** The reduce over the fetched videos, assigning one key per video. */
  method CollectTitles(videos: seq<Video>) returns (titles: map<VideoId, string>)
    ensures titles == Titles(videos)
  {
    titles := map[];
    var n := 0;
    while n < |videos|
      invariant 0 <= n <= |videos|
      invariant titles == Titles(videos[..n])
    {
      assert videos[..n + 1][..n] == videos[..n];
      titles := titles[videos[n].id := videos[n].title];
      n := n + 1;
    }
    assert videos[..|videos|] == videos;
  }

  // ---------------------------------------------------------------------------
  // Notifier
  // ---------------------------------------------------------------------------

  function TitleOf(titles: map<VideoId, string>, v: VideoId): Value {
    if v in titles then Text(titles[v]) else Undefined
  }

  /**
   * Template substitutions: the comment id, the title, then the whole
   * snippet spread over them, its `videoId` field included.
   */
  function CommentParams(c: Comment, titles: map<VideoId, string>): map<string, Value> {
    map["commentId" := Text(c.id), "videoTitle" := TitleOf(titles, c.videoId)] + c.snippet
      + map["videoId" := Text(c.videoId)]
  }

  /**
   * `notify`: one "No new comments" message sent at once, or one message
   * per comment, the i-th fired i seconds later.
   */
  function Notify(chat: ChatId, locale: string, comments: seq<Comment>, titles: map<VideoId, string>): (plan: seq<Send>)
    ensures |plan| == if comments == [] then 1 else |comments|
    ensures forall i :: 0 <= i < |plan| ==> plan[i].chatId == chat && plan[i].message.locale == locale
    ensures plan[0].delayMs == 0
    ensures forall i, j :: 0 <= i < j < |plan| ==> plan[i].delayMs < plan[j].delayMs
    ensures comments != [] ==> forall i :: 0 <= i < |plan| ==> plan[i].delayMs == i * SendInterval
    ensures comments == [] ==> plan[0].message == Message(NoNewCommentsPhrase, locale, map[])
    ensures comments != [] ==> forall i :: 0 <= i < |plan| ==>
              plan[i].message.phrase == NewCommentPhrase && plan[i].message.params == CommentParams(comments[i], titles)
  {
    if |comments| == 0 then [Send(chat, Message(NoNewCommentsPhrase, locale, map[]), 0)]
    else
      seq(|comments|, i requires 0 <= i < |comments| =>
        Send(chat, Message(NewCommentPhrase, locale, CommentParams(comments[i], titles)), i * SendInterval))
  }

  /**
   * A comment message names its comment and its video's title, or an
   * undefined title when the lookup did not return the video, unless the
   * snippet itself carries a field of that name; it always carries the
   * video id of the snippet, and every other snippet field as it is.
   */
  lemma NotifyParams(chat: ChatId, locale: string, comments: seq<Comment>, titles: map<VideoId, string>, i: nat)
    requires i < |comments|
    ensures var params := Notify(chat, locale, comments, titles)[i].message.params;
            && ("commentId" !in comments[i].snippet ==> params["commentId"] == Text(comments[i].id))
            && ("videoTitle" !in comments[i].snippet && comments[i].videoId in titles ==>
                  params["videoTitle"] == Text(titles[comments[i].videoId]))
            && ("videoTitle" !in comments[i].snippet && comments[i].videoId !in titles ==>
                  params["videoTitle"] == Undefined)
            && params["videoId"] == Text(comments[i].videoId)
            && (forall key :: key in comments[i].snippet && key != "videoId" ==>
                  params[key] == comments[i].snippet[key])
  {
  }

  // ---------------------------------------------------------------------------
  // One channel
  // ---------------------------------------------------------------------------

  /**
   * `notifyChannel` for one subscription, with the corrected oldest-first
   * recording. `storeUp` says whether the seen query answers, `latest` is
   * the comments API's page (None when the call fails), `lookup` the videos
   * API's answer (None when it fails), `clock` the successive readings of
   * the clock. Returns the new comments and the planned sends, or None when
   * the chain fails before `notify` and nothing is sent.
   */
  method NotifyChannel(db: CommentsTable, row: ChannelRow, storeUp: bool, latest: Option<seq<Comment>>,
                       lookup: Option<seq<Video>>, clock: nat -> int)
    returns (newComments: seq<Comment>, plan: Option<seq<Send>>)
    modifies db
    ensures !storeUp || latest.None? ==> db.rows == old(db.rows) && newComments == [] && plan.None?
    ensures storeUp && latest.Some? ==>
              && (exists seen :: IsRecent(old(db.rows), row.channelId, seen) && newComments == NewComments(seen, latest.value))
              && db.rows == Recorded(old(db.rows), row.channelId, Reverse(Ids(newComments)), clock)
    ensures storeUp && latest.Some? && newComments == [] ==>
              plan == Some(Notify(row.chatId, row.locale, [], map[]))
    ensures storeUp && latest.Some? && newComments != [] && lookup.None? ==> plan.None?
    ensures storeUp && latest.Some? && newComments != [] && lookup.Some? ==>
              plan == Some(Notify(row.chatId, row.locale, newComments, Titles(lookup.value)))
  {
    if !storeUp || latest.None? {
      return [], None;
    }
    var seen := db.Recent(row.channelId);
    newComments := TakeNewComments(db, row.channelId, seen, latest.value, clock);
    var videos: seq<Video> := [];
    if VideoRequest(newComments).Some? {
      if lookup.None? {
        return newComments, None;
      }
      videos := lookup.value;
    }
    var titles := CollectTitles(videos);
    plan := Some(Notify(row.chatId, row.locale, newComments, titles));
  }
}
