/**
 * The two SQLite tables the bot and the batch job share: `comments`, the
 * record of comments already announced, and `youtube_channels`, the
 * registry of (channel, chat) subscriptions.
 */
module Database {
  import opened Basics

  type ChannelId = string
  type CommentId = string
  type ChatId = int

  /** How many rows the seen-comments query returns (its LIMIT). */
  const SeenWindow: nat := 5

  /** Locale a subscription gets when the insert does not name one. */
  const DefaultLocale: string := "ru"

  // ---------------------------------------------------------------------------
  // comments (channel_id TEXT, comment_id TEXT PRIMARY KEY, timestamp INTEGER)
  // ---------------------------------------------------------------------------

  /** A row of `comments` without its key; the table maps comment_id to it. */
  datatype SeenRow = SeenRow(channelId: ChannelId, timestamp: int)

  /** comment_id alone is the primary key, whatever the channel. */
  type SeenTable = map<CommentId, SeenRow>

  /** One INSERT: a key already present, from any channel, makes it fail. */
  function InsertSeen(t: SeenTable, channel: ChannelId, id: CommentId, ts: int): SeenTable {
    if id in t then t else t[id := SeenRow(channel, ts)]
  }

  /**
   * The table after inserting `ids` one after the other, the k-th insert
   * stamped with the k-th clock reading `clock(k)`.
   */
  function Recorded(t: SeenTable, channel: ChannelId, ids: seq<CommentId>, clock: nat -> int): SeenTable
    decreases |ids|
  {
    if ids == [] then t
    else InsertSeen(Recorded(t, channel, ids[..|ids| - 1], clock), channel, ids[|ids| - 1], clock(|ids| - 1))
  }

  /** After recording, exactly the old keys and the recorded ids are present. */
  lemma {:induction false} RecordedKeys(t: SeenTable, channel: ChannelId, ids: seq<CommentId>, clock: nat -> int)
    ensures Recorded(t, channel, ids, clock).Keys == t.Keys + (set i | 0 <= i < |ids| :: ids[i])
    decreases |ids|
  {
    if ids != [] {
      var init := ids[..|ids| - 1];
      RecordedKeys(t, channel, init, clock);
      assert (set i | 0 <= i < |ids| :: ids[i]) == (set i | 0 <= i < |init| :: init[i]) + {ids[|ids| - 1]};
    }
  }

  /** Recording never rewrites a row that was already in the table. */
  lemma {:induction false} RecordedKeepsRows(t: SeenTable, channel: ChannelId, ids: seq<CommentId>, clock: nat -> int, k: CommentId)
    requires k in t
    ensures k in Recorded(t, channel, ids, clock) && Recorded(t, channel, ids, clock)[k] == t[k]
    decreases |ids|
  {
    if ids != [] {
      RecordedKeepsRows(t, channel, ids[..|ids| - 1], clock, k);
    }
  }

  /**
   * With distinct ids, each id that was not yet a key gets its own row
   * (channel, clock(i)), i being its position in the insert order.
   */
  lemma {:induction false} RecordedStamps(t: SeenTable, channel: ChannelId, ids: seq<CommentId>, clock: nat -> int, i: nat)
    requires Distinct(ids)
    requires i < |ids| && ids[i] !in t
    ensures ids[i] in Recorded(t, channel, ids, clock)
    ensures Recorded(t, channel, ids, clock)[ids[i]] == SeenRow(channel, clock(i))
    decreases |ids|
  {
    var init := ids[..|ids| - 1];
    if i < |ids| - 1 {
      RecordedStamps(t, channel, init, clock, i);
    } else {
      RecordedKeys(t, channel, init, clock);
      assert ids[i] !in Recorded(t, channel, init, clock);
    }
  }

  /** Distinct new ids add exactly one row each. */
  lemma {:induction false} RecordedCount(t: SeenTable, channel: ChannelId, ids: seq<CommentId>, clock: nat -> int)
    requires Distinct(ids)
    requires forall i :: 0 <= i < |ids| ==> ids[i] !in t
    ensures |Recorded(t, channel, ids, clock)| == |t| + |ids|
    decreases |ids|
  {
    if ids != [] {
      var init := ids[..|ids| - 1];
      RecordedCount(t, channel, init, clock);
      RecordedKeys(t, channel, init, clock);
      assert ids[|ids| - 1] !in Recorded(t, channel, init, clock);
    }
  }

  /** Keys of the rows that belong to `channel`. */
  function ChannelKeys(t: SeenTable, channel: ChannelId): set<CommentId> {
    set k | k in t && t[k].channelId == channel
  }

  /**
   * What `SELECT * FROM comments WHERE channel_id = ? ORDER BY timestamp
   * DESC LIMIT 5` may return, as comment ids: distinct rows of the channel,
   * as many as the window allows, newest first, and no row left out is newer
   * than one returned. Rows with equal timestamps may come in any order.
   */
  ghost predicate IsRecent(t: SeenTable, channel: ChannelId, ids: seq<CommentId>) {
    && Distinct(ids)
    && (forall i :: 0 <= i < |ids| ==> ids[i] in ChannelKeys(t, channel))
    && |ids| == Min(SeenWindow, |ChannelKeys(t, channel)|)
    && (forall i, j :: 0 <= i < j < |ids| ==> t[ids[j]].timestamp <= t[ids[i]].timestamp)
    && (forall k, i :: k in ChannelKeys(t, channel) && k !in ids && 0 <= i < |ids| ==>
          t[k].timestamp <= t[ids[i]].timestamp)
  }

  /** The newest row of `pool`: no row in it has a later timestamp. */
  predicate IsNewestIn(t: SeenTable, k: CommentId, pool: set<CommentId>)
    requires pool <= t.Keys
  {
    k in pool && forall j :: j in pool ==> t[j].timestamp <= t[k].timestamp
  }

  lemma {:induction false} NewestExists(t: SeenTable, pool: set<CommentId>)
    requires pool != {} && pool <= t.Keys
    ensures exists k :: IsNewestIn(t, k, pool)
    decreases |pool|
  {
    var x :| x in pool;
    var rest := pool - {x};
    if rest == {} {
      assert pool == {x};
      assert IsNewestIn(t, x, pool);
    } else {
      NewestExists(t, rest);
      var y :| IsNewestIn(t, y, rest);
      if t[x].timestamp <= t[y].timestamp {
        assert IsNewestIn(t, y, pool);
      } else {
        assert IsNewestIn(t, x, pool);
      }
    }
  }

  /** The `comments` table, updated in place by the batch job. */
  class CommentsTable {
    var rows: SeenTable

    constructor ()
      ensures rows == map[]
    {
      rows := map[];
    }

    /** `INSERT INTO comments VALUES (?, ?, ?)`; fails on a known comment id. */
    method Insert(channel: ChannelId, id: CommentId, ts: int) returns (ok: bool)
      modifies this
      ensures ok <==> id !in old(rows)
      ensures rows == InsertSeen(old(rows), channel, id, ts)
    {
      ok := id !in rows;
      if ok {
        rows := rows[id := SeenRow(channel, ts)];
      }
    }

    /**
     * The seen-comments query for `channel`: picks the newest remaining row
     * of the channel until the window is full or the channel has no more.
     */
    method Recent(channel: ChannelId) returns (ids: seq<CommentId>)
      ensures IsRecent(rows, channel, ids)
    {
      var pool := set k | k in rows && rows[k].channelId == channel;
      ids := [];
      while |ids| < SeenWindow && pool != {}
        invariant |ids| <= SeenWindow
        invariant pool <= ChannelKeys(rows, channel)
        invariant forall k :: k in ChannelKeys(rows, channel) ==> (k in pool <==> k !in ids)
        invariant |pool| + |ids| == |ChannelKeys(rows, channel)|
        invariant Distinct(ids)
        invariant forall i :: 0 <= i < |ids| ==> ids[i] in ChannelKeys(rows, channel)
        invariant forall i, j :: 0 <= i < j < |ids| ==> rows[ids[j]].timestamp <= rows[ids[i]].timestamp
        invariant forall k, i :: k in pool && 0 <= i < |ids| ==> rows[k].timestamp <= rows[ids[i]].timestamp
        decreases SeenWindow - |ids|
      {
        NewestExists(rows, pool);
        var k :| IsNewestIn(rows, k, pool);
        ids := ids + [k];
        pool := pool - {k};
      }
    }
  }

  // ---------------------------------------------------------------------------
  // youtube_channels (channel_id TEXT, telegram_chat_id TEXT, locale TEXT
  //                   DEFAULT "ru", PRIMARY KEY (channel_id, telegram_chat_id))
  // ---------------------------------------------------------------------------

  datatype ChannelRow = ChannelRow(channelId: ChannelId, chatId: ChatId, locale: string)

  /** Some row already has the primary key (channel, chat). */
  predicate HasKey(rows: seq<ChannelRow>, channel: ChannelId, chat: ChatId) {
    exists i :: 0 <= i < |rows| && rows[i].channelId == channel && rows[i].chatId == chat
  }

  /** The primary key (channel_id, telegram_chat_id) is unique. */
  ghost predicate KeysUnique(rows: seq<ChannelRow>) {
    forall i, j :: 0 <= i < j < |rows| ==>
      rows[i].channelId != rows[j].channelId || rows[i].chatId != rows[j].chatId
  }

  /** `SELECT * FROM youtube_channels WHERE telegram_chat_id = ?`. */
  function RowsForChat(rows: seq<ChannelRow>, chat: ChatId): (found: seq<ChannelRow>)
    ensures forall r :: r in found <==> r in rows && r.chatId == chat
    ensures |found| <= |rows|
    ensures KeysUnique(rows) ==> KeysUnique(found)
  {
    if rows == [] then []
    else if rows[0].chatId == chat then [rows[0]] + RowsForChat(rows[1..], chat)
    else RowsForChat(rows[1..], chat)
  }

  /** The `youtube_channels` table, updated in place by the bot. */
  class ChannelsTable {
    var rows: seq<ChannelRow>

    ghost predicate Valid()
      reads this
    {
      KeysUnique(rows)
    }

    constructor ()
      ensures Valid() && rows == []
    {
      rows := [];
    }

    /**
     * `INSERT INTO youtube_channels (channel_id, telegram_chat_id)`: the
     * locale takes its column default; a taken primary key fails.
     */
    method Insert(channel: ChannelId, chat: ChatId) returns (ok: bool)
      requires Valid()
      modifies this
      ensures Valid()
      ensures ok <==> !HasKey(old(rows), channel, chat)
      ensures rows == if ok then old(rows) + [ChannelRow(channel, chat, DefaultLocale)] else old(rows)
    {
      ok := !HasKey(rows, channel, chat);
      if ok {
        rows := rows + [ChannelRow(channel, chat, DefaultLocale)];
      }
    }
  }
}
