/**
 * The Telegram bot's text handler: "добавь <channel>" subscribes the chat
 * to a channel, "каналы" lists the chat's channels, anything else gets help.
 */
module Bot {
  import opened Basics
  import opened Database

  const AddKeyword: string := "добавь "
  const ListKeyword: string := "каналы"

  const ChannelAddedText: string := "Канал добавлен!"
  const FailureText: string := "Что-то пошло не так :("
  const ListHeader: string := "Каналы подключенные к этому чату:"
  const HelpText: string := "Я не понял команду. Попробуй:\n    - добавь [адрес канала]\n    - каналы\n    "

  datatype Command = AddChannel(channelId: ChannelId) | ListChannels | Help

  /** `ctx.reply` sends plain text, `ctx.replyWithMarkdown` Markdown. */
  datatype Reply = Plain(text: string) | Markdown(text: string)

  // ---------------------------------------------------------------------------
  // Classification: text.match(/добавь (.*)/), then equality with "каналы"
  // ---------------------------------------------------------------------------

  /** The characters a JavaScript `.` does not match. */
  predicate IsLineTerminator(c: char) {
    c == '\n' || c == '\r' || c == '\U{2028}' || c == '\U{2029}'
  }

  predicate NoLineBreak(s: string) {
    forall k :: 0 <= k < |s| ==> !IsLineTerminator(s[k])
  }

  /** "добавь " occurs in `text` at index `i`. */
  predicate KeywordAt(text: string, i: nat) {
    i + |AddKeyword| <= |text| && text[i..i + |AddKeyword|] == AddKeyword
  }

  /** `i` is the leftmost occurrence of "добавь ", where the regex matches. */
  predicate FirstKeywordAt(text: string, i: nat) {
    KeywordAt(text, i) && forall j: nat :: j < i ==> !KeywordAt(text, j)
  }

  /** The leftmost occurrence of "добавь " at or after `from`. */
  function FindKeyword(text: string, from: nat): (r: Option<nat>)
    ensures r.Some? ==> from <= r.value && KeywordAt(text, r.value)
    ensures r.Some? ==> forall j: nat :: from <= j < r.value ==> !KeywordAt(text, j)
    ensures r.None? ==> forall j: nat :: from <= j ==> !KeywordAt(text, j)
    decreases |text| - from
  {
    if from + |AddKeyword| > |text| then None
    else if KeywordAt(text, from) then Some(from)
    else FindKeyword(text, from + 1)
  }

  /** Where the line that contains index `j` ends: the `(.*)` group's end. */
  function LineEnd(text: string, j: nat): (e: nat)
    requires j <= |text|
    ensures j <= e <= |text|
    ensures NoLineBreak(text[j..e])
    ensures e < |text| ==> IsLineTerminator(text[e])
    decreases |text| - j
  {
    if j == |text| || IsLineTerminator(text[j]) then j
    else LineEnd(text, j + 1)
  }

  /**
   * The handler's branch: an add when the leftmost "добавь " is followed by
   * a non-empty rest of line, else a list on exactly "каналы", else help.
   */
  function Classify(text: string): (cmd: Command)
    ensures cmd.AddChannel? ==>
              exists i: nat :: && FirstKeywordAt(text, i)
                               && cmd.channelId == text[i + |AddKeyword|..LineEnd(text, i + |AddKeyword|)]
    ensures cmd.AddChannel? ==> cmd.channelId != [] && NoLineBreak(cmd.channelId)
    ensures cmd.ListChannels? <==> text == ListKeyword
  {
    match FindKeyword(text, 0)
    case Some(i) =>
      var start := i + |AddKeyword|;
      var channel := text[start..LineEnd(text, start)];
      assert FirstKeywordAt(text, i) by {
        forall j: nat | j < i ensures !KeywordAt(text, j) { }
      }
      if channel != [] then AddChannel(channel)
      else if text == ListKeyword then ListChannels
      else Help
    case None =>
      if text == ListKeyword then ListChannels else Help
  }

  /**
   * The add branch wins whenever the leftmost "добавь " is followed by a
   * character that ends no line; the channel is the rest of that line.
   */
  lemma ClassifyAdd(text: string, i: nat)
    requires FirstKeywordAt(text, i)
    requires i + |AddKeyword| < |text| && !IsLineTerminator(text[i + |AddKeyword|])
    ensures Classify(text) == AddChannel(text[i + |AddKeyword|..LineEnd(text, i + |AddKeyword|)])
  {
    var r := FindKeyword(text, 0);
    assert r == Some(i);
  }

  /**
   * Help is the answer exactly when neither an add with a non-empty channel
   * nor the exact list word is present; "добавь " at the end of a line is help.
   */
  lemma ClassifyHelp(text: string)
    ensures Classify(text).Help? <==>
              text != ListKeyword &&
              forall i: nat :: FirstKeywordAt(text, i) ==>
                i + |AddKeyword| == |text| || IsLineTerminator(text[i + |AddKeyword|])
  {
    var r := FindKeyword(text, 0);
    if r.Some? {
      var i := r.value;
      forall j: nat | FirstKeywordAt(text, j) ensures j == i { }
      var start := i + |AddKeyword|;
      if start < |text| && !IsLineTerminator(text[start]) {
        assert text[start..LineEnd(text, start)][0] == text[start];
      }
    }
  }

  // ---------------------------------------------------------------------------
  // Replies
  // ---------------------------------------------------------------------------

  /** "\n"-joined lines, as JavaScript's `join("\n")`. */
  function JoinLines(lines: seq<string>): string {
    if lines == [] then ""
    else if |lines| == 1 then lines[0]
    else lines[0] + "\n" + JoinLines(lines[1..])
  }

  /** The lines of `s`: the pieces between its "\n" characters. */
  function SplitLines(s: string): (lines: seq<string>)
    ensures |lines| >= 1
  {
    if s == [] then [""]
    else if s[0] == '\n' then [""] + SplitLines(s[1..])
    else
      var rest := SplitLines(s[1..]);
      [[s[0]] + rest[0]] + rest[1..]
  }

  lemma {:induction false} SplitLinesPlain(s: string)
    requires '\n' !in s
    ensures SplitLines(s) == [s]
  {
    if s != [] {
      assert '\n' !in s[1..] by {
        forall k | 0 <= k < |s[1..]| ensures s[1..][k] != '\n' {
          assert s[1..][k] == s[k + 1];
        }
      }
      SplitLinesPlain(s[1..]);
      assert [s[0]] + s[1..] == s;
    }
  }

  lemma {:induction false} SplitLinesAppend(x: string, y: string)
    ensures SplitLines(x + "\n" + y) == SplitLines(x) + SplitLines(y)
  {
    if x == [] {
      assert x + "\n" + y == "\n" + y;
      assert ("\n" + y)[1..] == y;
    } else {
      assert (x + "\n" + y)[1..] == x[1..] + "\n" + y;
      SplitLinesAppend(x[1..], y);
    }
  }

  /** Joining lines free of "\n" and splitting again gives the lines back. */
  lemma {:induction false} SplitJoin(lines: seq<string>)
    requires lines != []
    requires forall k :: 0 <= k < |lines| ==> '\n' !in lines[k]
    ensures SplitLines(JoinLines(lines)) == lines
  {
    if |lines| == 1 {
      SplitLinesPlain(lines[0]);
    } else {
      SplitLinesPlain(lines[0]);
      SplitLinesAppend(lines[0], JoinLines(lines[1..]));
      SplitJoin(lines[1..]);
    }
  }

  /** One "- <channel_id>" line per row. */
  function Bullets(rows: seq<ChannelRow>): (lines: seq<string>)
    ensures |lines| == |rows|
    ensures forall k :: 0 <= k < |rows| ==> lines[k] == "- " + rows[k].channelId
  {
    seq(|rows|, k requires 0 <= k < |rows| => "- " + rows[k].channelId)
  }

  /** The list reply's text: the header, a newline, then the joined bullets. */
  function ListText(rows: seq<ChannelRow>): string {
    ListHeader + "\n" + JoinLines(Bullets(rows))
  }

  lemma HeaderSingleLine()
    ensures SplitLines(ListHeader) == [ListHeader]
  {
    assert '\n' !in ListHeader;
    SplitLinesPlain(ListHeader);
  }

  /** No channel id of `rows` holds a newline. */
  predicate SingleLineIds(rows: seq<ChannelRow>) {
    forall k :: 0 <= k < |rows| ==> '\n' !in rows[k].channelId
  }

  /** The lines a reader sees in the list reply: the header, then one bullet per row. */
  function ListLines(rows: seq<ChannelRow>): seq<string> {
    [ListHeader] + (if rows == [] then [""] else Bullets(rows))
  }

  lemma BulletsSingleLines(rows: seq<ChannelRow>)
    requires SingleLineIds(rows)
    ensures forall k :: 0 <= k < |rows| ==> '\n' !in Bullets(rows)[k]
  {
    forall k | 0 <= k < |rows| ensures '\n' !in Bullets(rows)[k] {
      assert Bullets(rows)[k] == "- " + rows[k].channelId;
    }
  }

  /**
   * The list reply reads as the header followed by one "- <channel_id>" line
   * per row (a single empty line when there are none), as long as no
   * channel id holds a newline.
   */
  lemma ListTextLines(rows: seq<ChannelRow>)
    requires SingleLineIds(rows)
    ensures SplitLines(ListText(rows)) == ListLines(rows)
  {
    SplitLinesAppend(ListHeader, JoinLines(Bullets(rows)));
    HeaderSingleLine();
    if rows != [] {
      BulletsSingleLines(rows);
      SplitJoin(Bullets(rows));
    }
  }

  /**
   * The list reply as written: a failed query answers with the reply of a
   * successful add; a listing is Markdown whose lines are the header and
   * one bullet per row.
   */
  function ListReplyAsWritten(found: Option<seq<ChannelRow>>): (reply: Reply)
    ensures found.None? ==> reply == AddReply(true)
    ensures found.Some? ==> reply == Markdown(ListText(found.value))
    ensures found.Some? && SingleLineIds(found.value) ==> SplitLines(reply.text) == ListLines(found.value)
  {
    match found
    case None => Plain(ChannelAddedText)
    case Some(rows) =>
      if SingleLineIds(rows) then ListTextLines(rows); Markdown(ListText(rows))
      else Markdown(ListText(rows))
  }

  /** The add reply: the confirmation when the row went in, else the failure text. */
  function AddReply(added: bool): (reply: Reply)
    ensures reply.Plain?
    ensures reply.text == ChannelAddedText <==> added
  {
    Plain(if added then ChannelAddedText else FailureText)
  }

  /**
   * As written, a failed list query gets the very reply `HandleText` gives
   * to a successful add, and no reply to a failed add.
   */
  lemma ListErrorLooksLikeAdd()
    ensures ListReplyAsWritten(None) == AddReply(true)
    ensures ListReplyAsWritten(None) != AddReply(false)
  {
    assert AddReply(false).text[0] != ChannelAddedText[0];
  }

  /**
   * The list reply answering a failed query with the reply of a failed add;
   * a listing is as in `ListReplyAsWritten`.
   */
  function ListReply(found: Option<seq<ChannelRow>>): (reply: Reply)
    ensures found.None? ==> reply == AddReply(false)
    ensures found.Some? ==> reply == Markdown(ListText(found.value))
    ensures found.Some? && SingleLineIds(found.value) ==> SplitLines(reply.text) == ListLines(found.value)
  {
    match found
    case None => Plain(FailureText)
    case Some(rows) =>
      if SingleLineIds(rows) then ListTextLines(rows); Markdown(ListText(rows))
      else Markdown(ListText(rows))
  }

  /**
   * With the failure text, a failed list query is distinguishable from a
   * successful add and from every successful listing.
   */
  lemma ListErrorDistinguishable(rows: seq<ChannelRow>)
    ensures ListReply(None) != AddReply(true)
    ensures ListReply(None) == AddReply(false)
    ensures ListReply(None) != ListReply(Some(rows))
  {
    assert FailureText[0] != ChannelAddedText[0];
  }

  // ---------------------------------------------------------------------------
  // The handler
  // ---------------------------------------------------------------------------

  /**
   * `bot.on("text")` for a message `text` in chat `chat`. `storeUp` says
   * whether the database answers at all; when it does, an add fails only
   * on a taken (channel, chat) key.
   */
  method HandleText(db: ChannelsTable, text: string, chat: ChatId, storeUp: bool) returns (reply: Reply)
    requires db.Valid()
    modifies db
    ensures db.Valid()
    ensures Classify(text).AddChannel? ==>
              var added := storeUp && !HasKey(old(db.rows), Classify(text).channelId, chat);
              && db.rows == (if added then old(db.rows) + [ChannelRow(Classify(text).channelId, chat, DefaultLocale)]
                             else old(db.rows))
              && reply == AddReply(added)
    ensures Classify(text).ListChannels? ==>
              db.rows == old(db.rows) &&
              reply == ListReply(if storeUp then Some(RowsForChat(db.rows, chat)) else None)
    ensures Classify(text).Help? ==> db.rows == old(db.rows) && reply == Markdown(HelpText)
  {
    match Classify(text)
    case AddChannel(channel) =>
      var added := false;
      if storeUp {
        added := db.Insert(channel, chat);
      }
      reply := AddReply(added);
    case ListChannels =>
      reply := ListReply(if storeUp then Some(RowsForChat(db.rows, chat)) else None);
    case Help =>
      reply := Markdown(HelpText);
  }
}
