/**
 * The statistics of stats.py over the records that `preprocess` returns:
 * the four headline numbers, the most common words and emojis, the
 * busiest senders, and message counts per weekday and per month. A
 * selection is a sender's name or "Group" for the whole chat.
 */
module Stats {
  import opened Wrappers
  import opened Text
  import opened Calendar
  import opened Frame
  import opened Counting
  import opened Preprocessor

  /** The selection that stands for the whole chat. */
  const Everyone: string := "Group"

  const VideoOmitted: string := "video omitted"
  const ImageOmitted: string := "image omitted"
  const StickerOmitted: string := "sticker omitted"

  // ---------------------------------------------------------------------------
  // Row selection (stats.py:7-9, 42-44, 62-64, 95-96, 102-103)

  /** `dropna()` keeps a row only when none of its columns is null. */
  predicate Complete(r: Record) {
    r.timestamp.Some? && r.sender.Some? && r.message.Some? && r.onlyDate.Some? && r.year.Some? &&
    r.monthNum.Some? && r.month.Some? && r.day.Some? && r.dayName.Some? && r.hour.Some? && r.minute.Some?
  }

  /** The mask `df["Sender"] == selected_user`; a null sender never equals a name. */
  function SenderIs(selected: string): Record -> bool {
    (r: Record) => r.sender == Some(selected)
  }

  /** Rows that a selection covers: all of them for "Group", else the selected sender's. */
  predicate InScope(selected: string, r: Record) {
    selected == Everyone || r.sender == Some(selected)
  }

  /** The sender filter of the activity maps, without `dropna`. */
  function Scope(selected: string, df: seq<Record>): seq<Record> {
    if selected == Everyone then df else Filter(df, SenderIs(selected))
  }

  /** `dropna()` followed by the sender filter. */
  function Selected(selected: string, df: seq<Record>): seq<Record> {
    Scope(selected, Filter(df, Complete))
  }

  /** A row is in scope exactly when the selection covers it; order is that of `df`. */
  lemma ScopeMembers(selected: string, df: seq<Record>)
    ensures forall r :: r in Scope(selected, df) <==> r in df && InScope(selected, r)
  {
    if selected != Everyone {
      forall r | r in df && InScope(selected, r) ensures r in Scope(selected, df) {
        var k :| 0 <= k < |df| && df[k] == r;
        assert SenderIs(selected)(df[k]);
      }
    }
  }

  /** A row is selected exactly when it is complete and the selection covers it. */
  lemma SelectedMembers(selected: string, df: seq<Record>)
    ensures forall r :: r in Selected(selected, df) <==> r in df && Complete(r) && InScope(selected, r)
    ensures forall k :: 0 <= k < |Selected(selected, df)| ==> Complete(Selected(selected, df)[k])
  {
    var complete := Filter(df, Complete);
    ScopeMembers(selected, complete);
    forall r | r in df && Complete(r) ensures r in complete {
      var k :| 0 <= k < |df| && df[k] == r;
    }
  }

  // ---------------------------------------------------------------------------
  // Columns

  function MessageOf(r: Record): Option<string> {
    r.message
  }

  function SenderOf(r: Record): Option<string> {
    r.sender
  }

  function DayNameOf(r: Record): Option<string> {
    r.dayName
  }

  function MonthOf(r: Record): Option<string> {
    r.month
  }

  /** `df["Message"]` of rows without null messages. */
  function Messages(rows: seq<Record>): seq<string> {
    Pick(rows, MessageOf)
  }

  // ---------------------------------------------------------------------------
  // fetch_stats (stats.py:6-19)

  /** `msg.split()` for every message, concatenated. */
  function WordsOf(msgs: seq<string>): seq<string> {
    if msgs == [] then [] else WordsOf(msgs[..|msgs| - 1]) + Words(msgs[|msgs| - 1])
  }

  lemma WordsOfSnoc(msgs: seq<string>, i: nat)
    requires i < |msgs|
    ensures WordsOf(msgs[..i + 1]) == WordsOf(msgs[..i]) + Words(msgs[i])
  {
    assert msgs[..i + 1][..i] == msgs[..i];
  }

  /** Words counted character by character: the number of word starts in each message. */
  function WordStartCount(msgs: seq<string>): nat {
    if msgs == [] then 0 else WordStartCount(msgs[..|msgs| - 1]) + WordStarts(msgs[|msgs| - 1], false)
  }

  /** The word total is the number of places where a word begins, summed over the messages. */
  lemma {:induction false} WordsOfCount(msgs: seq<string>)
    ensures |WordsOf(msgs)| == WordStartCount(msgs)
  {
    if msgs != [] {
      WordsOfCount(msgs[..|msgs| - 1]);
      WordsCount(msgs[|msgs| - 1]);
    }
  }

  /** `str.contains("video omitted|image omitted", case=False)`. */
  predicate IsMedia(msg: string) {
    Contains(Lower(msg), VideoOmitted) || Contains(Lower(msg), ImageOmitted)
  }

  predicate IsSticker(msg: string) {
    msg == StickerOmitted
  }

  /** A sticker placeholder is not a media placeholder, so no message is counted twice. */
  lemma StickerIsNotMedia()
    ensures !IsMedia(StickerOmitted)
  {
    LowerSticker();
    StickerIsNotVideo();
    StickerIsNotImage();
  }

  lemma LowerSticker()
    ensures Lower(StickerOmitted) == StickerOmitted
  {
  }

  lemma StickerIsNotVideo()
    ensures !Contains(StickerOmitted, VideoOmitted)
  {
    ContainsAt(StickerOmitted, VideoOmitted);
    forall i | 0 <= i <= 2 ensures !OccursAt(StickerOmitted, VideoOmitted, i) {
      assert StickerOmitted[i..i + 13][0] == StickerOmitted[i];
    }
  }

  lemma StickerIsNotImage()
    ensures !Contains(StickerOmitted, ImageOmitted)
  {
    ContainsAt(StickerOmitted, ImageOmitted);
    forall i | 0 <= i <= 2 ensures !OccursAt(StickerOmitted, ImageOmitted, i) {
      assert StickerOmitted[i..i + 13][0] == StickerOmitted[i];
      assert StickerOmitted[i..i + 13][1] == StickerOmitted[i + 1];
    }
  }

  /** The four numbers `fetch_stats` returns. */
  datatype Summary = Summary(messages: nat, words: nat, media: nat, stickers: nat)

  /**
   * `fetch_stats(selected_user, df)`: the number of selected rows, of words
   * in their messages, of media placeholders and of sticker placeholders;
   * media and stickers never add up to more than the messages.
   */
  method FetchStats(selected: string, df: seq<Record>) returns (s: Summary)
    ensures var msgs := Messages(Selected(selected, df));
      && s.messages == |Selected(selected, df)| == |msgs|
      && s.words == |WordsOf(msgs)|
      && s.media == |Filter(msgs, IsMedia)|
      && s.stickers == |Filter(msgs, IsSticker)|
    ensures s.media + s.stickers <= s.messages
  {
    var rows := Filter(df, Complete);
    if selected != Everyone {
      rows := Filter(rows, SenderIs(selected));
    }
    SelectedMembers(selected, df);
    var msgs := Messages(rows);
    PickAll(rows, MessageOf);

    var words: seq<string> := [];
    for i := 0 to |msgs|
      invariant words == WordsOf(msgs[..i])
    {
      words := words + Words(msgs[i]);
      WordsOfSnoc(msgs, i);
    }
    assert msgs[..|msgs|] == msgs;

    var media := Filter(msgs, IsMedia);
    var stickers := Filter(msgs, IsSticker);
    StickerIsNotMedia();
    FilterDisjoint(msgs, IsMedia, IsSticker);
    s := Summary(|rows|, |words|, |media|, |stickers|);
  }

  // ---------------------------------------------------------------------------
  // most_common_words (stats.py:41-58)

  /** Lines 47-50: no placeholder message and no group notification. */
  predicate CountsForWords(r: Record) {
    r.message != Some(VideoOmitted) && r.message != Some(ImageOmitted) &&
    r.message != Some(StickerOmitted) && r.sender != Some(GroupNotification)
  }

  function Lowered(msgs: seq<string>): seq<string> {
    seq(|msgs|, k requires 0 <= k < |msgs| => Lower(msgs[k]))
  }

  /** The stop-word test of line 54: `word not in stop_words`, a substring test on the whole text. */
  function NotInText(stopText: string): string -> bool {
    (w: string) => !Contains(stopText, w)
  }

  /** The `common_words` list: every lowercased word of the messages that the stop text does not contain. */
  function CommonWords(msgs: seq<string>, stopText: string): seq<string> {
    Filter(WordsOf(Lowered(msgs)), NotInText(stopText))
  }

  lemma CommonWordsSnoc(msgs: seq<string>, stopText: string, i: nat)
    requires i < |msgs|
    ensures CommonWords(msgs[..i + 1], stopText) ==
            CommonWords(msgs[..i], stopText) + Filter(Words(Lower(msgs[i])), NotInText(stopText))
  {
    var lowered := Lowered(msgs[..i + 1]);
    assert lowered[..i] == Lowered(msgs[..i]);
    WordsOfSnoc(lowered, i);
    assert lowered[..i + 1] == lowered;
    FilterAppend(WordsOf(Lowered(msgs[..i])), Words(Lower(msgs[i])), NotInText(stopText));
  }

  /** The rows whose words are counted. */
  function WordRows(selected: string, df: seq<Record>): seq<Record> {
    Filter(Selected(selected, df), CountsForWords)
  }

  /** The inner loop of lines 52-55: the words of one message that the stop text does not contain, in order. */
  method KeepWords(ws: seq<string>, stopText: string) returns (kept: seq<string>)
    ensures kept == Filter(ws, NotInText(stopText))
  {
    kept := [];
    for j := 0 to |ws|
      invariant kept == Filter(ws[..j], NotInText(stopText))
    {
      if !Contains(stopText, ws[j]) {
        kept := kept + [ws[j]];
      }
      assert ws[..j + 1][..j] == ws[..j];
    }
    assert ws[..|ws|] == ws;
  }

  /** `most_common_words(selected_user, df)` with the stop-word file's text as `stopText`. */
  method MostCommonWords(selected: string, df: seq<Record>, stopText: string) returns (top: seq<(string, nat)>)
    ensures top == MostCommon(CommonWords(Messages(WordRows(selected, df)), stopText), Some(20))
  {
    var temp := WordRows(selected, df);
    var msgs := Messages(temp);
    var common: seq<string> := [];
    for i := 0 to |msgs|
      invariant common == CommonWords(msgs[..i], stopText)
    {
      var kept := KeepWords(Words(Lower(msgs[i])), stopText);
      common := common + kept;
      CommonWordsSnoc(msgs, stopText, i);
    }
    assert msgs[..|msgs|] == msgs;
    top := MostCommon(common, Some(20));
  }

  /**
   * At most 20 entries; each is a non-empty word without whitespace that
   * the stop text does not contain, with its exact number of occurrences;
   * counts never increase, ties keep first-seen order, and no word left
   * out occurs more often than a listed one.
   */
  lemma MostCommonWordsFacts(msgs: seq<string>, stopText: string)
    ensures var words, top := CommonWords(msgs, stopText), MostCommon(CommonWords(msgs, stopText), Some(20));
      && |top| <= 20
      && (forall i :: 0 <= i < |top| ==>
            top[i].0 != [] && NoSpace(top[i].0) && !Contains(stopText, top[i].0) &&
            top[i].1 == Count(words, top[i].0) && top[i].1 > 0)
      && (forall i, j :: 0 <= i < j < |top| ==> top[i].0 != top[j].0 && RanksAhead(words, top[i].0, top[j].0))
      && (forall w, i :: w in words && w !in Items(top) && 0 <= i < |top| ==> Count(words, w) <= top[i].1)
  {
    var all := WordsOf(Lowered(msgs));
    var words := CommonWords(msgs, stopText);
    var top := MostCommon(words, Some(20));
    MostCommonEntries(words, Some(20));
    forall i | 0 <= i < |top| ensures top[i].0 != [] && NoSpace(top[i].0) && !Contains(stopText, top[i].0) {
      WordsOfShape(Lowered(msgs));
      var k :| 0 <= k < |words| && words[k] == top[i].0;
      assert NotInText(stopText)(words[k]);
      var m :| 0 <= m < |all| && all[m] == words[k];
    }
    forall i, j | 0 <= i < j < |top| ensures top[i].0 != top[j].0 && RanksAhead(words, top[i].0, top[j].0) {
      MostCommonOrdered(words, Some(20));
    }
    forall w, i | w in words && w !in Items(top) && 0 <= i < |top| ensures Count(words, w) <= top[i].1 {
      OmittedBehind(words, Some(20), w, i);
    }
  }

  /**
   * The substring test drops words that are not stop words: "ha" is part
   * of the stop word "hai", so a message "ha" yields no word at all,
   * while a test against the list of stop words keeps it.
   */
  lemma StopTextSubstring()
    ensures Words("hai") == ["hai"] && "ha" !in Words("hai")
    ensures CommonWords(["ha"], "hai") == []
    ensures ListedCommonWords(["ha"], "hai") == ["ha"]
  {
    WordsHai();
    WordsOfHa();
    assert Contains("hai", "ha") by {
      assert StartsWith("hai", "ha");
    }
    assert ["ha"][..0] == [];
  }

  lemma WordsHai()
    ensures Words("hai") == ["hai"]
  {
    assert !IsSpace('h') && !IsSpace('a') && !IsSpace('i');
    assert SpanWord("hai") == 3;
    assert "hai"[..3] == "hai" && "hai"[3..] == [];
  }

  lemma WordsOfHa()
    ensures WordsOf(Lowered(["ha"])) == ["ha"]
  {
    assert Words("ha") == ["ha"] by {
      assert !IsSpace('h') && !IsSpace('a');
      assert SpanWord("ha") == 2;
      assert "ha"[..2] == "ha" && "ha"[2..] == [];
    }
    assert Lowered(["ha"]) == ["ha"] by {
      assert Lower("ha") == "ha";
    }
    assert ["ha"][..0] == [];
  }

  /** The stop-word test as evidently intended: the word is not one of the listed stop words. */
  function NotListed(stopText: string): string -> bool {
    (w: string) => w !in Words(stopText)
  }

  /** `common_words` with the stop words taken as a whitespace-separated list. */
  function ListedCommonWords(msgs: seq<string>, stopText: string): seq<string> {
    Filter(WordsOf(Lowered(msgs)), NotListed(stopText))
  }

  /** With the corrected test a word is dropped exactly when it is one of the stop words. */
  lemma ListedStopWords(msgs: seq<string>, stopText: string)
    ensures forall w :: w in ListedCommonWords(msgs, stopText) <==>
      w in WordsOf(Lowered(msgs)) && w !in Words(stopText)
  {
    FilterMembers(WordsOf(Lowered(msgs)), NotListed(stopText));
  }

  /** Every word of `WordsOf` is non-empty and holds no whitespace. */
  lemma {:induction false} WordsOfShape(msgs: seq<string>)
    ensures forall k :: 0 <= k < |WordsOf(msgs)| ==> WordsOf(msgs)[k] != [] && NoSpace(WordsOf(msgs)[k])
  {
    if msgs != [] {
      WordsOfShape(msgs[..|msgs| - 1]);
    }
  }

  // ---------------------------------------------------------------------------
  // common_emojis (stats.py:61-70)

  /** `c in emoji.EMOJI_DATA` for a single character, the table given as a set of strings. */
  function IsEmoji(emoji: set<string>): char -> bool {
    (c: char) => [c] in emoji
  }

  /** The `emojis` list: the emoji characters of every message, in order. */
  function EmojisOf(msgs: seq<string>, emoji: set<string>): seq<char> {
    if msgs == [] then [] else EmojisOf(msgs[..|msgs| - 1], emoji) + Filter(msgs[|msgs| - 1], IsEmoji(emoji))
  }

  /** `common_emojis(selected_user, df)` with the emoji table as `emoji`. */
  method CommonEmojis(selected: string, df: seq<Record>, emoji: set<string>) returns (r: seq<(char, nat)>)
    ensures r == MostCommon(EmojisOf(Messages(Selected(selected, df)), emoji), None)
  {
    var rows := Selected(selected, df);
    var msgs := Messages(rows);
    var emojis: seq<char> := [];
    for i := 0 to |msgs|
      invariant emojis == EmojisOf(msgs[..i], emoji)
    {
      emojis := emojis + Filter(msgs[i], IsEmoji(emoji));
      assert msgs[..i + 1][..i] == msgs[..i];
    }
    assert msgs[..|msgs|] == msgs;
    r := MostCommon(emojis, None);
  }

  /** Every collected character is in the table and comes from some message. */
  lemma {:induction false} EmojisOfSound(msgs: seq<string>, emoji: set<string>)
    ensures forall c :: c in EmojisOf(msgs, emoji) ==> [c] in emoji && exists k :: 0 <= k < |msgs| && c in msgs[k]
  {
    if msgs != [] {
      var n := |msgs| - 1;
      var front := msgs[..n];
      EmojisOfSound(front, emoji);
      FilterMembers(msgs[n], IsEmoji(emoji));
      forall c | c in EmojisOf(msgs, emoji) ensures [c] in emoji && exists k :: 0 <= k < |msgs| && c in msgs[k] {
        if c in EmojisOf(front, emoji) {
          var k :| 0 <= k < n && c in front[k];
          assert c in msgs[k];
        } else {
          assert c in msgs[n];
        }
      }
    }
  }

  /** Every emoji character of every message is collected. */
  lemma {:induction false} EmojisOfComplete(msgs: seq<string>, emoji: set<string>)
    ensures forall k, i :: 0 <= k < |msgs| && 0 <= i < |msgs[k]| && [msgs[k][i]] in emoji ==>
      msgs[k][i] in EmojisOf(msgs, emoji)
  {
    if msgs != [] {
      var n := |msgs| - 1;
      var front := msgs[..n];
      EmojisOfComplete(front, emoji);
      FilterMembers(msgs[n], IsEmoji(emoji));
      forall k, i | 0 <= k < |msgs| && 0 <= i < |msgs[k]| && [msgs[k][i]] in emoji
        ensures msgs[k][i] in EmojisOf(msgs, emoji)
      {
        if k < n {
          assert front[k][i] == msgs[k][i];
        } else {
          assert IsEmoji(emoji)(msgs[n][i]);
        }
      }
    }
  }

  /**
   * Every listed character is an emoji of some message, listed once with
   * its exact count; every emoji character of any message is listed;
   * counts never increase, ties keep first-seen order, and the counts add
   * up to the number of emoji characters.
   */
  lemma CommonEmojisFacts(msgs: seq<string>, emoji: set<string>)
    ensures var all, r := EmojisOf(msgs, emoji), MostCommon(EmojisOf(msgs, emoji), None);
      && (forall i :: 0 <= i < |r| ==>
            [r[i].0] in emoji && (exists k :: 0 <= k < |msgs| && r[i].0 in msgs[k]) &&
            r[i].1 == Count(all, r[i].0))
      && (forall k, i :: 0 <= k < |msgs| && 0 <= i < |msgs[k]| && [msgs[k][i]] in emoji ==> msgs[k][i] in Items(r))
      && (forall i, j :: 0 <= i < j < |r| ==> r[i].0 != r[j].0 && RanksAhead(all, r[i].0, r[j].0))
      && Total(r) == |all|
  {
    var all := EmojisOf(msgs, emoji);
    var r := MostCommon(all, None);
    EmojisOfSound(msgs, emoji);
    EmojisOfComplete(msgs, emoji);
    MostCommonEntries(all, None);
    MostCommonOrdered(all, None);
    MostCommonOmitted(all, None);
    MostCommonTotal(all);
    MostCommonCovers(all);
  }

  // ---------------------------------------------------------------------------
  // most_busy_users (stats.py:21-25)

  /** `df["Sender"].value_counts().head(5)`: the five most frequent non-null senders with their counts. */
  function MostBusyUsers(df: seq<Record>): seq<(string, nat)> {
    MostCommon(Pick(df, SenderOf), Some(5))
  }

  /**
   * At most five entries, each a sender with the number of rows it sent;
   * counts never increase, and no sender left out sent more rows than a
   * listed one.
   */
  lemma MostBusyUsersFacts(df: seq<Record>)
    ensures var senders, top := Pick(df, SenderOf), MostBusyUsers(df);
      && |top| <= 5
      && (forall i :: 0 <= i < |top| ==>
            (exists k :: 0 <= k < |df| && df[k].sender == Some(top[i].0)) && top[i].1 == Count(senders, top[i].0))
      && (forall i, j :: 0 <= i < j < |top| ==> top[i].0 != top[j].0 && top[i].1 >= top[j].1)
      && (forall s, i :: s in senders && s !in Items(top) && 0 <= i < |top| ==> Count(senders, s) <= top[i].1)
  {
    var senders, top := Pick(df, SenderOf), MostBusyUsers(df);
    MostCommonEntries(senders, Some(5));
    forall i | 0 <= i < |top| ensures exists k :: 0 <= k < |df| && df[k].sender == Some(top[i].0) {
      assert top[i].0 in senders;
      PickMembers(df, SenderOf);
      var k :| 0 <= k < |df| && SenderOf(df[k]) == Some(top[i].0);
    }
    forall i, j | 0 <= i < j < |top| ensures top[i].0 != top[j].0 && top[i].1 >= top[j].1 {
      MostCommonOrdered(senders, Some(5));
    }
    forall s, i | s in senders && s !in Items(top) && 0 <= i < |top| ensures Count(senders, s) <= top[i].1 {
      OmittedBehind(senders, Some(5), s, i);
    }
  }

  // ---------------------------------------------------------------------------
  // week_activity_map and month_activity_map (stats.py:93-105)

  /** `df['day_name'].value_counts()` over the selection's rows. */
  function WeekActivity(selected: string, df: seq<Record>): seq<(string, nat)> {
    MostCommon(Pick(Scope(selected, df), DayNameOf), None)
  }

  /** `df['month'].value_counts()` over the selection's rows. */
  function MonthActivity(selected: string, df: seq<Record>): seq<(string, nat)> {
    MostCommon(Pick(Scope(selected, df), MonthOf), None)
  }

  /**
   * Each name appears once with the number of in-scope rows that carry it,
   * counts never increase, and the counts add up to the number of in-scope
   * rows whose column is not null.
   */
  lemma ActivityFacts(selected: string, df: seq<Record>, column: Record -> Option<string>)
    ensures var names, r := Pick(Scope(selected, df), column), MostCommon(Pick(Scope(selected, df), column), None);
      && (forall i :: 0 <= i < |r| ==> r[i].0 in names && r[i].1 == Count(names, r[i].0))
      && (forall i, j :: 0 <= i < j < |r| ==> r[i].0 != r[j].0 && r[i].1 >= r[j].1)
      && (forall x :: x in names ==> x in Items(r))
      && Total(r) == |names|
  {
    var names := Pick(Scope(selected, df), column);
    MostCommonEntries(names, None);
    MostCommonOrdered(names, None);
    MostCommonTotal(names);
    MostCommonCovers(names);
  }

  predicate HasTimestamp(r: Record) {
    r.timestamp.Some?
  }

  const WeekdayNames: set<string> := set w | 0 <= w < 7 :: DayName(w)
  const MonthNames: set<string> := set m | 1 <= m <= 12 :: MonthName(m)

  /**
   * When a column is present exactly on timestamped rows and only holds
   * names from `names`, its map counts exactly the in-scope timestamped
   * rows and every key is one of `names`.
   */
  lemma TimedActivity(selected: string, df: seq<Record>, column: Record -> Option<string>, names: set<string>)
    requires forall k :: 0 <= k < |df| ==> (column(df[k]).Some? <==> HasTimestamp(df[k]))
    requires forall k :: 0 <= k < |df| && column(df[k]).Some? ==> column(df[k]).value in names
    ensures var r := MostCommon(Pick(Scope(selected, df), column), None);
      && Total(r) == |Filter(Scope(selected, df), HasTimestamp)|
      && forall i :: 0 <= i < |r| ==> r[i].0 in names
  {
    var rows := Scope(selected, df);
    ScopeMembers(selected, df);
    forall k | 0 <= k < |rows| ensures (column(rows[k]).Some? <==> HasTimestamp(rows[k])) &&
                                       (column(rows[k]).Some? ==> column(rows[k]).value in names) {
      assert rows[k] in df;
      var j :| 0 <= j < |df| && df[j] == rows[k];
    }
    PickCount(rows, column, HasTimestamp);
    ActivityFacts(selected, df, column);
    PickMembers(rows, column);
  }

  /**
   * On the records of a chat, the weekday and month maps count exactly the
   * in-scope records with a parsed timestamp, every weekday key is one of
   * the seven weekday names and every month key one of the twelve month
   * names.
   */
  lemma ParsedActivity(selected: string, chat: string)
    ensures var rows, week, month := Scope(selected, Parse(chat)), WeekActivity(selected, Parse(chat)), MonthActivity(selected, Parse(chat));
      && Total(week) == |Filter(rows, HasTimestamp)|
      && Total(month) == |Filter(rows, HasTimestamp)|
      && (forall i :: 0 <= i < |week| ==> week[i].0 in WeekdayNames)
      && (forall i :: 0 <= i < |month| ==> month[i].0 in MonthNames)
  {
    var df := Parse(chat);
    ParsedColumns(chat);
    forall k | 0 <= k < |df|
      ensures DayNameOf(df[k]).Some? <==> HasTimestamp(df[k])
      ensures DayNameOf(df[k]).Some? ==> DayNameOf(df[k]).value in WeekdayNames
      ensures MonthOf(df[k]).Some? <==> HasTimestamp(df[k])
      ensures MonthOf(df[k]).Some? ==> MonthOf(df[k]).value in MonthNames
    {
      assert ParsedNames(df[k]);
    }
    TimedActivity(selected, df, DayNameOf, WeekdayNames);
    TimedActivity(selected, df, MonthOf, MonthNames);
  }

  /** The day and month names of a parsed record are present exactly when its timestamp is, and are real names. */
  lemma ParsedColumns(chat: string)
    ensures forall k :: 0 <= k < |Parse(chat)| ==> ParsedNames(Parse(chat)[k])
  {
    var lines := SplitLines(chat);
    ParseOrigins(chat);
    var o := Where(lines, Accepted);
    forall k | 0 <= k < |Parse(chat)| ensures ParsedNames(Parse(chat)[k]) {
      RecordNames(lines[o[k]]);
    }
  }

  predicate ParsedNames(r: Record) {
    && (r.dayName.Some? <==> r.timestamp.Some?)
    && (r.month.Some? <==> r.timestamp.Some?)
    && (r.dayName.Some? ==> r.dayName.value in WeekdayNames)
    && (r.month.Some? ==> r.month.value in MonthNames)
  }

  lemma RecordNames(line: string)
    requires Accepted(line)
    ensures ParsedNames(RecordOf(HeaderOf(line).value))
  {
    var r := RecordOf(HeaderOf(line).value);
    RecordTimeColumns(line);
    if r.timestamp.Some? {
      var t := r.timestamp.value;
      assert r.dayName.value == DayName(Weekday(t.date));
      assert r.month.value == MonthName(t.date.month);
    }
  }

  /** When the column is present exactly where `p` holds, the dropped-null column is as long as the `p` mask. */
  lemma {:induction false} PickCount<T, U>(xs: seq<T>, f: T -> Option<U>, p: T -> bool)
    requires forall k :: 0 <= k < |xs| ==> (f(xs[k]).Some? <==> p(xs[k]))
    ensures |Pick(xs, f)| == |Filter(xs, p)|
  {
    if xs != [] {
      var n := |xs| - 1;
      assert forall k :: 0 <= k < n ==> xs[..n][k] == xs[k];
      PickCount(xs[..n], f, p);
    }
  }
}
