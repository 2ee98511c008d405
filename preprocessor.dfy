/**
 * `preprocess` (preprocessor.py): turns the text of a chat export into one
 * record per line that carries a bracketed timestamp header, in line order.
 *
 * Per line: strip, delete U+202F and U+200E, match
 *   ^\[(\d{2}/\d{2}/\d{2}, \d{1,2}:\d{2}:\d{2}\s?[APMapm]{2})\]\s(.+)
 * and keep the two groups. Per record: split sender from message at the
 * first ":" followed by whitespace, rewrite senders starting with
 * "Team Alfaaz", parse the timestamp with "%d/%m/%y, %I:%M:%S%p" (null on
 * failure), derive the calendar columns and the hour-bucket label.
 */
module Preprocessor {
  import opened Wrappers
  import opened Text
  import opened Calendar
  import opened Frame

  const NarrowNoBreakSpace: char := '\U{202F}'
  const LeftToRightMark: char := '\U{200E}'
  const GroupName: string := "Team Alfaaz"
  const GroupNotification: string := "group_notification"

  predicate Invisible(c: char) {
    c == NarrowNoBreakSpace || c == LeftToRightMark
  }

  /** No U+202F and no U+200E anywhere in `s`. */
  predicate Visible(s: string) {
    forall k :: 0 <= k < |s| ==> !Invisible(s[k])
  }

  // ---------------------------------------------------------------------------
  // Line cleaning (preprocessor.py:14-15)

  /**
   * Both deletions of one cleaning statement: every U+202F and U+200E goes,
   * every other character stays (in order, by DeleteInvisibleAppend).
   */
  function DeleteInvisible(s: string): (r: string)
    ensures Visible(r)
    ensures multiset(r) == multiset(s)[NarrowNoBreakSpace := 0][LeftToRightMark := 0]
    ensures |s| == 1 ==> r == (if Invisible(s[0]) then [] else s)
  {
    var once := DeleteChar(s, NarrowNoBreakSpace);
    var r := DeleteChar(once, LeftToRightMark);
    DeleteCharCounts(s, NarrowNoBreakSpace);
    DeleteCharCounts(once, LeftToRightMark);
    forall k | 0 <= k < |r| ensures r[k] != NarrowNoBreakSpace {
      assert r[k] in multiset(r);
      assert r[k] in multiset(once);
      assert r[k] in once;
    }
    r
  }

  /** The deletions work piece by piece, so the characters that stay keep their order. */
  lemma DeleteInvisibleAppend(a: string, b: string)
    ensures DeleteInvisible(a + b) == DeleteInvisible(a) + DeleteInvisible(b)
  {
    DeleteCharAppend(a, b, NarrowNoBreakSpace);
    DeleteCharAppend(DeleteChar(a, NarrowNoBreakSpace), DeleteChar(b, NarrowNoBreakSpace), LeftToRightMark);
  }

  /** Line 14: strip, then delete the invisible characters. */
  function CleanOnce(line: string): string {
    DeleteInvisible(Strip(line))
  }

  /** Lines 14 and 15 together. */
  function Clean(line: string): string {
    DeleteInvisible(CleanOnce(line))
  }

  /** The second deletion (line 15) finds nothing left to delete. */
  lemma CleanSecondPassIdle(line: string)
    ensures Clean(line) == CleanOnce(line)
    ensures Visible(Clean(line))
  {
    var once := CleanOnce(line);
    DeleteCharAbsent(once, NarrowNoBreakSpace);
    DeleteCharAbsent(once, LeftToRightMark);
  }

  // ---------------------------------------------------------------------------
  // The header (preprocessor.py:10, 17-21)

  predicate MarkerLetter(c: char) {
    c == 'A' || c == 'P' || c == 'M' || c == 'a' || c == 'p' || c == 'm'
  }

  /**
   * `line` matches the header regex with an hour of `h` digits and `sp`
   * whitespace characters before the AM/PM letters. The header ends with
   * `]` at index 19 + h + sp, one whitespace, and at least one character
   * that is not a newline (`.+`).
   */
  predicate HeaderAt(line: string, h: int, sp: int) {
    (h == 1 || h == 2) && (sp == 0 || sp == 1) && 22 + h + sp <= |line| &&
    line[0] == '[' && IsDigit(line[1]) && IsDigit(line[2]) && line[3] == '/' &&
    IsDigit(line[4]) && IsDigit(line[5]) && line[6] == '/' && IsDigit(line[7]) && IsDigit(line[8]) &&
    line[9] == ',' && line[10] == ' ' &&
    IsDigit(line[11]) && (h == 2 ==> IsDigit(line[12])) && line[11 + h] == ':' &&
    IsDigit(line[12 + h]) && IsDigit(line[13 + h]) && line[14 + h] == ':' &&
    IsDigit(line[15 + h]) && IsDigit(line[16 + h]) &&
    (sp == 1 ==> IsSpace(line[17 + h])) &&
    MarkerLetter(line[17 + h + sp]) && MarkerLetter(line[18 + h + sp]) &&
    line[19 + h + sp] == ']' && IsSpace(line[20 + h + sp]) && line[21 + h + sp] != '\n'
  }

  /** The date and time of a header, as the numbers its digit pairs spell. */
  datatype Stamp = Stamp(day: nat, month: nat, year: nat, hour: nat, minute: nat, second: nat,
                         spaced: bool, marker: string)

  /** What the header regex captures: the timestamp (group 1) and the rest of the line (group 2). */
  datatype Header = Header(stamp: Stamp, content: string)

  function TwoDigits(line: string, i: nat): (v: nat)
    requires i + 1 < |line| && IsDigit(line[i]) && IsDigit(line[i + 1])
    ensures v < 100
  {
    10 * DigitValue(line[i]) + DigitValue(line[i + 1])
  }

  /** `s` up to its first newline: what `.*` matches. */
  function UntilNewline(s: string): (r: string)
    ensures |r| <= |s| && r == s[..|r|]
    ensures forall k :: 0 <= k < |r| ==> r[k] != '\n'
    ensures |r| < |s| ==> s[|r|] == '\n'
  {
    if s == [] || s[0] == '\n' then [] else [s[0]] + UntilNewline(s[1..])
  }

  function HeaderFields(line: string, h: int, sp: int): (hd: Header)
    requires HeaderAt(line, h, sp)
    ensures hd.content != [] && 21 + h + sp + |hd.content| <= |line|
    ensures hd.content == line[21 + h + sp..21 + h + sp + |hd.content|]
    ensures 21 + h + sp + |hd.content| == |line| || line[21 + h + sp + |hd.content|] == '\n'
    ensures hd.stamp.day == TwoDigits(line, 1) && hd.stamp.month == TwoDigits(line, 4)
    ensures hd.stamp.year == TwoDigits(line, 7) && hd.stamp.year < 100
    ensures hd.stamp.hour == if h == 1 then DigitValue(line[11]) else TwoDigits(line, 11)
    ensures hd.stamp.minute == TwoDigits(line, 12 + h) && hd.stamp.second == TwoDigits(line, 15 + h)
    ensures hd.stamp.spaced == (sp == 1) && hd.stamp.marker == line[17 + h + sp..19 + h + sp]
  {
    var hour := if h == 1 then DigitValue(line[11]) else TwoDigits(line, 11);
    var content := UntilNewline(line[21 + h + sp..]);
    Header(Stamp(TwoDigits(line, 1), TwoDigits(line, 4), TwoDigits(line, 7), hour,
                 TwoDigits(line, 12 + h), TwoDigits(line, 15 + h), sp == 1,
                 line[17 + h + sp..19 + h + sp]),
           content)
  }

  /**
   * `re.match(pattern, line)`. `\d{1,2}` is followed by `:`, which is not a
   * digit, and `\s?` by a letter, which is not whitespace, so the regex has
   * at most one way to match and the two widths can be read off the line.
   */
  function MatchHeader(line: string): Option<Header> {
    var h := if |line| > 12 && IsDigit(line[12]) then 2 else 1;
    var sp := if |line| > 17 + h && IsSpace(line[17 + h]) then 1 else 0;
    if HeaderAt(line, h, sp) then Some(HeaderFields(line, h, sp)) else None
  }

  /** A line is accepted exactly when it has the header's shape, and then the match is that shape's. */
  lemma MatchHeaderSpec(line: string)
    ensures MatchHeader(line).Some? <==> exists h, sp :: HeaderAt(line, h, sp)
    ensures forall h, sp :: HeaderAt(line, h, sp) ==> MatchHeader(line) == Some(HeaderFields(line, h, sp))
  {
    forall h, sp | HeaderAt(line, h, sp) ensures MatchHeader(line) == Some(HeaderFields(line, h, sp)) {
      assert h == 1 ==> !IsDigit(line[12]);
      assert sp == 0 ==> !IsSpace(line[17 + h]);
    }
  }

  // ---------------------------------------------------------------------------
  // Sender and message (preprocessor.py:27)

  /** `s[i]` is a `:` followed by a whitespace character. */
  predicate IsSeparator(s: string, i: int) {
    0 <= i && i + 1 < |s| && s[i] == ':' && IsSpace(s[i + 1])
  }

  /** The first separator at or after `i` that no newline precedes: where `^(.*?):\s` stops. */
  function SeparatorFrom(s: string, i: nat): (r: Option<nat>)
    requires i <= |s|
    ensures r.Some? ==> i <= r.value && IsSeparator(s, r.value)
    ensures r.Some? ==> forall j :: i <= j < r.value ==> !IsSeparator(s, j) && s[j] != '\n'
    ensures r.None? ==> forall j :: i <= j && IsSeparator(s, j) ==> exists k :: i <= k < j && s[k] == '\n'
    decreases |s| - i
  {
    if i + 1 >= |s| || s[i] == '\n' then None
    else if IsSeparator(s, i) then Some(i)
    else SeparatorFrom(s, i + 1)
  }

  /** `str.extract(r'^(.*?):\s(.*)')`: sender and message, or two nulls when there is no separator. */
  function SplitSender(content: string): (Option<string>, Option<string>) {
    match SeparatorFrom(content, 0)
    case None => (None, None)
    case Some(i) => (Some(content[..i]), Some(UntilNewline(content[i + 2..])))
  }

  /**
   * On a line's content (which holds no newline): with a separator, the
   * sender is everything before the first one and the message everything
   * after it, so sender, separator and message put back together give the
   * content; without one, both are null.
   */
  lemma SplitSenderSpec(content: string)
    requires forall k :: 0 <= k < |content| ==> content[k] != '\n'
    ensures SplitSender(content).0.Some? <==> exists i :: IsSeparator(content, i)
    ensures SplitSender(content).0.Some? <==> SplitSender(content).1.Some?
    ensures SplitSender(content).0.Some? ==>
      var sender, message := SplitSender(content).0.value, SplitSender(content).1.value;
      && IsSeparator(content, |sender|)
      && content == sender + content[|sender|..|sender| + 2] + message
      && forall j :: 0 <= j < |sender| ==> !IsSeparator(content, j)
  {
    match SeparatorFrom(content, 0)
    case None =>
    case Some(i) =>
      var rest := content[i + 2..];
      assert UntilNewline(rest) == rest by {
        if |UntilNewline(rest)| < |rest| {
          assert rest[|UntilNewline(rest)|] == content[i + 2 + |UntilNewline(rest)|];
        }
      }
      assert content == content[..i] + content[i..i + 2] + rest;
  }

  /** `str.replace(r'^Team Alfaaz.*', 'group_notification', regex=True)` on the sender column. */
  function RewriteSender(sender: Option<string>): Option<string> {
    match sender
    case None => None
    case Some(s) =>
      if StartsWith(s, GroupName) then Some(GroupNotification + s[|UntilNewline(s)|..]) else Some(s)
  }

  /** A sender starting with the group name becomes exactly the sentinel; other senders and null stay as they are. */
  lemma RewriteSenderSpec(sender: Option<string>)
    requires sender.Some? ==> forall k :: 0 <= k < |sender.value| ==> sender.value[k] != '\n'
    ensures sender.None? ==> RewriteSender(sender) == None
    ensures sender.Some? && StartsWith(sender.value, GroupName) ==> RewriteSender(sender) == Some(GroupNotification)
    ensures sender.Some? && !StartsWith(sender.value, GroupName) ==> RewriteSender(sender) == sender
  {
    if sender.Some? {
      var s := sender.value;
      var line := UntilNewline(s);
      assert |line| == |s|;
      assert s[|line|..] == [];
      assert GroupNotification + s[|line|..] == GroupNotification;
    }
  }

  // ---------------------------------------------------------------------------
  // Timestamp (preprocessor.py:33)

  /** `%y`: 00-68 are years of the 2000s, 69-99 of the 1900s. */
  function ExpandYear(yy: nat): int {
    if yy <= 68 then 2000 + yy else 1900 + yy
  }

  /** `%I` with `%p`: 12 AM is hour 0, 12 PM is hour 12, other PM hours add 12. */
  function To24(h12: nat, pm: bool): nat {
    if pm then (if h12 == 12 then 12 else h12 + 12) else (if h12 == 12 then 0 else h12)
  }

  /**
   * `pd.to_datetime(date, format="%d/%m/%y, %I:%M:%S%p", errors='coerce')`
   * on a header's timestamp. The format's fields accept days 01-31, months
   * 01-12, hours 1-12 (with or without a leading zero), minutes 00-59 and
   * the AM/PM marker in any case, written right after the seconds; the
   * result must be a real calendar date and second. Anything else is null.
   */
  function ParseTimestamp(s: Stamp): (t: Option<DateTime>)
    ensures t.Some? ==> ValidDateTime(t.value)
    ensures t.Some? ==> !s.spaced && (Lower(s.marker) == "am" || Lower(s.marker) == "pm")
    ensures t.Some? ==> 1 <= s.hour <= 12 && t.value.hour == To24(s.hour, Lower(s.marker) == "pm")
    ensures t.Some? ==> t.value.date == Date(ExpandYear(s.year), s.month, s.day)
    ensures !s.spaced && (Lower(s.marker) == "am" || Lower(s.marker) == "pm") &&
            1 <= s.hour <= 12 && s.minute <= 59 && s.second <= 59 &&
            ValidDate(Date(ExpandYear(s.year), s.month, s.day)) ==>
              t == Some(DateTime(Date(ExpandYear(s.year), s.month, s.day),
                                 To24(s.hour, Lower(s.marker) == "pm"), s.minute, s.second))
  {
    var marker := Lower(s.marker);
    var date := Date(ExpandYear(s.year), s.month, s.day);
    if s.spaced || !(marker == "am" || marker == "pm") then None
    else if !(1 <= s.hour <= 12 && s.minute <= 59 && s.second <= 59) then None
    else if !ValidDate(date) then None
    else Some(DateTime(date, To24(s.hour, marker == "pm"), s.minute, s.second))
  }

  /** `strftime("%d/%m/%y, %I:%M:%S%p")` read back into a stamp: the inverse of `ParseTimestamp`. */
  function FormatStamp(t: DateTime): Stamp
    requires ValidDateTime(t)
  {
    var h12 := if t.hour % 12 == 0 then 12 else t.hour % 12;
    Stamp(t.date.day, t.date.month, t.date.year % 100, h12, t.minute, t.second, false,
          if t.hour < 12 then "AM" else "PM")
  }

  /** The marker is read in any case: "pm" and "Pm" parse like "PM". */
  lemma MarkerAnyCase(s: Stamp)
    requires s == Stamp(1, 2, 23, 9, 15, 30, false, "pm") || s == Stamp(1, 2, 23, 9, 15, 30, false, "Pm")
    ensures ParseTimestamp(s) == Some(DateTime(Date(2023, 2, 1), 21, 15, 30))
  {
    assert Lower(s.marker) == "pm";
  }

  /** Every valid time in 1969-2068 survives formatting and parsing. */
  lemma ParseFormatStamp(t: DateTime)
    requires ValidDateTime(t) && 1969 <= t.date.year <= 2068
    ensures ParseTimestamp(FormatStamp(t)) == Some(t)
  {
    var s := FormatStamp(t);
    assert Lower(s.marker) == (if t.hour < 12 then "am" else "pm");
  }

  /** A stamp that parses is the formatting of what it parses to, up to the case of its marker. */
  lemma FormatParseStamp(s: Stamp)
    requires s.year < 100 && ParseTimestamp(s).Some?
    ensures FormatStamp(ParseTimestamp(s).value) == s.(marker := if Lower(s.marker) == "am" then "AM" else "PM")
  {
  }

  /** "9:15:30 AM": a space before the marker is accepted by the header but not by the format. */
  lemma SpacedMarkerIsNull(s: Stamp)
    requires s.spaced
    ensures ParseTimestamp(s) == None
  {
  }

  // ---------------------------------------------------------------------------
  // Records (preprocessor.py:24-58)

  /** One row of the data frame that `preprocess` returns. */
  datatype Record = Record(
    timestamp: Option<DateTime>,
    sender: Option<string>,
    message: Option<string>,
    onlyDate: Option<Date>,
    year: Option<int>,
    monthNum: Option<int>,
    month: Option<string>,
    day: Option<int>,
    dayName: Option<string>,
    hour: Option<nat>,
    minute: Option<nat>,
    period: string)

  /** The column expressions of lines 27-43 on one captured header; `period` is filled in afterwards. */
  function Columns(hd: Header): Record {
    var (sender, message) := SplitSender(hd.content);
    var ts := ParseTimestamp(hd.stamp);
    match ts
    case None =>
      Record(None, RewriteSender(sender), message, None, None, None, None, None, None, None, None, "")
    case Some(t) =>
      Record(ts, RewriteSender(sender), message, Some(t.date), Some(t.date.year), Some(t.date.month),
             Some(MonthName(t.date.month)), Some(t.date.day), Some(DayName(Weekday(t.date))),
             Some(t.hour as nat), Some(t.minute as nat), "")
  }

  /** The hour bucket: "23-00", "00-1", "h-(h+1)", and "nan-nan" for a null hour. */
  function PeriodLabel(hour: Option<nat>): string {
    match hour
    case None => "nan-nan"
    case Some(h) =>
      if h == 23 then "23-00"
      else if h == 0 then "00-1"
      else NatToString(h) + "-" + NatToString(h + 1)
  }

  function RecordOf(hd: Header): Record {
    var r := Columns(hd);
    r.(period := PeriodLabel(r.hour))
  }

  /** The header a raw line yields once cleaned, if any. */
  function HeaderOf(line: string): Option<Header> {
    MatchHeader(Clean(line))
  }

  predicate Accepted(line: string) {
    HeaderOf(line).Some?
  }

  /** What `preprocess` returns. */
  function Parse(chat: string): seq<Record> {
    var hs := Pick(SplitLines(chat), HeaderOf);
    seq(|hs|, k requires 0 <= k < |hs| => RecordOf(hs[k]))
  }

  // ---------------------------------------------------------------------------
  // Properties of the result

  /**
   * One record per accepted line, in line order, and none for any other
   * line: the k-th record is built from the header of line `o[k]`, and `o`
   * lists every accepted line, ascending.
   */
  lemma ParseOrigins(chat: string)
    ensures var lines, o := SplitLines(chat), Where(SplitLines(chat), Accepted);
      && |Parse(chat)| == |o|
      && (forall k :: 0 <= k < |o| ==>
            o[k] < |lines| && Accepted(lines[o[k]]) && Parse(chat)[k] == RecordOf(HeaderOf(lines[o[k]]).value))
      && (forall k, l :: 0 <= k < l < |o| ==> o[k] < o[l])
      && (forall i :: 0 <= i < |lines| && Accepted(lines[i]) ==> i in o)
  {
    var lines, o := SplitLines(chat), Where(SplitLines(chat), Accepted);
    var hs := Pick(lines, HeaderOf);
    PickWhere(lines, HeaderOf, Accepted);
    assert |Parse(chat)| == |hs| == |o|;
    forall k | 0 <= k < |o|
      ensures o[k] < |lines| && Accepted(lines[o[k]]) && Parse(chat)[k] == RecordOf(HeaderOf(lines[o[k]]).value)
    {
      assert HeaderOf(lines[o[k]]) == Some(hs[k]);
      assert Parse(chat)[k] == RecordOf(hs[k]);
    }
  }

  /** The content a header captures is made of the line's own characters, with no newline among them. */
  lemma MatchedContent(line: string)
    requires MatchHeader(line).Some?
    ensures forall k :: 0 <= k < |MatchHeader(line).value.content| ==>
      MatchHeader(line).value.content[k] != '\n' && MatchHeader(line).value.content[k] in line
  {
    var h := if |line| > 12 && IsDigit(line[12]) then 2 else 1;
    var sp := if |line| > 17 + h && IsSpace(line[17 + h]) then 1 else 0;
    var content := HeaderFields(line, h, sp).content;
    forall k | 0 <= k < |content| ensures content[k] in line {
      assert content[k] == line[21 + h + sp + k];
    }
  }

  /** The content a header captures from a cleaned line holds no invisible character and no newline. */
  lemma HeaderContentClean(line: string)
    requires Accepted(line)
    ensures Visible(HeaderOf(line).value.content)
    ensures forall k :: 0 <= k < |HeaderOf(line).value.content| ==> HeaderOf(line).value.content[k] != '\n'
  {
    var cleaned := Clean(line);
    CleanSecondPassIdle(line);
    MatchedContent(cleaned);
  }

  /** Sender and message are both present or both null, and keep the content's cleanliness. */
  lemma ColumnsText(hd: Header)
    requires Visible(hd.content)
    requires forall k :: 0 <= k < |hd.content| ==> hd.content[k] != '\n'
    ensures var r := Columns(hd);
      && (r.sender.Some? <==> r.message.Some?)
      && (r.sender.Some? ==> Visible(r.sender.value) && '\n' !in r.sender.value)
      && (r.message.Some? ==> Visible(r.message.value) && '\n' !in r.message.value)
  {
    SplitSenderSpec(hd.content);
    var (sender, message) := SplitSender(hd.content);
    if sender.Some? {
      RewriteSenderSpec(sender);
    }
  }

  /** The sender and message of a record hold no invisible character and no newline. */
  lemma RecordTextClean(line: string)
    requires Accepted(line)
    ensures var r := RecordOf(HeaderOf(line).value);
      && (r.sender.Some? <==> r.message.Some?)
      && (r.sender.Some? ==> Visible(r.sender.value) && '\n' !in r.sender.value)
      && (r.message.Some? ==> Visible(r.message.value) && '\n' !in r.message.value)
  {
    HeaderContentClean(line);
    ColumnsText(HeaderOf(line).value);
  }

  /**
   * A null timestamp leaves every derived column null and the label
   * "nan-nan"; a parsed one is a real time in 1969-2068 and every derived
   * column agrees with it: month name and number, weekday name, hour,
   * minute and hour label.
   */
  lemma RecordTimeColumns(line: string)
    requires Accepted(line)
    ensures var r := RecordOf(HeaderOf(line).value);
      && (r.timestamp.None? ==>
            r.onlyDate == None && r.year == None && r.monthNum == None && r.month == None &&
            r.day == None && r.dayName == None && r.hour == None && r.minute == None &&
            r.period == "nan-nan")
      && (r.timestamp.Some? ==>
            var t := r.timestamp.value;
            && ValidDateTime(t) && 1969 <= t.date.year <= 2068
            && r.onlyDate == Some(t.date) && r.year == Some(t.date.year) && r.day == Some(t.date.day)
            && r.monthNum == Some(t.date.month) && r.month == Some(MonthName(t.date.month))
            && MonthOfName(r.month.value) == t.date.month
            && r.dayName == Some(DayName(Weekday(t.date)))
            && r.hour.Some? && r.hour.value < 24 && r.hour.value == t.hour
            && r.minute.Some? && r.minute.value < 60 && r.minute.value == t.minute
            && r.period == PeriodLabel(r.hour))
  {
    var hd := HeaderOf(line).value;
    var t := ParseTimestamp(hd.stamp);
    if t.Some? {
      MonthNameRoundTrip(t.value.date.month);
    }
  }

  /** Length of the run of digits `s` starts with. */
  function DigitRun(s: string): nat {
    if s != [] && IsDigit(s[0]) then 1 + DigitRun(s[1..]) else 0
  }

  lemma {:induction false} DigitRunDash(a: string, x: string)
    requires AllDigits(a)
    ensures DigitRun(a + "-" + x) == |a|
  {
    if a != [] {
      assert (a + "-" + x)[1..] == a[1..] + "-" + x;
      DigitRunDash(a[1..], x);
    }
  }

  /** Digits never contain a dash, so a dash after a number ends it. */
  lemma DashSplit(a: string, b: string, x: string, y: string)
    requires AllDigits(a) && AllDigits(b)
    requires a + "-" + x == b + "-" + y
    ensures a == b
  {
    DigitRunDash(a, x);
    DigitRunDash(b, y);
    assert (a + "-" + x)[..|a|] == a;
    assert (b + "-" + y)[..|b|] == b;
  }

  /** The hour as the label writes it: "00" for midnight, `str(h)` otherwise. */
  function HourText(h: nat): string {
    if h == 0 then "00" else NatToString(h)
  }

  /** A label of a real hour is its hour text, a dash, and the next hour's text. */
  lemma PeriodLabelParts(h: nat)
    requires h < 24
    ensures AllDigits(HourText(h)) && HourText(h) != []
    ensures exists t :: PeriodLabel(Some(h)) == HourText(h) + "-" + t
  {
    if h == 23 {
      assert NatToString(23) == "23";
      assert PeriodLabel(Some(h)) == HourText(h) + "-" + "00";
    } else if h == 0 {
      assert PeriodLabel(Some(h)) == HourText(h) + "-" + "1";
    } else {
      assert PeriodLabel(Some(h)) == HourText(h) + "-" + NatToString(h + 1);
    }
  }

  lemma NanLabelApart(h: nat)
    requires h < 24
    ensures PeriodLabel(Some(h)) != "nan-nan"
  {
    PeriodLabelParts(h);
    var t :| PeriodLabel(Some(h)) == HourText(h) + "-" + t;
    assert PeriodLabel(Some(h))[0] == HourText(h)[0];
  }

  /** Different hours of the day, and the null hour, fall into different buckets. */
  lemma PeriodLabelInjective(a: Option<nat>, b: Option<nat>)
    requires a.Some? ==> a.value < 24
    requires b.Some? ==> b.value < 24
    requires PeriodLabel(a) == PeriodLabel(b)
    ensures a == b
  {
    if a.Some? && b.Some? {
      var x, y := a.value, b.value;
      PeriodLabelParts(x);
      PeriodLabelParts(y);
      var tx :| PeriodLabel(a) == HourText(x) + "-" + tx;
      var ty :| PeriodLabel(b) == HourText(y) + "-" + ty;
      DashSplit(HourText(x), HourText(y), tx, ty);
      if x != 0 && y != 0 && x != y {
        NatToStringInjective(x, y);
      }
    } else if a.Some? {
      NanLabelApart(a.value);
    } else if b.Some? {
      NanLabelApart(b.value);
    }
  }

  /** The loop of lines 44-53: one hour-bucket label per row. */
  method PeriodColumn(hours: seq<Option<nat>>) returns (period: seq<string>)
    ensures |period| == |hours|
    ensures forall j :: 0 <= j < |hours| ==> period[j] == PeriodLabel(hours[j])
  {
    period := [];
    for k := 0 to |hours|
      invariant |period| == k
      invariant forall j :: 0 <= j < k ==> period[j] == PeriodLabel(hours[j])
    {
      var hour := hours[k];
      var bucket: string;
      if hour == Some(23) {
        bucket := NatToString(23) + "-" + "00";
        assert NatToString(23) == "23";
      } else if hour == Some(0) {
        bucket := "00" + "-" + NatToString(0 + 1);
        assert NatToString(1) == "1";
      } else if hour.Some? {
        bucket := NatToString(hour.value) + "-" + NatToString(hour.value + 1);
      } else {
        bucket := "nan" + "-" + "nan";
      }
      period := period + [bucket];
    }
  }

  /** The loop of lines 12-21: clean every line and keep the captured groups of those that match. */
  method CollectHeaders(lines: seq<string>) returns (data: seq<Header>)
    ensures data == Pick(lines, HeaderOf)
  {
    data := [];
    for i := 0 to |lines|
      invariant data == Pick(lines[..i], HeaderOf)
    {
      var line := CleanOnce(lines[i]);
      line := DeleteInvisible(line);
      var m := MatchHeader(line);
      if m.Some? {
        data := data + [m.value];
      }
      PickSnoc(lines, HeaderOf, i);
    }
    assert lines[..|lines|] == lines;
  }

  /** `preprocess(chat)`: split into lines, collect the headers, derive the columns, label the hours. */
  method Preprocess(chat: string) returns (df: seq<Record>)
    ensures df == Parse(chat)
  {
    var lines := SplitLines(chat);
    var data := CollectHeaders(lines);
    var columns := seq(|data|, k requires 0 <= k < |data| => Columns(data[k]));
    var hours := seq(|columns|, k requires 0 <= k < |columns| => columns[k].hour);
    var period := PeriodColumn(hours);
    df := seq(|columns|, k requires 0 <= k < |columns| => columns[k].(period := period[k]));
    forall k | 0 <= k < |df| ensures df[k] == RecordOf(data[k]) {
      assert period[k] == PeriodLabel(hours[k]);
    }
  }
}
