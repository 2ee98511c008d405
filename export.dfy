/**
 * The line format of a chat export, `[dd/mm/yy, h:mm:ssAM] sender: text`,
 * as a renderer, and the round trip through `preprocess`: parsing the
 * rendered lines of any messages gives back each message's time, sender
 * and text, one record per message, in order.
 */
module Export {
  import opened Wrappers
  import opened Text
  import opened Calendar
  import opened Frame
  import opened Preprocessor

  /** One message of a chat. */
  datatype Message = Message(time: DateTime, sender: string, text: string)

  function Tens(n: nat): char
    requires n < 100
  {
    DigitChar(n / 10)
  }

  function Ones(n: nat): char
    requires n < 100
  {
    DigitChar(n % 10)
  }

  /** `[dd/mm/yy, h:mm:ssAM]`: the header the export writes for a time, the hour without a leading zero. */
  function RenderStamp(t: DateTime): (r: string)
    requires ValidDateTime(t)
  {
    var s := FormatStamp(t);
    var mark := if t.hour < 12 then 'A' else 'P';
    if s.hour < 10 then
      ['[', Tens(s.day), Ones(s.day), '/', Tens(s.month), Ones(s.month), '/', Tens(s.year), Ones(s.year), ',', ' ',
       DigitChar(s.hour), ':', Tens(s.minute), Ones(s.minute), ':', Tens(s.second), Ones(s.second), mark, 'M', ']']
    else
      ['[', Tens(s.day), Ones(s.day), '/', Tens(s.month), Ones(s.month), '/', Tens(s.year), Ones(s.year), ',', ' ',
       Tens(s.hour), Ones(s.hour), ':', Tens(s.minute), Ones(s.minute), ':', Tens(s.second), Ones(s.second), mark, 'M', ']']
  }

  /** The export's line for a message. */
  function RenderLine(m: Message): string
    requires ValidDateTime(m.time)
  {
    RenderStamp(m.time) + " " + m.sender + ": " + m.text
  }

  /**
   * A message the format can carry unambiguously: a time in the two-digit
   * year window, no line break or invisible character in sender or text, no
   * `:`-plus-whitespace inside the sender, a sender that is not the group's
   * name, and a text that does not end in whitespace (which `strip` would
   * remove together with the separator's space).
   */
  predicate Renderable(m: Message) {
    && ValidDateTime(m.time) && 1969 <= m.time.date.year <= 2068
    && NoLineBreak(m.sender) && NoLineBreak(m.text)
    && Visible(m.sender) && Visible(m.text)
    && (forall j :: 0 <= j < |m.sender| ==> !IsSeparator(m.sender, j))
    && !StartsWith(m.sender, GroupName)
    && m.text != [] && !IsSpace(m.text[|m.text| - 1])
  }

  /** The first separator is found wherever the scan starts before it. */
  lemma {:induction false} SeparatorFromFirst(s: string, i: nat, p: nat)
    requires i <= p && IsSeparator(s, p)
    requires forall j :: i <= j < p ==> !IsSeparator(s, j) && s[j] != '\n'
    ensures SeparatorFrom(s, i) == Some(p)
    decreases p - i
  {
    if i < p {
      SeparatorFromFirst(s, i + 1, p);
    }
  }

  lemma StripKeeps(s: string)
    requires s != [] && !IsSpace(s[0]) && !IsSpace(s[|s| - 1])
    ensures Strip(s) == s
  {
  }

  lemma DeleteInvisibleKeeps(s: string)
    requires Visible(s)
    ensures DeleteInvisible(s) == s
  {
    DeleteCharAbsent(s, NarrowNoBreakSpace);
    DeleteCharAbsent(s, LeftToRightMark);
  }

  /** `s` has no newline character. */
  predicate NoNewline(s: string) {
    forall k :: 0 <= k < |s| ==> s[k] != '\n'
  }

  lemma VisibleAppend(a: string, b: string)
    requires Visible(a) && Visible(b)
    ensures Visible(a + b)
  {
    forall k | 0 <= k < |a + b| ensures !Invisible((a + b)[k]) {
      if k >= |a| {
        assert (a + b)[k] == b[k - |a|];
      }
    }
  }

  lemma NoLineBreakAppend(a: string, b: string)
    requires NoLineBreak(a) && NoLineBreak(b)
    ensures NoLineBreak(a + b)
  {
    forall k | 0 <= k < |a + b| ensures !IsLineBreak((a + b)[k]) {
      if k >= |a| {
        assert (a + b)[k] == b[k - |a|];
      }
    }
  }

  /**
   * `stamp` has the shape of a bracketed header with an hour of `h` digits
   * and no space before the marker: every character the header regex looks at.
   */
  predicate StampShape(stamp: string, h: int) {
    (h == 1 || h == 2) && |stamp| == 20 + h &&
    stamp[0] == '[' && IsDigit(stamp[1]) && IsDigit(stamp[2]) && stamp[3] == '/' &&
    IsDigit(stamp[4]) && IsDigit(stamp[5]) && stamp[6] == '/' && IsDigit(stamp[7]) && IsDigit(stamp[8]) &&
    stamp[9] == ',' && stamp[10] == ' ' &&
    IsDigit(stamp[11]) && (h == 2 <==> IsDigit(stamp[12])) && stamp[11 + h] == ':' &&
    IsDigit(stamp[12 + h]) && IsDigit(stamp[13 + h]) && stamp[14 + h] == ':' &&
    IsDigit(stamp[15 + h]) && IsDigit(stamp[16 + h]) &&
    !IsSpace(stamp[17 + h]) && MarkerLetter(stamp[17 + h]) && MarkerLetter(stamp[18 + h]) &&
    stamp[19 + h] == ']'
  }

  /** The numbers and the marker the field extraction reads from a header of that shape are those of `s`. */
  predicate StampValues(stamp: string, h: int, s: Stamp)
    requires StampShape(stamp, h)
  {
    s.day == TwoDigits(stamp, 1) && s.month == TwoDigits(stamp, 4) && s.year == TwoDigits(stamp, 7) &&
    s.hour == (if h == 1 then DigitValue(stamp[11]) else TwoDigits(stamp, 11)) &&
    s.minute == TwoDigits(stamp, 12 + h) && s.second == TwoDigits(stamp, 15 + h) &&
    !s.spaced && s.marker == stamp[17 + h..19 + h]
  }

  /** A header followed by a space and a content without newline is matched, capturing both. */
  lemma MatchStamped(stamp: string, h: int, s: Stamp, content: string)
    requires StampShape(stamp, h) && StampValues(stamp, h, s)
    requires content != [] && NoNewline(content)
    ensures MatchHeader(stamp + " " + content) == Some(Header(s, content))
  {
    var line := stamp + " " + content;
    assert forall k :: 0 <= k < |stamp| ==> line[k] == stamp[k];
    assert line[20 + h] == ' ';
    assert line[21 + h..] == content;
    assert line[17 + h..19 + h] == stamp[17 + h..19 + h];
    assert HeaderAt(line, h, 0);
    UntilNewlineAll(content);
    assert TwoDigits(line, 1) == TwoDigits(stamp, 1) && TwoDigits(line, 4) == TwoDigits(stamp, 4);
    assert TwoDigits(line, 7) == TwoDigits(stamp, 7) && TwoDigits(line, 12 + h) == TwoDigits(stamp, 12 + h);
    assert TwoDigits(line, 15 + h) == TwoDigits(stamp, 15 + h);
    assert h == 2 ==> TwoDigits(line, 11) == TwoDigits(stamp, 11);
  }

  lemma UntilNewlineAll(s: string)
    requires NoNewline(s)
    ensures UntilNewline(s) == s
  {
  }

  lemma DigitPair(n: nat)
    requires n < 100
    ensures 10 * DigitValue(Tens(n)) + DigitValue(Ones(n)) == n
  {
  }

  /** The rendered header of a time has the header's shape. */
  lemma RenderStampShape(t: DateTime)
    requires ValidDateTime(t)
    ensures StampShape(RenderStamp(t), if FormatStamp(t).hour < 10 then 1 else 2)
  {
    var s := FormatStamp(t);
    RenderStampPunctuation(t);
    RenderStampDigits(t);
    if s.hour < 10 {
      OneDigitHourShape(RenderStamp(t));
    } else {
      TwoDigitHourShape(RenderStamp(t));
    }
  }

  lemma RenderStampPunctuation(t: DateTime)
    requires ValidDateTime(t)
    ensures var stamp, h := RenderStamp(t), if FormatStamp(t).hour < 10 then 1 else 2;
      && |stamp| == 20 + h && stamp[0] == '[' && stamp[3] == '/' && stamp[6] == '/' && stamp[9] == ','
      && stamp[10] == ' ' && stamp[11 + h] == ':' && stamp[14 + h] == ':' && stamp[19 + h] == ']'
      && stamp[17 + h] in "AP" && stamp[18 + h] == 'M'
  {
    if FormatStamp(t).hour < 10 {
      assert |RenderStamp(t)| == 21;
    } else {
      assert |RenderStamp(t)| == 22;
    }
  }

  lemma RenderStampDigits(t: DateTime)
    requires ValidDateTime(t)
    ensures var stamp, h := RenderStamp(t), if FormatStamp(t).hour < 10 then 1 else 2;
      && |stamp| == 20 + h
      && IsDigit(stamp[1]) && IsDigit(stamp[2]) && IsDigit(stamp[4]) && IsDigit(stamp[5])
      && IsDigit(stamp[7]) && IsDigit(stamp[8]) && IsDigit(stamp[11]) && (h == 2 ==> IsDigit(stamp[12]))
      && IsDigit(stamp[12 + h]) && IsDigit(stamp[13 + h]) && IsDigit(stamp[15 + h]) && IsDigit(stamp[16 + h])
  {
    if FormatStamp(t).hour < 10 {
      assert |RenderStamp(t)| == 21;
    } else {
      assert |RenderStamp(t)| == 22;
    }
  }

  /** Digits at the digit positions and the punctuation in between give the shape. */
  lemma OneDigitHourShape(stamp: string)
    requires |stamp| == 21 && stamp[0] == '[' && stamp[3] == '/' && stamp[6] == '/' && stamp[9] == ','
    requires stamp[10] == ' ' && stamp[12] == ':' && stamp[15] == ':' && stamp[20] == ']'
    requires IsDigit(stamp[1]) && IsDigit(stamp[2]) && IsDigit(stamp[4]) && IsDigit(stamp[5])
    requires IsDigit(stamp[7]) && IsDigit(stamp[8]) && IsDigit(stamp[11])
    requires IsDigit(stamp[13]) && IsDigit(stamp[14]) && IsDigit(stamp[16]) && IsDigit(stamp[17])
    requires stamp[18] in "AP" && stamp[19] == 'M'
    ensures StampShape(stamp, 1)
  {
  }

  lemma TwoDigitHourShape(stamp: string)
    requires |stamp| == 22 && stamp[0] == '[' && stamp[3] == '/' && stamp[6] == '/' && stamp[9] == ','
    requires stamp[10] == ' ' && stamp[13] == ':' && stamp[16] == ':' && stamp[21] == ']'
    requires IsDigit(stamp[1]) && IsDigit(stamp[2]) && IsDigit(stamp[4]) && IsDigit(stamp[5])
    requires IsDigit(stamp[7]) && IsDigit(stamp[8]) && IsDigit(stamp[11]) && IsDigit(stamp[12])
    requires IsDigit(stamp[14]) && IsDigit(stamp[15]) && IsDigit(stamp[17]) && IsDigit(stamp[18])
    requires stamp[19] in "AP" && stamp[20] == 'M'
    ensures StampShape(stamp, 2)
  {
  }

  /** The rendered header spells out the formatted fields of the time. */
  lemma RenderStampValues(t: DateTime)
    requires ValidDateTime(t)
    ensures var s := FormatStamp(t);
      StampShape(RenderStamp(t), if s.hour < 10 then 1 else 2) &&
      StampValues(RenderStamp(t), if s.hour < 10 then 1 else 2, s)
  {
    var s := FormatStamp(t);
    var stamp := RenderStamp(t);
    RenderStampShape(t);
    DigitPair(s.day);
    DigitPair(s.month);
    DigitPair(s.year);
    DigitPair(s.minute);
    DigitPair(s.second);
    if s.hour >= 10 {
      DigitPair(s.hour);
      assert stamp[19..21] == s.marker;
    } else {
      assert stamp[18..20] == s.marker;
    }
  }

  /** The rendered header holds only digits, punctuation, a space and the marker letters. */
  lemma RenderStampPlain(t: DateTime)
    requires ValidDateTime(t)
    ensures Visible(RenderStamp(t)) && NoLineBreak(RenderStamp(t))
  {
    var stamp := RenderStamp(t);
    forall k | 0 <= k < |stamp| ensures !Invisible(stamp[k]) && !IsLineBreak(stamp[k]) {
      assert IsDigit(stamp[k]) || stamp[k] in "[/, :APM]";
    }
  }

  /** A rendered line is left as it is by cleaning. */
  lemma CleanRendered(m: Message)
    requires Renderable(m)
    ensures Clean(RenderLine(m)) == RenderLine(m)
    ensures NoLineBreak(RenderLine(m))
  {
    var stamp := RenderStamp(m.time);
    var line := RenderLine(m);
    RenderStampPlain(m.time);
    VisibleAppend(stamp, " ");
    VisibleAppend(stamp + " ", m.sender);
    VisibleAppend(stamp + " " + m.sender, ": ");
    VisibleAppend(stamp + " " + m.sender + ": ", m.text);
    NoLineBreakAppend(stamp, " ");
    NoLineBreakAppend(stamp + " ", m.sender);
    NoLineBreakAppend(stamp + " " + m.sender, ": ");
    NoLineBreakAppend(stamp + " " + m.sender + ": ", m.text);
    assert line[0] == stamp[0] == '[';
    assert line[|line| - 1] == m.text[|m.text| - 1];
    StripKeeps(line);
    DeleteInvisibleKeeps(line);
  }

  /** The header of a rendered line captures the formatted time and the rest of the line. */
  lemma MatchRendered(m: Message)
    requires Renderable(m)
    ensures MatchHeader(RenderLine(m)) == Some(Header(FormatStamp(m.time), m.sender + ": " + m.text))
  {
    var s := FormatStamp(m.time);
    var content := m.sender + ": " + m.text;
    RenderStampValues(m.time);
    NoLineBreakAppend(m.sender, ": ");
    NoLineBreakAppend(m.sender + ": ", m.text);
    assert NoNewline(content) by {
      forall k | 0 <= k < |content| ensures content[k] != '\n' {
        assert !IsLineBreak(content[k]);
      }
    }
    assert RenderLine(m) == RenderStamp(m.time) + " " + content;
    MatchStamped(RenderStamp(m.time), if s.hour < 10 then 1 else 2, s, content);
  }

  /** Sender and text come back out of the content of a rendered line. */
  lemma SplitRendered(m: Message)
    requires Renderable(m)
    ensures SplitSender(m.sender + ": " + m.text) == (Some(m.sender), Some(m.text))
  {
    var content := m.sender + ": " + m.text;
    var p := |m.sender|;
    assert IsSeparator(content, p);
    forall j | 0 <= j < p ensures !IsSeparator(content, j) && content[j] != '\n' {
      assert content[j] == m.sender[j];
      assert !IsLineBreak(m.sender[j]);
      if j + 1 < p {
        assert content[j + 1] == m.sender[j + 1];
        assert !IsSeparator(m.sender, j);
      }
    }
    SeparatorFromFirst(content, 0, p);
    assert content[..p] == m.sender;
    var rest := content[p + 2..];
    assert rest == m.text;
    assert NoNewline(rest) by {
      forall k | 0 <= k < |rest| ensures rest[k] != '\n' {
        assert !IsLineBreak(m.text[k]);
      }
    }
    UntilNewlineAll(rest);
  }

  /** The record of a rendered line carries the message's time, sender and text. */
  lemma RecordOfRendered(m: Message)
    requires Renderable(m)
    ensures Accepted(RenderLine(m)) && NoLineBreak(RenderLine(m))
    ensures var r := RecordOf(HeaderOf(RenderLine(m)).value);
      r.timestamp == Some(m.time) && r.sender == Some(m.sender) && r.message == Some(m.text)
  {
    CleanRendered(m);
    MatchRendered(m);
    SplitRendered(m);
    ParseFormatStamp(m.time);
  }

  /** The calendar columns of a rendered line's record are those of the message's time. */
  lemma ColumnsOfRendered(m: Message)
    requires Renderable(m)
    ensures Accepted(RenderLine(m))
    ensures var r := RecordOf(HeaderOf(RenderLine(m)).value);
      && r.dayName == Some(DayName(Weekday(m.time.date))) && r.month == Some(MonthName(m.time.date.month))
      && r.hour == Some(m.time.hour as nat) && r.period == PeriodLabel(Some(m.time.hour as nat))
  {
    var line := RenderLine(m);
    RecordOfRendered(m);
    RecordTimeColumns(line);
    var r := RecordOf(HeaderOf(line).value);
    assert r.timestamp.value == m.time;
  }

  /** The export of a list of messages: each rendered line followed by a newline. */
  function RenderChat(ms: seq<Message>): string
    requires forall k :: 0 <= k < |ms| ==> ValidDateTime(ms[k].time)
  {
    Terminated(seq(|ms|, k requires 0 <= k < |ms| => RenderLine(ms[k])))
  }

  /** Parsing the export of any messages gives one record per message, in order, carrying that message. */
  lemma ParseRenderedChat(ms: seq<Message>)
    requires forall k :: 0 <= k < |ms| ==> Renderable(ms[k])
    ensures forall k :: 0 <= k < |ms| ==> ValidDateTime(ms[k].time)
    ensures var df := Parse(RenderChat(ms));
      && |df| == |ms|
      && forall k :: 0 <= k < |ms| ==>
           df[k].timestamp == Some(ms[k].time) && df[k].sender == Some(ms[k].sender) && df[k].message == Some(ms[k].text)
  {
    var lines := seq(|ms|, k requires 0 <= k < |ms| => RenderLine(ms[k]));
    forall k | 0 <= k < |ms| ensures NoLineBreak(lines[k]) && HeaderOf(lines[k]).Some? {
      RecordOfRendered(ms[k]);
    }
    SplitLinesTerminated(lines);
    assert SplitLines(RenderChat(ms)) == lines;
    PickAll(lines, HeaderOf);
    var hs := Pick(lines, HeaderOf);
    var df := Parse(RenderChat(ms));
    assert |df| == |ms|;
    forall k | 0 <= k < |ms|
      ensures df[k].timestamp == Some(ms[k].time) && df[k].sender == Some(ms[k].sender) && df[k].message == Some(ms[k].text)
    {
      assert df[k] == RecordOf(hs[k]);
      assert hs[k] == HeaderOf(RenderLine(ms[k])).value;
      RecordOfRendered(ms[k]);
    }
  }
}

/** Worked lines of an export. */
module ExportScenarios {
  import opened Wrappers
  import opened Calendar
  import opened Text
  import opened Preprocessor
  import opened Export

  /** The morning message renders as the export's line and can be carried by it. */
  lemma MorningRendered(m: Message)
    requires m == Message(DateTime(Date(2023, 2, 1), 9, 15, 30), "Alice", "Good morning!")
    ensures RenderLine(m) == "[01/02/23, 9:15:30AM] Alice: Good morning!"
  {
    var s := FormatStamp(m.time);
    assert s == Stamp(1, 2, 23, 9, 15, 30, false, "AM");
    assert RenderStamp(m.time) == ['[', Tens(1), Ones(1), '/', Tens(2), Ones(2), '/', Tens(23), Ones(23), ',', ' ',
       DigitChar(9), ':', Tens(15), Ones(15), ':', Tens(30), Ones(30), 'A', 'M', ']'];
    assert RenderStamp(m.time) == "[01/02/23, 9:15:30AM]";
  }

  lemma MorningRenderable(m: Message)
    requires m == Message(DateTime(Date(2023, 2, 1), 9, 15, 30), "Alice", "Good morning!")
    ensures Renderable(m)
  {
  }

  /** A morning message: the 9 o'clock bucket, on a Wednesday in February 2023. */
  lemma MorningLine(line: string)
    requires line == "[01/02/23, 9:15:30AM] Alice: Good morning!"
    ensures Accepted(line)
    ensures var r := RecordOf(HeaderOf(line).value);
      && r.timestamp == Some(DateTime(Date(2023, 2, 1), 9, 15, 30))
      && r.sender == Some("Alice") && r.message == Some("Good morning!")
      && r.dayName == Some("Wednesday") && r.month == Some("February")
      && r.hour == Some(9) && r.period == "9-10"
  {
    var m := Message(DateTime(Date(2023, 2, 1), 9, 15, 30), "Alice", "Good morning!");
    MorningRendered(m);
    MorningRenderable(m);
    RecordOfRendered(m);
    ColumnsOfRendered(m);
    MorningNames();
  }

  lemma MorningNames()
    ensures DayName(Weekday(Date(2023, 2, 1))) == "Wednesday" && MonthName(2) == "February"
    ensures PeriodLabel(Some(9)) == "9-10"
  {
    WeekdayAnchor();
    assert NatToString(10) == NatToString(1) + [DigitChar(0)];
  }

  /** The late message renders as the export's line and can be carried by it. */
  lemma MidnightRendered(m: Message)
    requires m == Message(DateTime(Date(2022, 12, 31), 23, 59, 59), "Bob", "Good night")
    ensures RenderLine(m) == "[31/12/22, 11:59:59PM] Bob: Good night"
  {
    MidnightStamp(m.time);
  }

  lemma MidnightStamp(t: DateTime)
    requires t == DateTime(Date(2022, 12, 31), 23, 59, 59)
    ensures RenderStamp(t) == "[31/12/22, 11:59:59PM]"
  {
    var s := FormatStamp(t);
    assert s == Stamp(31, 12, 22, 11, 59, 59, false, "PM");
    assert RenderStamp(t) == ['[', Tens(31), Ones(31), '/', Tens(12), Ones(12), '/', Tens(22), Ones(22), ',', ' ',
       Tens(11), Ones(11), ':', Tens(59), Ones(59), ':', Tens(59), Ones(59), 'P', 'M', ']'];
  }

  lemma MidnightRenderable(m: Message)
    requires m == Message(DateTime(Date(2022, 12, 31), 23, 59, 59), "Bob", "Good night")
    ensures Renderable(m)
  {
  }

  /** A message a second before midnight lands in the "23-00" bucket. */
  lemma MidnightLine(line: string)
    requires line == "[31/12/22, 11:59:59PM] Bob: Good night"
    ensures Accepted(line)
    ensures var r := RecordOf(HeaderOf(line).value);
      && r.timestamp == Some(DateTime(Date(2022, 12, 31), 23, 59, 59))
      && r.sender == Some("Bob") && r.message == Some("Good night")
      && r.period == "23-00"
  {
    var m := Message(DateTime(Date(2022, 12, 31), 23, 59, 59), "Bob", "Good night");
    MidnightRendered(m);
    MidnightRenderable(m);
    RecordOfRendered(m);
  }
}
