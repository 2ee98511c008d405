# WhatsApp chat analyser — a verified model of its core

The analyser reads a WhatsApp chat export (text, one message per line,
`[dd/mm/yy, h:mm:ssAM] sender: message`), turns it into a table of
records, and computes per-user or whole-group statistics for a dashboard.
This project models, in Dafny, the part that decides what those numbers
are:

- `preprocess` (preprocessor.py):
  - split the export into lines and clean each one: strip it and delete U+202F and U+200E, twice;
  - keep the lines that match the header pattern;
  - split the sender from the message and rewrite group-name senders to `group_notification`;
  - parse the timestamp with `errors='coerce'`;
  - derive the calendar columns and the hour-bucket `period` labels.
- The statistics (stats.py):
  - `fetch_stats`: message, word, media and sticker counts;
  - `most_busy_users`: the counts;
  - `most_common_words`, with the stop-word file's text as a parameter;
  - `common_emojis`, with the emoji table as a parameter;
  - `week_activity_map` and `month_activity_map`.
- The sidebar's list of users (main.py:34-38).

The modules follow the program:

- `Text` holds the Python string operations the code relies on:
  - `splitlines` and `split` over Python's line-break and whitespace sets;
  - `strip`, `replace` with a single character, `lower`, `in` and `str(int)`.
- `Calendar` holds the date arithmetic behind `day_name` and `month_name`.
- `Counting` holds `Counter.most_common`, including its tie order.
- `Frame` holds the column operations: the boolean mask and `dropna`.
- `Sorting` holds the sort.
- `Preprocessor`, `Stats` and `Selector` hold the three source files.

`Export` is not part of the program. It writes the line format the program
reads, so the parser has a partner: every message that the format can carry
comes back out of `preprocess` unchanged. `ExportScenarios` works through
two concrete lines.

Pure functions are modelled as Dafny functions. The loops of the source
(the line loop, the period loop, the word and emoji loops) are methods
with loop invariants, each proved equal to the function that specifies it.
The list edits of main.py, which have no loop, are a method that assigns
the results of `unique`, `remove` and `sort` in turn.

## Model

| member | source | states |
|---|---|---|
| Text.SplitLines | preprocessor.py:6 | no resulting line contains a line break |
| Text.SplitLinesTerminated | preprocessor.py:6 | splitting the newline-terminated concatenation of break-free lines gives back exactly those lines |
| Text.SplitLinesUnterminated | preprocessor.py:6 | a last line without a newline after it is still a line: the text splits into the terminated lines followed by it |
| Text.SplitLinesOne | preprocessor.py:6 | a non-empty text without line breaks is exactly one line |
| Text.Strip | preprocessor.py:14 | the result is the slice of the input with only whitespace before and after it, and it neither starts nor ends with whitespace |
| Text.DeleteChar | preprocessor.py:14-15 | the character is gone, and a one-character text loses exactly that character or nothing |
| Text.DeleteCharCounts | preprocessor.py:14-15 | every other character keeps its number of occurrences |
| Text.DeleteCharAppend | preprocessor.py:14-15 | deleting from a concatenation is deleting from each part, so the remaining characters keep their order |
| Preprocessor.DeleteInvisible | preprocessor.py:14-15 | after both deletions no U+202F or U+200E remains, and every other character keeps its number of occurrences |
| Preprocessor.DeleteInvisibleAppend | preprocessor.py:14-15 | both deletions work piece by piece, so the visible characters keep their order |
| Preprocessor.CleanSecondPassIdle | preprocessor.py:14-15 | the second cleaning pass changes nothing, and the cleaned line has no invisible characters |
| Preprocessor.UntilNewline | preprocessor.py:10 | `.+` takes the longest newline-free prefix, and stops only at a newline |
| Preprocessor.MatchHeader | preprocessor.py:10-17 | `re.match` of the header pattern; its contract is stated by MatchHeaderSpec (accepted iff the header shape) and HeaderFields (the captures) |
| Preprocessor.HeaderFields | preprocessor.py:10-20 | the captured content is the non-empty slice of the line after `] `, running to the line's end or its first newline; day, month, year, hour, minute and second are the numbers their digits spell; the space flag and the marker letters are read from the line |
| Preprocessor.MatchHeaderSpec | preprocessor.py:10 | a line is matched iff it has the header shape for some hour width and optional space before AM/PM, and the match is that shape's fields |
| Preprocessor.CollectHeaders | preprocessor.py:12-21 | the collected headers are exactly those of the lines whose cleaned form matches, in line order |
| Preprocessor.MatchedContent | preprocessor.py:20 | every character of the captured message part is a character of the line and is not a newline |
| Preprocessor.HeaderContentClean | preprocessor.py:14-20 | the message part of an accepted line holds no invisible character and no newline |
| Preprocessor.SeparatorFrom | preprocessor.py:27 | the separator found is the first `:`+whitespace at or after the start with no newline before it; none is found only when every separator lies behind a newline |
| Preprocessor.SplitSender | preprocessor.py:27 | `str.extract` of sender and message; its contract is stated by SplitSenderSpec |
| Preprocessor.SplitSenderSpec | preprocessor.py:27 | sender and message are both present iff the content has a separator; then the sender is everything before the first one, and sender, separator and message rebuild the content |
| Preprocessor.RewriteSender | preprocessor.py:30 | the group-name rewrite; its contract is stated by RewriteSenderSpec |
| Preprocessor.RewriteSenderSpec | preprocessor.py:30 | a sender starting with the group name becomes exactly `group_notification`; other senders and a null sender are unchanged |
| Preprocessor.ParseTimestamp | preprocessor.py:33 | a stamp parses iff it has no space before the marker, an am/pm marker in any case, an hour 1-12, minute and second at most 59 and a real date; the result is then that date with the year expanded from two digits and the hour converted to 24-hour form; anything else is null |
| Preprocessor.MarkerAnyCase | preprocessor.py:33 | a lower-case or mixed-case "pm" parses like "PM" |
| Preprocessor.ParseFormatStamp | preprocessor.py:33 | formatting any valid time in 1969-2068 and parsing it back gives the same time |
| Preprocessor.FormatParseStamp | preprocessor.py:33 | formatting a parsed stamp gives back the stamp, with the marker upper-cased |
| Preprocessor.SpacedMarkerIsNull | preprocessor.py:33 | a header with whitespace before AM/PM, which the pattern accepts, parses to a null timestamp |
| Preprocessor.ParseOrigins | preprocessor.py:12-24 | one record per accepted line, in line order: record k is built from accepted line o[k], the o[k] increase, and every accepted line is listed |
| Preprocessor.ColumnsText | preprocessor.py:27-30 | sender and message are null together; when present they hold no invisible character and no newline |
| Preprocessor.RecordTextClean | preprocessor.py:14-30 | the same facts for the record of any accepted line |
| Preprocessor.RecordTimeColumns | preprocessor.py:33-43 | a null timestamp nulls every derived column and gives "nan-nan"; otherwise date, year, month number, month name (which maps back to the number), day, weekday name, hour < 24, minute < 60 and period all come from the parsed time |
| Preprocessor.PeriodLabelInjective | preprocessor.py:44-51 | different hours, or an hour and null, get different period labels |
| Preprocessor.PeriodLabel | preprocessor.py:44-51 | the hour-bucket label; its contract is stated by PeriodLabelInjective, and ExportScenarios.MorningLine and MidnightLine pin "9-10" and "23-00" |
| Preprocessor.PeriodColumn | preprocessor.py:44-53 | the period column has one label per row, the label of that row's hour |
| Preprocessor.Preprocess | preprocessor.py:4-58 | the frame returned is `Parse(chat)`, which the lemmas above describe |
| Preprocessor.Parse | preprocessor.py:4-58 | the frame `preprocess` returns; its contract is stated by ParseOrigins, RecordTimeColumns, RecordTextClean and Export.ParseRenderedChat |
| Text.NatToStringValue | preprocessor.py:51 | `str(h)` spells the decimal value of h |
| Text.NatToStringInjective | preprocessor.py:51 | different numbers print differently |
| Calendar.DaysInMonth | preprocessor.py:33 | months have 28-31 days, and 29 exactly for February of a leap year |
| Calendar.Weekday | preprocessor.py:41 | the weekday number is in 0..6 |
| Calendar.WeekdayNextDay | preprocessor.py:41 | the next calendar day has the next weekday |
| Calendar.OrdinalNextDay | preprocessor.py:41 | the next calendar day is one day later on the day count |
| Calendar.WeekdayAnchor | preprocessor.py:41 | 1 February 2023 is a Wednesday |
| Calendar.MonthNameRoundTrip | preprocessor.py:38-39 | the month name identifies the month number |
| Export.CleanRendered | preprocessor.py:14-15 | cleaning leaves a rendered line unchanged |
| Export.MatchRendered | preprocessor.py:10-20 | a rendered line matches the header pattern, with the formatted time and `sender: text` as the captures |
| Export.SplitRendered | preprocessor.py:27 | the sender and text of a carried message come back out of its content |
| Export.RecordOfRendered | preprocessor.py:14-33 | a rendered line is accepted, and its record has the message's time, sender and text |
| Export.ColumnsOfRendered | preprocessor.py:36-51 | the weekday, month, hour and period of that record are those of the message's time |
| Export.ParseRenderedChat | preprocessor.py:4-58 | parsing the export of any carried messages gives one record per message, in order, with its time, sender and text |
| ExportScenarios.MorningLine | preprocessor.py:4-58 | `[01/02/23, 9:15:30AM] Alice: Good morning!` gives 2023-02-01 09:15:30, Alice, Wednesday, February, period "9-10" |
| ExportScenarios.MidnightLine | preprocessor.py:44-47 | `[31/12/22, 11:59:59PM] Bob: Good night` gives hour 23 and period "23-00" |
| Frame.Filter | stats.py:9 | a boolean mask keeps only rows that satisfy it, and keeps every row that does |
| Frame.FilterMembers | stats.py:9 | a row is kept iff it is in the frame and satisfies the mask |
| Frame.PickMembers | stats.py:7 | a column without its nulls holds exactly the non-null values of the column |
| Stats.SelectedMembers | stats.py:7-9 | the rows in play are exactly the complete rows that the selection covers ("Group" covers all) |
| Stats.ScopeMembers | stats.py:95-96 | without `dropna`, the rows in play are exactly those that the selection covers |
| Text.WordsCount | stats.py:13 | `split()` yields one word per place where a word begins |
| Text.Words | stats.py:13 | every word is non-empty and holds no whitespace |
| Text.WordsUnwords | stats.py:13 | `split()` cuts words joined by single spaces back into exactly those words |
| Text.WordsConcat | stats.py:13 | the words put back together are the text without its whitespace |
| Stats.WordsOfCount | stats.py:11-13 | the word total is the number of word starts summed over the messages |
| Stats.StickerIsNotMedia | stats.py:15-17 | the sticker placeholder is not counted as media, so no message counts as both |
| Stats.IsMedia | stats.py:16 | the case-insensitive "video omitted" or "image omitted" test; StickerIsNotMedia and FetchStats state its use |
| Stats.IsSticker | stats.py:17 | the exact "sticker omitted" test; StickerIsNotMedia and FetchStats state its use |
| Stats.FetchStats | stats.py:6-19 | messages, words, media and stickers are the counts over the selected complete rows; media plus stickers never exceed messages |
| Text.Lower | stats.py:53 | lowercasing is character by character and keeps the length |
| Text.ContainsAt | stats.py:54 | `w in text` holds iff w occurs at some index of the text |
| Stats.KeepWords | stats.py:53-55 | the words kept from one message are its words that the stop text does not contain, in order |
| Stats.CommonWords | stats.py:51-55 | the `common_words` list; its contract is stated by KeepWords, MostCommonWordsFacts and StopTextSubstring |
| Stats.MostCommonWords | stats.py:41-58 | the result is the top 20 of the kept words of the non-placeholder, non-notification messages of the selection |
| Stats.MostCommonWordsFacts | stats.py:51-57 | at most 20 entries, each a non-empty, space-free word that is not in the stop text, with its exact count; distinct and in rank order; nothing omitted outranks an entry |
| Stats.StopTextSubstring | stats.py:54 | with stop text "hai", the word "ha" is dropped although it is not a stop word (finding below) |
| Stats.ListedStopWords | stats.py:54 | with the stop words read as a list, a word is kept iff it is not one of them |
| Stats.EmojisOfSound | stats.py:65-67 | every collected character is in the emoji table and occurs in some message |
| Stats.EmojisOfComplete | stats.py:65-67 | every emoji character of every message is collected |
| Stats.EmojisOf | stats.py:65-67 | the `emojis` list; its contract is stated by EmojisOfSound and EmojisOfComplete |
| Stats.CommonEmojis | stats.py:61-70 | the result is the full ranking of the emoji characters of the selected messages |
| Stats.CommonEmojisFacts | stats.py:65-69 | each entry is an emoji from the messages with its exact count; every emoji used is listed; entries are distinct and in rank order; the counts add up to the number of emoji characters |
| Stats.MostBusyUsersFacts | stats.py:22 | at most five entries, each a sender of some row with its row count; distinct, counts never increase; no sender left out sent more than one listed |
| Stats.MostBusyUsers | stats.py:22 | `value_counts().head(5)` of the senders; its contract is stated by MostBusyUsersFacts |
| Stats.WeekActivity | stats.py:93-98 | `value_counts()` of the weekday names in scope; its contract is stated by ActivityFacts and ParsedActivity |
| Stats.MonthActivity | stats.py:100-105 | `value_counts()` of the month names in scope; its contract is stated by ActivityFacts and ParsedActivity |
| Stats.ActivityFacts | stats.py:93-105 | each weekday or month appears once with its number of rows in scope; counts never increase; every value is listed; the counts add up to the non-null rows |
| Stats.TimedActivity | stats.py:93-105 | when the column is present exactly on the timestamped rows, the counts add up to the timestamped rows in scope, and every key is a valid name |
| Stats.ParsedActivity | stats.py:93-105 | on a parsed chat both maps total the timestamped rows in scope, with weekday names and month names as keys |
| Stats.RecordNames | stats.py:93-105 | a parsed record has a weekday name and a month name exactly when it has a timestamp |
| Counting.Count | stats.py:57 | a value is counted at least once iff it occurs |
| Counting.Distinct | main.py:34 | `unique()` lists each value of the column exactly once, and nothing else |
| Counting.TallyFacts | stats.py:57 | the tally pairs every distinct value with its count, once each |
| Counting.RankedFacts | stats.py:57 | the ranking lists every distinct value once with its count, sorted by count and then by first appearance |
| Counting.MostCommon | stats.py:57 | `Counter.most_common(n)`; its contract is stated by MostCommonEntries, MostCommonOrdered, MostCommonOmitted, MostCommonTotal and MostCommonCovers |
| Counting.MostCommonEntries | stats.py:57 | `most_common(n)` has min(n, number of distinct values) entries, each a value with its exact count |
| Counting.MostCommonOrdered | stats.py:57 | entries are distinct, counts never increase, and ties follow first appearance |
| Counting.MostCommonOmitted | stats.py:57 | every value left out ranks behind every value listed |
| Counting.MostCommonTotal | stats.py:69 | unlimited, the counts add up to the length of the input |
| Counting.MostCommonCovers | stats.py:69 | unlimited, every value of the input is listed |
| Sorting.Sort | main.py:37 | the sort is a permutation |
| Sorting.SortSorted | main.py:37 | under a strict total order, a list without duplicates comes out sorted |
| Selector.StrOrderTotal | main.py:37 | Python string comparison is a strict total order |
| Selector.RemoveFirst | main.py:36 | `remove` takes out one occurrence and nothing else |
| Selector.RemoveFirstDistinct | main.py:35-36 | from a duplicate-free list, `remove` leaves exactly the other values, still without duplicates |
| Selector.UserOptions | main.py:34-38 | "Group" comes first; the rest are strictly ascending and are exactly the distinct non-null senders other than `group_notification` |

## Left out

- The Streamlit interface, the file upload and its UTF-8 decoding, and every plot are not modelled. `preprocess` starts from the decoded text.
- Reading `stop_hinglish.txt` is left out. Its text is the `stopText` parameter.
- The `emoji` package is left out. Its table (`EMOJI_DATA`) is the `emoji` parameter, a set of strings. Only single-character keys can match, because the source tests one character at a time.
- `monthly_timeline`, `daily_timeline`, `activity_heatmap` and `words` (the word cloud) are left out, together with the plots they feed.
- Stats.MostBusyUsersFacts: covers the counts of `value_counts().head()` only. The percentage table of stats.py:23 is floating-point arithmetic and is not modelled.
- Stats.ActivityFacts: `value_counts` leaves its tie order to pandas. The model ranks ties by first appearance, and the contracts claim only counts and non-increasing order.
- Stats.MostBusyUsersFacts: the same caveat about tie order applies.
- Preprocessor.PeriodColumn: pandas keeps an hour column with nulls as floats. There the labels read "9.0-10.0" instead of "9-10". The model gives every row the integer label, and "nan-nan" for a null hour.
- Text.Lower: only ASCII letters are lowercased. Python's `lower` also folds non-ASCII letters. Placeholders and stop words are ASCII, but a non-ASCII word is counted as written.
- Text.IsDigit: `\d` and `%d` are modelled as ASCII digits. Python also accepts other Unicode decimal digits there.
- Preprocessor.ParseTimestamp: the `%S` field also admits 60 and 61. pandas may carry such a second into the next minute; the model returns a null timestamp for it.
- The AM/PM names are those of the English/C locale. `strptime` under another locale is not modelled.
- `astype(str)` and the `dropna` on sender names in main.py are modelled as the non-null senders, because every non-null sender is already a string.
- In-place list updates (`remove`, `sort`, `insert` in main.py:35-38) are modelled as reassignments of a local sequence in `Selector.UserOptions`. Nothing else holds the list, so aliasing does not arise.
- A line without a `: ` separator, such as `Team Alfaaz changed the group name`, is not rewritten. preprocessor.py:27 leaves its sender null, and the rewrite at line 30 only touches an extracted sender. The model follows the code.

## Findings

| source | as written | input that shows it | evidently intended | confidence | as-written member | corrected member |
|---|---|---|---|---|---|---|
| stats.py:54 | `word not in stop_words` with `stop_words` the whole file text: a substring test | stop text `hai` and the message `ha`: "ha" is dropped although "hai" is the only stop word | drop a word only when it is one of the listed stop words | medium, not executed | Stats.StopTextSubstring | Stats.ListedStopWords |

`Stats.MostCommonWords` keeps the substring test, because that is what the
program computes. `Stats.ListedCommonWords` is the corrected list, and
`Stats.ListedStopWords` states its property.
