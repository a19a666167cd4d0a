# Access-log parser, modelled in Dafny

This project models the logic of a small Java access-log analyser that works on
combined-format web-server logs. It has three parts:

- **Line-to-record parsing** (`LogEntry`). Every field of an entry is taken from
  the whole line by its own regular expression, and each field has a fallback:
  - client address, or `"Unknown"`;
  - HTTP method, or `UNKNOWN`;
  - path, or `""`;
  - three-digit status, or 0;
  - response size, or 0;
  - the two trailing quoted fields (referer and agent), with `-` read as `""`.

  Each pattern is a `...MatchAt(s, p)` function: does the pattern match at `p`,
  and where is its group. `Matcher.find()` is the generic leftmost search
  `Text.FindFrom`. Greedy quantifiers are maximal runs (`Text.RunEnd`), because
  in these patterns backtracking never turns a failed attempt into a match.
- **Agent classification.**
  - `UserAgent` classifies the browser and the operating system by
    priority-ordered, case-insensitive substring tests.
  - `Main.extractUserAgent` cuts the agent out of a line by splitting it on
    spaces.
  - `Main.extractBotNameFromUserAgent` reads a crawler name from the first
    parenthesised group, then falls back to a substring search.
- **Streaming aggregation.**
  - `Statistics` is a class with the running traffic total, the entry count and
    the earliest and latest entry time. A ghost field keeps the entries added so
    far, and `Valid()` ties every field to it.
  - `Main.processAccessLog` is the per-line loop over a sequence of lines. It
    refuses any line longer than 1024 UTF-16 code units (Java's `length()`)
    and counts the Googlebot and
    YandexBot lines.

Files:

- `text.dfy` (module `Text`): the Java string operations the source relies on,
  each with its own properties. These are `split` (with trailing empty strings
  removed), `trim` (characters up to `' '`), ASCII `toLowerCase`, `contains`
  and `indexOf`, plus maximal runs and the leftmost-match search. Strings are
  sequences of Unicode characters. Java's `length()` counts UTF-16 code units
  and is `Utf16Length` in the 1024-unit line guard. The source's other uses of
  a length or an index (`length() > 1` on a part that starts with `"`, the
  `substring` around a leading and trailing `"`, `indexOf('/')`) sit next to
  ASCII characters, so counting characters instead picks out the same text.
- `user_agent.dfy` (`UserAgents`), `log_entry.dfy` (`LogEntries`),
  `statistics.dfy` (`Stats`) and `access_log.dfy` (`AccessLog`): one module per
  source class. `AccessLog` models `Main`.

The entry time is an integer number of seconds supplied by the caller. The
lines of the log file are a `seq<string>` parameter.

`HttpMethod.java` is not part of this model. The method constants are taken to
be `GET POST PUT DELETE HEAD OPTIONS PATCH TRACE CONNECT UNKNOWN`.

## Model

| member | source | states |
|---|---|---|
| LogEntries.MethodFromName | src/LogEntry.java:84-88 | `HttpMethod.valueOf` returns the constant with the given name, or `UNKNOWN` when no constant has that name (the caught exception) |
| LogEntries.MethodFromNameUnknown | src/LogEntry.java:84-88 | a name gives `UNKNOWN` if and only if no constant other than `UNKNOWN` has it; any other result is the constant with that name |
| LogEntries.MethodNameRoundTrip | src/LogEntry.java:84-88 | looking up any constant's name gives that constant back |
| LogEntries.ParseIpAddress | src/LogEntry.java:60-67 | the address is `"Unknown"` or a prefix of the line that is a dotted quad, and the greedy last `\d+` leaves no digit right after it |
| LogEntries.ScanIpAddress | src/LogEntry.java:61-64 | a match of `^(\d+\.\d+\.\d+\.\d+)` is a prefix of the line, and it is not followed by another digit |
| LogEntries.ScannedIpIsDottedQuad | src/LogEntry.java:61-64 | the matched prefix is four non-empty digit runs separated by exactly three dots |
| LogEntries.DottedQuadPrefixScanned | src/LogEntry.java:60-67 | a line that starts with a dotted quad always matches, so it never gets the fallback |
| LogEntries.IpAddressFallback | src/LogEntry.java:60-67 | `parseIpAddress` is `"Unknown"` if and only if no prefix of the line is a dotted quad; otherwise it is a dotted-quad prefix of the line not followed by a digit |
| LogEntries.MethodMatchAt | src/LogEntry.java:81 | `"([A-Z]+)` matches exactly where a quote is followed by an uppercase letter; the group starts right after the quote, is non-empty and all uppercase, and is not followed by another uppercase letter |
| LogEntries.MethodToken | src/LogEntry.java:81-83 | the group is absent if and only if no quote is followed by an uppercase letter; otherwise it is the maximal uppercase run after the leftmost such quote |
| LogEntries.ParseMethod | src/LogEntry.java:80-91 | `UNKNOWN` if and only if there is no match or the first match's run names no constant; any other method is the run's name |
| LogEntries.PathMatchAt | src/LogEntry.java:94 | a match of `"[A-Z]+\s+([^\s?]+)` starts at a quote followed by an uppercase letter; its group follows whitespace, after the maximal uppercase run and the maximal whitespace run, and is the maximal run of path characters |
| LogEntries.PathMatchIsToken | src/LogEntry.java:94-97 | the captured path is non-empty, follows whitespace, runs as far as it can, and has neither whitespace nor `?` |
| LogEntries.FirstPath | src/LogEntry.java:95-96 | the leftmost path match, absent if and only if the pattern matches nowhere |
| LogEntries.ParsePath | src/LogEntry.java:93-100 | `""` if and only if the pattern matches nowhere; otherwise the group of the leftmost match, a maximal token of non-whitespace, non-`?` characters right after whitespace (the query string is excluded) |
| LogEntries.MethodAtFirstQuote | src/LogEntry.java:80-91 | the method token comes from the leftmost quote followed by an uppercase letter |
| LogEntries.PathAtFirstQuote | src/LogEntry.java:93-100 | the path comes from that same quote when a path follows it there |
| LogEntries.MethodAndPathFromSameRequest | src/LogEntry.java:80-100 | for a well-formed request, the method and the path are taken from the same request |
| LogEntries.DigitsValue | src/LogEntry.java:107 | the value of a string of n digits is below 10^n |
| LogEntries.ThreeDigitsRoundTrip | src/LogEntry.java:103-107 | reading back the three-digit spelling of any code below 1000 gives that code |
| LogEntries.PathMatchAtComplete | src/LogEntry.java:94 | conversely, the path pattern matches at every quote followed by uppercase letters, whitespace and a path character, and its group starts at that path character |
| LogEntries.StatusMatchAt | src/LogEntry.java:103 | a match of `"\s+(\d{3})\s+` is a quote, at least one whitespace, exactly three digits and then whitespace |
| LogEntries.StatusMatchAtComplete | src/LogEntry.java:103 | conversely, the status pattern matches at every quote followed by whitespace, three digits and whitespace, capturing exactly those digits |
| LogEntries.FirstStatus | src/LogEntry.java:104-105 | the leftmost status match, absent if and only if the pattern matches nowhere |
| LogEntries.ParseResponseCode | src/LogEntry.java:102-113 | never fails, and is at most 999; 0 when there is no match, otherwise the value of the three digits of the leftmost match |
| LogEntries.SizeMatchAt | src/LogEntry.java:116 | a match of `\s+(\d+)\s+"` is whitespace, a maximal non-empty digit run, whitespace and then a quote |
| LogEntries.SizeMatchAtComplete | src/LogEntry.java:116 | conversely, the size pattern matches at every whitespace run followed by digits, whitespace and a quote, capturing exactly those digits |
| LogEntries.FirstSize | src/LogEntry.java:117-118 | the leftmost size match, absent if and only if the pattern matches nowhere |
| LogEntries.ParseResponseSize | src/LogEntry.java:115-128 | never negative and at most `Integer.MAX_VALUE`; 0 when there is no match or the digit run exceeds the `int` range, otherwise the run's value |
| LogEntries.TailMatchAt | src/LogEntry.java:131 | a match of `"([^"]*)"\s+"([^"]*)"$` means the line ends in two quoted fields without quotes, separated by whitespace |
| LogEntries.DashAsEmpty | src/LogEntry.java:135 | the field is read as empty exactly when it is empty or a lone `-`; otherwise it is kept as it is |
| LogEntries.QuotedTail | src/LogEntry.java:131-133 | the leftmost match describes two quote-free trailing quoted fields |
| LogEntries.FieldWithoutQuote | src/LogEntry.java:134-135 | a quote-free field stays quote-free when `-` is read as `""` |
| LogEntries.ParseReferer | src/LogEntry.java:130-138 | the referer never contains a quote |
| LogEntries.ParseUserAgentString | src/LogEntry.java:140-148 | the agent string never contains a quote |
| LogEntries.QuotedTailUnique | src/LogEntry.java:131 | a line ends in two quoted fields in at most one way |
| LogEntries.TailMatchesAtOpeningQuote | src/LogEntry.java:131 | the pattern matches at the opening quote of the two trailing fields |
| LogEntries.TrailingFieldsExtracted | src/LogEntry.java:130-148 | when the line ends in two quoted fields, the referer and the agent string are exactly those fields, with `-` read as `""` |
| LogEntries.TrailingFieldsMissing | src/LogEntry.java:130-148 | when the line does not end in two quoted fields, both are `""` |
| LogEntries.TrailingFieldsRoundTrip | src/LogEntry.java:130-148 | building a line from any prefix, two quote-free fields and whitespace between them, then parsing it, gives the fields back |
| LogEntries.ParseLogEntry | src/LogEntry.java:17-26 | the record's status is within 0..999, its size within the `int` range and its referer quote-free; the agent classification comes from the extracted agent string, never from the raw line; the time is the supplied one |
| UserAgents.BrowserOfLower | src/UserAgent.java:28-48 | the chain never answers `Unknown`; `edge` or `edg/` always gives Edge, whatever else occurs; Chrome needs `chrome` and no `chromium`; Safari needs `safari` and no `chrome` |
| UserAgents.ParseBrowser | src/UserAgent.java:21-49 | `Unknown` if and only if the agent string is empty |
| UserAgents.OperatingSystemOfLower | src/UserAgent.java:58-69 | any of the Windows tokens gives Windows; Linux only when `linux` occurs and `android` does not; Android only when `android` occurs |
| UserAgents.ParseOperatingSystem | src/UserAgent.java:51-54 | an empty agent string gives `Unknown` |
| UserAgents.ParseUserAgent | src/UserAgent.java:8-11 | an empty agent string gives browser and system `Unknown`; the browser is `Unknown` only for the empty string |
| UserAgents.YandexInYandexBot | src/UserAgent.java:38-45 | every string containing `yandexbot` contains `yandex` |
| UserAgents.YandexBotUnreachable | src/UserAgent.java:44-45 | no agent string is classified as browser `YandexBot` |
| UserAgents.ClassificationIgnoresCase | src/UserAgent.java:21-71 | two strings with the same lower-case form are classified alike |
| UserAgents.UnrecognisedAgent | src/UserAgent.java:46-69 | a non-empty string with none of the recognised tokens is browser Other and system Unknown |
| Stats.MinMaxBounds | src/Statistics.java:23-29 | the running minimum and maximum of the times are among the times, and bound every one of them |
| Stats.MinMaxOrderIndependent | src/Statistics.java:23-29 | the earliest and latest time do not depend on the order in which the entries arrive |
| Stats.MinLeMax | src/Statistics.java:23-29 | the earliest time never exceeds the latest |
| Stats.TotalSizeAppend | src/Statistics.java:18 | one more entry adds exactly its size to the total |
| Stats.BoundsAppend | src/Statistics.java:21-29 | the first entry sets both bounds to its time; a later one widens them to take in its time |
| Stats.HourDivisor | src/Statistics.java:37-43 | the divisor is 1 for a span under an hour, and otherwise the whole hours in the span, truncated |
| Stats.Statistics.constructor | src/Statistics.java:10-15 | a new object has no traffic, no entries and no time bounds, and satisfies the invariant |
| Stats.Statistics.BoundsPresent | src/Statistics.java:23-29 | the bounds are present if and only if some entry was added, and then the minimum is at most the maximum |
| Stats.Statistics.AddEntry | src/Statistics.java:17-30 | keeps the invariant; the count goes up by exactly one; the traffic goes up by exactly the entry's size and never decreases; the first entry sets both bounds, a later one moves them by min/max |
| Stats.Statistics.TrafficRate | src/Statistics.java:32-46 | never negative and never above the traffic; 0 with no entries or equal bounds; otherwise the traffic divided by the hour divisor of the span |
| Stats.RateSpreadsTraffic | src/Statistics.java:37-45 | a non-zero rate times the hour divisor gives the whole traffic back |
| Stats.SubHourRate | src/Statistics.java:40-45 | a span shorter than an hour counts as one hour |
| Text.Utf16Length | src/Main.java:24 | `length()` of a line: never fewer code units than characters and never more than twice as many |
| Text.Utf16LengthBounds | src/Main.java:24 | `length()` counts each character once in the Basic Multilingual Plane and twice above it: it equals the character count exactly when no character lies above U+FFFF, and twice it exactly when all do |
| Text.LowerIdempotent | src/UserAgent.java:26 | lower-casing leaves no uppercase ASCII letter, so lower-casing twice is lower-casing once |
| Text.ContainsLower | src/Main.java:123-127 | a substring stays a substring after lower-casing both strings |
| Text.FindFrom | src/LogEntry.java:63 | `Matcher.find()`: the leftmost position where the pattern matches, absent if and only if it matches nowhere |
| Text.TrimSpec | src/Main.java:82 | `trim` removes exactly the blank prefix and the blank suffix: the result is a slice of the string with only characters up to `' '` before and after it, and it neither starts nor ends with one |
| Text.TrimBlankSuffix | src/Main.java:80-82 | blanks appended to a string disappear in `trim` |
| Text.IndexOf | src/Main.java:107 | `indexOf` of a character that occurs is the position of its first occurrence |
| Text.SplitShape | src/Main.java:71 | `split` without the separator gives the string alone; with it, the pieces between separators with only the empty pieces at the end dropped, so the last part is non-empty |
| Text.SplitNoSeparator | src/Main.java:71 | no part of `split` contains the separator |
| Text.SplitContained | src/Main.java:103 | every part of `split` occurs in the split string |
| Text.JoinPieces | src/Main.java:71 | joining the pieces with the separator rebuilds the string |
| Text.PiecesJoin | src/Main.java:71 | splitting separator-free pieces joined by the separator gives the pieces back |
| AccessLog.LastQuotedTailSpec | src/Main.java:71-91 | the tail is absent if and only if no token starting with a quote and longer than one character starts anywhere; otherwise it is the line from the last such token |
| AccessLog.SplitLastAgent | src/Main.java:71-82 | `split(" ")` keeps every agent token, and the text rebuilt from the last one trims like the line's tail from that token |
| AccessLog.AppendParts | src/Main.java:78-81 | the builder holds parts `i` onwards, each followed by a space, i.e. those parts joined by spaces plus a space |
| AccessLog.StripQuotesSpec | src/Main.java:85-87 | the corrected removal gives the agent itself or the agent without an enclosing pair of quotes, and the pair is removed exactly when the agent has one |
| AccessLog.RemoveQuotes | src/Main.java:85-87 | the quote removal on the trimmed agent is `StripQuotes` |
| AccessLog.StripQuotesRoundTrip | src/Main.java:85-87 | one leading and one trailing quote are removed, and nothing else |
| AccessLog.StripQuotesAsWritten | src/Main.java:85-87 | the code as written throws exactly for the one-character agent `"`, and otherwise agrees with `StripQuotes` |
| AccessLog.QuoteTabLineThrows | src/Main.java:71-87 | the line `"` followed by a tab has an agent token whose trimmed text is `"`, on which the code as written throws |
| AccessLog.AgentOfSpec | src/Main.java:69-92 | no agent if and only if no agent token starts anywhere; otherwise the agent is the line from the last agent token, trimmed and unquoted |
| AccessLog.LastAgentPart | src/Main.java:75-76 | the backward scan stops at the last part that starts with a quote and is longer than one character, or at -1 when there is none |
| AccessLog.ExtractUserAgent | src/Main.java:69-92 | the backward loop over the split parts returns exactly that agent |
| AccessLog.BracketMatchAt | src/Main.java:98 | a match of `\(([^)]+)\)` is a non-empty group without `)` between `(` and `)` |
| AccessLog.BracketMatchAtComplete | src/Main.java:98 | conversely, the bracket pattern matches at every `(` whose next `)` is not right after it, capturing everything in between |
| AccessLog.StructuredBotName | src/Main.java:97-120 | the structured step answers only nothing, `Googlebot` or `YandexBot` |
| AccessLog.StructuredNameOccurs | src/Main.java:101-113 | a name the structured step answers occurs in the agent string |
| AccessLog.FallbackBotName | src/Main.java:123-130 | the fallback answers only nothing, `Googlebot` or `YandexBot` |
| AccessLog.FallbackIgnoresCase | src/Main.java:123-130 | the fallback is a case-insensitive search that looks for yandexbot before googlebot |
| AccessLog.ExtractBotNameSpec | src/Main.java:95-131 | the name is nothing, `Googlebot` or `YandexBot`; it is present if and only if the lower-cased agent contains `googlebot` or `yandexbot`; without a structured name, a mention of yandexbot wins |
| AccessLog.ExtractBotName | src/Main.java:95-131 | the name is nothing, `Googlebot` or `YandexBot` (`ExtractBotNameSpec` gives when each is found) |
| AccessLog.StructuredStepWins | src/Main.java:101-128 | an agent whose first group names Googlebot is counted as Googlebot although it mentions YandexBot, which the fallback alone prefers |
| AccessLog.LineBot | src/Main.java:34-43 | the crawler a line counts for is nothing, `Googlebot` or `YandexBot`, and nothing when the line has no agent |
| AccessLog.CountBot | src/Main.java:34-43 | a crawler is counted on at most as many lines as there are |
| AccessLog.BotCountsBounded | src/Main.java:31-43 | each line counts for at most one crawler: Googlebot lines plus YandexBot lines are at most all lines |
| AccessLog.CountLine | src/Main.java:34-43 | the per-line step raises the counter of the crawler the line's agent names by one, and no other counter |
| AccessLog.ProcessAccessLog | src/Main.java:13-46 | with the quote removal corrected (see Findings): stops if and only if some line is longer than 1024 UTF-16 code units, naming the first such line by its 1-based number and its `length()`; otherwise reports every line and the count of lines for each crawler |

## Left out

- File opening and reading, the console report, the percentage shares computed
  in `double`, `main`'s interactive loop, and the `toString` methods. These are
  I/O and formatting. The lines of the file are a parameter of
  `ProcessAccessLog`.
- `parseTime`. It depends on `java.time` parsing, which throws on a malformed
  time, and on the clock (`LocalDateTime.now()`). The entry time is an integer
  supplied by the caller.
- Unicode: `toLowerCase` is modelled on ASCII letters only, and `\s` as Java's
  ASCII whitespace class.
- LogEntries.TailMatchAt: Java's `$` (without `MULTILINE`) also matches just
  before one final line terminator (`\n`, `\r\n`, `\r`, `\u0085`, `\u2028` or
  `\u2029`); the model anchors at the very end of the line only. On a line that
  ends `"r" "a"` and then `\u2028`, the source gives referer `r` and agent `a`,
  where `ParseReferer` and `ParseUserAgentString` give `""`.
- `HttpMethod.java` is not part of this model; its constants are taken to be the nine request methods listed above plus `UNKNOWN`.
- `LastAgentPart`, `AppendParts`, `RemoveQuotes` and `CountLine` are blocks of `extractUserAgent`
  and `processAccessLog` written as their own methods. The loops stay the
  source's own.
- Stats.Statistics.AddEntry: `entryCount` (an `int`) and `totalTraffic` (a
  `long`) are unbounded integers; their wrap-around is not modelled.
- Stats.Statistics.TrafficRate: the `double` division is real division, with no
  claim about rounding.
- AccessLog.ProcessAccessLog: `totalLines` and the two crawler counters are
  unbounded; the `int` wrap-around after 2^31 lines is not modelled. The
  exception thrown for an over-long line is the `LineTooLong` outcome.
- AccessLog.ExtractUserAgent: on any line whose last agent token, with the rest
  of the line, trims to a lone `"` (a `"` whose next character is a blank other
  than a space, followed only by blanks, such as `1.2.3.4 - - "GET /" 200 5 "` and then a tab), the source
  throws (see Findings); the model returns the corrected agent `"` instead.
- AccessLog.ProcessAccessLog: on such a line the source stops with an uncaught
  `StringIndexOutOfBoundsException`, which the `IOException` handler does not
  take; the model uses the corrected quote removal, counts the line for no
  crawler and goes on, so it reports counts where the source aborts.

## Findings

| source | as written | input that shows it | evidently intended | confidence | as-written member | corrected member |
|---|---|---|---|---|---|---|
| src/Main.java:85-87 | the quotes are removed with `substring(1, length - 1)` whenever the trimmed agent starts and ends with `"`; a one-character agent `"` does both, so `substring(1, 0)` throws `StringIndexOutOfBoundsException`, which `processAccessLog` does not catch | the log line made of `"` and a tab: its only part is an agent token, and the trimmed text is `"` | remove the quotes only when the agent has at least two characters | not executed | AccessLog.StripQuotesAsWritten, AccessLog.QuoteTabLineThrows | AccessLog.StripQuotes, AccessLog.StripQuotesRoundTrip |
