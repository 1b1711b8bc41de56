# Logging core of im-dot-net, modelled in Dafny

This project models the logging layer of `ImDotNet.Core`. It covers three parts.

**Level parsing** (`LevelParser`, module `Levels`). Text is first tried as a
32-bit integer the way `int.TryParse` with `NumberStyles.Integer` and the
invariant culture reads it: number white space around it and one leading sign
are allowed, and the value must fit in 32 bits. An integer is bucketed into one
of six levels. Any other text is trimmed, upper-cased and matched against the
six level names. Anything that is neither throws an error whose message lists
the accepted names and codes. `Resolve` substitutes a fallback for null or blank
text. The .NET string and number routines this relies on are written out in the
modules `Text` and `Numbers`.

**The in-memory GUI sink** (`GuiAppender` and `LogEntry`, module `Appenders`).
A log4net event becomes a `LogEntry` datatype:

- its level is mapped onto the six levels;
- the logger name defaults to `"root"`;
- the rendered text loses its trailing CR/LF characters;
- the line number is parsed, or left null.

The entry is added to the back of the appender's queue, which is a
`seq<LogEntry>` field of an `Appender` object.

**The configuration state machine** (the static class `Logger`, module
`Logging`). The static fields become the fields of one `Logger` object, and
log4net's repository becomes a `Hierarchy` object. Every appender is an
`Appender` object with a kind (console, rolling file, GUI, buffering forwarder),
a threshold, a layout, the appenders attached to it and an open/closed flag.
Appenders are shared and mutated in place.

- `Setup` rebuilds the topology.
- `SetupGui` installs the one GUI sink and rebuilds.
- `SetLevel` re-levels every enumerated appender in place.
- `Shutdown` closes and removes the installed forwarder but keeps the preserved
  sinks on the list.
- `Get` configures lazily and names the logger.

log4net closes what it removes. `Root.RemoveAllAppenders` closes each appender
it detaches. `Hierarchy.Shutdown` first closes the forwarders, then removes all
root appenders. A closed buffering forwarder closes and detaches the appenders
attached to it. A closed appender drops every later event. So the preserved GUI
sink is closed by every rebuild after the first and by `Shutdown`, and it is
re-attached closed (see "Findings").

The invariant `Logger.Valid` holds between any two operations. It says:

- configured implies a repository, and a repository implies a layout;
- the preserved sinks are exactly the GUI sink once it exists;
- the root holds nothing while unconfigured, and one open buffering forwarder
  while configured;
- that forwarder's children are console, rolling file and the preserved sinks,
  in that order.

Because of this invariant, the `_layout ?? BuildLayout()` fallbacks in
`SetupGui` and `SetLevel` can never fire. The model uses `layout` directly and
proves it is non-null there.

Four client scenarios are proved as methods:

- after `Shutdown` and `Setup`, the GUI sink is attached again but closed, and a FATAL event does not reach it;
- with the sinks detached before the forwarder is closed, the same restart leaves the GUI sink open;
- a DEBUG event is dropped at INFO and delivered after `SetLevel(DEBUG)`;
- the level given to `SetupGui` is overwritten by the rebuild.

The code buckets integers exactly. Any integer of 50 or more is CRITICAL, and
40, 30, 20 and 10 are the named levels. Every other integer, 45 or 15 for
instance, is NOTSET. It is not clamped to the nearest lower threshold. The
model follows the code (`Levels.FromCode`, `Levels.ParseIntegerBuckets`).

## Model

| member | source | states |
|---|---|---|
| Text.TrimEnd | src/ImDotNet.Core/Logging/GuiAppender.cs:19 | `TrimEnd(chars)`: the result is a prefix of the input, it does not end in a dropped character, and everything cut off is a dropped character |
| Text.TrimStart | src/ImDotNet.Core/Logging/Level.cs:35 | the leading half of `Trim`: the result is a suffix of the input, it does not start with a dropped character, and everything cut off is a dropped character |
| Text.TrimEndUnique | src/ImDotNet.Core/Logging/GuiAppender.cs:19 | any prefix meeting those three conditions is the `TrimEnd` result, so they pin the result down |
| Text.TrimStartUnique | src/ImDotNet.Core/Logging/Level.cs:35 | any suffix meeting the mirrored conditions is the `TrimStart` result |
| Text.TrimEndIdempotent | src/ImDotNet.Core/Logging/GuiAppender.cs:19 | trimming twice equals trimming once |
| Text.TrimBothPadded | src/ImDotNet.Core/Logging/Level.cs:35 | trimming both ends of padding + word + padding gives the word back |
| Text.TrimBothKeeps | src/ImDotNet.Core/Logging/Level.cs:22 | a character that is not dropped survives both trims, at the shifted index |
| Text.ToUpperChar | src/ImDotNet.Core/Logging/Level.cs:35 | invariant upper-casing yields an ASCII capital only from an ASCII letter or U+017F; U+0131 stays as it is |
| Text.ToUpperInvariant | src/ImDotNet.Core/Logging/Level.cs:35 | `ToUpperInvariant` keeps the length and upper-cases character by character |
| Numbers.ParseInt32 | src/ImDotNet.Core/Logging/Level.cs:22 | `int.TryParse` succeeds only with a value in the 32-bit range |
| Numbers.ParseSigned | src/ImDotNet.Core/Logging/Level.cs:22 | one optional leading '+' or '-', then the magnitude; a result is always 32-bit |
| Numbers.ParseMagnitude | src/ImDotNet.Core/Logging/Level.cs:22 | one or more digits whose signed value fits in 32 bits, otherwise no number |
| Numbers.DigitsValueOfDigits | src/ImDotNet.Core/Logging/Level.cs:22 | the value of a natural number's decimal digits is that number |
| Numbers.DecimalRoundTrip | src/ImDotNet.Core/Logging/Level.cs:22 | every 32-bit integer written in decimal parses back to itself |
| Numbers.StripUnpadded | src/ImDotNet.Core/Logging/Level.cs:22 | text without white space at either end is not changed by stripping |
| Numbers.Padded | src/ImDotNet.Core/Logging/Level.cs:22 | number white space on either side of a numeral does not change the parse |
| Numbers.PlusSign | src/ImDotNet.Core/Logging/Level.cs:22 | a leading '+' does not change the parse of a string of digits |
| Numbers.ForeignCharFails | src/ImDotNet.Core/Logging/Level.cs:22 | a character that is not a digit, a sign or number white space makes the parse fail, wherever it is |
| Numbers.TooLargeFails | src/ImDotNet.Core/Logging/Level.cs:22 | eleven or more digits with a non-zero lead overflow 32 bits and fail |
| Numbers.OutOfRangeFails | src/ImDotNet.Core/Logging/Level.cs:22 | `"99999999999"` fails to parse |
| Levels.FromCode | src/ImDotNet.Core/Logging/Level.cs:24-32 | CRITICAL exactly for n >= 50; any other named result has code n; NOTSET exactly when no other level has code n |
| Levels.FromName | src/ImDotNet.Core/Logging/Level.cs:35-42 | a match is the level whose name is the text; no match means no level has that name |
| Levels.Parse | src/ImDotNet.Core/Logging/Level.cs:20-46 | an integer always succeeds; it fails exactly when the text is no integer and its trimmed upper-cased form is no level name; the failure carries the listed message; a name match returns the named level |
| Levels.Resolve | src/ImDotNet.Core/Logging/Level.cs:17-18 | null, empty or white-space-only text parses the fallback; other text parses itself |
| Levels.CodesAndNamesDistinct | src/ImDotNet.Core/Logging/Level.cs:5-13 | distinct levels have distinct codes and distinct names |
| Levels.FromCodeBounds | src/ImDotNet.Core/Logging/Level.cs:24-32 | bucketing never raises a non-negative number, and a level's own code buckets back to it |
| Levels.ParseIntegerBuckets | src/ImDotNet.Core/Logging/Level.cs:22-33 | integer text: >= 50 gives CRITICAL, 40/30/20/10 the named level, every other integer NOTSET, never an error |
| Levels.NormalizePadded | src/ImDotNet.Core/Logging/Level.cs:35 | white space around a word is invisible to the name branch |
| Levels.SpelledNameIsNotNumeral | src/ImDotNet.Core/Logging/Level.cs:22 | a level name in any case, with any padding, is not an integer |
| Levels.SpelledNameNormalizes | src/ImDotNet.Core/Logging/Level.cs:35 | a level name in any case, padded with white space, normalises to the name |
| Levels.ParseNameAnyCase | src/ImDotNet.Core/Logging/Level.cs:35-42 | any casing of a level name, with any white-space padding, parses to that level |
| Levels.NameRoundTrip | src/ImDotNet.Core/Logging/Level.cs:35-42 | `Parse(l.ToString()) == l` for all six levels |
| Levels.CodeRoundTrip | src/ImDotNet.Core/Logging/Level.cs:22-33 | `Parse(((int)l).ToString()) == l` for all six levels |
| Levels.PaddedLowerCaseWarning | src/ImDotNet.Core/Logging/Level.cs:35-39 | `"  warning "` is WARNING |
| Levels.AbbreviationFails | src/ImDotNet.Core/Logging/Level.cs:43-44 | `"WARN"` throws, with the message for that text |
| Levels.OverflowFails | src/ImDotNet.Core/Logging/Level.cs:43-44 | a numeral of eleven or more digits (`"99999999999"`) is neither an integer nor a name and throws |
| Levels.MessageListsChoices | src/ImDotNet.Core/Logging/Level.cs:43-44 | the error message contains every level's name and every level's code |
| Levels.ChoicesListLevel | src/ImDotNet.Core/Logging/Level.cs:44 | the list of choices contains each name and each code |
| Levels.NameBranch | src/ImDotNet.Core/Logging/Level.cs:35-42 | text that is no integer and normalises to a level's name parses to that level |
| Levels.WarnIsNoName | src/ImDotNet.Core/Logging/Level.cs:35-42 | `"WARN"` upper-cases to none of the six names |
| Levels.NameCapitals | src/ImDotNet.Core/Logging/Level.cs:35 | every level name is spelled in ASCII capitals |
| Levels.UpperFixed | src/ImDotNet.Core/Logging/Level.cs:35 | text made of ASCII capitals is its own invariant upper-casing |
| Levels.DotlessInfoFails | src/ImDotNet.Core/Logging/Level.cs:35-44 | `"\u0131nfo"` (Turkish dotless i) is not INFO under invariant upper-casing and throws, with the message for that text |
| Levels.DotlessIsNoName | src/ImDotNet.Core/Logging/Level.cs:35 | `"\u0131nfo"` upper-cases to none of the six names |
| Appenders.MapLevel | src/ImDotNet.Core/Logging/GuiAppender.cs:28-33 | Fatal to CRITICAL, Error to ERROR, Warn to WARNING, Info to INFO and Debug to DEBUG, each in both directions; NOTSET exactly for a severity equal to none of the five named ones |
| Appenders.ToEntry | src/ImDotNet.Core/Logging/GuiAppender.cs:15-24 | the entry's fields (see below) |
| Appenders.Appender.Append | src/ImDotNet.Core/Logging/GuiAppender.cs:12-26 | the queue grows by exactly the event's entry at the back; earlier entries and their order are kept |
| Appenders.Appender.DoAppend | src/ImDotNet.Core/Logging/GuiAppender.cs:12-26 | log4net calls `Append` only when the appender is open and the event is at least as severe as the threshold; otherwise the queue is unchanged |
| Appenders.Appender.Close | src/ImDotNet.Core/Logging/Logger.cs:34 | the appender is closed; closing an open forwarder closes every appender attached to it and detaches them all; closing a closed appender changes nothing |
| Appenders.Appender.AddAppender | src/ImDotNet.Core/Logging/Logger.cs:58-59 | attaching to a forwarder appends the appender unless it is already attached |
| Appenders.Appender.RemoveAppender | src/ImDotNet.Core/Logging/Logger.cs:58-59 | the counterpart of `AddAppender`: the forwarder's children lose every occurrence of the appender, which is not closed |
| Appenders.Without | src/ImDotNet.Core/Logging/Logger.cs:58-59 | the list keeps exactly the elements other than the one removed |
| Appenders.MessageTrimmed | src/ImDotNet.Core/Logging/GuiAppender.cs:19 | trimming an entry's message again changes nothing |
| Appenders.HelloEntry | src/ImDotNet.Core/Logging/GuiAppender.cs:17-19 | a WARN event rendered as `"hello\r\n"` gives a WARNING entry with message `"hello"` |
| Appenders.UnknownLineIsNull | src/ImDotNet.Core/Logging/GuiAppender.cs:23 | the line number `"?"` gives a null line and no error |
| Appenders.ParseLine | src/ImDotNet.Core/Logging/GuiAppender.cs:23 | a null line number gives no line; a parsed line fits in 32 bits |
| Appenders.LineRoundTrip | src/ImDotNet.Core/Logging/GuiAppender.cs:23 | every 32-bit line number written in decimal parses back to itself |
| Logging.ToLog4Level | src/ImDotNet.Core/Logging/Logger.cs:238-246 | `MapLevel(ToLog4Level(l)) == l` for every level; NOTSET goes to All and comes back |
| Logging.Category | src/ImDotNet.Core/Logging/Logger.cs:117 | the category starts with the application name; it is exactly that name when the name asked for is null or blank, and otherwise continues with "." and the name |
| Logging.ToLog4LevelInjective | src/ImDotNet.Core/Logging/Logger.cs:238-246 | levels that log4net cannot tell apart come from the same level |
| Logging.ThresholdOrder | src/ImDotNet.Core/Logging/Logger.cs:149 | a threshold set from level t passes an event of level e exactly when e is at least t |
| Logging.Hierarchy.RemoveAllAppenders | src/ImDotNet.Core/Logging/Logger.cs:34 | the root holds no appender; every appender it held is closed; a lone open forwarder ends with no children, and everything that was attached to it is closed |
| Logging.Hierarchy.AddAppender | src/ImDotNet.Core/Logging/Logger.cs:62 | the root gains the appender at the back unless it already holds it |
| Logging.Hierarchy.Shutdown | src/ImDotNet.Core/Logging/Logger.cs:92 | the root holds no appender; every appender it held is closed; a lone open forwarder ends with no children, and everything that was attached to it is closed |
| Logging.CloseEach | src/ImDotNet.Core/Logging/Logger.cs:92 | every selected appender of the list is closed (all of them, or only the forwarders); a lone open forwarder's former children are all closed and it has none left; closed stays closed |
| Logging.Collected | src/ImDotNet.Core/Logging/Logger.cs:126 | the repository's appenders include every root appender and everything attached to a root forwarder |
| Logging.Enumerated | src/ImDotNet.Core/Logging/Logger.cs:126-142 | the enumeration visits every appender it is given |
| Logging.EnumeratedLeaves | src/ImDotNet.Core/Logging/Logger.cs:137-141 | appenders that forward to nobody are enumerated once each, in order |
| Logging.Logger.EnumerationOfInstalled | src/ImDotNet.Core/Logging/Logger.cs:123-143 | with the forwarder installed, the enumeration is the forwarder, its children, then its children again |
| Logging.RemoveKind | src/ImDotNet.Core/Logging/Logger.cs:79 | `RemoveAll(s => s is GuiAppender)` keeps exactly the appenders of other kinds |
| Logging.RemoveKindAll | src/ImDotNet.Core/Logging/Logger.cs:79 | a list made only of GUI appenders is emptied |
| Logging.TrySetAppenderLevelAndLayout | src/ImDotNet.Core/Logging/Logger.cs:145-153 | the appender's threshold is `ToLog4Level(level)` and its layout is the given one; nothing else changes |
| Logging.BuildLayout | src/ImDotNet.Core/Logging/Logger.cs:155-160 | a new layout with the fixed pattern |
| Logging.AddPreserved | src/ImDotNet.Core/Logging/Logger.cs:42-46 | the rebuilt list is the new appenders then the sinks, each sink re-levelled; their queues and children are unchanged |
| Logging.BuildForwarder | src/ImDotNet.Core/Logging/Logger.cs:49-60 | a new forwarder named "BufferingAppender" with exactly the given appenders attached, in order |
| Logging.BuildTopology | src/ImDotNet.Core/Logging/Logger.cs:36-60 | new console and rolling file appenders, then the sinks, all at the level's threshold with the layout, under a new forwarder |
| Logging.Relevel | src/ImDotNet.Core/Logging/Logger.cs:105-106 | every listed appender, duplicates included, ends with the threshold and layout; nothing else about them changes |
| Logging.Logger.constructor | src/ImDotNet.Core/Logging/Logger.cs:15-23 | unconfigured, level ERROR, no repository, no layout, no sinks, no GUI sink |
| Logging.Logger.EnumerateAllAppenders | src/ImDotNet.Core/Logging/Logger.cs:123-143 | nothing without a repository; otherwise every root appender and every appender attached to a buffering forwarder at the root |
| Logging.Logger.Setup | src/ImDotNet.Core/Logging/Logger.cs:27-67 | the result of `Setup`, including what it closes (see below) |
| Logging.Logger.SetupGui | src/ImDotNet.Core/Logging/Logger.cs:69-86 | the two cases of `SetupGui`, including the closing of the sink it returns (see below) |
| Logging.Logger.Shutdown | src/ImDotNet.Core/Logging/Logger.cs:88-95 | unconfigured, and the root holds no appender; the old forwarder and everything attached to it are closed; a preserved sink ends closed exactly when it was closed or was attached to that forwarder; the sinks, the level and the layout are kept |
| Logging.Logger.RemoveInstalled | src/ImDotNet.Core/Logging/Logger.cs:33-34 | the root is emptied; the old forwarder and its children are closed; a preserved sink ends closed exactly when it was closed or attached to that forwarder |
| Logging.Logger.Install | src/ImDotNet.Core/Logging/Logger.cs:36-64 | the rebuilt topology is installed: one new open forwarder over new open console and rolling file appenders and the sinks, all at the level, and the invariant holds |
| Logging.Logger.PreserveGui | src/ImDotNet.Core/Logging/Logger.cs:76-80 | the GUI sink, created once and the same object afterwards, gets the level and layout and is the only preserved sink |
| Logging.Logger.DetachSinks | src/ImDotNet.Core/Logging/Logger.cs:34 | the preserved sinks are no longer attached to the installed forwarder, and its other appenders stay |
| Logging.Logger.SetupKeepingSinks | src/ImDotNet.Core/Logging/Logger.cs:27-67 | `Setup` with the sinks detached first: configured at the level with a new layout and root level `ToLog4Level(level)`; one new open forwarder over a new open console appender, a new open rolling file appender and the sinks, all carrying the level and layout; the old forwarder is closed with no children, and every other appender that was attached to it is closed; every preserved sink ends open or closed exactly as before, with its queue unchanged |
| Logging.Logger.ShutdownKeepingSinks | src/ImDotNet.Core/Logging/Logger.cs:88-95 | `Shutdown` with the sinks detached first: unconfigured, root empty; the old forwarder is closed with no children, and every other appender that was attached to it is closed; every preserved sink open or closed exactly as before |
| Logging.Logger.SetLevel | src/ImDotNet.Core/Logging/Logger.cs:97-108 | the effect of `SetLevel` (see below) |
| Logging.Logger.Get | src/ImDotNet.Core/Logging/Logger.cs:112-119 | configured state and category of `Get` (see below) |
| Logging.Logger.GetForType | src/ImDotNet.Core/Logging/Logger.cs:111-119 | the category uses the type's full name, or its short name when that is null; the state changes exactly as for `Get` (see below) |
| Logging.ConfiguredAt | src/ImDotNet.Core/Logging/Logger.cs:27-67 | a new logger after `Setup(level)` is configured at that level under one new forwarder, with no GUI sink yet |
| Logging.GuiClosedByRestart | src/ImDotNet.Core/Logging/Logger.cs:88-95 | after `Setup(INFO)`, `SetupGui(INFO)`, `Shutdown()` and `Setup(INFO)`, the GUI sink is attached again, and a FATAL event leaves its queue empty |
| Logging.GuiAfterShutdownKeepingSinks | src/ImDotNet.Core/Logging/Logger.cs:88-95 | shutting down with the sinks detached leaves the GUI sink preserved, open and with an empty queue |
| Logging.GuiSurvivesRestart | src/ImDotNet.Core/Logging/Logger.cs:88-95 | with the sinks detached before each close, the same restart delivers a FATAL event to the GUI sink |
| Logging.DebugPassesAfterSetLevel | src/ImDotNet.Core/Logging/Logger.cs:97-107 | a DEBUG event is dropped by the GUI sink after `Setup(INFO)` and `SetupGui`, and delivered after `SetLevel(DEBUG)` |
| Logging.SetupGuiLevelOverwritten | src/ImDotNet.Core/Logging/Logger.cs:77-83 | after `Setup(ERROR)`, `SetupGui(WARNING)` leaves the GUI sink at Error, so a WARN event is dropped |

`Appenders.Appender.RemoveAppender` and `Appenders.Without` model log4net's `RemoveAppender`, which the program itself never calls. Only the corrected variants (`DetachSinks` and the `KeepingSinks` operations) use them.

Details for the rows marked "see below":

- **Appenders.ToEntry**:
  - the level is `MapLevel` of the event's level;
  - the logger is the event's logger name, or "root";
  - a rendered text becomes a prefix of itself that does not end in CR or LF, and only CR/LF characters are cut;
  - without a rendered text, the message is the raw message or "";
  - the line is set exactly when a line string exists and parses, and then it is that integer;
  - time, exception, thread and file are copied through.
- **Logging.Logger.Setup**:
  - the logger is configured at the level, with a new layout;
  - the root level is `ToLog4Level(level)`;
  - the root holds exactly one new forwarder;
  - the forwarder's children are a new console appender, a new rolling file appender, then the preserved sinks;
  - every child has the threshold and the layout;
  - the new forwarder, console appender and rolling file appender are open;
  - when configured before, the old forwarder is closed and has no children, and everything that was attached to it is closed;
  - a preserved sink ends closed exactly when it was closed or was attached to the old forwarder;
  - the sinks themselves and their queues are unchanged.
- **Logging.Logger.SetupGui**:
  - when unconfigured, it fails with the message and changes nothing;
  - otherwise it returns the one GUI sink, which is created once and is the same object on every later call;
  - its queue is kept, and it is the only preserved sink;
  - it is attached under a new forwarder, beside a new open console appender and a new open rolling file appender;
  - its threshold is that of the current level, not of the argument, and the current level is unchanged;
  - the rebuild closes the old forwarder and everything attached to it, so the returned sink is closed exactly when it existed before the call.
- **Logging.Logger.SetLevel**:
  - the current level is set;
  - without a repository, the root level is unchanged and nothing is enumerated;
  - otherwise the root level and every enumerated appender, the forwarder and all its children included, get the level's threshold and the layout;
  - the forwarder's children and the sinks' queues are unchanged.
- **Logging.Logger.Get** and **Logging.Logger.GetForType**:
  - when configured, nothing changes;
  - the sinks stay open or closed as they were;
  - otherwise it behaves as `Setup(ERROR)`, whatever level was set before;
  - the category is the application name for a null or blank name, and the application name, ".", then the name otherwise.

## Left out

- Numbers.ParseInt32: .NET also accepts trailing NUL characters after a numeral. The model does not, so text ending in U+0000 parses in .NET but not here.
- Appenders.ToEntry: the line number is parsed here like the integer branch of `Parse`, under the invariant culture. `int.TryParse(string)` uses the current culture, which can allow other sign symbols.
- Text.ToUpperChar: only ASCII letters and U+017F are upper-cased. Other characters stay as they are. None of the characters left out upper-cases to an ASCII letter, so none of them can turn text into a level name.
- Appenders.Appender.Close: closing reaches one level down. A forwarder attached to a closed forwarder is marked closed, but its own children are neither closed nor detached. `Setup` never builds such nesting.
- Closing a buffering forwarder also flushes its buffer to its children before closing them. The buffer is not modelled, so neither is the flush.
- Logging.Collected: log4net's `GetAppenders` walks every logger and all nesting depths, and drops repeats. The model walks the root and one level of forwarding. That is the same list for every topology `Setup` builds: only the root logger holds appenders, the children never forward, and the forwarder's children are distinct.
- The default arguments of `Setup(level = ERROR)`, `SetupGui(level = ERROR)` and `Get(name = null)` (src/ImDotNet.Core/Logging/Logger.cs:27, 69, 112) are made explicit: every operation takes its argument. A call without one is the call with the default.
- Logging.Logger.Get: the log4net `ILog` returned is reduced to its category name. Logging through it is not modelled.
- Rendering through the layout (`RenderLoggingEvent`) is an input: each event carries the text the layout produced, or none. Pattern formatting is not modelled.
- Appenders.ToEntry: the fallback to the raw message when no rendered text exists models the `??` at src/ImDotNet.Core/Logging/GuiAppender.cs:19, which log4net never reaches. Without a layout `RenderLoggingEvent` throws, `DoAppend` swallows the error, and no entry is queued. The model queues the fallback entry instead.
- The buffering forwarder's buffer and when it forwards it, console output and the rolling file's size-based rolling are log4net internals. `ActivateOptions` is treated as having no effect. The forwarder has no thread of its own, whatever the comment at src/ImDotNet.Core/Logging/Logger.cs:48 says: it forwards on the logging thread.
- The application name and the log directory come from the process name, the entry assembly, the operating system and environment variables. The application name is a constructor argument, and the log path is not modelled.
- Locks, the `ConcurrentQueue`'s thread safety and the unlocked read of `_configured` in `Get` are left out. Operations are sequential.
- Timestamps, exception text, thread and file names are copied through as opaque values.
- An event whose log4net level is null is not modelled. Every event has a level.
- The command-line front end (argument parsing, `--version`, the `check` command) lies outside the logging core.

## Findings

| source | as written | input that shows it | evidently intended | confidence | as-written member | corrected member |
|---|---|---|---|---|---|---|
| src/ImDotNet.Core/Logging/Logger.cs:34, 83, 92 | `Setup` and `Shutdown` close the installed forwarder, which closes the preserved GUI sink attached to it. `Setup` then re-attaches that closed sink, which drops every later event. `SetupGui` rebuilds through `Setup`, so from its second call on it returns the sink closed; its own contract states this as written. The corrected half covers `Setup` and `Shutdown`; a corrected `SetupGui` is not part of the model. | `Setup(INFO)`, `SetupGui(INFO)`, `Shutdown()`, `Setup(INFO)`, then a FATAL event | the preserved sink outlives each rebuild and restart and keeps receiving events | high, not executed | Logging.GuiClosedByRestart | Logging.GuiSurvivesRestart |
