/** The appenders the logging layer wires together, and `GuiAppender`, the
    in-memory sink that turns each logging event into a `LogEntry` and queues it.
    The log4net side is reduced to what the layer touches: an appender's
    threshold, layout and attached children, and a level's numeric value. */
module Appenders {
  import opened Wrappers
  import opened Text
  import opened Levels
  import Numbers

  // ---------- log4net severities ----------

  /** `log4net.Core.Level`: a name and a numeric value. log4net compares levels
      by value alone, so two levels with the same value are the same level. */
  datatype Log4Level = Log4Level(name: string, value: int)

  const Fatal: Log4Level := Log4Level("FATAL", 110000)
  const Error: Log4Level := Log4Level("ERROR", 70000)
  const Warn: Log4Level := Log4Level("WARN", 60000)
  const Info: Log4Level := Log4Level("INFO", 40000)
  const Debug: Log4Level := Log4Level("DEBUG", 30000)
  const All: Log4Level := Log4Level("ALL", Numbers.MinInt32)

  /** log4net's `==` on levels. */
  predicate SameLevel(a: Log4Level, b: Log4Level) {
    a.value == b.value
  }

  /** An appender's threshold check: no threshold lets everything through,
      otherwise the event must be at least as severe. */
  predicate IsAsSevereAsThreshold(threshold: Option<Log4Level>, level: Log4Level) {
    threshold.None? || level.value >= threshold.value.value
  }

  /** `GuiAppender.MapLevel`: the five named log4net severities map to the
      application's levels, and every other severity to NOTSET. */
  function MapLevel(l: Log4Level): (r: Level)
    ensures r == NOTSET <==>
      !SameLevel(l, Fatal) && !SameLevel(l, Error) && !SameLevel(l, Warn) &&
      !SameLevel(l, Info) && !SameLevel(l, Debug)
    ensures r == CRITICAL <==> SameLevel(l, Fatal)
    ensures r == ERROR <==> SameLevel(l, Error)
    ensures r == WARNING <==> SameLevel(l, Warn)
    ensures r == INFO <==> SameLevel(l, Info)
    ensures r == DEBUG <==> SameLevel(l, Debug)
  {
    if SameLevel(l, Fatal) then CRITICAL
    else if SameLevel(l, Error) then ERROR
    else if SameLevel(l, Warn) then WARNING
    else if SameLevel(l, Info) then INFO
    else if SameLevel(l, Debug) then DEBUG
    else NOTSET
  }

  // ---------- events and entries ----------

  /** Where a logging call came from; log4net gives the line number as text. */
  datatype Location = Location(fileName: Option<string>, lineNumber: Option<string>)

  /** A `LoggingEvent` as the appender sees it. `rendered` is what
      `RenderLoggingEvent` returned for it; time, exception text and thread name
      are carried through unchanged. */
  datatype LoggingEvent = LoggingEvent(
    timeStamp: int,
    level: Log4Level,
    loggerName: Option<string>,
    rendered: Option<string>,
    renderedMessage: Option<string>,
    exceptionText: Option<string>,
    threadName: Option<string>,
    location: Option<Location>)

  /** `LogEntry`: one record as the GUI will show it. */
  datatype LogEntry = LogEntry(
    timestamp: int,
    level: Level,
    logger: string,
    message: string,
    exception: Option<string>,
    threadId: Option<string>,
    file: Option<string>,
    line: Option<int>)

  predicate IsLineBreak(c: char) {
    c == '\r' || c == '\n'
  }

  /** `int.TryParse` on a line number that may itself be null: a null line
      number gives no line, and a parsed line fits in 32 bits. */
  function ParseLine(lineNumber: Option<string>): (r: Option<int>)
    ensures lineNumber.None? ==> r.None?
    ensures r.Some? ==> Numbers.IsInt32(r.value)
  {
    match lineNumber
    case None => None
    case Some(s) => Numbers.ParseInt32(s)
  }

  /** The entry `GuiAppender.Append` builds from an event. */
  function ToEntry(ev: LoggingEvent): (e: LogEntry)
    ensures e.level == MapLevel(ev.level)
    ensures e.logger == ev.loggerName.GetOr("root")
    ensures ev.rendered.Some? ==>
      var m := ev.rendered.value;
      e.message <= m &&
      (e.message == [] || !IsLineBreak(e.message[|e.message| - 1])) &&
      forall i | |e.message| <= i < |m| :: IsLineBreak(m[i])
    ensures ev.rendered.None? ==> e.message == ev.renderedMessage.GetOr("")
    ensures e.line.Some? <==>
      ev.location.Some? && ev.location.value.lineNumber.Some? &&
      Numbers.ParseInt32(ev.location.value.lineNumber.value).Some?
    ensures e.line.Some? ==> e.line == Numbers.ParseInt32(ev.location.value.lineNumber.value)
    ensures e.timestamp == ev.timeStamp && e.exception == ev.exceptionText && e.threadId == ev.threadName
    ensures e.file == if ev.location.Some? then ev.location.value.fileName else None
  {
    var message := match ev.rendered
      case Some(m) => TrimEnd(m, IsLineBreak)
      case None => ev.renderedMessage.GetOr("");
    LogEntry(
      ev.timeStamp,
      MapLevel(ev.level),
      ev.loggerName.GetOr("root"),
      message,
      ev.exceptionText,
      ev.threadName,
      if ev.location.Some? then ev.location.value.fileName else None,
      if ev.location.Some? then ParseLine(ev.location.value.lineNumber) else None)
  }

  // ---------- appenders ----------

  /** `s` with every occurrence of `a` taken out. */
  function Without(s: seq<Appender>, a: Appender): (r: seq<Appender>)
    ensures forall x | x in r :: x in s && x != a
    ensures forall x | x in s && x != a :: x in r
  {
    if s == [] then []
    else (if s[0] == a then [] else [s[0]]) + Without(s[1..], a)
  }

  /** `PatternLayout`: never changed once built, so compared by identity. */
  class PatternLayout {
    const pattern: string

    constructor (pattern: string)
      ensures this.pattern == pattern
    {
      this.pattern := pattern;
    }
  }

  /** Which of the log4net appender classes an appender is. */
  datatype Kind = Console | RollingFile | Gui | Buffering

  /** An `AppenderSkeleton`: its threshold and layout, whether it has been
      closed, the appenders attached to it when it is a
      `BufferingForwardingAppender`, and the queue when it is the `GuiAppender`. */
  class Appender {
    const kind: Kind
    const name: string
    var threshold: Option<Log4Level>
    var layout: PatternLayout?
    var children: seq<Appender>
    var entries: seq<LogEntry>
    var closed: bool

    constructor (kind: Kind, name: string, threshold: Option<Log4Level>, layout: PatternLayout?)
      ensures this.kind == kind && this.name == name
      ensures this.threshold == threshold && this.layout == layout
      ensures children == [] && entries == [] && !closed
    {
      this.kind := kind;
      this.name := name;
      this.threshold := threshold;
      this.layout := layout;
      children := [];
      entries := [];
      closed := false;
    }

    /** `AddAppender`: attaches `a` unless it is already attached. */
    method AddAppender(a: Appender)
      requires kind == Buffering
      modifies this`children
      ensures children == if a in old(children) then old(children) else old(children) + [a]
    {
      if a !in children {
        children := children + [a];
      }
    }

    /** `RemoveAppender`: detaches `a` without closing it. */
    method RemoveAppender(a: Appender)
      modifies this`children
      ensures children == Without(old(children), a)
    {
      children := Without(children, a);
    }

    /** `AppenderSkeleton.Close`: closing twice does nothing. A
        `BufferingForwardingAppender` closes each appender attached to it and
        then detaches them all. */
    method Close()
      modifies this`closed, this`children, children`closed
      ensures closed
      ensures old(closed) || kind != Buffering ==> children == old(children)
      ensures !old(closed) && kind == Buffering ==> children == []
      ensures forall c | c in old(children) ::
        c.closed == (old(c.closed) || c == this || (!old(closed) && kind == Buffering))
    {
      if closed {
        return;
      }
      if kind == Buffering {
        for i := 0 to |children|
          modifies children`closed
          invariant forall c | c in children :: c.closed == (old(c.closed) || c in children[..i])
          invariant closed == (old(closed) || this in children[..i])
        {
          children[i].closed := true;
        }
        children := [];
      }
      closed := true;
    }

    /** `GuiAppender.Append`: queues the entry for the event at the back. */
    method Append(ev: LoggingEvent)
      requires kind == Gui
      modifies this`entries
      ensures entries == old(entries) + [ToEntry(ev)]
    {
      var entry := ToEntry(ev);
      entries := entries + [entry];
    }

    /** `DoAppend`: log4net's entry point, which drops every event once the
        appender is closed and applies the threshold before handing the event
        to `Append`. */
    method DoAppend(ev: LoggingEvent)
      requires kind == Gui
      modifies this`entries
      ensures entries ==
        if !closed && IsAsSevereAsThreshold(threshold, ev.level) then old(entries) + [ToEntry(ev)] else old(entries)
    {
      if closed {
        return;
      }
      if IsAsSevereAsThreshold(threshold, ev.level) {
        Append(ev);
      }
    }
  }

  // ---------- properties ----------

  /** The entry's message is already trimmed: trimming it again changes nothing. */
  lemma MessageTrimmed(ev: LoggingEvent)
    requires ev.rendered.Some?
    ensures TrimEnd(ToEntry(ev).message, IsLineBreak) == ToEntry(ev).message
  {
    TrimEndIdempotent(ev.rendered.value, IsLineBreak);
  }

  /** A WARN event whose layout rendered "hello" and a line break becomes one
      WARNING entry with message "hello". */
  lemma HelloEntry(ev: LoggingEvent)
    requires ev.level == Warn && ev.rendered == Some("hello\r\n")
    ensures ToEntry(ev).level == WARNING && ToEntry(ev).message == "hello"
  {
    var m := "hello\r\n";
    TrimEndUnique(m, IsLineBreak, "hello");
  }

  /** A line number that is not an integer (log4net writes "?" when it has none)
      gives no line, and never an error. */
  lemma UnknownLineIsNull(ev: LoggingEvent)
    requires ev.location.Some? && ev.location.value.lineNumber == Some("?")
    ensures ToEntry(ev).line == None
  {
    Numbers.ForeignCharFails("?", 0);
  }

  /** Every 32-bit line number log4net writes in decimal comes back as it was. */
  lemma LineRoundTrip(n: int)
    requires Numbers.IsInt32(n)
    ensures ParseLine(Some(Numbers.Decimal(n))) == Some(n)
  {
    Numbers.DecimalRoundTrip(n);
  }
}
