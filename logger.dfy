/** `Logger`: the process-wide logging configuration. Its static fields become
    the fields of one `Logger` object; log4net's repository becomes a
    `Hierarchy` object holding the root logger's level and appenders. */
module Logging {
  import opened Wrappers
  import opened Text
  import opened Levels
  import opened Appenders

  /** The pattern `BuildLayout` gives every appender. */
  const LayoutPattern: string := "%date{yyyy-MM-dd HH:mm:ss.fff} | %-8level | %logger - %message%newline"

  /** The message of the exception `SetupGui` throws before `Setup`. */
  const NotConfiguredMessage: string := "Call AppLogger.Setup() before SetupGui()."

  /** `Logger.ToLog4Level`. `MapLevel` undoes it, so it loses nothing. */
  function ToLog4Level(l: Level): (r: Log4Level)
    ensures MapLevel(r) == l
    ensures l == NOTSET ==> r == All
  {
    match l
    case CRITICAL => Fatal
    case ERROR => Error
    case WARNING => Warn
    case INFO => Info
    case DEBUG => Debug
    case NOTSET => All
  }

  /** The log4net side of the mapping is injective: distinct levels give
      levels log4net tells apart. */
  lemma ToLog4LevelInjective(a: Level, b: Level)
    requires SameLevel(ToLog4Level(a), ToLog4Level(b))
    ensures a == b
  {
    assert MapLevel(ToLog4Level(a)) == MapLevel(ToLog4Level(b));
  }

  /** A threshold set from a level lets through exactly the events whose level
      is at least as severe, in the application's own order. */
  lemma ThresholdOrder(threshold: Level, event: Level)
    ensures IsAsSevereAsThreshold(Some(ToLog4Level(threshold)), ToLog4Level(event)) <==> AtLeast(event, threshold)
  {
  }

  /** The log4net logger handle `Get` returns: a name in the dotted hierarchy. */
  datatype Log = Log(category: string)

  /** log4net's logger repository, reduced to the root logger. */
  class Hierarchy {
    var rootAppenders: seq<Appender>
    var rootLevel: Log4Level
    var configured: bool

    constructor ()
      ensures rootAppenders == [] && rootLevel == Debug && !configured
    {
      rootAppenders := [];
      rootLevel := Debug;
      configured := false;
    }

    /** `Root.RemoveAllAppenders`: closes each of the root's appenders, then
        detaches them all. */
    method RemoveAllAppenders()
      modifies this`rootAppenders, rootAppenders`closed, rootAppenders`children, Attached(rootAppenders)`closed
      ensures rootAppenders == []
      ensures forall a | a in old(rootAppenders) :: a.closed
      ensures |old(rootAppenders)| == 1 && old(rootAppenders[0].kind == Buffering && !rootAppenders[0].closed) ==>
        old(rootAppenders[0]).children == [] && forall c | c in old(rootAppenders[0].children) :: c.closed
    {
      CloseEach(rootAppenders, false, Attached(rootAppenders));
      rootAppenders := [];
    }

    /** `Root.AddAppender`: attaches `a` unless it is already attached. */
    method AddAppender(a: Appender)
      modifies this`rootAppenders
      ensures rootAppenders == if a in old(rootAppenders) then old(rootAppenders) else old(rootAppenders) + [a]
    {
      if a !in rootAppenders {
        rootAppenders := rootAppenders + [a];
      }
    }

    /** `Shutdown`: closes the forwarders among the root's appenders, which
        closes what is attached to them, then removes all of the root's
        appenders, closing them. */
    method Shutdown()
      modifies this`rootAppenders, rootAppenders`closed, rootAppenders`children, Attached(rootAppenders)`closed
      ensures rootAppenders == []
      ensures forall a | a in old(rootAppenders) :: a.closed
      ensures |old(rootAppenders)| == 1 && old(rootAppenders[0].kind == Buffering && !rootAppenders[0].closed) ==>
        old(rootAppenders[0]).children == [] && forall c | c in old(rootAppenders[0].children) :: c.closed
    {
      ghost var attached := Attached(rootAppenders);
      ghost var kids := if |rootAppenders| == 1 then rootAppenders[0].children else [];
      assert forall c | c in kids :: c in attached;
      CloseEach(rootAppenders, true, attached);
      CloseEach(rootAppenders, false, attached);
      rootAppenders := [];
    }
  }

  /** The appenders attached to any of `roots`. */
  ghost function Attached(roots: seq<Appender>): set<Appender>
    reads roots
  {
    set a, c | a in roots && c in a.children :: c
  }

  /** One root's attached appenders are its children. */
  lemma AttachedOne(w: Appender)
    ensures Attached([w]) == set c | c in w.children
  {
  }

  /** Closes the appenders of `list` in order; with `onlyForwarders`, only the
      buffering forwarders among them (`CloseNestedAppenders`). Closing only
      ever reaches `list` and the appenders attached to it, which `attached`
      holds. */
  method CloseEach(list: seq<Appender>, onlyForwarders: bool, ghost attached: set<Appender>)
    requires Attached(list) <= attached
    modifies list`closed, list`children, attached`closed
    ensures Attached(list) <= attached
    ensures forall a | a in list && (!onlyForwarders || a.kind == Buffering) :: a.closed
    ensures |list| == 1 && list[0].kind == Buffering && !old(list[0].closed) ==>
      list[0].children == [] && forall c | c in old(list[0].children) :: c.closed
    ensures forall a | a in list && old(a.closed) :: a.closed && a.children == old(a.children)
    ensures forall c | c in attached && old(c.closed) :: c.closed
  {
    for i := 0 to |list|
      invariant forall j | 0 <= j < i && (!onlyForwarders || list[j].kind == Buffering) :: list[j].closed
      invariant forall a | a in list :: a.children == old(a.children) || a.children == []
      invariant forall a | a in list && old(a.closed) :: a.closed && a.children == old(a.children)
      invariant forall c | c in attached && old(c.closed) :: c.closed
      invariant |list| == 1 && i == 0 ==> list[0].closed == old(list[0].closed) && list[0].children == old(list[0].children)
      invariant |list| == 1 && i == 1 && list[0].kind == Buffering && !old(list[0].closed) ==>
        list[0].children == [] && forall c | c in old(list[0].children) :: c.closed
    {
      if !onlyForwarders || list[i].kind == Buffering {
        forall c | c in list[i].children ensures c in attached {
          assert c in old(list[i].children);
        }
        list[i].Close();
      }
    }
    forall c | c in Attached(list) ensures c in attached {
      var a :| a in list && c in a.children;
      assert c in old(a.children);
    }
  }

  /** log4net's `Hierarchy.GetAppenders`, walking the root's own appenders:
      each appender, then the appenders attached to it. */
  function Collected(roots: seq<Appender>): (r: seq<Appender>)
    reads roots
    ensures forall a | a in roots :: a in r
    ensures forall a, c | a in roots && a.kind == Buffering && c in a.children :: c in r
  {
    if roots == [] then []
    else
      var attached := if roots[0].kind == Buffering then roots[0].children else [];
      [roots[0]] + attached + Collected(roots[1..])
  }

  /** The loop of `EnumerateAllAppenders`, walking what `GetAppenders`
      returned: each appender, followed once more by the appenders attached to
      it when it is a buffering forwarder. It has the shape of `Collected`, but
      it is the second of two walks, so the enumeration visits every attached
      appender twice. */
  function Enumerated(list: seq<Appender>): (r: seq<Appender>)
    reads list
    ensures forall a | a in list :: a in r
  {
    if list == [] then []
    else
      var attached := if list[0].kind == Buffering then list[0].children else [];
      [list[0]] + attached + Enumerated(list[1..])
  }

  /** Removes the appenders of one kind (`_sinks.RemoveAll(s => s is GuiAppender)`). */
  function RemoveKind(s: seq<Appender>, k: Kind): (r: seq<Appender>)
    ensures forall a | a in r :: a.kind != k && a in s
    ensures forall a | a in s && a.kind != k :: a in r
  {
    if s == [] then []
    else (if s[0].kind == k then [] else [s[0]]) + RemoveKind(s[1..], k)
  }

  /** The appenders attached to `w` carry the threshold of `level` and `layout`. */
  ghost predicate ChildrenCarry(w: Appender, level: Level, layout: PatternLayout?)
    reads w, w.children
  {
    forall c | c in w.children :: c.threshold == Some(ToLog4Level(level)) && c.layout == layout
  }

  /** Appenders that forward to nobody are enumerated once each. */
  lemma {:induction false} EnumeratedLeaves(list: seq<Appender>)
    requires forall a | a in list :: a.kind != Buffering
    ensures Enumerated(list) == list
  {
    if list != [] {
      EnumeratedLeaves(list[1..]);
    }
  }

  /** The category `Get` asks log4net for: the application's own logger, or a
      child of it in log4net's dotted hierarchy. */
  function Category(appName: string, name: Option<string>): (r: string)
    ensures appName <= r
    ensures r == appName <==> IsNullOrWhiteSpace(name)
    ensures !IsNullOrWhiteSpace(name) ==> r[|appName|..] == "." + name.value
  {
    if IsNullOrWhiteSpace(name) then appName else appName + "." + name.value
  }

  /** Removing a kind from a list made only of that kind leaves nothing. */
  lemma {:induction false} RemoveKindAll(s: seq<Appender>, k: Kind)
    requires forall a | a in s :: a.kind == k
    ensures RemoveKind(s, k) == []
  {
    if s != [] {
      RemoveKindAll(s[1..], k);
    }
  }

  /** The preserved-sink loop of `Setup`: each sink gets the threshold of
      `level` and the layout, and is added after `rebuilt`. */
  method AddPreserved(rebuilt: seq<Appender>, sinks: seq<Appender>, level: Level, layout: PatternLayout)
    returns (r: seq<Appender>)
    modifies sinks`threshold, sinks`layout
    ensures r == rebuilt + sinks
    ensures forall a | a in sinks :: a.threshold == Some(ToLog4Level(level)) && a.layout == layout
  {
    r := rebuilt;
    for i := 0 to |sinks|
      invariant r == rebuilt + sinks[..i]
      invariant forall j | 0 <= j < i :: sinks[j].threshold == Some(ToLog4Level(level)) && sinks[j].layout == layout
    {
      TrySetAppenderLevelAndLayout(sinks[i], level, layout);
      r := r + [sinks[i]];
    }
  }

  /** The forwarder of `Setup`: a fresh `BufferingForwardingAppender` with each
      of `appenders` attached in order. */
  method BuildForwarder(appenders: seq<Appender>) returns (async: Appender)
    requires forall j, k | 0 <= j < k < |appenders| :: appenders[j] != appenders[k]
    ensures fresh(async) && async.kind == Buffering && async.name == "BufferingAppender"
    ensures async.children == appenders && async.threshold == None && async.layout == null && !async.closed
  {
    async := new Appender(Buffering, "BufferingAppender", None, null);
    for i := 0 to |appenders|
      modifies async
      invariant async.children == appenders[..i]
      invariant async.threshold == None && async.layout == null && !async.closed
    {
      async.AddAppender(appenders[i]);
    }
  }

  /** The appenders `Setup` builds around the preserved sinks: console and
      rolling file appenders, then the sinks, all at the threshold of `level`
      with `layout`, attached in that order to a fresh buffering forwarder. */
  method BuildTopology(sinks: seq<Appender>, level: Level, layout: PatternLayout) returns (async: Appender)
    requires |sinks| <= 1
    modifies sinks`threshold, sinks`layout
    ensures fresh(async) && async.kind == Buffering && async.name == "BufferingAppender"
    ensures async.threshold == None && async.layout == null && !async.closed
    ensures |async.children| == 2 + |sinks| && async.children[2..] == sinks
    ensures fresh(async.children[0]) && async.children[0].kind == Console && async.children[0].name == "Console"
    ensures fresh(async.children[1]) && async.children[1].kind == RollingFile && async.children[1].name == "RollingFile"
    ensures !async.children[0].closed && !async.children[1].closed
    ensures ChildrenCarry(async, level, layout)
  {
    var t := ToLog4Level(level);
    var console := new Appender(Console, "Console", Some(t), layout);
    var rolling := new Appender(RollingFile, "RollingFile", Some(t), layout);
    var rebuilt := AddPreserved([console, rolling], sinks, level, layout);
    async := BuildForwarder(rebuilt);
    forall c | c in async.children ensures c.threshold == Some(t) && c.layout == layout {
      if c != console && c != rolling {
        assert c in sinks;
      }
    }
  }

  /** The loop of `SetLevel`: every appender of `list` gets the threshold of
      `level` and the layout; nothing else about them changes. */
  method Relevel(list: seq<Appender>, level: Level, layout: PatternLayout)
    modifies list`threshold, list`layout
    ensures forall a | a in list :: a.threshold == Some(ToLog4Level(level)) && a.layout == layout
  {
    for i := 0 to |list|
      invariant forall j | 0 <= j < i :: list[j].threshold == Some(ToLog4Level(level)) && list[j].layout == layout
    {
      TrySetAppenderLevelAndLayout(list[i], level, layout);
    }
  }

  /** `TrySetAppenderLevelAndLayout`; every appender here is an
      `AppenderSkeleton`, and `ActivateOptions` has no effect on the model. */
  method TrySetAppenderLevelAndLayout(appender: Appender, level: Level, layout: PatternLayout)
    modifies appender`threshold, appender`layout
    ensures appender.threshold == Some(ToLog4Level(level)) && appender.layout == layout
  {
    appender.threshold := Some(ToLog4Level(level));
    appender.layout := layout;
  }

  /** `BuildLayout`. */
  method BuildLayout() returns (layout: PatternLayout)
    ensures fresh(layout) && layout.pattern == LayoutPattern
  {
    layout := new PatternLayout(LayoutPattern);
  }

  class Logger {
    var configured: bool
    var current: Level
    var repo: Hierarchy?
    var layout: PatternLayout?
    /** Preserved sinks, re-attached on every rebuild. */
    var sinks: seq<Appender>
    var guiAppender: Appender?
    /** The repository `LogManager.GetRepository` hands out. */
    const hierarchy: Hierarchy
    const appName: string

    /** The fields' relations that hold between any two operations: the
        repository is fetched by every `Setup`, which is the only way to become
        configured and which always builds a layout; the preserved sinks are
        the GUI sink once it exists, and nothing before. */
    ghost predicate Consistent()
      reads this
    {
      (repo == null || repo == hierarchy) &&
      (configured ==> repo != null) &&
      (repo != null ==> layout != null) &&
      (guiAppender != null ==> guiAppender.kind == Gui) &&
      sinks == (if guiAppender == null then [] else [guiAppender])
    }

    /** The root holds nothing, or one buffering forwarder over the console
        appender, the rolling file appender and the preserved sinks. */
    ghost predicate TopologyOk()
      reads this, hierarchy, hierarchy.rootAppenders
    {
      var roots := hierarchy.rootAppenders;
      roots == [] ||
      (|roots| == 1 && roots[0].kind == Buffering &&
       var ch := roots[0].children;
       |ch| == 2 + |sinks| && ch[0].kind == Console && ch[1].kind == RollingFile && ch[2..] == sinks)
    }

    /** The root holds nothing while unconfigured, and one open buffering
        forwarder while configured. */
    ghost predicate RootOk()
      reads this, hierarchy, hierarchy.rootAppenders
    {
      var roots := hierarchy.rootAppenders;
      (configured <==> |roots| == 1) &&
      (|roots| <= 1) &&
      (|roots| == 1 ==> roots[0].kind == Buffering && !roots[0].closed)
    }

    ghost predicate Valid()
      reads this, hierarchy, hierarchy.rootAppenders
    {
      Consistent() && RootOk() && TopologyOk()
    }

    /** `EnumerateAllAppenders`: nothing before the first `Setup`; afterwards
        every root appender and every appender attached to a buffering one. */
    function EnumerateAllAppenders(): (r: seq<Appender>)
      reads this, repo, if repo == null then [] else repo.rootAppenders
      reads if repo == null then [] else Collected(repo.rootAppenders)
      ensures repo == null ==> r == []
      ensures repo != null ==> forall a | a in repo.rootAppenders :: a in r
      ensures repo != null ==> forall a, c | a in repo.rootAppenders && a.kind == Buffering && c in a.children :: c in r
    {
      if repo == null then [] else Enumerated(Collected(repo.rootAppenders))
    }

    constructor (appName: string)
      ensures Valid()
      ensures !configured && current == ERROR && repo == null && layout == null
      ensures sinks == [] && guiAppender == null && this.appName == appName
      ensures fresh(hierarchy) && hierarchy.rootAppenders == []
    {
      configured := false;
      current := ERROR;
      repo := null;
      layout := null;
      sinks := [];
      guiAppender := null;
      hierarchy := new Hierarchy();
      this.appName := appName;
    }

    /** `Setup`: rebuilds the whole topology for `level`: a fresh layout, fresh
        console and rolling file appenders, the preserved sinks re-levelled,
        all attached to a fresh buffering forwarder that becomes the root's only
        appender. Removing the previous forwarder closes it, and closing it
        closes everything attached to it, preserved sinks included: those are
        attached again, closed. */
    method Setup(level: Level)
      requires Consistent() && RootOk()
      modifies this, hierarchy, sinks`threshold, sinks`layout
      modifies hierarchy.rootAppenders`closed, hierarchy.rootAppenders`children, Attached(hierarchy.rootAppenders)`closed
      ensures Valid()
      ensures configured && current == level && repo == hierarchy
      ensures layout != null && fresh(layout) && layout.pattern == LayoutPattern
      ensures sinks == old(sinks) && guiAppender == old(guiAppender)
      ensures hierarchy.rootLevel == ToLog4Level(level) && hierarchy.configured
      ensures |hierarchy.rootAppenders| == 1
      ensures var w := hierarchy.rootAppenders[0];
        fresh(w) && w.kind == Buffering && w.name == "BufferingAppender" &&
        |w.children| == 2 + |sinks| && w.children[2..] == sinks &&
        fresh(w.children[0]) && w.children[0].kind == Console &&
        fresh(w.children[1]) && w.children[1].kind == RollingFile &&
        !w.children[0].closed && !w.children[1].closed &&
        ChildrenCarry(w, level, layout)
      ensures old(configured) ==> var w := old(hierarchy.rootAppenders[0]);
        w.closed && w.children == [] && forall c | c in old(w.children) :: c.closed
      ensures forall a | a in sinks ::
        a.closed == (old(a.closed) || (old(configured) && a in old(hierarchy.rootAppenders[0].children)))
      ensures forall a | a in sinks :: a.entries == old(a.entries)
    {
      current := level;
      repo := hierarchy;
      RemoveInstalled();
      Install(level);
    }

    /** The rest of `Setup`, once the root is empty: the new topology is built
        and installed, and the repository and the logger become configured. */
    method Install(level: Level)
      requires repo == hierarchy && hierarchy.rootAppenders == []
      requires (guiAppender != null ==> guiAppender.kind == Gui) && sinks == (if guiAppender == null then [] else [guiAppender])
      modifies this`layout, this`configured, hierarchy`rootAppenders, hierarchy`rootLevel, hierarchy`configured
      modifies sinks`threshold, sinks`layout
      ensures Valid() && configured
      ensures layout != null && fresh(layout) && layout.pattern == LayoutPattern
      ensures hierarchy.rootLevel == ToLog4Level(level) && hierarchy.configured
      ensures |hierarchy.rootAppenders| == 1
      ensures var w := hierarchy.rootAppenders[0];
        fresh(w) && w.kind == Buffering && w.name == "BufferingAppender" &&
        |w.children| == 2 + |sinks| && w.children[2..] == sinks &&
        fresh(w.children[0]) && w.children[0].kind == Console &&
        fresh(w.children[1]) && w.children[1].kind == RollingFile &&
        !w.children[0].closed && !w.children[1].closed &&
        ChildrenCarry(w, level, layout)
    {
      var lay := BuildLayout();
      layout := lay;
      var async := BuildTopology(sinks, level, lay);
      hierarchy.AddAppender(async);
      hierarchy.rootLevel := ToLog4Level(level);
      hierarchy.configured := true;
      configured := true;
    }

    /** The first step of `Setup`: `Root.RemoveAllAppenders` closes the
        installed forwarder, if any, with what is attached to it. */
    method RemoveInstalled()
      requires RootOk() && forall a | a in sinks :: a.kind == Gui
      modifies hierarchy`rootAppenders
      modifies hierarchy.rootAppenders`closed, hierarchy.rootAppenders`children, Attached(hierarchy.rootAppenders)`closed
      ensures hierarchy.rootAppenders == []
      ensures old(configured) ==> var w := old(hierarchy.rootAppenders[0]);
        w.closed && w.children == [] && forall c | c in old(w.children) :: c.closed
      ensures forall a | a in sinks ::
        a.closed == (old(a.closed) || (old(configured) && a in old(hierarchy.rootAppenders[0].children)))
    {
      if configured {
        AttachedOne(hierarchy.rootAppenders[0]);
      }
      hierarchy.RemoveAllAppenders();
    }

    /** `SetupGui`: throws unless configured; otherwise creates the GUI sink
        once, makes it the only preserved sink and rebuilds at the current
        level, which also overwrites the threshold `level` just gave it. From
        the second call on, the rebuild closes the GUI sink it returns. */
    method SetupGui(level: Level) returns (r: Result<Appender, string>)
      requires Valid()
      modifies this, hierarchy, sinks`threshold, sinks`layout
      modifies hierarchy.rootAppenders`closed, hierarchy.rootAppenders`children, Attached(hierarchy.rootAppenders)`closed
      ensures Valid()
      ensures !old(configured) ==>
        r == Failure(NotConfiguredMessage) && unchanged(this) && unchanged(hierarchy) && unchanged(sinks)
      ensures old(configured) ==>
        r.Success? && guiAppender != null && r.value == guiAppender &&
        (old(guiAppender) != null ==> guiAppender == old(guiAppender) && guiAppender.entries == old(guiAppender.entries)) &&
        (old(guiAppender) == null ==> fresh(guiAppender) && guiAppender.name == "ImGui" && guiAppender.entries == []) &&
        sinks == [guiAppender] && configured && current == old(current) &&
        hierarchy.rootLevel == ToLog4Level(current) &&
        |hierarchy.rootAppenders| == 1 && guiAppender in hierarchy.rootAppenders[0].children &&
        fresh(hierarchy.rootAppenders[0]) && fresh(hierarchy.rootAppenders[0].children[0]) &&
        fresh(hierarchy.rootAppenders[0].children[1]) &&
        !hierarchy.rootAppenders[0].children[0].closed && !hierarchy.rootAppenders[0].children[1].closed &&
        ChildrenCarry(hierarchy.rootAppenders[0], current, layout) &&
        guiAppender.threshold == Some(ToLog4Level(current)) &&
        (guiAppender.closed <==> old(guiAppender) != null)
      ensures old(configured) ==> var w := old(hierarchy.rootAppenders[0]);
        w.closed && w.children == [] && forall c | c in old(w.children) :: c.closed
    {
      if !configured {
        return Failure(NotConfiguredMessage);
      }
      PreserveGui(level);
      Setup(current);
      assert guiAppender == hierarchy.rootAppenders[0].children[2];
      r := Success(guiAppender);
    }

    /** The part of `SetupGui` before the rebuild: the GUI sink, created once,
        gets `level` and the layout and becomes the only preserved sink. */
    method PreserveGui(level: Level)
      requires Valid() && configured
      modifies this`guiAppender, this`sinks, sinks`threshold, sinks`layout
      ensures Consistent() && RootOk() && guiAppender != null && sinks == [guiAppender]
      ensures old(guiAppender) != null ==>
        guiAppender == old(guiAppender) && guiAppender == hierarchy.rootAppenders[0].children[2]
      ensures old(guiAppender) == null ==>
        fresh(guiAppender) && guiAppender.name == "ImGui" && guiAppender.entries == [] && !guiAppender.closed
      ensures guiAppender.threshold == Some(ToLog4Level(level)) && guiAppender.layout == layout
    {
      assert guiAppender != null ==> guiAppender == hierarchy.rootAppenders[0].children[2];
      if guiAppender == null {
        guiAppender := new Appender(Gui, "ImGui", None, null);
      }
      TrySetAppenderLevelAndLayout(guiAppender, level, layout);
      RemoveKindAll(sinks, Gui);
      sinks := RemoveKind(sinks, Gui) + [guiAppender];
    }

    /** `Shutdown`: shuts the repository down and marks the logger
        unconfigured. The installed forwarder is closed, which closes what is
        attached to it, preserved sinks included, and is removed. The preserved
        sinks, the level and the layout stay. */
    method Shutdown()
      requires Consistent() && RootOk()
      modifies this`configured, hierarchy`rootAppenders
      modifies hierarchy.rootAppenders`closed, hierarchy.rootAppenders`children, Attached(hierarchy.rootAppenders)`closed
      ensures Valid()
      ensures !configured && hierarchy.rootAppenders == []
      ensures old(configured) ==> var w := old(hierarchy.rootAppenders[0]);
        w.closed && w.children == [] && forall c | c in old(w.children) :: c.closed
      ensures forall a | a in sinks ::
        a.closed == (old(a.closed) || (old(configured) && a in old(hierarchy.rootAppenders[0].children)))
    {
      if repo != null {
        if |hierarchy.rootAppenders| == 1 {
          AttachedOne(hierarchy.rootAppenders[0]);
        }
        repo.Shutdown();
      }
      configured := false;
    }

    /** The preserved sinks detached from the installed forwarder, so that
        closing the forwarder leaves them open; the other appenders attached
        to it stay. */
    method DetachSinks()
      requires Valid()
      modifies hierarchy.rootAppenders`children
      ensures Consistent() && RootOk()
      ensures configured ==> var w := hierarchy.rootAppenders[0];
        (forall a | a in sinks :: a !in w.children) &&
        (forall c | c in w.children :: c in old(w.children)) &&
        (forall c | c in old(w.children) && c !in sinks :: c in w.children)
    {
      if configured && sinks != [] {
        var w := hierarchy.rootAppenders[0];
        w.RemoveAppender(sinks[0]);
      }
    }

    /** `Setup` with the preserved sinks detached first: the rebuild closes
        the previous forwarder and its own appenders, and the sinks come
        through open or closed as they were. */
    method SetupKeepingSinks(level: Level)
      requires Valid()
      modifies this, hierarchy, sinks`threshold, sinks`layout
      modifies hierarchy.rootAppenders`closed, hierarchy.rootAppenders`children, Attached(hierarchy.rootAppenders)`closed
      ensures Valid()
      ensures configured && current == level && repo == hierarchy
      ensures layout != null && fresh(layout) && layout.pattern == LayoutPattern
      ensures sinks == old(sinks) && guiAppender == old(guiAppender)
      ensures hierarchy.rootLevel == ToLog4Level(level) && hierarchy.configured
      ensures |hierarchy.rootAppenders| == 1
      ensures var w := hierarchy.rootAppenders[0];
        fresh(w) && w.kind == Buffering && w.name == "BufferingAppender" &&
        |w.children| == 2 + |sinks| && w.children[2..] == sinks &&
        fresh(w.children[0]) && w.children[0].kind == Console &&
        fresh(w.children[1]) && w.children[1].kind == RollingFile &&
        !w.children[0].closed && !w.children[1].closed &&
        ChildrenCarry(w, level, layout)
      ensures old(configured) ==> var w := old(hierarchy.rootAppenders[0]);
        w.closed && w.children == [] && forall c | c in old(w.children) && c !in sinks :: c.closed
      ensures forall a | a in sinks :: a.closed == old(a.closed) && a.entries == old(a.entries)
    {
      if configured {
        AttachedOne(hierarchy.rootAppenders[0]);
      }
      ghost var before := Attached(hierarchy.rootAppenders);
      DetachSinks();
      ghost var kept := if configured then hierarchy.rootAppenders[0].children else [];
      if configured {
        AttachedOne(hierarchy.rootAppenders[0]);
        assert Attached(hierarchy.rootAppenders) <= before;
      }
      Setup(level);
      assert forall c | c in kept :: c.closed;
    }

    /** `Shutdown` with the preserved sinks detached first, so that they stay
        open. */
    method ShutdownKeepingSinks()
      requires Valid()
      modifies this`configured, hierarchy`rootAppenders
      modifies hierarchy.rootAppenders`closed, hierarchy.rootAppenders`children, Attached(hierarchy.rootAppenders)`closed
      ensures Valid()
      ensures !configured && hierarchy.rootAppenders == [] && sinks == old(sinks)
      ensures old(configured) ==> var w := old(hierarchy.rootAppenders[0]);
        w.closed && w.children == [] && forall c | c in old(w.children) && c !in sinks :: c.closed
      ensures forall a | a in sinks :: a.closed == old(a.closed) && a.entries == old(a.entries)
    {
      if configured {
        AttachedOne(hierarchy.rootAppenders[0]);
      }
      ghost var before := Attached(hierarchy.rootAppenders);
      DetachSinks();
      ghost var kept := if configured then hierarchy.rootAppenders[0].children else [];
      if configured {
        AttachedOne(hierarchy.rootAppenders[0]);
        assert Attached(hierarchy.rootAppenders) <= before;
      }
      Shutdown();
      assert forall c | c in kept :: c.closed;
    }

    /** With the forwarder installed, the enumeration visits it, then each
        appender attached to it, then each of those once more. */
    lemma EnumerationOfInstalled()
      requires Valid() && repo != null && |hierarchy.rootAppenders| == 1
      ensures var w := hierarchy.rootAppenders[0];
        EnumerateAllAppenders() == [w] + w.children + w.children
    {
      var w := hierarchy.rootAppenders[0];
      assert Collected(hierarchy.rootAppenders) == [w] + w.children;
      EnumeratedLeaves(w.children);
      assert ([w] + w.children)[1..] == w.children;
    }

    /** `SetLevel`: records the level; with a repository, also sets the root's
        level and gives every enumerated appender the matching threshold and
        the current layout, in place. Nothing is rebuilt and nothing throws. */
    method SetLevel(level: Level)
      requires Valid()
      modifies this`current, hierarchy`rootLevel, EnumerateAllAppenders()`threshold, EnumerateAllAppenders()`layout
      ensures Valid()
      ensures current == level
      ensures repo == null ==> hierarchy.rootLevel == old(hierarchy.rootLevel)
      ensures repo != null ==> hierarchy.rootLevel == ToLog4Level(level)
      ensures forall a: Appender | a in old(EnumerateAllAppenders()) ::
        a.threshold == Some(ToLog4Level(level)) && a.layout == layout
      ensures repo != null && |hierarchy.rootAppenders| == 1 ==>
        var w := hierarchy.rootAppenders[0];
        w.threshold == Some(ToLog4Level(level)) && w.layout == layout && ChildrenCarry(w, level, layout)
      ensures |hierarchy.rootAppenders| == 1 ==>
        hierarchy.rootAppenders[0].children == old(hierarchy.rootAppenders[0].children)
      ensures forall i | 0 <= i < |sinks| :: sinks[i].entries == old(sinks[i].entries)
    {
      current := level;
      if repo == null {
        return;
      }
      repo.rootLevel := ToLog4Level(level);
      var all := EnumerateAllAppenders();
      if |hierarchy.rootAppenders| == 1 {
        EnumerationOfInstalled();
      }
      Relevel(all, level, layout);
      if |hierarchy.rootAppenders| == 1 {
        var w := hierarchy.rootAppenders[0];
        assert w == all[0];
        forall c | c in w.children ensures c.threshold == Some(ToLog4Level(level)) && c.layout == layout {
          var k :| 0 <= k < |w.children| && w.children[k] == c;
          assert all[1 + k] == c;
        }
        forall i | 0 <= i < |sinks| ensures sinks[i].entries == old(sinks[i].entries) {
          assert sinks[i] == w.children[2 + i];
        }
      }
    }

    /** `Get`: configures at ERROR first when unconfigured, whatever level was
        set before, then names the logger after the application. */
    method Get(name: Option<string>) returns (log: Log)
      requires Valid()
      modifies this, hierarchy, sinks`threshold, sinks`layout
      ensures Valid()
      ensures IsNullOrWhiteSpace(name) ==> log.category == appName
      ensures !IsNullOrWhiteSpace(name) ==> log.category == appName + "." + name.value
      ensures old(configured) ==> unchanged(this) && unchanged(hierarchy) && unchanged(sinks)
      ensures forall a | a in old(sinks) :: a.closed == old(a.closed)
      ensures !old(configured) ==>
        configured && current == ERROR && sinks == old(sinks) &&
        hierarchy.rootLevel == ToLog4Level(ERROR) && |hierarchy.rootAppenders| == 1 &&
        ChildrenCarry(hierarchy.rootAppenders[0], ERROR, layout)
    {
      if !configured {
        assert Attached(hierarchy.rootAppenders) == {};
        Setup(ERROR);
      }
      log := Log(Category(appName, name));
    }

    /** `Get(Type)`: the type's full name, or its short name when it has none. */
    method GetForType(fullName: Option<string>, shortName: string) returns (log: Log)
      requires Valid()
      modifies this, hierarchy, sinks`threshold, sinks`layout
      ensures Valid()
      ensures var n := fullName.GetOr(shortName);
        log.category == if IsNullOrWhiteSpace(Some(n)) then appName else appName + "." + n
      ensures old(configured) ==> unchanged(this) && unchanged(hierarchy) && unchanged(sinks)
      ensures forall a | a in old(sinks) :: a.closed == old(a.closed)
      ensures !old(configured) ==>
        configured && current == ERROR && sinks == old(sinks) &&
        hierarchy.rootLevel == ToLog4Level(ERROR) && |hierarchy.rootAppenders| == 1 &&
        ChildrenCarry(hierarchy.rootAppenders[0], ERROR, layout)
    {
      log := Get(Some(fullName.GetOr(shortName)));
    }
  }

  // ---------- scenarios ----------

  /** A fresh logger set up at INFO with its GUI sink installed. */
  method GuiAtInfo() returns (lg: Logger, gui: Appender)
    ensures fresh(lg) && fresh(lg.hierarchy) && lg.Valid() && lg.repo != null
    ensures |lg.hierarchy.rootAppenders| == 1
    ensures fresh(lg.hierarchy.rootAppenders[0])
    ensures forall a | a in lg.hierarchy.rootAppenders[0].children :: fresh(a)
    ensures fresh(gui) && gui.kind == Gui && lg.sinks == [gui] && gui.entries == [] && !gui.closed
    ensures gui.threshold == Some(ToLog4Level(INFO))
  {
    lg := ConfiguredAt(INFO);
    var r := lg.SetupGui(INFO);
    gui := r.value;
    assert lg.hierarchy.rootAppenders[0].children[2] == gui;
  }

  /** A fresh logger set up at `level`, before any GUI sink exists. */
  method ConfiguredAt(level: Level) returns (lg: Logger)
    ensures fresh(lg) && fresh(lg.hierarchy) && lg.Valid() && lg.configured && lg.current == level
    ensures lg.sinks == [] && lg.guiAppender == null && |lg.hierarchy.rootAppenders| == 1
    ensures var w := lg.hierarchy.rootAppenders[0];
      fresh(w) && forall c | c in Attached(lg.hierarchy.rootAppenders) :: fresh(c)
  {
    lg := new Logger("app");
    lg.Setup(level);
    AttachedOne(lg.hierarchy.rootAppenders[0]);
  }

  /** A DEBUG event is held back by a GUI sink configured at INFO and reaches
      it once the level is lowered to DEBUG. */
  method DebugPassesAfterSetLevel(ev: LoggingEvent) returns (before: seq<LogEntry>, after: seq<LogEntry>)
    requires ev.level == Debug
    ensures before == [] && after == [ToEntry(ev)]
  {
    var lg, gui := GuiAtInfo();
    gui.DoAppend(ev);
    before := gui.entries;
    lg.EnumerationOfInstalled();
    var all := lg.EnumerateAllAppenders();
    forall i | 0 <= i < |all| ensures fresh(all[i]) {
      assert all[i] in all;
    }
    lg.SetLevel(DEBUG);
    assert gui == lg.sinks[0];
    gui.DoAppend(ev);
    after := gui.entries;
  }

  /** The level given to `SetupGui` does not last: after `Setup(ERROR)`,
      `SetupGui(WARNING)` leaves the GUI sink at the ERROR threshold, so a
      WARN event does not reach it. */
  method SetupGuiLevelOverwritten(ev: LoggingEvent) returns (threshold: Option<Log4Level>, entries: seq<LogEntry>)
    requires ev.level == Warn
    ensures threshold == Some(Error) && entries == []
  {
    var lg := ConfiguredAt(ERROR);
    var r := lg.SetupGui(WARNING);
    var gui := r.value;
    threshold := gui.threshold;
    gui.DoAppend(ev);
    entries := gui.entries;
  }

  /** As written, a restart silences the GUI sink: after `Shutdown` and
      `Setup(INFO)` it is attached again, but it was closed with the old
      forwarder, so even a FATAL event leaves its queue empty. */
  method GuiClosedByRestart(ev: LoggingEvent) returns (attached: bool, after: seq<LogEntry>)
    requires ev.level == Fatal
    ensures attached && after == []
  {
    var lg, gui := GuiAtInfo();
    AttachedOne(lg.hierarchy.rootAppenders[0]);
    lg.Shutdown();
    lg.Setup(INFO);
    attached := gui in lg.hierarchy.rootAppenders[0].children;
    assert gui == lg.hierarchy.rootAppenders[0].children[2];
    gui.DoAppend(ev);
    after := gui.entries;
  }

  /** The logger of `GuiAtInfo` shut down with its sinks detached first: the
      GUI sink is still preserved, and still open. */
  method GuiAfterShutdownKeepingSinks() returns (lg: Logger, gui: Appender)
    ensures fresh(lg) && fresh(lg.hierarchy) && lg.Valid() && lg.hierarchy.rootAppenders == []
    ensures fresh(gui) && lg.sinks == [gui] && gui.entries == [] && !gui.closed
  {
    lg, gui := GuiAtInfo();
    AttachedOne(lg.hierarchy.rootAppenders[0]);
    lg.ShutdownKeepingSinks();
  }

  /** With the sinks detached before the forwarder is closed, the GUI sink
      comes through a restart open, and a FATAL event reaches it. */
  method GuiSurvivesRestart(ev: LoggingEvent) returns (after: seq<LogEntry>)
    requires ev.level == Fatal
    ensures after == [ToEntry(ev)]
  {
    var lg, gui := GuiAfterShutdownKeepingSinks();
    lg.SetupKeepingSinks(INFO);
    assert gui == lg.hierarchy.rootAppenders[0].children[2];
    gui.DoAppend(ev);
    after := gui.entries;
  }
}
