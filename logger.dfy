/** The front end's level-filtering console logger.

    The logger's static configuration is the state of one `Logger` object, and the console
    is the sequence of lines it has written. The clock is a parameter: `clock` is the
    time-of-day part of the ISO timestamp (the text after its `T`). */
module FrontLogger {
  import opened Text

  datatype LogLevel = Debug | Info | Warn | Error

  function Priority(l: LogLevel): nat
  {
    match l
    case Debug => 0
    case Info => 1
    case Warn => 2
    case Error => 3
  }

  /** The priorities order the levels strictly: debug < info < warn < error. */
  lemma PriorityOrdersLevels(a: LogLevel, b: LogLevel)
    ensures Priority(a) == Priority(b) <==> a == b
    ensures Priority(Debug) < Priority(Info) < Priority(Warn) < Priority(Error)
  {
  }

  function LevelName(l: LogLevel): string
  {
    match l
    case Debug => "debug"
    case Info => "info"
    case Warn => "warn"
    case Error => "error"
  }

  function Style(l: LogLevel): string
  {
    match l
    case Debug => "color: #8be9fd"
    case Info => "color: #50fa7b"
    case Warn => "color: #ffb86c"
    case Error => "color: #ff5555; font-weight: bold"
  }

  datatype ConsoleMethod = ConsoleError | ConsoleWarn | ConsoleDebug | ConsoleLog

  /** error, warn and debug have console methods of their own; info goes to `console.log`. */
  function ConsoleMethodOf(l: LogLevel): ConsoleMethod
  {
    match l
    case Error => ConsoleError
    case Warn => ConsoleWarn
    case Debug => ConsoleDebug
    case Info => ConsoleLog
  }

  /** A line written to the console: the method, the format string, its style argument and,
      when there is one to show, the context object. */
  datatype ConsoleLine = ConsoleLine(via: ConsoleMethod, text: string, style: string,
                                     context: Option<map<string, string>>)

  /** Whether a message of `level` is written. */
  predicate ShouldLog(enabled: bool, minLevel: LogLevel, level: LogLevel)
    ensures ShouldLog(enabled, minLevel, level) ==> enabled
    ensures enabled && level == Error ==> ShouldLog(enabled, minLevel, level)
  {
    enabled && Priority(level) >= Priority(minLevel)
  }

  /** Raising the minimum level only suppresses messages, and a disabled logger writes
      nothing at all. */
  lemma RaisingLevelSuppresses(enabled: bool, lower: LogLevel, higher: LogLevel, level: LogLevel)
    requires Priority(lower) <= Priority(higher)
    ensures ShouldLog(enabled, higher, level) ==> ShouldLog(enabled, lower, level)
    ensures !ShouldLog(false, lower, level)
    ensures ShouldLog(true, Debug, level)
  {
  }

  /** `s.slice(0, n)`. */
  function Prefix(s: string, n: nat): (r: string)
    ensures |r| <= n && HasPrefix(s, r)
    ensures |s| >= n ==> |r| == n
  {
    if |s| <= n then s else s[..n]
  }

  /** `level.toUpperCase().padEnd(5)`. */
  function LevelLabel(l: LogLevel): (r: string)
    ensures |r| == 5
  {
    match l
    case Debug => "DEBUG"
    case Info => "INFO "
    case Warn => "WARN "
    case Error => "ERROR"
  }

  /** Each label is the level's name in capitals, padded with spaces to five characters. */
  lemma LevelLabelIsUppercaseName(l: LogLevel)
    ensures |LevelName(l)| <= 5
    ensures forall i :: 0 <= i < |LevelName(l)| ==>
              LevelLabel(l)[i] as int == LevelName(l)[i] as int - 32
    ensures forall i :: |LevelName(l)| <= i < 5 ==> LevelLabel(l)[i] == ' '
  {
  }

  /** A bracketed tag, shown only for a present and non-empty value (the source tests the
      value's truthiness, and "" is false). */
  function Tag(v: Option<string>, width: nat): (r: string)
    ensures v.None? || v.value == "" ==> r == ""
    ensures v.Some? && v.value != "" ==> r == "[" + Prefix(v.value, width) + "]"
  {
    if v.Some? && v.value != "" then "[" + Prefix(v.value, width) + "]" else ""
  }

  /** The component of an entry: the explicit one when given (even ""), else the fallback one. */
  function EffectiveComponent(explicit: Option<string>, fallback: Option<string>): Option<string>
  {
    if explicit.Some? then explicit else fallback
  }

  /** An explicit component always wins over the fallback one; the fallback one shows only when
      no explicit one is given. */
  lemma ExplicitComponentWins(explicit: string, fallback: Option<string>)
    ensures EffectiveComponent(Some(explicit), fallback) == Some(explicit)
    ensures explicit != "" ==> Tag(EffectiveComponent(Some(explicit), fallback), |explicit|) == "[" + explicit + "]"
    ensures EffectiveComponent(None, fallback) == fallback
  {
  }

  /** The format string of one line: time, level, component and trace tags, message. */
  function FormatLine(clock: string, level: LogLevel, component: Option<string>,
                      traceId: Option<string>, message: string): string
  {
    var componentStr := if component.Some? then Tag(component, |component.value|) else "";
    "%c[" + Prefix(clock, 12) + "] " + LevelLabel(level) + " " + componentStr
      + Tag(traceId, 8) + " " + message
  }

  /** The line starts with the style marker and the bracketed time, has the level label at
      a fixed place after it, and ends with the message. */
  lemma FormatLineShape(clock: string, level: LogLevel, component: Option<string>,
                        traceId: Option<string>, message: string)
    ensures var line := FormatLine(clock, level, component, traceId, message);
            var t := Prefix(clock, 12);
            HasPrefix(line, "%c[" + t + "] " + LevelLabel(level) + " ") &&
            HasSuffix(line, " " + message)
  {
    var head := "%c[" + Prefix(clock, 12) + "] " + LevelLabel(level) + " ";
    var componentStr := if component.Some? then Tag(component, |component.value|) else "";
    var tag := Tag(traceId, 8);
    assert HasPrefix(head, head);
    AppendKeepsPrefix(head, head, componentStr);
    AppendKeepsPrefix(head + componentStr, head, tag);
    AppendKeepsPrefix(head + componentStr + tag, head, " ");
    AppendKeepsPrefix(head + componentStr + tag + " ", head, message);
    TailIsSuffix(head + componentStr + tag, " ", message);
  }

  /** `Object.keys(context).length > 0`: the context is printed only with a key. */
  function ShownContext(context: Option<map<string, string>>): (r: Option<map<string, string>>)
    ensures r.Some? <==> context.Some? && |context.value| > 0
    ensures r.Some? ==> r == context
  {
    if context.Some? && |context.value| > 0 then context else None
  }

  /** The line `log` writes for an entry that passed the level check. */
  function LineFor(clock: string, level: LogLevel, message: string,
                   context: Option<map<string, string>>, component: Option<string>,
                   traceId: Option<string>): ConsoleLine
  {
    ConsoleLine(ConsoleMethodOf(level), FormatLine(clock, level, component, traceId, message),
                Style(level), ShownContext(context))
  }

  /** The text `log` assembles from its bracketed component and trace parts is the
      formatted line. */
  lemma LineText(clock: string, level: LogLevel, component: Option<string>,
                 traceId: Option<string>, message: string, componentStr: string, traceStr: string)
    requires componentStr == if component.Some? && component.value != ""
                             then "[" + component.value + "]" else ""
    requires traceStr == if traceId.Some? && traceId.value != ""
                         then "[" + Prefix(traceId.value, 8) + "]" else ""
    ensures "%c[" + Prefix(clock, 12) + "] " + LevelLabel(level) + " " + componentStr + traceStr
              + " " + message == FormatLine(clock, level, component, traceId, message)
  {
    if component.Some? {
      assert componentStr == Tag(component, |component.value|);
    }
  }

  /** The formatting half of `log`: the console call for one entry that passed the level
      check, with its component already resolved. */
  method FormatEntry(clock: string, level: LogLevel, message: string,
                     context: Option<map<string, string>>, entryComponent: Option<string>,
                     traceId: Option<string>) returns (line: ConsoleLine)
    ensures line == LineFor(clock, level, message, context, entryComponent, traceId)
  {
    var levelStr := LevelLabel(level);
    var componentStr := if entryComponent.Some? && entryComponent.value != ""
                        then "[" + entryComponent.value + "]" else "";
    var traceStr := if traceId.Some? && traceId.value != ""
                    then "[" + Prefix(traceId.value, 8) + "]" else "";
    var logFn := if level == Error then ConsoleError
                 else if level == Warn then ConsoleWarn
                 else if level == Debug then ConsoleDebug
                 else ConsoleLog;
    var text := "%c[" + Prefix(clock, 12) + "] " + levelStr + " " + componentStr + traceStr + " " + message;
    LineText(clock, level, entryComponent, traceId, message, componentStr, traceStr);
    assert logFn == ConsoleMethodOf(level);
    if context.Some? && |context.value| > 0 {
      line := ConsoleLine(logFn, text, Style(level), context);
    } else {
      line := ConsoleLine(logFn, text, Style(level), None);
    }
  }

  class Logger {
    var minLevel: LogLevel
    var traceId: Option<string>
    var component: Option<string>
    var enabled: bool
    var console: seq<ConsoleLine>

    /** The defaults: level info, no trace id, no component, enabled. */
    constructor()
      ensures minLevel == Info && traceId == None && component == None && enabled
      ensures console == []
    {
      minLevel, traceId, component, enabled := Info, None, None, true;
      console := [];
    }

    method SetLevel(level: LogLevel)
      modifies this
      ensures minLevel == level
      ensures traceId == old(traceId) && component == old(component) && enabled == old(enabled)
      ensures console == old(console)
    {
      minLevel := level;
    }

    method SetTraceId(id: Option<string>)
      modifies this
      ensures traceId == id
      ensures minLevel == old(minLevel) && component == old(component) && enabled == old(enabled)
      ensures console == old(console)
    {
      traceId := id;
    }

    method GetTraceId() returns (id: Option<string>)
      ensures id == traceId
    {
      id := traceId;
    }

    method SetComponent(name: Option<string>)
      modifies this
      ensures component == name
      ensures minLevel == old(minLevel) && traceId == old(traceId) && enabled == old(enabled)
      ensures console == old(console)
    {
      component := name;
    }

    method SetEnabled(on: bool)
      modifies this
      ensures enabled == on
      ensures minLevel == old(minLevel) && traceId == old(traceId) && component == old(component)
      ensures console == old(console)
    {
      enabled := on;
    }

    /** `log`: writes one line when the level passes, nothing otherwise; the configuration
        is unchanged. */
    method Log(clock: string, level: LogLevel, message: string,
               context: Option<map<string, string>>, explicitComponent: Option<string>)
      modifies this
      ensures minLevel == old(minLevel) && traceId == old(traceId)
      ensures component == old(component) && enabled == old(enabled)
      ensures ShouldLog(enabled, minLevel, level) ==>
                console == old(console) + [LineFor(clock, level, message, context,
                                                   EffectiveComponent(explicitComponent, component),
                                                   traceId)]
      ensures !ShouldLog(enabled, minLevel, level) ==> console == old(console)
    {
      if !(enabled && Priority(level) >= Priority(minLevel)) {
        return;
      }
      var entryComponent := if explicitComponent.Some? then explicitComponent else component;
      var line := FormatEntry(clock, level, message, context, entryComponent, traceId);
      console := console + [line];
    }

    method LogDebug(clock: string, message: string, context: Option<map<string, string>>)
      modifies this
      ensures minLevel == old(minLevel) && traceId == old(traceId)
      ensures component == old(component) && enabled == old(enabled)
      ensures console == old(console) + (if ShouldLog(enabled, minLevel, Debug)
                                          then [LineFor(clock, Debug, message, context, component, traceId)]
                                          else [])
    {
      Log(clock, Debug, message, context, None);
    }

    method LogInfo(clock: string, message: string, context: Option<map<string, string>>)
      modifies this
      ensures minLevel == old(minLevel) && traceId == old(traceId)
      ensures component == old(component) && enabled == old(enabled)
      ensures console == old(console) + (if ShouldLog(enabled, minLevel, Info)
                                          then [LineFor(clock, Info, message, context, component, traceId)]
                                          else [])
    {
      Log(clock, Info, message, context, None);
    }

    method LogWarn(clock: string, message: string, context: Option<map<string, string>>)
      modifies this
      ensures minLevel == old(minLevel) && traceId == old(traceId)
      ensures component == old(component) && enabled == old(enabled)
      ensures console == old(console) + (if ShouldLog(enabled, minLevel, Warn)
                                          then [LineFor(clock, Warn, message, context, component, traceId)]
                                          else [])
    {
      Log(clock, Warn, message, context, None);
    }

    method LogError(clock: string, message: string, context: Option<map<string, string>>)
      modifies this
      ensures minLevel == old(minLevel) && traceId == old(traceId)
      ensures component == old(component) && enabled == old(enabled)
      ensures console == old(console) + (if ShouldLog(enabled, minLevel, Error)
                                          then [LineFor(clock, Error, message, context, component, traceId)]
                                          else [])
    {
      Log(clock, Error, message, context, None);
    }

    /** `logWithComponent`: as `log`, with the given component in place of the fallback one. */
    method LogWithComponent(clock: string, level: LogLevel, name: string, message: string,
                            context: Option<map<string, string>>)
      modifies this
      ensures minLevel == old(minLevel) && traceId == old(traceId)
      ensures component == old(component) && enabled == old(enabled)
      ensures console == old(console) + (if ShouldLog(enabled, minLevel, level)
                                          then [LineFor(clock, level, message, context, Some(name), traceId)]
                                          else [])
    {
      Log(clock, level, message, context, Some(name));
    }
  }

  /** A logger bound to one component name; every call goes through `logWithComponent`. */
  class ComponentLogger {
    const name: string

    /** `Logger.withComponent(name)`. */
    constructor(name: string)
      ensures this.name == name
    {
      this.name := name;
    }

    method Log(logger: Logger, clock: string, level: LogLevel, message: string,
               context: Option<map<string, string>>)
      modifies logger
      ensures logger.minLevel == old(logger.minLevel) && logger.traceId == old(logger.traceId)
      ensures logger.component == old(logger.component) && logger.enabled == old(logger.enabled)
      ensures logger.console == old(logger.console) +
                (if ShouldLog(logger.enabled, logger.minLevel, level)
                 then [LineFor(clock, level, message, context, Some(name), logger.traceId)]
                 else [])
    {
      logger.LogWithComponent(clock, level, name, message, context);
    }
  }
}
