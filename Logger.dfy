// Logger: level names, the class name a log call extracts from a function signature, the level
// filter and the layout of a log line. Writing the line to the console and the log file, the
// mutex and reading the clock are outside the model: Log returns the line it would write, and
// the time stamp is a parameter.

module Logging {
  import opened Base

  /** LogLevel, in declaration order: FATAL is declared before ERROR, so ERROR ranks highest. */
  datatype LogLevel = TRACE | DEBUG | INFO | WARN | FATAL | ERROR

  /** The enumerator's underlying value, which the level filter compares. */
  function Rank(level: LogLevel): (n: nat)
    ensures n <= 5
    ensures level == TRACE <==> n == 0
    ensures level == ERROR <==> n == 5
  {
    match level
    case TRACE => 0
    case DEBUG => 1
    case INFO => 2
    case WARN => 3
    case FATAL => 4
    case ERROR => 5
  }

  /** LevelToString: five-character names, INFO and WARN padded with a space. */
  function LevelToString(level: LogLevel): (s: string)
    ensures |s| == 5
  {
    match level
    case TRACE => "TRACE"
    case DEBUG => "DEBUG"
    case INFO => "INFO "
    case WARN => "WARN "
    case ERROR => "ERROR"
    case FATAL => "FATAL"
  }

  /** The level names tell the levels apart. */
  lemma LevelNamesDistinct(a: LogLevel, b: LogLevel)
    requires LevelToString(a) == LevelToString(b)
    ensures a == b
  {
    assert LevelToString(a)[0] == LevelToString(b)[0];
    assert LevelToString(a)[1] == LevelToString(b)[1];
  }

  /** Whether "::" starts at index k of s. */
  predicate ColonsAt(s: string, k: int)
  {
    0 <= k && k + 1 < |s| && s[k] == ':' && s[k + 1] == ':'
  }

  /** rfind("::"): the last index where "::" starts. */
  function LastColons(s: string): (r: Option<nat>)
    ensures r.Some? ==> ColonsAt(s, r.value)
    ensures r.None? <==> forall k | 0 <= k < |s| :: !ColonsAt(s, k)
    decreases |s|
  {
    if |s| < 2 then None
    else if s[|s| - 2] == ':' && s[|s| - 1] == ':' then
      assert ColonsAt(s, |s| - 2);
      Some(|s| - 2)
    else
      var r := LastColons(s[..|s| - 1]);
      assert forall k | 0 <= k < |s| - 1 :: ColonsAt(s[..|s| - 1], k) == ColonsAt(s, k);
      r
  }

  /** No "::" starts after the one LastColons finds. */
  lemma {:induction false} LastColonsIsLast(s: string, k: nat)
    requires LastColons(s).Some? && LastColons(s).value < k
    ensures !ColonsAt(s, k)
    decreases |s|
  {
    if s[|s| - 2] != ':' || s[|s| - 1] != ':' {
      if k + 2 < |s| {
        LastColonsIsLast(s[..|s| - 1], k);
      }
    }
  }

  /** An occurrence of "::" with none after it is the one LastColons finds. */
  lemma {:induction false} LastColonsUnique(s: string, k: nat)
    requires ColonsAt(s, k)
    requires forall j | k < j < |s| :: !ColonsAt(s, j)
    ensures LastColons(s) == Some(k)
    decreases |s|
  {
    if s[|s| - 2] != ':' || s[|s| - 1] != ':' {
      var t := s[..|s| - 1];
      assert ColonsAt(t, k);
      forall j | k < j < |t|
        ensures !ColonsAt(t, j)
      {
        assert !ColonsAt(s, j);
      }
      LastColonsUnique(t, k);
    } else {
      assert ColonsAt(s, |s| - 2);
    }
  }

  /** An occurrence of c with none after it is the one LastIndex finds. */
  lemma {:induction false} LastIndexUnique(s: string, c: char, k: nat)
    requires k < |s| && s[k] == c
    requires forall j | k < j < |s| :: s[j] != c
    ensures LastIndex(s, c) == Some(k)
    decreases |s|
  {
    if k < |s| - 1 {
      LastIndexUnique(s[..|s| - 1], c, k);
    }
  }

  /** ExtractClassName: the text between the last "::" and the last space before it (or the
      start); "" when there is no "::". */
  function ExtractClassName(prettyFunction: string): (r: string)
    ensures |r| <= |prettyFunction|
    ensures LastColons(prettyFunction).None? ==> r == ""
  {
    match LastColons(prettyFunction)
    case None => ""
    case Some(colons) => ClassNameBefore(prettyFunction, colons)
  }

  /** The text between the last space at or before index `colons` (or the start) and `colons`.
      The space search covers index colons itself, which holds ':', so it never reaches past the
      colons. */
  function ClassNameBefore(s: string, colons: nat): (r: string)
    requires ColonsAt(s, colons)
    ensures |r| <= colons
  {
    var begin := match LastIndex(s[..colons + 1], ' ')
      case None => 0
      case Some(space) => space + 1;
    s[begin..colons]
  }

  /** With a "::", the class name is followed by the last "::", holds no space, and is preceded
      by a space or the start of the signature. */
  lemma ClassNameCases(s: string)
    requires LastColons(s).Some?
    ensures var colons := LastColons(s).value;
      exists begin | 0 <= begin <= colons ::
        && ExtractClassName(s) == s[begin..colons]
        && (begin == 0 || s[begin - 1] == ' ')
        && ' ' !in ExtractClassName(s)
  {
    var colons := LastColons(s).value;
    var pre := s[..colons + 1];
    var begin := match LastIndex(pre, ' ') case None => 0 case Some(space) => space + 1;
    assert ExtractClassName(s) == s[begin..colons];
    forall k | begin <= k < colons
      ensures s[k] != ' '
    {
      assert s[k] == pre[k];
      if LastIndex(pre, ' ').Some? {
        LastIndexIsLast(pre, ' ', k);
      }
    }
  }

  /** The round trip for the signatures the comment in the source describes: a return type, a
      space, the class and "::" before a method name without ':' gives the class back. */
  lemma {:induction false} ExtractFromSignature(ret: string, cls: string, methodName: string)
    requires ' ' !in cls && ':' !in cls && ':' !in methodName
    ensures ExtractClassName(ret + " " + cls + "::" + methodName) == cls
  {
    var s := ret + " " + cls + "::" + methodName;
    var colons := |ret| + 1 + |cls|;
    SignatureParts(ret, cls, methodName, s);
    assert ColonsAt(s, colons);
    forall j | colons < j < |s|
      ensures !ColonsAt(s, j)
    {
      if j + 1 < |s| {
        assert s[j + 1] == methodName[j + 1 - colons - 2];
      }
    }
    LastColonsUnique(s, colons);
    var pre := s[..colons + 1];
    forall j | |ret| < j < |pre|
      ensures pre[j] != ' '
    {
      if j < colons {
        assert pre[j] == cls[j - |ret| - 1];
      }
    }
    LastIndexUnique(pre, ' ', |ret|);
    ClassNameAt(s, colons, |ret|);
  }

  /** Where each part of such a signature sits. */
  lemma SignatureParts(ret: string, cls: string, methodName: string, s: string)
    requires s == ret + " " + cls + "::" + methodName
    ensures |s| == |ret| + |cls| + |methodName| + 3
    ensures s[|ret|] == ' ' && s[|ret| + 1 + |cls|] == ':' && s[|ret| + 2 + |cls|] == ':'
    ensures forall k | 0 <= k < |cls| :: s[|ret| + 1 + k] == cls[k]
    ensures forall k | 0 <= k < |methodName| :: s[|ret| + |cls| + 3 + k] == methodName[k]
    ensures s[|ret| + 1..|ret| + 1 + |cls|] == cls
  {
  }

  /** ExtractClassName once both searches are known. */
  lemma ClassNameAt(s: string, colons: nat, space: nat)
    requires LastColons(s) == Some(colons)
    requires LastIndex(s[..colons + 1], ' ') == Some(space)
    ensures ExtractClassName(s) == s[space + 1..colons]
  {
    assert ExtractClassName(s) == ClassNameBefore(s, colons);
  }

  /** The filter: a message is written when its level is not below the current one. */
  predicate Enabled(level: LogLevel, current: LogLevel)
  {
    Rank(level) >= Rank(current)
  }

  /** The line Log writes: the time and the level in brackets, then the class in brackets and a
      space, or only a space without a class, then the message and a newline. */
  function FormatLine(time: string, level: LogLevel, className: string, message: string): (line: string)
    ensures |line| == |time| + 9 + (if className != "" then |className| + 3 else 1) + |message| + 1
    ensures line[..|time| + 2] == "[" + time + "]"
    ensures line[|time| + 3..|time| + 8] == LevelToString(level)
    ensures className == "" ==> line[|time| + 9..] == " " + message + "\n"
    ensures className != "" ==> line[|time| + 9..] == "[" + className + "] " + message + "\n"
  {
    var head := "[" + time + "]" + "[" + LevelToString(level) + "]";
    assert |head| == |time| + 9;
    var tail := (if className != "" then "[" + className + "] " else " ") + message + "\n";
    assert (head + tail)[..|time| + 2] == head[..|time| + 2];
    assert (head + tail)[|time| + 3..|time| + 8] == head[|time| + 3..|time| + 8];
    head + tail
  }

  class Logger {
    /** m_CurrentLevel. */
    var currentLevel: LogLevel

    /** The singleton starts at INFO. */
    constructor ()
      ensures currentLevel == INFO
    {
      currentLevel := INFO;
    }

    method SetLogLevel(level: LogLevel)
      modifies this`currentLevel
      ensures currentLevel == level
    {
      currentLevel := level;
    }

    /** Log: the line written for a message, or None when the level is filtered out. */
    function Log(level: LogLevel, message: string, className: string, time: string): (line: Option<string>)
      reads this
      ensures line.Some? <==> Rank(level) >= Rank(currentLevel)
      ensures line.Some? ==> line.value == FormatLine(time, level, className, message)
    {
      if !Enabled(level, currentLevel) then None
      else Some(FormatLine(time, level, className, message))
    }

    /** Trace and Debug pass the type name of the calling instance. */
    function Trace(message: string, typeName: string, time: string): (line: Option<string>)
      reads this
      ensures line.Some? <==> currentLevel == TRACE
      ensures line.Some? ==> line.value == FormatLine(time, TRACE, typeName, message)
    {
      Log(TRACE, message, typeName, time)
    }

    function Debug(message: string, typeName: string, time: string): (line: Option<string>)
      reads this
      ensures line.Some? <==> currentLevel in {TRACE, DEBUG}
      ensures line.Some? ==> line.value == FormatLine(time, DEBUG, typeName, message)
    {
      Log(DEBUG, message, typeName, time)
    }

    /** Info never names a class. */
    function Info(message: string, time: string): (line: Option<string>)
      reads this
      ensures line.Some? <==> Rank(currentLevel) <= 2
      ensures line.Some? ==> line.value == "[" + time + "][INFO ] " + message + "\n"
    {
      var l := Log(INFO, message, "", time);
      assert l.Some? ==> l.value == "[" + time + "][INFO ] " + message + "\n";
      l
    }

    /** Warn, Error and Fatal name the instance's type when there is one, and no class otherwise. */
    function Warn(message: string, instance: Option<string>, time: string): (line: Option<string>)
      reads this
      ensures line.Some? <==> Rank(currentLevel) <= 3
      ensures line.Some? ==> line.value == FormatLine(time, WARN, if instance.Some? then instance.value else "", message)
    {
      Log(WARN, message, if instance.Some? then instance.value else "", time)
    }

    function Error(message: string, instance: Option<string>, time: string): (line: Option<string>)
      reads this
      ensures line.Some?
      ensures line.value == FormatLine(time, ERROR, if instance.Some? then instance.value else "", message)
    {
      Log(ERROR, message, if instance.Some? then instance.value else "", time)
    }

    function Fatal(message: string, instance: Option<string>, time: string): (line: Option<string>)
      reads this
      ensures line.Some? <==> currentLevel != ERROR
      ensures line.Some? ==> line.value == FormatLine(time, FATAL, if instance.Some? then instance.value else "", message)
    {
      Log(FATAL, message, if instance.Some? then instance.value else "", time)
    }
  }
}
