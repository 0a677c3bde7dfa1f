/**
 * The string and file-name logic of the logger (im-server/utils/logger.go): level names, the
 * console colouring, attribute building, the format-or-fields choice of the level methods, the
 * archive name used when the log rotates and the retention filter.
 *
 * A log line here is a sequence of characters each standing for one byte of the line, as Go's
 * byte-wise string functions see it.
 */
module Logging {
  import opened Wrappers
  import opened Text

  // ----- levels -----

  /** slog's levels, ordered by their numeric values -4, 0, 4, 8. */
  datatype Level = LevelDebug | LevelInfo | LevelWarn | LevelError

  function LevelValue(l: Level): int
  {
    match l
    case LevelDebug => -4
    case LevelInfo => 0
    case LevelWarn => 4
    case LevelError => 8
  }

  /** The upper-case name slog prints for a level. */
  function LevelName(l: Level): string
  {
    match l
    case LevelDebug => "DEBUG"
    case LevelInfo => "INFO"
    case LevelWarn => "WARN"
    case LevelError => "ERROR"
  }

  /** The lower-case LogLevel constants the package declares. */
  const DebugLevelName := "debug"
  const InfoLevelName := "info"
  const WarnLevelName := "warn"
  const ErrorLevelName := "error"

  /** configLogLevelToSlogLevel: exactly the four upper-case names are recognised, anything else is Info. */
  function ConfigLogLevelToSlogLevel(configLevel: string): (l: Level)
    ensures configLevel in {"DEBUG", "INFO", "WARN", "ERROR"} ==> LevelName(l) == configLevel
    ensures configLevel !in {"DEBUG", "INFO", "WARN", "ERROR"} ==> l == LevelInfo
  {
    if configLevel == "DEBUG" then LevelDebug
    else if configLevel == "INFO" then LevelInfo
    else if configLevel == "WARN" then LevelWarn
    else if configLevel == "ERROR" then LevelError
    else LevelInfo
  }

  lemma ConfigLevelRoundTrip(l: Level)
    ensures ConfigLogLevelToSlogLevel(LevelName(l)) == l
  {
  }

  lemma ConfigLevelOthersAreInfo(configLevel: string)
    requires configLevel !in {"DEBUG", "INFO", "WARN", "ERROR"}
    ensures ConfigLogLevelToSlogLevel(configLevel) == LevelInfo
    ensures ConfigLogLevelToSlogLevel(DebugLevelName) == LevelInfo
    ensures ConfigLogLevelToSlogLevel(ErrorLevelName) == LevelInfo
  {
  }

  // ----- console colours -----

  const Esc: char := '\U{1b}'
  const ColorReset: string := [Esc] + "[0m"
  const ColorTime: string := [Esc] + "[93m"
  const ColorDebug: string := [Esc] + "[36m"
  const ColorInfo: string := [Esc] + "[32m"
  const ColorWarn: string := [Esc] + "[33m"
  const ColorError: string := [Esc] + "[31m"

  /** The three level words that get wrapped, each in its own colour. */
  function Colorize(s: string): string
  {
    var d := ReplaceAll(s, "DEBUG", ColorDebug + "DEBUG" + ColorReset);
    var i := ReplaceAll(d, "INFO", ColorInfo + "INFO" + ColorReset);
    ReplaceAll(i, "WARN", ColorWarn + "WARN" + ColorReset)
  }

  /**
   * colorWriter.Write's rewrite of one line before it reaches the console: a line mentioning
   * ERROR is only prefixed with the error colour; any other line starts with the time colour,
   * followed by the line with its level words wrapped (the prefix itself holds no level word).
   */
  function ColorWrite(s: string): (r: string)
    ensures Contains(s, "ERROR") ==> r == ColorError + s
    ensures !Contains(s, "ERROR") ==> r == ColorTime + Colorize(s)
  {
    if Contains(s, "ERROR") then ColorError + s
    else
      var d := ReplaceAll(s, "DEBUG", ColorDebug + "DEBUG" + ColorReset);
      var i := ReplaceAll(d, "INFO", ColorInfo + "INFO" + ColorReset);
      ReplaceAllSkipsPrefix(ColorTime, s, "DEBUG", ColorDebug + "DEBUG" + ColorReset);
      ReplaceAllSkipsPrefix(ColorTime, d, "INFO", ColorInfo + "INFO" + ColorReset);
      ReplaceAllSkipsPrefix(ColorTime, i, "WARN", ColorWarn + "WARN" + ColorReset);
      Colorize(ColorTime + s)
  }

  /** A line without any level word is only prefixed with the time colour. */
  lemma ColorWritePlain(s: string)
    requires !Contains(s, "ERROR") && !Contains(s, "DEBUG") && !Contains(s, "INFO") && !Contains(s, "WARN")
    ensures ColorWrite(s) == ColorTime + s
  {
    ReplaceAllAbsent(s, "DEBUG", ColorDebug + "DEBUG" + ColorReset);
    ReplaceAllAbsent(s, "INFO", ColorInfo + "INFO" + ColorReset);
    ReplaceAllAbsent(s, "WARN", ColorWarn + "WARN" + ColorReset);
  }

  /** Length of the colour code s starts with, 0 if it starts with none. */
  function CodeLen(s: string): (k: nat)
    ensures k <= |s|
    ensures k > 0 ==> s[0] == Esc
  {
    if |s| >= 4 && s[0] == Esc && s[1] == '[' && s[2] == '0' && s[3] == 'm' then 4
    else if |s| >= 5 && s[0] == Esc && s[1] == '[' && s[4] == 'm'
      && ((s[2] == '9' && s[3] == '3') || (s[2] == '3' && s[3] in {'6', '2', '3', '1'})) then 5
    else 0
  }

  /** c is exactly one colour code. */
  predicate IsColorCode(c: string)
  {
    |c| > 0 && CodeLen(c) == |c|
  }

  lemma ColorCodes()
    ensures IsColorCode(ColorReset) && IsColorCode(ColorTime) && IsColorCode(ColorDebug)
    ensures IsColorCode(ColorInfo) && IsColorCode(ColorWarn) && IsColorCode(ColorError)
  {
  }

  /** What a terminal shows: the line with the colour codes removed. */
  function StripColors(s: string): string
    decreases |s|
  {
    if s == [] then []
    else if CodeLen(s) > 0 then StripColors(s[CodeLen(s)..])
    else [s[0]] + StripColors(s[1..])
  }

  /** Every escape character starts one of the colour codes. */
  predicate WellCoded(s: string)
    decreases |s|
  {
    if s == [] then true
    else if CodeLen(s) > 0 then WellCoded(s[CodeLen(s)..])
    else s[0] != Esc && WellCoded(s[1..])
  }

  lemma CodeLenOf(c: string, y: string)
    requires IsColorCode(c)
    ensures CodeLen(c + y) == |c|
  {
    var s := c + y;
    assert forall j :: 0 <= j < |c| ==> s[j] == c[j];
  }

  lemma {:induction false} StripPlain(x: string, y: string)
    requires Esc !in x
    ensures StripColors(x + y) == x + StripColors(y)
    ensures WellCoded(x + y) == WellCoded(y)
    decreases |x|
  {
    if x == [] {
      assert x + y == y;
    } else {
      var s := x + y;
      assert s[0] == x[0] != Esc;
      assert CodeLen(s) == 0;
      assert s[1..] == x[1..] + y;
      StripPlain(x[1..], y);
      calc {
        StripColors(s);
        [s[0]] + StripColors(s[1..]);
        [x[0]] + (x[1..] + StripColors(y));
        { assert [x[0]] + x[1..] == x; }
        x + StripColors(y);
      }
      assert WellCoded(s) == WellCoded(s[1..]);
    }
  }

  lemma StripCode(c: string, y: string)
    requires IsColorCode(c)
    ensures StripColors(c + y) == StripColors(y)
    ensures WellCoded(c + y) == WellCoded(y)
  {
    CodeLenOf(c, y);
    assert (c + y)[|c|..] == y;
  }

  /** One of the three level words Colorize wraps. */
  predicate LevelWord(w: string)
  {
    w in {"DEBUG", "INFO", "WARN"}
  }

  lemma CodeAvoidsWord(c: string, w: string)
    requires IsColorCode(c) && LevelWord(w)
    ensures forall j :: 0 <= j < |c| ==> c[j] != w[0]
  {
  }

  lemma WrappedKeepsText(w: string, pre: string, post: string, rest: string, rr: string)
    requires LevelWord(w) && IsColorCode(pre) && IsColorCode(post)
    requires WellCoded(rest) && WellCoded(rr) && StripColors(rr) == StripColors(rest)
    ensures WellCoded(pre + w + post + rr) && WellCoded(w + rest)
    ensures StripColors(pre + w + post + rr) == StripColors(w + rest)
  {
    assert Esc !in w;
    assert pre + w + post + rr == pre + (w + (post + rr));
    StripPlain(w, rest);
    StripCode(pre, w + (post + rr));
    StripPlain(w, post + rr);
    StripCode(post, rr);
  }

  lemma CodeFirstKeepsText(t: string, w: string, rep: string, ru: string)
    requires LevelWord(w) && WellCoded(t) && t != [] && CodeLen(t) > 0
    requires ru == ReplaceAll(t[CodeLen(t)..], w, rep)
    requires WellCoded(ru) && StripColors(ru) == StripColors(t[CodeLen(t)..])
    ensures WellCoded(ReplaceAll(t, w, rep))
    ensures StripColors(ReplaceAll(t, w, rep)) == StripColors(t)
  {
    var k := CodeLen(t);
    var c := t[..k];
    var u := t[k..];
    assert c + u == t;
    CodeLenOf(c, []);
    assert c + [] == c;
    assert IsColorCode(c);
    CodeAvoidsWord(c, w);
    ReplaceAllSkipsPrefix(c, u, w, rep);
    StripCode(c, u);
    StripCode(c, ru);
  }

  lemma PlainFirstKeepsText(t: string, w: string, rep: string, rt: string)
    requires LevelWord(w) && t != [] && CodeLen(t) == 0 && WellCoded(t)
    requires |t| >= |w| && t[..|w|] != w
    requires rt == ReplaceAll(t[1..], w, rep)
    requires WellCoded(rt) && StripColors(rt) == StripColors(t[1..])
    ensures WellCoded(ReplaceAll(t, w, rep))
    ensures StripColors(ReplaceAll(t, w, rep)) == StripColors(t)
  {
    assert ReplaceAll(t, w, rep) == [t[0]] + rt;
    assert t[0] != Esc;
    StripPlain([t[0]], t[1..]);
    StripPlain([t[0]], rt);
    assert [t[0]] + t[1..] == t;
  }

  /** Replacing a level word by itself wrapped in two colour codes changes nothing a terminal shows. */
  lemma {:induction false} ReplaceKeepsText(t: string, w: string, pre: string, post: string)
    requires LevelWord(w) && IsColorCode(pre) && IsColorCode(post)
    requires WellCoded(t)
    ensures WellCoded(ReplaceAll(t, w, pre + w + post))
    ensures StripColors(ReplaceAll(t, w, pre + w + post)) == StripColors(t)
    decreases |t|
  {
    var rep := pre + w + post;
    if |t| < |w| {
    } else if t[..|w|] == w {
      var rest := t[|w|..];
      assert t == w + rest;
      StripPlain(w, rest);
      ReplaceKeepsText(rest, w, pre, post);
      WrappedKeepsText(w, pre, post, rest, ReplaceAll(rest, w, rep));
    } else if CodeLen(t) > 0 {
      ReplaceKeepsText(t[CodeLen(t)..], w, pre, post);
      CodeFirstKeepsText(t, w, rep, ReplaceAll(t[CodeLen(t)..], w, rep));
    } else {
      ReplaceKeepsText(t[1..], w, pre, post);
      PlainFirstKeepsText(t, w, rep, ReplaceAll(t[1..], w, rep));
    }
  }

  /**
   * The rewrite only inserts colour codes: for a line without escape characters (slog's text
   * handler quotes control characters) removing them gives the line back.
   */
  lemma ColorWriteKeepsText(s: string)
    requires Esc !in s
    ensures WellCoded(ColorWrite(s))
    ensures StripColors(ColorWrite(s)) == s
  {
    StripPlain(s, []);
    assert s + [] == s;
    ColorCodes();
    if Contains(s, "ERROR") {
      StripCode(ColorError, s);
    } else {
      var t := ColorTime + s;
      StripCode(ColorTime, s);
      var d := ReplaceAll(t, "DEBUG", ColorDebug + "DEBUG" + ColorReset);
      ReplaceKeepsText(t, "DEBUG", ColorDebug, ColorReset);
      var i := ReplaceAll(d, "INFO", ColorInfo + "INFO" + ColorReset);
      ReplaceKeepsText(d, "INFO", ColorInfo, ColorReset);
      ReplaceKeepsText(i, "WARN", ColorWarn, ColorReset);
    }
  }

  // ----- attributes -----

  /** The dynamic values a caller passes as log fields. */
  datatype Value = Nil | Str(s: string) | Num(n: int) | Fields(entries: map<string, Value>) | Other

  /** slog.Any(key, value) */
  datatype Attr = Attr(key: string, value: Value)

  /** The key/value pairs form: each string at an even position names the value after it. */
  function PairAttrs(fields: seq<Value>): seq<Attr>
    decreases |fields|
  {
    if |fields| < 2 then []
    else (if fields[0].Str? then [Attr(fields[0].s, fields[1])] else []) + PairAttrs(fields[2..])
  }

  lemma {:induction false} PairAttrsBound(fields: seq<Value>)
    ensures |PairAttrs(fields)| <= |fields| / 2
    decreases |fields|
  {
    if |fields| >= 2 {
      PairAttrsBound(fields[2..]);
    }
  }

  /** An attribute is produced exactly for a string key at an even position followed by a value. */
  lemma {:induction false} PairAttrsMember(fields: seq<Value>, a: Attr)
    ensures a in PairAttrs(fields) <==>
      exists i :: 0 <= i < |fields| - 1 && i % 2 == 0 && fields[i] == Str(a.key) && fields[i + 1] == a.value
    decreases |fields|
  {
    if |fields| >= 2 {
      PairAttrsMember(fields[2..], a);
      var rest := fields[2..];
      if exists i :: 0 <= i < |fields| - 1 && i % 2 == 0 && fields[i] == Str(a.key) && fields[i + 1] == a.value {
        var i :| 0 <= i < |fields| - 1 && i % 2 == 0 && fields[i] == Str(a.key) && fields[i + 1] == a.value;
        if i >= 2 {
          assert rest[i - 2] == fields[i] && rest[i - 1] == fields[i + 1];
        }
      }
      if exists i :: 0 <= i < |rest| - 1 && i % 2 == 0 && rest[i] == Str(a.key) && rest[i + 1] == a.value {
        var i :| 0 <= i < |rest| - 1 && i % 2 == 0 && rest[i] == Str(a.key) && rest[i + 1] == a.value;
        assert fields[i + 2] == rest[i] && fields[i + 3] == rest[i + 1];
      }
    }
  }

  /** The map form: one attribute per entry, in some order. */
  ghost predicate MapAttrs(m: map<string, Value>, attrs: seq<Attr>)
  {
    && |attrs| == |m|
    && (forall j :: 0 <= j < |attrs| ==> attrs[j].key in m && m[attrs[j].key] == attrs[j].value)
    && (forall k :: k in m ==> exists j :: 0 <= j < |attrs| && attrs[j].key == k)
  }

  /** The attributes log builds from its variadic fields. */
  ghost predicate AttrsFor(fields: seq<Value>, attrs: seq<Attr>)
  {
    if |fields| == 0 || fields[0].Nil? then attrs == []
    else if fields[0].Fields? then MapAttrs(fields[0].entries, attrs)
    else attrs == PairAttrs(fields)
  }

  /** The attribute loop of log: a map first argument, or key/value pairs. */
  method BuildAttrs(fields: seq<Value>) returns (attrs: seq<Attr>)
    ensures AttrsFor(fields, attrs)
  {
    attrs := [];
    if |fields| > 0 && !fields[0].Nil? {
      if fields[0].Fields? {
        var m := fields[0].entries;
        var todo := m.Keys;
        while todo != {}
          invariant todo <= m.Keys
          invariant |attrs| + |todo| == |m|
          invariant forall j :: 0 <= j < |attrs| ==>
            attrs[j].key in m && attrs[j].key !in todo && m[attrs[j].key] == attrs[j].value
          invariant forall k :: k in m && k !in todo ==> exists j :: 0 <= j < |attrs| && attrs[j].key == k
          decreases |todo|
        {
          var k :| k in todo;
          ghost var before := attrs;
          attrs := attrs + [Attr(k, m[k])];
          todo := todo - {k};
          forall k' | k' in m && k' !in todo
            ensures exists j :: 0 <= j < |attrs| && attrs[j].key == k'
          {
            if k' == k {
              assert attrs[|attrs| - 1].key == k';
            } else {
              var j :| 0 <= j < |before| && before[j].key == k';
              assert attrs[j].key == k';
            }
          }
        }
      } else {
        var i := 0;
        while i < |fields| - 1
          invariant 0 <= i <= |fields| && i % 2 == 0
          invariant attrs + PairAttrs(fields[i..]) == PairAttrs(fields)
        {
          assert fields[i..][2..] == fields[i + 2..];
          if fields[i].Str? {
            attrs := attrs + [Attr(fields[i].s, fields[i + 1])];
          }
          i := i + 2;
        }
      }
    }
  }

  // ----- level methods -----

  /** containsFormatPlaceholders */
  predicate HasFormatPlaceholder(msg: string)
  {
    Contains(msg, "%")
  }

  /** The message a record carries: the caller's text, or fmt.Sprintf of a format and its arguments. */
  datatype Message = Plain(text: string) | Formatted(format: string, args: seq<Value>)

  /** A record as both handlers receive it. */
  datatype Record = Record(level: Level, msg: Message, attrs: seq<Attr>)

  // ----- dates -----

  /** A calendar date as time.Parse with layout 2006-01-02 yields it. */
  datatype Date = Date(year: nat, month: nat, day: nat)

  predicate IsLeap(y: nat)
  {
    y % 4 == 0 && (y % 100 != 0 || y % 400 == 0)
  }

  function DaysIn(month: nat, year: nat): nat
  {
    if month == 2 then (if IsLeap(year) then 29 else 28)
    else if month in {4, 6, 9, 11} then 30
    else 31
  }

  predicate ValidDate(d: Date)
  {
    d.year < 10000 && 1 <= d.month <= 12 && 1 <= d.day <= DaysIn(d.month, d.year)
  }

  /** n written with exactly width digits, zero padded. */
  function PadDigits(n: nat, width: nat): (s: string)
    ensures |s| == width && AllDigits(s)
  {
    if width == 0 then [] else PadDigits(n / 10, width - 1) + [DigitChar(n % 10)]
  }

  function Pow10(k: nat): nat
  {
    if k == 0 then 1 else 10 * Pow10(k - 1)
  }

  lemma {:induction false} ParsePadDigits(n: nat, width: nat)
    requires n < Pow10(width)
    ensures ParseNat(PadDigits(n, width)) == n
  {
    if width > 0 {
      var x := PadDigits(n / 10, width - 1);
      ParsePadDigits(n / 10, width - 1);
      assert (x + [DigitChar(n % 10)])[..|x|] == x;
    }
  }

  /** time.Time.Format("2006-01-02") */
  function FormatDate(d: Date): (s: string)
    requires ValidDate(d)
    ensures |s| == 10 && AllDigits(s[..4]) && s[4] == '-' && AllDigits(s[5..7]) && s[7] == '-' && AllDigits(s[8..])
  {
    DateSlices(PadDigits(d.year, 4), PadDigits(d.month, 2), PadDigits(d.day, 2));
    PadDigits(d.year, 4) + "-" + PadDigits(d.month, 2) + "-" + PadDigits(d.day, 2)
  }

  /** time.Parse("2006-01-02", s): four digits, dash, two digits, dash, two digits, an existing date. */
  function ParseDate(s: string): (r: Option<Date>)
    ensures r.Some? ==> ValidDate(r.value)
  {
    if |s| == 10 && AllDigits(s[..4]) && s[4] == '-' && AllDigits(s[5..7]) && s[7] == '-' && AllDigits(s[8..]) then
      var d := Date(ParseNat(s[..4]), ParseNat(s[5..7]), ParseNat(s[8..]));
      if ValidDate(d) then Some(d) else None
    else None
  }

  lemma JoinThree(parts: seq<string>, sep: char)
    requires |parts| == 3
    ensures Join(parts, sep) == parts[0] + [sep] + parts[1] + [sep] + parts[2]
  {
    assert parts[1..][1..] == parts[2..];
    assert Join(parts[2..], sep) == parts[2];
    assert Join(parts[1..], sep) == parts[1] + [sep] + parts[2];
  }

  lemma DateSlices(y: string, m: string, dd: string)
    requires |y| == 4 && |m| == 2 && |dd| == 2
    ensures var s := y + "-" + m + "-" + dd;
      |s| == 10 && s[..4] == y && s[4] == '-' && s[5..7] == m && s[7] == '-' && s[8..] == dd
  {
    var s := y + "-" + m + "-" + dd;
    assert s[..4] == y;
    assert s[5..7] == m;
    assert s[8..] == dd;
  }

  lemma ParseFormatDate(d: Date)
    requires ValidDate(d)
    ensures ParseDate(FormatDate(d)) == Some(d)
  {
    var y := PadDigits(d.year, 4);
    var m := PadDigits(d.month, 2);
    var dd := PadDigits(d.day, 2);
    DateSlices(y, m, dd);
    ParsePadDigits(d.year, 4);
    ParsePadDigits(d.month, 2);
    ParsePadDigits(d.day, 2);
  }

  /** A formatted date splits on '-' into its three fields. */
  lemma SplitThree(a: string, b: string, c: string, sep: char)
    requires sep !in a && sep !in b && sep !in c
    ensures Split(a + [sep] + b + [sep] + c, sep) == [a, b, c]
  {
    var parts := [a, b, c];
    SplitJoin(parts, sep);
    JoinThree(parts, sep);
  }

  lemma DigitsHaveNoDash(s: string)
    requires AllDigits(s)
    ensures '-' !in s
  {
    forall i | 0 <= i < |s| ensures s[i] != '-' { assert IsDigit(s[i]); }
  }

  /** Zero-padding a parsed digit string to its own width gives the string back. */
  lemma {:induction false} PadParseDigits(d: string)
    requires AllDigits(d)
    ensures PadDigits(ParseNat(d), |d|) == d
  {
    if d != [] {
      var init := d[..|d| - 1];
      var last := d[|d| - 1];
      var v := (last as int) - ('0' as int);
      assert AllDigits(init) by {
        forall k | 0 <= k < |init| ensures IsDigit(init[k]) { assert init[k] == d[k]; }
      }
      assert IsDigit(last);
      PadParseDigits(init);
      var n := ParseNat(d);
      assert n == ParseNat(init) * 10 + v;
      assert n / 10 == ParseNat(init) && n % 10 == v;
      assert DigitChar(v) == last;
      assert d == init + [last];
    }
  }

  /** The other direction: a string time.Parse accepts is exactly the formatting of what it parsed. */
  lemma FormatParseDate(s: string)
    requires ParseDate(s).Some?
    ensures FormatDate(ParseDate(s).value) == s
  {
    var y, m, dd := s[..4], s[5..7], s[8..];
    var d := ParseDate(s).value;
    assert d == Date(ParseNat(y), ParseNat(m), ParseNat(dd));
    PadParseDigits(y);
    PadParseDigits(m);
    PadParseDigits(dd);
    assert FormatDate(d) == y + "-" + m + "-" + dd;
    assert s == y + "-" + m + "-" + dd;
  }

  lemma FormatDateSplits(d: Date)
    requires ValidDate(d)
    ensures Split(FormatDate(d), '-') == [PadDigits(d.year, 4), PadDigits(d.month, 2), PadDigits(d.day, 2)]
  {
    var y, m, dd := PadDigits(d.year, 4), PadDigits(d.month, 2), PadDigits(d.day, 2);
    DigitsHaveNoDash(y);
    DigitsHaveNoDash(m);
    DigitsHaveNoDash(dd);
    SplitThree(y, m, dd, '-');
  }

  function DaysBeforeYear(y: nat): nat
  {
    if y == 0 then 0 else DaysBeforeYear(y - 1) + (if IsLeap(y - 1) then 366 else 365)
  }

  function DaysBeforeMonth(m: nat, y: nat): nat
    requires 1 <= m <= 13
  {
    if m == 1 then 0 else DaysBeforeMonth(m - 1, y) + DaysIn(m - 1, y)
  }

  /** Days since 0000-01-01 (proleptic Gregorian calendar). */
  function DayNumber(d: Date): int
    requires ValidDate(d)
  {
    DaysBeforeYear(d.year) + DaysBeforeMonth(d.month, d.year) + d.day - 1
  }

  /** Midnight UTC of a date, in Unix seconds. */
  function DateUnix(d: Date): int
    requires ValidDate(d)
  {
    (DayNumber(d) - DayNumber(Date(1970, 1, 1))) * 86400
  }

  predicate DateBefore(a: Date, b: Date)
  {
    a.year < b.year || (a.year == b.year && (a.month < b.month || (a.month == b.month && a.day < b.day)))
  }

  lemma YearLength(y: nat)
    ensures DaysBeforeMonth(13, y) == (if IsLeap(y) then 366 else 365)
  {
    assert DaysBeforeMonth(2, y) == 31;
    assert DaysBeforeMonth(3, y) == 31 + DaysIn(2, y);
    assert DaysBeforeMonth(4, y) == DaysBeforeMonth(3, y) + 31;
    assert DaysBeforeMonth(5, y) == DaysBeforeMonth(4, y) + 30;
    assert DaysBeforeMonth(6, y) == DaysBeforeMonth(5, y) + 31;
    assert DaysBeforeMonth(7, y) == DaysBeforeMonth(6, y) + 30;
    assert DaysBeforeMonth(8, y) == DaysBeforeMonth(7, y) + 31;
    assert DaysBeforeMonth(9, y) == DaysBeforeMonth(8, y) + 31;
    assert DaysBeforeMonth(10, y) == DaysBeforeMonth(9, y) + 30;
    assert DaysBeforeMonth(11, y) == DaysBeforeMonth(10, y) + 31;
    assert DaysBeforeMonth(12, y) == DaysBeforeMonth(11, y) + 30;
  }

  lemma {:induction false} YearsMonotone(a: nat, b: nat)
    requires a <= b
    ensures DaysBeforeYear(a) + (b - a) * 365 <= DaysBeforeYear(b)
    decreases b - a
  {
    if a < b {
      YearsMonotone(a, b - 1);
    }
  }

  lemma {:induction false} MonthsMonotone(m1: nat, m2: nat, y: nat)
    requires 1 <= m1 <= m2 <= 13
    ensures DaysBeforeMonth(m1, y) + (m2 - m1) * 28 <= DaysBeforeMonth(m2, y)
    decreases m2 - m1
  {
    if m1 < m2 {
      MonthsMonotone(m1, m2 - 1, y);
    }
  }

  /** The last day of a year comes before the first day of any later year. */
  lemma EndOfYearBefore(a: Date, b: Date)
    requires ValidDate(a) && ValidDate(b) && a.year < b.year
    ensures DayNumber(a) < DayNumber(b)
  {
    MonthsMonotone(a.month + 1, 13, a.year);
    YearLength(a.year);
    YearsMonotone(a.year + 1, b.year);
    assert DaysBeforeYear(a.year + 1) == DaysBeforeYear(a.year) + DaysBeforeMonth(13, a.year);
    assert DaysBeforeMonth(a.month + 1, a.year) == DaysBeforeMonth(a.month, a.year) + DaysIn(a.month, a.year);
  }

  lemma DayNumberMonotone(a: Date, b: Date)
    requires ValidDate(a) && ValidDate(b) && DateBefore(a, b)
    ensures DayNumber(a) < DayNumber(b)
  {
    if a.year < b.year {
      EndOfYearBefore(a, b);
    } else if a.month < b.month {
      MonthsMonotone(a.month + 1, b.month, a.year);
    }
  }

  /** An earlier calendar date has an earlier instant, so the retention filter compares dates. */
  lemma DateOrderIsTimeOrder(a: Date, b: Date)
    requires ValidDate(a) && ValidDate(b) && DateBefore(a, b)
    ensures DateUnix(a) < DateUnix(b)
  {
    DayNumberMonotone(a, b);
  }

  // ----- rotation and retention -----

  const LogRetentionDays := 7

  /** time.Now().AddDate(0, 0, -LogRetentionDays), the clock read in UTC. */
  function RetentionCutoff(now: int): int
  {
    now - LogRetentionDays * 86400
  }

  /** filepath.Ext: the suffix from the last dot of the final path element, or nothing. */
  function Ext(path: string): (e: string)
    ensures HasSuffix(path, e)
    ensures e == [] || (e[0] == '.' && '/' !in e && '.' !in e[1..])
    ensures e == [] <==> forall i :: 0 <= i < |path| && path[i] == '.' ==> '/' in path[i..]
    decreases |path|
  {
    if path == [] || path[|path| - 1] == '/' then []
    else if path[|path| - 1] == '.' then "."
    else
      var e := Ext(path[..|path| - 1]);
      if e == [] then [] else e + [path[|path| - 1]]
  }

  function BaseName(logFile: string): (b: string)
    ensures b + Ext(logFile) == logFile
  {
    TrimSuffix(logFile, Ext(logFile))
  }

  /** The name rotateLogFile renames the active log to: base, a dash, the day it covered, the extension. */
  function ArchiveName(logFile: string, date: string): (a: string)
    ensures |a| == |logFile| + 1 + |date| && a != logFile
  {
    BaseName(logFile) + "-" + date + Ext(logFile)
  }

  /** The date cleanOldLogs reads out of a directory entry's name, if the name has the archive shape. */
  function ArchiveDate(logFile: string, name: string): (r: Option<string>)
    ensures name == logFile ==> r.None?
  {
    var base := BaseName(logFile);
    var ext := Ext(logFile);
    if HasPrefix(name, base + "-") && HasSuffix(name, ext) then
      var parts := Split(TrimSuffix(TrimPrefix(name, base + "-"), ext), '-');
      if |parts| == 3 then Some(parts[0] + "-" + parts[1] + "-" + parts[2]) else None
    else None
  }

  /** cleanOldLogs removes an entry when its archive date parses and lies before the cutoff. */
  predicate Expired(logFile: string, name: string, cutoff: int)
    ensures Expired(logFile, name, cutoff) ==> ArchiveDate(logFile, name).Some?
    ensures name == logFile ==> !Expired(logFile, name, cutoff)
  {
    match ArchiveDate(logFile, name)
    case None => false
    case Some(ds) =>
      match ParseDate(ds)
      case None => false
      case Some(d) => DateUnix(d) < cutoff
  }

  /** cleanOldLogs reads back exactly the date rotateLogFile put into an archive name. */
  lemma ArchiveNameRoundTrip(logFile: string, date: string)
    requires |Split(date, '-')| == 3
    ensures ArchiveDate(logFile, ArchiveName(logFile, date)) == Some(date)
  {
    var base := BaseName(logFile);
    var ext := Ext(logFile);
    var name := ArchiveName(logFile, date);
    assert name == (base + "-") + (date + ext);
    assert HasPrefix(name, base + "-");
    assert TrimPrefix(name, base + "-") == date + ext;
    assert (date + ext)[..|date|] == date;
    assert TrimSuffix(date + ext, ext) == date;
    var parts := Split(date, '-');
    JoinSplit(date, '-');
    JoinThree(parts, '-');
  }

  /**
   * An archive written at rotation is removed by the retention pass exactly when its day
   * started before the cutoff.
   */
  lemma ArchiveExpiresByDate(logFile: string, d: Date, cutoff: int)
    requires ValidDate(d)
    ensures Expired(logFile, ArchiveName(logFile, FormatDate(d)), cutoff) <==> DateUnix(d) < cutoff
  {
    FormatDateSplits(d);
    ArchiveNameRoundTrip(logFile, FormatDate(d));
    ParseFormatDate(d);
  }

  /** Retention is monotone: an archive older than one that expires expires too. */
  lemma OlderArchivesExpireFirst(logFile: string, a: Date, b: Date, cutoff: int)
    requires ValidDate(a) && ValidDate(b) && DateBefore(a, b)
    requires Expired(logFile, ArchiveName(logFile, FormatDate(b)), cutoff)
    ensures Expired(logFile, ArchiveName(logFile, FormatDate(a)), cutoff)
  {
    ArchiveExpiresByDate(logFile, a, cutoff);
    ArchiveExpiresByDate(logFile, b, cutoff);
    DateOrderIsTimeOrder(a, b);
  }

  /** The entries the retention pass removes, in directory order. */
  function ExpiredEntries(logFile: string, names: seq<string>, cutoff: int): seq<string>
  {
    if names == [] then []
    else
      var last := names[|names| - 1];
      ExpiredEntries(logFile, names[..|names| - 1], cutoff) + (if Expired(logFile, last, cutoff) then [last] else [])
  }

  lemma ExpiredEntriesStep(logFile: string, names: seq<string>, i: nat, cutoff: int)
    requires i < |names|
    ensures ExpiredEntries(logFile, names[..i + 1], cutoff)
         == ExpiredEntries(logFile, names[..i], cutoff) + (if Expired(logFile, names[i], cutoff) then [names[i]] else [])
  {
    assert names[..i + 1][..i] == names[..i];
  }

  lemma {:induction false} ExpiredEntriesExactly(logFile: string, names: seq<string>, cutoff: int, x: string)
    ensures x in ExpiredEntries(logFile, names, cutoff) <==> x in names && Expired(logFile, x, cutoff)
  {
    if names != [] {
      var init := names[..|names| - 1];
      ExpiredEntriesExactly(logFile, init, cutoff, x);
      assert names == init + [names[|names| - 1]];
    }
  }

  /**
   * cleanOldLogs' loop: the names it removes from the directory listing (nothing when the
   * directory cannot be read).
   */
  method CleanOldLogs(logFile: string, entries: Option<seq<string>>, now: int) returns (removed: seq<string>)
    ensures entries.None? ==> removed == []
    ensures entries.Some? ==> removed == ExpiredEntries(logFile, entries.value, RetentionCutoff(now))
  {
    removed := [];
    if entries.Some? {
      var names := entries.value;
      var cutoff := RetentionCutoff(now);
      var i := 0;
      while i < |names|
        invariant 0 <= i <= |names|
        invariant removed == ExpiredEntries(logFile, names[..i], cutoff)
      {
        ExpiredEntriesStep(logFile, names, i, cutoff);
        if Expired(logFile, names[i], cutoff) {
          removed := removed + [names[i]];
        }
        i := i + 1;
      }
      assert names[..|names|] == names;
    }
  }

  // ----- the logger -----

  /** LogCfg */
  datatype LogCfg = LogCfg(logFormat: string, logLevel: string, logDir: string, logFile: string)

  /** The records a level method hands to log, with the attributes log builds for them. */
  ghost predicate Dispatched(before: seq<Record>, after: seq<Record>, enabled: bool, level: Level,
                             msg: string, args: seq<Value>, attrs: seq<Attr>)
  {
    var m := if HasFormatPlaceholder(msg) then Formatted(msg, args) else Plain(msg);
    && (HasFormatPlaceholder(msg) ==> attrs == [])
    && (!HasFormatPlaceholder(msg) ==> AttrsFor(args, attrs))
    && after == before + (if enabled then [Record(level, m, attrs)] else [])
  }

  /**
   * Logger: records go to the JSON file handler and the coloured console handler, which share
   * one minimum level, so both receive the same records; the active file is renamed to a dated
   * archive when the day changes and archives past retention are removed.
   */
  class Logger {
    const config: LogCfg
    const minLevel: Level
    var currentDate: string
    var fileOpen: bool
    /** Records both handlers accepted, in order. */
    var records: seq<Record>
    /** Names the active file was renamed to, in order. */
    var archived: seq<string>
    /** Directory entries the retention pass removed, in order. */
    var removed: seq<string>

    /** NewLogger once the directory and the file are open: the level comes from the configuration. */
    constructor(config: LogCfg, today: string)
      ensures this.config == config
      ensures minLevel == ConfigLogLevelToSlogLevel(config.logLevel)
      ensures currentDate == today && fileOpen
      ensures records == [] && archived == [] && removed == []
    {
      this.config := config;
      minLevel := ConfigLogLevelToSlogLevel(config.logLevel);
      currentDate := today;
      fileOpen := true;
      records := [];
      archived := [];
      removed := [];
    }

    /** The handlers accept a record at or above the configured level. */
    predicate Enabled(level: Level)
      reads this
    {
      LevelValue(level) >= LevelValue(minLevel)
    }

    /** log: builds the attributes and hands the record to both handlers. */
    method Log(level: Level, msg: Message, fields: seq<Value>) returns (attrs: seq<Attr>)
      modifies this`records
      ensures AttrsFor(fields, attrs)
      ensures records == old(records) + (if Enabled(level) then [Record(level, msg, attrs)] else [])
    {
      attrs := BuildAttrs(fields);
      if Enabled(level) {
        records := records + [Record(level, msg, attrs)];
      }
    }

    /** A message with a % is formatted with the arguments; otherwise the arguments become fields. */
    method Debug(msg: string, args: seq<Value>) returns (attrs: seq<Attr>)
      modifies this`records
      ensures Dispatched(old(records), records, Enabled(LevelDebug), LevelDebug, msg, args, attrs)
    {
      if HasFormatPlaceholder(msg) {
        attrs := Log(LevelDebug, Formatted(msg, args), []);
      } else {
        attrs := Log(LevelDebug, Plain(msg), args);
      }
    }

    method Info(msg: string, args: seq<Value>) returns (attrs: seq<Attr>)
      modifies this`records
      ensures Dispatched(old(records), records, Enabled(LevelInfo), LevelInfo, msg, args, attrs)
    {
      if HasFormatPlaceholder(msg) {
        attrs := Log(LevelInfo, Formatted(msg, args), []);
      } else {
        attrs := Log(LevelInfo, Plain(msg), args);
      }
    }

    method Warn(msg: string, args: seq<Value>) returns (attrs: seq<Attr>)
      modifies this`records
      ensures Dispatched(old(records), records, Enabled(LevelWarn), LevelWarn, msg, args, attrs)
    {
      if HasFormatPlaceholder(msg) {
        attrs := Log(LevelWarn, Formatted(msg, args), []);
      } else {
        attrs := Log(LevelWarn, Plain(msg), args);
      }
    }

    method Error(msg: string, args: seq<Value>) returns (attrs: seq<Attr>)
      modifies this`records
      ensures Dispatched(old(records), records, Enabled(LevelError), LevelError, msg, args, attrs)
    {
      if HasFormatPlaceholder(msg) {
        attrs := Log(LevelError, Formatted(msg, args), []);
      } else {
        attrs := Log(LevelError, Plain(msg), args);
      }
    }

    /**
     * rotateLogFile: the active file, when it exists, is renamed to the archive of the day it
     * covered; a new active file is opened and, only if that succeeds, the day advances.
     */
    method RotateLogFile(newDate: string, currentExists: bool, renameOk: bool, openOk: bool)
      modifies this`currentDate, this`fileOpen, this`archived
      ensures archived == old(archived) +
        (if currentExists && renameOk then [ArchiveName(config.logFile, old(currentDate))] else [])
      ensures fileOpen == openOk
      ensures currentDate == (if openOk then newDate else old(currentDate))
    {
      fileOpen := false;
      if currentExists && renameOk {
        archived := archived + [ArchiveName(config.logFile, currentDate)];
      }
      if openOk {
        fileOpen := true;
        currentDate := newDate;
      }
    }

    /** checkAndRotate: on a new day, rotate and then run the retention pass. */
    method CheckAndRotate(today: string, currentExists: bool, renameOk: bool, openOk: bool,
                          entries: Option<seq<string>>, now: int)
      modifies this`currentDate, this`fileOpen, this`archived, this`removed
      ensures today == old(currentDate) ==>
        currentDate == old(currentDate) && fileOpen == old(fileOpen) &&
        archived == old(archived) && removed == old(removed)
      ensures today != old(currentDate) ==>
        && archived == old(archived) +
             (if currentExists && renameOk then [ArchiveName(config.logFile, old(currentDate))] else [])
        && fileOpen == openOk
        && currentDate == (if openOk then today else old(currentDate))
        && removed == old(removed) +
             (if entries.Some? then ExpiredEntries(config.logFile, entries.value, RetentionCutoff(now)) else [])
    {
      if today != currentDate {
        RotateLogFile(today, currentExists, renameOk, openOk);
        var gone := CleanOldLogs(config.logFile, entries, now);
        removed := removed + gone;
      }
    }
  }
}
