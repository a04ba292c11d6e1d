/** The launch agent property list (packages/service/src/plist.ts). */
module Plist {
  import opened Options

  type ServiceId = string

  /** The text of a number: free of markup, one text for one number. */
  type NumberText = s: string | '<' !in s

  /** StartInterval: the text of its number, and whether that is a positive integer. */
  datatype Interval = Every(text: NumberText, integer: bool, positive: bool)

  datatype Definition = Definition(
    serviceId: ServiceId,
    agentLabel: string,
    programArguments: seq<string>,
    workingDirectory: string,
    runAtLoad: bool,
    keepAlive: bool,
    startInterval: Option<Interval>,
    standardOutPath: string,
    standardErrorPath: string,
    environment: map<string, string>,
    umask: string)

  // --------------------------------------------------------------------- escaping

  /** `replaceAll` of one character. */
  function ReplaceAll(s: string, c: char, with: string): string {
    if s == [] then [] else (if s[0] == c then with else [s[0]]) + ReplaceAll(s[1..], c, with)
  }

  /** The five passes, in their order. */
  function EscapeXml(s: string): string {
    var s := ReplaceAll(s, '&', "&amp;");
    var s := ReplaceAll(s, '<', "&lt;");
    var s := ReplaceAll(s, '>', "&gt;");
    var s := ReplaceAll(s, '"', "&quot;");
    ReplaceAll(s, '\'', "&apos;")
  }

  function Entity(c: char): string {
    match c
    case '&' => "&amp;"
    case '<' => "&lt;"
    case '>' => "&gt;"
    case '"' => "&quot;"
    case '\'' => "&apos;"
    case _ => [c]
  }

  function Entities(s: string): string {
    if s == [] then [] else Entity(s[0]) + Entities(s[1..])
  }

  // -------------------------------------------------------------------- rendering

  function StringElement(value: string, indent: string): string {
    indent + "<string>" + EscapeXml(value) + "</string>"
  }

  function KeyLine(key: string, indent: string): string {
    indent + "<key>" + key + "</key>"
  }

  function KeyValue(key: string, value: string, indent: string): seq<string> {
    [KeyLine(key, indent), StringElement(value, indent)]
  }

  function BooleanValue(key: string, value: bool): seq<string> {
    [KeyLine(key, "  "), "  <" + (if value then "true" else "false") + "/>"]
  }

  predicate IsAbsolute(path: string) { path != [] && path[0] == '/' }

  const CONFIG_ROOT := "LOCALINK_CONFIG_ROOT"
  const LOG_ROOT := "LOCALINK_LOG_ROOT"
  const STATE_ROOT := "LOCALINK_STATE_ROOT"

  /** The definition is rendered rather than refused. */
  predicate Accepted(d: Definition) {
    && d.programArguments != []
    && (forall i :: 0 <= i < |d.programArguments| ==> '\0' !in d.programArguments[i])
    && IsAbsolute(d.programArguments[0]) && IsAbsolute(d.workingDirectory)
    && IsAbsolute(d.standardOutPath) && IsAbsolute(d.standardErrorPath)
    && d.umask == "077"
    && (d.startInterval.Some? ==> d.startInterval.value.integer && d.startInterval.value.positive)
    && d.environment.Keys == {CONFIG_ROOT, LOG_ROOT, STATE_ROOT}
    && forall k :: k in d.environment ==> IsAbsolute(d.environment[k]) && '\0' !in d.environment[k]
  }

  function Arguments(values: seq<string>): seq<string> {
    if values == [] then [] else [StringElement(values[0], "    ")] + Arguments(values[1..])
  }

  /** The lines from each field on, the last fields first. */
  function FromUmask(d: Definition): seq<string> {
    KeyValue("Umask", d.umask, "  ") + ["</dict>", "</plist>", ""]
  }

  function FromEnvironment(d: Definition): seq<string>
    requires Accepted(d)
  {
    ["  <key>EnvironmentVariables</key>"] + (["  <dict>"]
      + (KeyValue(CONFIG_ROOT, d.environment[CONFIG_ROOT], "    ")
        + (KeyValue(LOG_ROOT, d.environment[LOG_ROOT], "    ")
          + (KeyValue(STATE_ROOT, d.environment[STATE_ROOT], "    ") + (["  </dict>"] + FromUmask(d))))))
  }

  function FromOutput(d: Definition): seq<string>
    requires Accepted(d)
  {
    KeyValue("StandardOutPath", d.standardOutPath, "  ")
    + (KeyValue("StandardErrorPath", d.standardErrorPath, "  ") + FromEnvironment(d))
  }

  function FromInterval(d: Definition): seq<string>
    requires Accepted(d)
  {
    if d.startInterval.None? then FromOutput(d)
    else [KeyLine("StartInterval", "  ")] + ([IntegerLine(d.startInterval.value.text)] + FromOutput(d))
  }

  function IntegerLine(text: NumberText): string { "  <integer>" + text + "</integer>" }

  function FromDirectory(d: Definition): seq<string>
    requires Accepted(d)
  {
    KeyValue("WorkingDirectory", d.workingDirectory, "  ")
    + (BooleanValue("RunAtLoad", d.runAtLoad) + (BooleanValue("KeepAlive", d.keepAlive) + FromInterval(d)))
  }

  function FromArguments(d: Definition): seq<string>
    requires Accepted(d)
  {
    Arguments(d.programArguments) + (["  </array>"] + FromDirectory(d))
  }

  const XML := "<?xml version=\"1.0\"" + " encoding=\"UTF-8\"?"
  const DOCTYPE := "<!DOCTYPE plist PUBLIC "
  const PUBLIC_ID := "\"-//Apple//DTD PLIST 1.0//EN\" "
  const SYSTEM_ID := "\"http://www.apple.com/" + "DTDs/PropertyList-1.0.dtd\""

  const COMMENT := "<!-- Managed" + " by Localink --"

  const HEADER := [
    XML + ">",
    DOCTYPE + PUBLIC_ID + SYSTEM_ID + ">",
    COMMENT + ">",
    "<plist version=\"1.0\">",
    "<dict>"]

  function Lines(d: Definition): seq<string>
    requires Accepted(d)
  {
    HEADER + (KeyValue("Label", d.agentLabel, "  ")
      + ([KeyLine("ProgramArguments", "  ")] + (["  <array>"] + FromArguments(d))))
  }

  /** `join('\n')` */
  function Joined(lines: seq<string>): string {
    if lines == [] then "" else if |lines| == 1 then lines[0] else lines[0] + "\n" + Joined(lines[1..])
  }

  /** renderLaunchAgentPlist; None when the definition is refused. */
  function Render(d: Definition): Option<string> {
    if Accepted(d) then Some(Joined(Lines(d))) else None
  }
}

module PlistInjective {
  import opened Options
  import opened Plist

  // --------------------------------------------------------------------- escaping

  lemma {:induction false} ReplaceConcat(a: string, b: string, c: char, with: string)
    ensures ReplaceAll(a + b, c, with) == ReplaceAll(a, c, with) + ReplaceAll(b, c, with)
  {
    if a == [] {
      assert a + b == b;
    } else {
      assert (a + b)[1..] == a[1..] + b;
      ReplaceConcat(a[1..], b, c, with);
    }
  }

  lemma {:induction false} ReplaceNothing(s: string, c: char, with: string)
    requires c !in s
    ensures ReplaceAll(s, c, with) == s
  {
    if s != [] { ReplaceNothing(s[1..], c, with); }
  }

  lemma EscapeConcat(a: string, b: string)
    ensures EscapeXml(a + b) == EscapeXml(a) + EscapeXml(b)
  {
    var a1, b1 := ReplaceAll(a, '&', "&amp;"), ReplaceAll(b, '&', "&amp;");
    var a2, b2 := ReplaceAll(a1, '<', "&lt;"), ReplaceAll(b1, '<', "&lt;");
    var a3, b3 := ReplaceAll(a2, '>', "&gt;"), ReplaceAll(b2, '>', "&gt;");
    var a4, b4 := ReplaceAll(a3, '"', "&quot;"), ReplaceAll(b3, '"', "&quot;");
    ReplaceConcat(a, b, '&', "&amp;");
    ReplaceConcat(a1, b1, '<', "&lt;");
    ReplaceConcat(a2, b2, '>', "&gt;");
    ReplaceConcat(a3, b3, '"', "&quot;");
    ReplaceConcat(a4, b4, '\'', "&apos;");
  }

  lemma ReplaceOne(c: char, d: char, with: string)
    ensures ReplaceAll([c], d, with) == if c == d then with else [c]
  {
    assert [c][1..] == [];
  }

  lemma EscapeOne(c: char)
    ensures EscapeXml([c]) == Entity(c)
  {
    ReplaceOne(c, '&', "&amp;");
    if c == '&' {
      LaterPasses("&amp;");
    } else {
      ReplaceOne(c, '<', "&lt;");
      if c == '<' {
        LaterPasses("&lt;");
      } else {
        ReplaceOne(c, '>', "&gt;");
        if c == '>' {
          LaterPasses("&gt;");
        } else {
          ReplaceOne(c, '"', "&quot;");
          if c == '"' {
            LaterPasses("&quot;");
          } else {
            ReplaceOne(c, '\'', "&apos;");
          }
        }
      }
    }
  }

  /** The passes after the first leave an entity alone. */
  lemma LaterPasses(s: string)
    requires forall i :: 0 <= i < |s| ==> s[i] != '<' && s[i] != '>' && s[i] != '"' && s[i] != '\''
    ensures ReplaceAll(s, '<', "&lt;") == s && ReplaceAll(s, '>', "&gt;") == s
    ensures ReplaceAll(s, '"', "&quot;") == s && ReplaceAll(s, '\'', "&apos;") == s
  {
    ReplaceNothing(s, '<', "&lt;");
    ReplaceNothing(s, '>', "&gt;");
    ReplaceNothing(s, '"', "&quot;");
    ReplaceNothing(s, '\'', "&apos;");
  }

  /** Five passes over the text are one pass over its characters: no pass touches what an
      earlier one wrote. */
  lemma {:induction false} PassesAreOneMap(s: string)
    ensures EscapeXml(s) == Entities(s)
  {
    if s != [] {
      assert s == [s[0]] + s[1..];
      EscapeConcat([s[0]], s[1..]);
      EscapeOne(s[0]);
      PassesAreOneMap(s[1..]);
    }
  }

  /** The character a text begins with, its entity decoded, and how far it reaches. */
  function DecodeOne(s: string): (char, nat)
    requires s != []
    ensures 0 < DecodeOne(s).1 <= |s|
  {
    if "&amp;" <= s then ('&', 5)
    else if "&lt;" <= s then ('<', 4)
    else if "&gt;" <= s then ('>', 4)
    else if "&quot;" <= s then ('"', 6)
    else if "&apos;" <= s then ('\'', 6)
    else (s[0], 1)
  }

  /** Decoding the five predefined entities. */
  function Decode(s: string): string {
    if s == [] then [] else [DecodeOne(s).0] + Decode(s[DecodeOne(s).1..])
  }

  lemma DecodeEntity(c: char, rest: string)
    ensures DecodeOne(Entity(c) + rest) == (c, |Entity(c)|)
  {
    var s := Entity(c) + rest;
    assert s[0] == Entity(c)[0] && (|Entity(c)| > 1 ==> s[1] == Entity(c)[1]);
    if |Entity(c)| > 1 {
      assert s[2] == Entity(c)[2] && s[3] == Entity(c)[3];
    }
  }

  /** Entity decoding undoes the escaping. */
  lemma {:induction false} DecodeUndoesEscape(s: string)
    ensures Decode(EscapeXml(s)) == s
  {
    PassesAreOneMap(s);
    if s != [] {
      DecodeEntity(s[0], Entities(s[1..]));
      assert Entities(s)[|Entity(s[0])|..] == Entities(s[1..]);
      PassesAreOneMap(s[1..]);
      DecodeUndoesEscape(s[1..]);
    }
  }

  /** Escaped text holds no markup. */
  lemma {:induction false} EscapedIsPlain(s: string)
    ensures '<' !in EscapeXml(s) && '>' !in EscapeXml(s)
  {
    PassesAreOneMap(s);
    if s != [] {
      EscapedIsPlain(s[1..]);
      PassesAreOneMap(s[1..]);
    }
  }

  // ------------------------------------------------------------------- cancelling

  /** Up to the first `<`, two equal texts are equal. */
  lemma CancelPlain(u: string, v: string, x: string, y: string)
    requires '<' !in u && '<' !in v && u + "<" + x == v + "<" + y
    ensures u == v && x == y
  {
    var s, t := u + "<" + x, v + "<" + y;
    assert s[|u|] == '<' && t[|v|] == '<';
    assert forall i :: 0 <= i < |u| ==> s[i] == u[i];
    assert forall i :: 0 <= i < |v| ==> t[i] == v[i];
    assert |u| == |v|;
    assert u == s[..|u|] && v == t[..|v|];
    assert x == s[|u| + 1..] && y == t[|v| + 1..];
  }

  lemma CancelPrefix(p: string, x: string, y: string)
    requires p + x == p + y
    ensures x == y
  {
    assert x == (p + x)[|p|..] && y == (p + y)[|p|..];
  }

  lemma JoinFirst(line: string, rest: seq<string>)
    requires rest != []
    ensures Joined([line] + rest) == line + ("\n" + Joined(rest))
  {
    assert ([line] + rest)[1..] == rest;
  }

  /** The same line in front of both. */
  lemma CancelLine(line: string, a: seq<string>, b: seq<string>)
    requires a != [] && b != [] && Joined([line] + a) == Joined([line] + b)
    ensures Joined(a) == Joined(b)
  {
    JoinFirst(line, a);
    JoinFirst(line, b);
    CancelPrefix(line, "\n" + Joined(a), "\n" + Joined(b));
    CancelPrefix("\n", Joined(a), Joined(b));
  }

  lemma RegroupElement(open: string, u: string, close: string, tail: string)
    ensures (open + u + ("<" + close)) + tail == open + (u + "<" + (close + tail))
  {
    var x := close + tail;
    assert ("<" + close) + tail == "<" + x;
    assert (open + u) + ("<" + x) == open + (u + ("<" + x));
    assert u + ("<" + x) == u + "<" + x;
    assert (open + u + ("<" + close)) + tail == (open + u) + (("<" + close) + tail);
  }

  /** Texts that begin alike, go on with plain text, and then alike with markup. */
  lemma CancelMiddle(open: string, u: string, v: string, close: string, s: string, t: string)
    requires '<' !in u && '<' !in v
    requires (open + u + ("<" + close)) + s == (open + v + ("<" + close)) + t
    ensures u == v && s == t
  {
    RegroupElement(open, u, close, s);
    RegroupElement(open, v, close, t);
    CancelPrefix(open, u + "<" + (close + s), v + "<" + (close + t));
    CancelPlain(u, v, close + s, close + t);
    CancelPrefix(close, s, t);
  }

  lemma CancelElement(open: string, u: string, v: string, close: string, a: seq<string>, b: seq<string>)
    requires '<' !in u && '<' !in v && a != [] && b != []
    requires Joined([open + u + ("<" + close)] + a) == Joined([open + v + ("<" + close)] + b)
    ensures u == v && Joined(a) == Joined(b)
  {
    JoinFirst(open + u + ("<" + close), a);
    JoinFirst(open + v + ("<" + close), b);
    CancelMiddle(open, u, v, close, "\n" + Joined(a), "\n" + Joined(b));
    CancelPrefix("\n", Joined(a), Joined(b));
  }

  lemma EscapeInjective(u: string, v: string)
    requires EscapeXml(u) == EscapeXml(v)
    ensures u == v
  {
    DecodeUndoesEscape(u);
    DecodeUndoesEscape(v);
  }

  lemma StringElementIs(u: string, indent: string)
    ensures StringElement(u, indent) == (indent + "<string>") + EscapeXml(u) + ("<" + "/string>")
  {
    assert "<" + "/string>" == "</string>";
  }

  lemma CancelString(u: string, v: string, indent: string, a: seq<string>, b: seq<string>)
    requires a != [] && b != []
    requires Joined([StringElement(u, indent)] + a) == Joined([StringElement(v, indent)] + b)
    ensures u == v && Joined(a) == Joined(b)
  {
    EscapedIsPlain(u);
    EscapedIsPlain(v);
    StringElementIs(u, indent);
    StringElementIs(v, indent);
    CancelElement(indent + "<string>", EscapeXml(u), EscapeXml(v), "/string>", a, b);
    EscapeInjective(u, v);
  }

  lemma TwoLines(first: string, second: string, rest: seq<string>)
    ensures [first, second] + rest == [first] + ([second] + rest)
  {}

  lemma CancelKeyValue(key: string, u: string, v: string, indent: string, a: seq<string>, b: seq<string>)
    requires a != [] && b != []
    requires Joined(KeyValue(key, u, indent) + a) == Joined(KeyValue(key, v, indent) + b)
    ensures u == v && Joined(a) == Joined(b)
  {
    TwoLines(KeyLine(key, indent), StringElement(u, indent), a);
    TwoLines(KeyLine(key, indent), StringElement(v, indent), b);
    CancelLine(KeyLine(key, indent), [StringElement(u, indent)] + a, [StringElement(v, indent)] + b);
    CancelString(u, v, indent, a, b);
  }

  /** Two lines that differ before both end cannot begin equal texts. */
  lemma LinesDiffer(line: string, other: string, i: nat, a: seq<string>, b: seq<string>)
    requires i < |line| && i < |other| && line[i] != other[i] && a != [] && b != []
    ensures Joined([line] + a) != Joined([other] + b)
  {
    JoinFirst(line, a);
    JoinFirst(other, b);
    assert (line + ("\n" + Joined(a)))[i] == line[i] && (other + ("\n" + Joined(b)))[i] == other[i];
  }

  lemma CancelBoolean(key: string, u: bool, v: bool, a: seq<string>, b: seq<string>)
    requires a != [] && b != []
    requires Joined(BooleanValue(key, u) + a) == Joined(BooleanValue(key, v) + b)
    ensures u == v && Joined(a) == Joined(b)
  {
    var s, t := BooleanValue(key, u)[1], BooleanValue(key, v)[1];
    TwoLines(KeyLine(key, "  "), s, a);
    TwoLines(KeyLine(key, "  "), t, b);
    CancelLine(KeyLine(key, "  "), [s] + a, [t] + b);
    if u != v {
      LinesDiffer(s, t, 3, a, b);
    } else {
      CancelLine(s, a, b);
    }
  }

  const ARRAY_END := "  </array>"

  lemma ArgumentsFirst(u: seq<string>, s: seq<string>)
    requires u != []
    ensures Arguments(u) + s == [StringElement(u[0], "    ")] + (Arguments(u[1..]) + s)
  {}

  lemma ArgumentsEnd(u: seq<string>, s: seq<string>, t: seq<string>)
    requires u != [] && s != [] && t != []
    ensures Joined(Arguments(u) + s) != Joined([ARRAY_END] + t)
  {
    ArgumentsFirst(u, s);
    assert StringElement(u[0], "    ") == "    " + ("<string>" + EscapeXml(u[0]) + "</string>");
    LinesDiffer(StringElement(u[0], "    "), ARRAY_END, 2, Arguments(u[1..]) + s, t);
  }

  lemma {:induction false} CancelArguments(u: seq<string>, v: seq<string>, a: seq<string>, b: seq<string>)
    requires a != [] && b != []
    requires Joined(Arguments(u) + ([ARRAY_END] + a)) == Joined(Arguments(v) + ([ARRAY_END] + b))
    ensures u == v && Joined(a) == Joined(b)
  {
    var s, t := [ARRAY_END] + a, [ARRAY_END] + b;
    assert [] + s == s && [] + t == t;
    if u == [] && v == [] {
      CancelLine(ARRAY_END, a, b);
    } else if u == [] {
      ArgumentsEnd(v, t, a);
    } else if v == [] {
      ArgumentsEnd(u, s, b);
    } else {
      ArgumentsFirst(u, s);
      ArgumentsFirst(v, t);
      CancelString(u[0], v[0], "    ", Arguments(u[1..]) + s, Arguments(v[1..]) + t);
      CancelArguments(u[1..], v[1..], a, b);
    }
  }

  // ----------------------------------------------------------- the fields, in order

  lemma CancelTwo(u1: string, v1: string, u2: string, v2: string, a: seq<string>, b: seq<string>)
    requires a != [] && b != []
    requires Joined(KeyValue(LOG_ROOT, u1, "    ") + (KeyValue(STATE_ROOT, u2, "    ") + a)) ==
             Joined(KeyValue(LOG_ROOT, v1, "    ") + (KeyValue(STATE_ROOT, v2, "    ") + b))
    ensures u1 == v1 && u2 == v2
  {
    CancelKeyValue(LOG_ROOT, u1, v1, "    ",
                   KeyValue(STATE_ROOT, u2, "    ") + a, KeyValue(STATE_ROOT, v2, "    ") + b);
    CancelKeyValue(STATE_ROOT, u2, v2, "    ", a, b);
  }

  /** Three keys with their values, one after the other. */
  lemma CancelThree(u: seq<string>, v: seq<string>, a: seq<string>, b: seq<string>)
    requires |u| == |v| == 3 && a != [] && b != []
    requires
      Joined(KeyValue(CONFIG_ROOT, u[0], "    ")
        + (KeyValue(LOG_ROOT, u[1], "    ") + (KeyValue(STATE_ROOT, u[2], "    ") + a))) ==
      Joined(KeyValue(CONFIG_ROOT, v[0], "    ")
        + (KeyValue(LOG_ROOT, v[1], "    ") + (KeyValue(STATE_ROOT, v[2], "    ") + b)))
    ensures u == v
  {
    CancelKeyValue(CONFIG_ROOT, u[0], v[0], "    ",
                   KeyValue(LOG_ROOT, u[1], "    ") + (KeyValue(STATE_ROOT, u[2], "    ") + a),
                   KeyValue(LOG_ROOT, v[1], "    ") + (KeyValue(STATE_ROOT, v[2], "    ") + b));
    CancelTwo(u[1], v[1], u[2], v[2], a, b);
  }

  function Roots(d: Definition): seq<string>
    requires Accepted(d)
  {
    [d.environment[CONFIG_ROOT], d.environment[LOG_ROOT], d.environment[STATE_ROOT]]
  }

  function FromRoots(d: Definition): seq<string>
    requires Accepted(d)
  {
    KeyValue(CONFIG_ROOT, Roots(d)[0], "    ")
    + (KeyValue(LOG_ROOT, Roots(d)[1], "    ")
      + (KeyValue(STATE_ROOT, Roots(d)[2], "    ") + (["  </dict>"] + FromUmask(d))))
  }

  lemma CancelEnvironment(a: Definition, b: Definition)
    requires Accepted(a) && Accepted(b) && Joined(FromEnvironment(a)) == Joined(FromEnvironment(b))
    ensures a.environment == b.environment
  {
    CancelLine("  <key>EnvironmentVariables</key>", ["  <dict>"] + FromRoots(a), ["  <dict>"] + FromRoots(b));
    CancelLine("  <dict>", FromRoots(a), FromRoots(b));
    CancelThree(Roots(a), Roots(b), ["  </dict>"] + FromUmask(a), ["  </dict>"] + FromUmask(b));
    SameRoots(a, b);
  }

  lemma SameRoots(a: Definition, b: Definition)
    requires Accepted(a) && Accepted(b) && Roots(a) == Roots(b)
    ensures a.environment == b.environment
  {
    var s, t := Roots(a), Roots(b);
    assert s[0] == t[0] && s[1] == t[1] && s[2] == t[2];
    assert a.environment.Keys == b.environment.Keys;
  }

  lemma CancelOutput(a: Definition, b: Definition)
    requires Accepted(a) && Accepted(b) && Joined(FromOutput(a)) == Joined(FromOutput(b))
    ensures a.standardOutPath == b.standardOutPath && a.standardErrorPath == b.standardErrorPath
    ensures a.environment == b.environment
  {
    var a1, b1 := KeyValue("StandardErrorPath", a.standardErrorPath, "  ") + FromEnvironment(a),
                  KeyValue("StandardErrorPath", b.standardErrorPath, "  ") + FromEnvironment(b);
    CancelKeyValue("StandardOutPath", a.standardOutPath, b.standardOutPath, "  ", a1, b1);
    CancelKeyValue("StandardErrorPath", a.standardErrorPath, b.standardErrorPath, "  ",
                   FromEnvironment(a), FromEnvironment(b));
    CancelEnvironment(a, b);
  }

  lemma CancelInterval(a: Definition, b: Definition)
    requires Accepted(a) && Accepted(b) && Joined(FromInterval(a)) == Joined(FromInterval(b))
    ensures a.startInterval == b.startInterval && Joined(FromOutput(a)) == Joined(FromOutput(b))
  {
    if a.startInterval.Some? && b.startInterval.Some? {
      CancelInteger(a.startInterval.value.text, b.startInterval.value.text, FromOutput(a), FromOutput(b));
    } else if a.startInterval.Some? {
      IntervalLineDiffers([IntegerLine(a.startInterval.value.text)] + FromOutput(a), b);
    } else if b.startInterval.Some? {
      IntervalLineDiffers([IntegerLine(b.startInterval.value.text)] + FromOutput(b), a);
    }
  }

  lemma CancelIntegerLine(s: NumberText, t: NumberText, a: seq<string>, b: seq<string>)
    requires a != [] && b != [] && Joined([IntegerLine(s)] + a) == Joined([IntegerLine(t)] + b)
    ensures s == t && Joined(a) == Joined(b)
  {
    IntegerLineIs(s);
    IntegerLineIs(t);
    CancelElement("  <integer>", s, t, "/integer>", a, b);
  }

  lemma IntegerLineIs(s: NumberText)
    ensures IntegerLine(s) == "  <integer>" + s + ("<" + "/integer>")
  {
    assert "<" + "/integer>" == "</integer>";
  }

  lemma CancelInteger(s: NumberText, t: NumberText, a: seq<string>, b: seq<string>)
    requires a != [] && b != []
    requires Joined([KeyLine("StartInterval", "  ")] + ([IntegerLine(s)] + a)) ==
             Joined([KeyLine("StartInterval", "  ")] + ([IntegerLine(t)] + b))
    ensures s == t && Joined(a) == Joined(b)
  {
    CancelLine(KeyLine("StartInterval", "  "), [IntegerLine(s)] + a, [IntegerLine(t)] + b);
    CancelIntegerLine(s, t, a, b);
  }

  lemma IntervalLineDiffers(rest: seq<string>, d: Definition)
    requires Accepted(d) && rest != []
    ensures Joined([KeyLine("StartInterval", "  ")] + rest) != Joined(FromOutput(d))
  {
    var key, after := KeyLine("StandardOutPath", "  "),
      [StringElement(d.standardOutPath, "  ")]
      + (KeyValue("StandardErrorPath", d.standardErrorPath, "  ") + FromEnvironment(d));
    assert FromOutput(d) == [key] + after;
    assert KeyLine("StartInterval", "  ")[10] == 'r' && key[10] == 'n';
    LinesDiffer(KeyLine("StartInterval", "  "), key, 10, rest, after);
  }

  lemma CancelDirectory(a: Definition, b: Definition)
    requires Accepted(a) && Accepted(b) && Joined(FromDirectory(a)) == Joined(FromDirectory(b))
    ensures a.workingDirectory == b.workingDirectory && a.runAtLoad == b.runAtLoad && a.keepAlive == b.keepAlive
    ensures Joined(FromInterval(a)) == Joined(FromInterval(b))
  {
    var a2, b2 := BooleanValue("KeepAlive", a.keepAlive) + FromInterval(a),
                  BooleanValue("KeepAlive", b.keepAlive) + FromInterval(b);
    var a1, b1 := BooleanValue("RunAtLoad", a.runAtLoad) + a2, BooleanValue("RunAtLoad", b.runAtLoad) + b2;
    CancelKeyValue("WorkingDirectory", a.workingDirectory, b.workingDirectory, "  ", a1, b1);
    CancelBoolean("RunAtLoad", a.runAtLoad, b.runAtLoad, a2, b2);
    CancelBoolean("KeepAlive", a.keepAlive, b.keepAlive, FromInterval(a), FromInterval(b));
  }

  lemma {:induction false} CancelLines(lines: seq<string>, a: seq<string>, b: seq<string>)
    requires a != [] && b != [] && Joined(lines + a) == Joined(lines + b)
    ensures Joined(a) == Joined(b)
  {
    if lines == [] {
      assert lines + a == a && lines + b == b;
    } else {
      assert lines + a == [lines[0]] + (lines[1..] + a) && lines + b == [lines[0]] + (lines[1..] + b);
      CancelLine(lines[0], lines[1..] + a, lines[1..] + b);
      CancelLines(lines[1..], a, b);
    }
  }

  lemma CancelAll(a: Definition, b: Definition)
    requires Accepted(a) && Accepted(b) && Joined(Lines(a)) == Joined(Lines(b))
    ensures a.agentLabel == b.agentLabel && a.programArguments == b.programArguments
    ensures Joined(FromDirectory(a)) == Joined(FromDirectory(b))
  {
    var key := KeyLine("ProgramArguments", "  ");
    var a2, b2 := ["  <array>"] + FromArguments(a), ["  <array>"] + FromArguments(b);
    var a1, b1 := [key] + a2, [key] + b2;
    CancelLines(HEADER, KeyValue("Label", a.agentLabel, "  ") + a1, KeyValue("Label", b.agentLabel, "  ") + b1);
    CancelKeyValue("Label", a.agentLabel, b.agentLabel, "  ", a1, b1);
    CancelLine(key, a2, b2);
    CancelLine("  <array>", FromArguments(a), FromArguments(b));
    CancelArguments(a.programArguments, b.programArguments, FromDirectory(a), FromDirectory(b));
  }

  lemma ServiceIdIsNotRendered(d: Definition, id: ServiceId)
    ensures Render(d.(serviceId := id)) == Render(d)
  {
    var e := d.(serviceId := id);
    if Accepted(d) {
      assert Accepted(e) && FromEnvironment(e) == FromEnvironment(d);
      assert FromOutput(e) == FromOutput(d);
      assert FromInterval(e) == FromInterval(d);
      assert FromDirectory(e) == FromDirectory(d);
      assert FromArguments(e) == FromArguments(d);
    }
  }

  /** Two accepted definitions have the same text exactly when they agree in every field
      but `serviceId`. */
  lemma TextIdentifiesDefinition(a: Definition, b: Definition)
    requires Accepted(a) && Accepted(b)
    ensures Render(a) == Render(b) <==> a.(serviceId := b.serviceId) == b
  {
    ServiceIdIsNotRendered(a, b.serviceId);
    if Render(a) == Render(b) { SameTextSameFields(a, b); }
  }

  lemma SameTextSameFields(a: Definition, b: Definition)
    requires Accepted(a) && Accepted(b) && Joined(Lines(a)) == Joined(Lines(b))
    ensures a.(serviceId := b.serviceId) == b
  {
    CancelAll(a, b);
    CancelDirectory(a, b);
    CancelInterval(a, b);
    CancelOutput(a, b);
    if a.startInterval.Some? {
      assert a.startInterval.value == b.startInterval.value;
    }
  }
}
