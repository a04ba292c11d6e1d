/** What launchd reads: a reader for the XML of a property list, and what it finds in the
    launch agent's. */
module PlistReader {
  import opened Options
  import opened Plist
  import opened PlistInjective

  datatype Value =
    | Text(s: string)
    | Number(digits: string)
    | Flag(b: bool)
    | Array(items: seq<Value>)
    | Dict(members: seq<Member>)

  datatype Member = Member(key: string, value: Value)

  datatype Reading<+T> = Refused | Reading(value: T, rest: string)

  // ------------------------------------------------------------------ the reader

  function Trim(s: string): (r: string)
    ensures |r| <= |s|
  {
    if s != [] && (s[0] == ' ' || s[0] == '\n') then Trim(s[1..]) else s
  }

  predicate Starts(s: string, p: string) { |s| >= |p| && s[..|p|] == p }

  /** The characters before the first `c`. */
  function Before(s: string, c: char): (n: nat)
    ensures n <= |s|
  {
    if s == [] || s[0] == c then 0 else 1 + Before(s[1..], c)
  }

  /** The character data up to its closing tag. */
  function ReadText(s: string, close: string): (r: Reading<string>)
    ensures r.Reading? ==> |r.rest| <= |s|
  {
    var n := Before(s, '<');
    if Starts(s[n..], close) then Reading(Decode(s[..n]), s[n + |close|..]) else Refused
  }

  function ReadString(s: string): (r: Reading<Value>)
    ensures r.Reading? ==> |r.rest| < |s|
  {
    if !Starts(s, "<string>") then Refused
    else
      var text := ReadText(s[8..], "</string>");
      if text.Refused? then Refused else Reading(Text(text.value), text.rest)
  }

  function ReadInteger(s: string): (r: Reading<Value>)
    ensures r.Reading? ==> |r.rest| < |s|
  {
    if !Starts(s, "<integer>") then Refused
    else
      var n := Before(s[9..], '<');
      var text := s[9..][..n];
      if Starts(s[9 + n..], "</integer>") then Reading(Number(text), s[9 + n + 10..]) else Refused
  }

  function ReadFlag(s: string): (r: Reading<Value>)
    ensures r.Reading? ==> |r.rest| < |s|
  {
    if Starts(s, "<true/>") then Reading(Flag(true), s[7..])
    else if Starts(s, "<false/>") then Reading(Flag(false), s[8..])
    else Refused
  }

  /** One element; the second character tells which one to expect. */
  function ReadValue(s: string): (r: Reading<Value>)
    ensures r.Reading? ==> |r.rest| < |s|
    decreases |s|, 0
  {
    if |s| < 2 then Refused
    else if s[1] == 's' then ReadString(s)
    else if s[1] == 'i' then ReadInteger(s)
    else if s[1] == 'a' then
      if !Starts(s, "<array>") then Refused
      else
        var items := ReadItems(s[7..]);
        if items.Refused? then Refused else Reading(Array(items.value), items.rest)
    else if s[1] == 'd' then
      if !Starts(s, "<dict>") then Refused
      else
        var members := ReadMembers(s[6..]);
        if members.Refused? then Refused else Reading(Dict(members.value), members.rest)
    else ReadFlag(s)
  }

  function ReadItems(all: string): (r: Reading<seq<Value>>)
    ensures r.Reading? ==> |r.rest| < |all|
    decreases |all|, 1
  {
    var s := Trim(all);
    if Starts(s, "</array>") then Reading([], s[8..])
    else
      var first := ReadValue(s);
      if first.Refused? then Refused
      else
        var more := ReadItems(first.rest);
        if more.Refused? then Refused else Reading([first.value] + more.value, more.rest)
  }

  function ReadKey(s: string): (r: Reading<string>)
    ensures r.Reading? ==> |r.rest| < |s|
  {
    if !Starts(s, "<key>") then Refused else ReadText(s[5..], "</key>")
  }

  function ReadMembers(all: string): (r: Reading<seq<Member>>)
    ensures r.Reading? ==> |r.rest| < |all|
    decreases |all|, 1
  {
    var s := Trim(all);
    if Starts(s, "</dict>") then Reading([], s[7..])
    else
      var key := ReadKey(s);
      if key.Refused? then Refused
      else
        var value := ReadValue(Trim(key.rest));
        if value.Refused? then Refused
        else
          var more := ReadMembers(value.rest);
          if more.Refused? then Refused else Reading([Member(key.value, value.value)] + more.value, more.rest)
  }

  /** Behind the declarations and comments in front of the root element. */
  function Root(all: string): (r: string)
    decreases |all|
  {
    var s := Trim(all);
    if Starts(s, "<?") || Starts(s, "<!") then
      var n := Before(s, '>');
      if n < |s| then Root(s[n + 1..]) else s
    else s
  }

  const OPENING := "<plist version=\"1.0\">"

  function Read(s: string): Option<Value> {
    var root := Root(s);
    if !Starts(root, OPENING) then None
    else
      var r := ReadValue(Trim(root[|OPENING|..]));
      if r.Reading? && Starts(Trim(r.rest), "</plist>") && Trim(Trim(r.rest)[8..]) == "" then Some(r.value) else None
  }

  // -------------------------------------------------------------------- elements

  predicate Blank(s: string) { forall i :: 0 <= i < |s| ==> s[i] == ' ' || s[i] == '\n' }

  lemma {:induction false} TrimBlank(blank: string, s: string)
    requires Blank(blank) && s != "" && s[0] != ' ' && s[0] != '\n'
    ensures Trim(blank + s) == s
  {
    if blank == "" {
      assert blank + s == s;
    } else {
      assert (blank + s)[1..] == blank[1..] + s;
      TrimBlank(blank[1..], s);
    }
  }

  lemma {:induction false} BeforeIs(u: string, c: char, s: string)
    requires c !in u && s != "" && s[0] == c
    ensures Before(u + s, c) == |u|
  {
    if u == "" {
      assert u + s == s;
    } else {
      assert (u + s)[1..] == u[1..] + s;
      BeforeIs(u[1..], c, s);
    }
  }

  lemma StartsWith(p: string, s: string)
    ensures Starts(p + s, p) && (p + s)[|p|..] == s
  {}

  lemma StartsAt(s: string, p: string, i: nat)
    requires Starts(s, p) && i < |p|
    ensures s[i] == p[i]
  {
    assert s[..|p|][i] == s[i];
  }

  lemma StartsUnlike(s: string, p: string, q: string, i: nat)
    requires Starts(s, p) && i < |p| && i < |q| && p[i] != q[i]
    ensures !Starts(s, q)
  {
    assert s[..|p|][i] == s[i];
    assert |s| >= |q| ==> s[..|q|][i] == s[i];
  }

  lemma TextReads(u: string, close: string, s: string)
    requires '<' !in u && close != "" && close[0] == '<'
    ensures ReadText(u + (close + s), close) == Reading(Decode(u), s)
  {
    var x := u + (close + s);
    BeforeIs(u, '<', close + s);
    StartsWith(close, s);
    assert x[..|u|] == u && x[|u|..] == close + s;
    assert x[|u| + |close|..] == s;
  }

  lemma StringReads(u: string, s: string)
    ensures ReadValue("<string>" + (EscapeXml(u) + ("</string>" + s))) == Reading(Text(u), s)
  {
    EscapedIsPlain(u);
    DecodeUndoesEscape(u);
    TextReads(EscapeXml(u), "</string>", s);
    StartsWith("<string>", EscapeXml(u) + ("</string>" + s));
  }

  lemma IntegerReads(u: NumberText, s: string)
    ensures ReadValue("<integer>" + (u + ("</integer>" + s))) == Reading(Number(u), s)
  {
    var x := "<integer>" + (u + ("</integer>" + s));
    StartsWith("<integer>", u + ("</integer>" + s));
    BeforeIs(u, '<', "</integer>" + s);
    StartsWith("</integer>", s);
    assert x[9..][..|u|] == u && x[9 + |u|..] == "</integer>" + s;
    assert x[9 + |u| + 10..] == s;
  }

  function FlagText(b: bool): string { "<" + (if b then "true" else "false") + "/>" }

  lemma FlagReads(b: bool, s: string)
    ensures ReadValue(FlagText(b) + s) == Reading(Flag(b), s)
  {
    var x := FlagText(b) + s;
    StartsWith(FlagText(b), s);
    if b { assert FlagText(b) == "<true/>"; } else { assert FlagText(b) == "<false/>" && x[1] == 'f'; }
  }

  /** A key is plain when it needs no escaping. */
  lemma KeyReads(key: string, s: string)
    requires forall i :: 0 <= i < |key| ==> key[i] != '<' && key[i] != '&'
    ensures ReadKey("<key>" + (key + ("</key>" + s))) == Reading(key, s)
  {
    StartsWith("<key>", key + ("</key>" + s));
    TextReads(key, "</key>", s);
    PlainDecodes(key);
  }

  lemma {:induction false} PlainDecodes(s: string)
    requires '&' !in s
    ensures Decode(s) == s
  {
    if s != "" {
      assert DecodeOne(s) == (s[0], 1);
      PlainDecodes(s[1..]);
    }
  }

  // ----------------------------------------------------------------- lines of members

  predicate PlainKey(key: string) { forall i :: 0 <= i < |key| ==> key[i] != '<' && key[i] != '&' }

  /** The rest of a text from behind a line on. */
  function Behind(lines: seq<string>): string { "\n" + Joined(lines) }

  lemma BehindTrims(lines: seq<string>)
    ensures Trim(Behind(lines)) == Trim(Joined(lines))
  {
    assert Behind(lines)[1..] == Joined(lines);
  }

  lemma MembersBehind(lines: seq<string>)
    ensures ReadMembers(Joined(lines)).Reading? ==> ReadMembers(Behind(lines)) == ReadMembers(Joined(lines))
  {
    BehindTrims(lines);
  }

  lemma ItemsBehind(lines: seq<string>)
    ensures ReadItems(Joined(lines)).Reading? ==> ReadItems(Behind(lines)) == ReadItems(Joined(lines))
  {
    BehindTrims(lines);
  }

  lemma Regroup(a: string, b: string, c: string, d: string)
    ensures a + b + c + d == a + (b + (c + d))
  {
    assert a + b + c + d == (a + b) + (c + d);
  }

  /** A key line and the element behind it, which reaches up to the lines of `more`. */
  lemma MemberFirst(key: string, indent: string, element: string, value: Value, next: seq<string>, more: seq<string>)
    requires PlainKey(key) && Blank(indent) && next != []
    requires element != "" && element[0] == '<' && ReadValue(element + Behind(next)) == Reading(value, Behind(more))
    requires ReadMembers(Joined(more)).Reading?
    ensures var rest := ReadMembers(Joined(more));
      ReadMembers(Joined([KeyLine(key, indent)] + ([indent + element] + next)))
      == Reading([Member(key, value)] + rest.value, rest.rest)
  {
    var lines := [indent + element] + next;
    KeyFirst(key, indent, lines);
    ElementFirst(indent, element, next);
    MembersBehind(more);
    MembersStep(Joined([KeyLine(key, indent)] + lines), key, Behind(lines), value, Behind(more));
  }

  lemma KeyFirst(key: string, indent: string, lines: seq<string>)
    requires PlainKey(key) && Blank(indent) && lines != []
    ensures var s := Trim(Joined([KeyLine(key, indent)] + lines));
      !Starts(s, "</dict>") && ReadKey(s) == Reading(key, Behind(lines))
  {
    var body := "<key>" + (key + ("</key>" + Behind(lines)));
    JoinFirst(KeyLine(key, indent), lines);
    KeyLineThen(key, indent, Behind(lines));
    TrimBlank(indent, body);
    NoEnd(body);
    KeyReads(key, Behind(lines));
  }

  lemma ElementFirst(indent: string, element: string, next: seq<string>)
    requires Blank(indent) && next != [] && element != "" && element[0] == '<'
    ensures Trim(Behind([indent + element] + next)) == element + Behind(next)
  {
    JoinFirst(indent + element, next);
    Indented(indent, element, Behind(next));
    TrimBlank("\n" + indent, element + Behind(next));
  }

  lemma KeyLineThen(key: string, indent: string, s: string)
    ensures KeyLine(key, indent) + s == indent + ("<key>" + (key + ("</key>" + s)))
  {
    var k := "<key>" + (key + ("</key>" + s));
    assert indent + "<key>" + key + "</key>" + s == indent + ("<key>" + key + "</key>" + s);
    Regroup("<key>", key, "</key>", s);
  }

  lemma Indented(indent: string, element: string, s: string)
    ensures "\n" + (indent + element + s) == ("\n" + indent) + (element + s)
  {}

  lemma NoEnd(body: string)
    requires Starts(body, "<key>")
    ensures !Starts(body, "</dict>") && body[0] == '<'
  {
    assert body[1] == 'k';
  }

  lemma MembersStep(x: string, key: string, afterKey: string, value: Value, rest: string)
    requires !Starts(Trim(x), "</dict>") && ReadKey(Trim(x)) == Reading(key, afterKey)
    requires ReadValue(Trim(afterKey)) == Reading(value, rest) && ReadMembers(rest).Reading?
    ensures ReadMembers(x) == Reading([Member(key, value)] + ReadMembers(rest).value, ReadMembers(rest).rest)
  {}

  /** The closing tag of a dictionary. */
  lemma MembersEnd(indent: string, more: seq<string>)
    requires Blank(indent) && more != []
    ensures ReadMembers(Joined([indent + "</dict>"] + more)) == Reading([], Behind(more))
  {
    JoinFirst(indent + "</dict>", more);
    assert indent + "</dict>" + Behind(more) == indent + ("</dict>" + Behind(more));
    TrimBlank(indent, "</dict>" + Behind(more));
    StartsWith("</dict>", Behind(more));
  }

  lemma StringMember(key: string, indent: string, u: string, more: seq<string>)
    requires PlainKey(key) && Blank(indent) && more != [] && ReadMembers(Joined(more)).Reading?
    ensures var rest := ReadMembers(Joined(more));
      ReadMembers(Joined(KeyValue(key, u, indent) + more)) == Reading([Member(key, Text(u))] + rest.value, rest.rest)
  {
    var element := "<string>" + EscapeXml(u) + "</string>";
    assert StringElement(u, indent) == indent + element;
    Regroup("<string>", EscapeXml(u), "</string>", Behind(more));
    StringReads(u, Behind(more));
    MemberFirst(key, indent, element, Text(u), more, more);
    TwoLines(KeyLine(key, indent), StringElement(u, indent), more);
  }

  lemma FlagMember(key: string, b: bool, more: seq<string>)
    requires PlainKey(key) && more != [] && ReadMembers(Joined(more)).Reading?
    ensures var rest := ReadMembers(Joined(more));
      ReadMembers(Joined(BooleanValue(key, b) + more)) == Reading([Member(key, Flag(b))] + rest.value, rest.rest)
  {
    FlagReads(b, Behind(more));
    assert "  <" + (if b then "true" else "false") + "/>" == "  " + FlagText(b);
    MemberFirst(key, "  ", FlagText(b), Flag(b), more, more);
    TwoLines(KeyLine(key, "  "), "  " + FlagText(b), more);
  }

  // ---------------------------------------------------------------- the arguments

  function Texts(values: seq<string>): seq<Value> {
    if values == [] then [] else [Text(values[0])] + Texts(values[1..])
  }

  lemma ItemsEnd(indent: string, more: seq<string>)
    requires Blank(indent) && more != []
    ensures ReadItems(Joined([indent + "</array>"] + more)) == Reading([], Behind(more))
  {
    JoinFirst(indent + "</array>", more);
    assert indent + "</array>" + Behind(more) == indent + ("</array>" + Behind(more));
    TrimBlank(indent, "</array>" + Behind(more));
    StartsWith("</array>", Behind(more));
  }

  lemma StringItem(indent: string, u: string, more: seq<string>)
    requires Blank(indent) && more != [] && ReadItems(Joined(more)).Reading?
    ensures var rest := ReadItems(Joined(more));
      ReadItems(Joined([StringElement(u, indent)] + more)) == Reading([Text(u)] + rest.value, rest.rest)
  {
    var x := Joined([StringElement(u, indent)] + more);
    var element := "<string>" + EscapeXml(u) + "</string>";
    JoinFirst(StringElement(u, indent), more);
    assert StringElement(u, indent) + Behind(more) == indent + (element + Behind(more));
    Regroup("<string>", EscapeXml(u), "</string>", Behind(more));
    TrimBlank(indent, element + Behind(more));
    StringReads(u, Behind(more));
    ItemsBehind(more);
    ItemsStep(x, Text(u), Behind(more));
  }

  lemma ItemsStep(x: string, value: Value, rest: string)
    requires Starts(Trim(x), "<string>") && ReadValue(Trim(x)) == Reading(value, rest) && ReadItems(rest).Reading?
    ensures ReadItems(x) == Reading([value] + ReadItems(rest).value, ReadItems(rest).rest)
  {
    StartsAt(Trim(x), "<string>", 1);
    StartsUnlike(Trim(x), "<string>", "</array>", 1);
  }

  lemma {:induction false} ArgumentsRead(values: seq<string>, more: seq<string>)
    requires more != []
    ensures ReadItems(Joined(Arguments(values) + (["  </array>"] + more))) == Reading(Texts(values), Behind(more))
  {
    var lines := Arguments(values) + (["  </array>"] + more);
    if values == [] {
      ItemsEnd("  ", more);
      assert "  " + "</array>" == "  </array>";
      assert lines == ["  </array>"] + more;
    } else {
      ArgumentsRead(values[1..], more);
      var rest := Arguments(values[1..]) + (["  </array>"] + more);
      ArgumentsFirst(values, ["  </array>"] + more);
      StringItem("    ", values[0], rest);
    }
  }

  // ------------------------------------------------------------- the whole property list

  function UmaskMembers(d: Definition): seq<Member> { [Member("Umask", Text(d.umask))] }

  function EnvironmentValue(d: Definition): Value
    requires Accepted(d)
  {
    Dict([Member("LOCALINK_CONFIG_ROOT", Text(d.environment["LOCALINK_CONFIG_ROOT"])),
          Member("LOCALINK_LOG_ROOT", Text(d.environment["LOCALINK_LOG_ROOT"])),
          Member("LOCALINK_STATE_ROOT", Text(d.environment["LOCALINK_STATE_ROOT"]))])
  }

  function OutputMembers(d: Definition): seq<Member>
    requires Accepted(d)
  {
    [Member("StandardOutPath", Text(d.standardOutPath))] + ([Member("StandardErrorPath", Text(d.standardErrorPath))]
      + ([Member("EnvironmentVariables", EnvironmentValue(d))] + UmaskMembers(d)))
  }

  function IntervalMembers(d: Definition): seq<Member>
    requires Accepted(d)
  {
    (if d.startInterval.Some? then [Member("StartInterval", Number(d.startInterval.value.text))] else [])
    + OutputMembers(d)
  }

  function DirectoryMembers(d: Definition): seq<Member>
    requires Accepted(d)
  {
    [Member("WorkingDirectory", Text(d.workingDirectory))] + ([Member("RunAtLoad", Flag(d.runAtLoad))]
      + ([Member("KeepAlive", Flag(d.keepAlive))] + IntervalMembers(d)))
  }

  /** The dictionary with every field of the definition under its key. */
  function Fields(d: Definition): seq<Member>
    requires Accepted(d)
  {
    [Member("Label", Text(d.agentLabel))] + ([Member("ProgramArguments", Array(Texts(d.programArguments)))]
      + DirectoryMembers(d))
  }

  /** What comes behind the outer dictionary. */
  function Closing(): string { Behind(["</plist>", ""]) }

  lemma UmaskReads(d: Definition)
    ensures ReadMembers(Joined(FromUmask(d))) == Reading(UmaskMembers(d), Closing())
  {
    assert "" + "</dict>" == "</dict>";
    assert ["</dict>", "</plist>", ""] == ["</dict>"] + ["</plist>", ""];
    MembersEnd("", ["</plist>", ""]);
    StringMember("Umask", "  ", d.umask, ["</dict>", "</plist>", ""]);
    assert [Member("Umask", Text(d.umask))] + [] == UmaskMembers(d);
  }

  /** The lines of three paths, up to the end of their dictionary. */
  lemma PathsRead(a: string, u: string, b: string, v: string, c: string, w: string, more: seq<string>)
    requires PlainKey(a) && PlainKey(b) && PlainKey(c) && more != []
    ensures var end := ["  </dict>"] + more;
      ReadMembers(Joined(KeyValue(a, u, "    ") + (KeyValue(b, v, "    ") + (KeyValue(c, w, "    ") + end))))
      == Reading([Member(a, Text(u)), Member(b, Text(v)), Member(c, Text(w))], Behind(more))
  {
    var end := ["  </dict>"] + more;
    assert "  " + "</dict>" == "  </dict>";
    MembersEnd("  ", more);
    StringMember(c, "    ", w, end);
    StringMember(b, "    ", v, KeyValue(c, w, "    ") + end);
    StringMember(a, "    ", u, KeyValue(b, v, "    ") + (KeyValue(c, w, "    ") + end));
    ThreeMembers(Member(a, Text(u)), Member(b, Text(v)), Member(c, Text(w)));
  }

  lemma ThreeMembers(a: Member, b: Member, c: Member)
    ensures [a] + ([b] + ([c] + [])) == [a, b, c]
  {}

  lemma DictReads(lines: seq<string>)
    requires ReadMembers(Joined(lines)).Reading?
    ensures ReadValue("<dict>" + Behind(lines))
         == Reading(Dict(ReadMembers(Joined(lines)).value), ReadMembers(Joined(lines)).rest)
  {
    StartsWith("<dict>", Behind(lines));
    MembersBehind(lines);
  }

  lemma ArrayReads(lines: seq<string>)
    requires ReadItems(Joined(lines)).Reading?
    ensures ReadValue("<array>" + Behind(lines))
         == Reading(Array(ReadItems(Joined(lines)).value), ReadItems(Joined(lines)).rest)
  {
    StartsWith("<array>", Behind(lines));
    ItemsBehind(lines);
  }

  /** The lines are the rest of the outer dictionary, and read as these members. */
  ghost predicate RestReads(lines: seq<string>, ms: seq<Member>) {
    lines != [] && ReadMembers(Joined(lines)) == Reading(ms, Closing())
  }

  lemma KeysArePlain()
    ensures PlainKey("Label") && PlainKey("ProgramArguments") && PlainKey("WorkingDirectory") && PlainKey("RunAtLoad")
    ensures PlainKey("KeepAlive") && PlainKey("StartInterval") && PlainKey("StandardOutPath") && PlainKey("Umask")
    ensures PlainKey("StandardErrorPath") && PlainKey("EnvironmentVariables")
    ensures PlainKey(CONFIG_ROOT) && PlainKey(LOG_ROOT) && PlainKey(STATE_ROOT)
  {}

  lemma StringRest(key: string, u: string, more: seq<string>, ms: seq<Member>)
    requires PlainKey(key) && RestReads(more, ms)
    ensures RestReads(KeyValue(key, u, "  ") + more, [Member(key, Text(u))] + ms)
  {
    StringMember(key, "  ", u, more);
  }

  lemma FlagRest(key: string, b: bool, more: seq<string>, ms: seq<Member>)
    requires PlainKey(key) && RestReads(more, ms)
    ensures RestReads(BooleanValue(key, b) + more, [Member(key, Flag(b))] + ms)
  {
    FlagMember(key, b, more);
  }

  lemma IntegerRest(key: string, u: NumberText, more: seq<string>, ms: seq<Member>)
    requires PlainKey(key) && RestReads(more, ms)
    ensures RestReads([KeyLine(key, "  ")] + ([IntegerLine(u)] + more), [Member(key, Number(u))] + ms)
  {
    IntegerLineIsElement(u);
    Regroup("<integer>", u, "</integer>", Behind(more));
    IntegerReads(u, Behind(more));
    MemberFirst(key, "  ", "<integer>" + u + "</integer>", Number(u), more, more);
  }

  lemma IntegerLineIsElement(u: NumberText)
    ensures IntegerLine(u) == "  " + ("<integer>" + u + "</integer>")
  {
    assert "  " + "<integer>" == "  <integer>";
  }

  lemma DictRest(key: string, inner: seq<string>, found: seq<Member>, more: seq<string>, ms: seq<Member>)
    requires PlainKey(key) && RestReads(more, ms)
    requires inner != [] && ReadMembers(Joined(inner)) == Reading(found, Behind(more))
    ensures RestReads([KeyLine(key, "  ")] + (["  <dict>"] + inner), [Member(key, Dict(found))] + ms)
  {
    DictReads(inner);
    assert "  " + "<dict>" == "  <dict>";
    MemberFirst(key, "  ", "<dict>", Dict(found), inner, more);
  }

  lemma ArgumentsRest(key: string, values: seq<string>, more: seq<string>, ms: seq<Member>)
    requires PlainKey(key) && RestReads(more, ms)
    ensures RestReads([KeyLine(key, "  ")] + (["  <array>"] + (Arguments(values) + (["  </array>"] + more))),
                      [Member(key, Array(Texts(values)))] + ms)
  {
    var inner := Arguments(values) + (["  </array>"] + more);
    ArgumentsRead(values, more);
    ArrayReads(inner);
    assert "  " + "<array>" == "  <array>";
    MemberFirst(key, "  ", "<array>", Array(Texts(values)), inner, more);
  }

  lemma EnvironmentReads(d: Definition)
    requires Accepted(d)
    ensures RestReads(FromEnvironment(d), [Member("EnvironmentVariables", EnvironmentValue(d))] + UmaskMembers(d))
  {
    KeysArePlain();
    UmaskReads(d);
    EnvironmentLinesRead(d);
    DictRest("EnvironmentVariables", EnvironmentLines(d), EnvironmentValue(d).members, FromUmask(d), UmaskMembers(d));
    EnvironmentIs(d);
  }

  lemma EnvironmentIs(d: Definition)
    requires Accepted(d)
    ensures FromEnvironment(d) == [KeyLine("EnvironmentVariables", "  ")] + (["  <dict>"] + EnvironmentLines(d))
  {
    assert KeyLine("EnvironmentVariables", "  ") == "  <key>EnvironmentVariables</key>";
  }

  lemma EnvironmentLinesRead(d: Definition)
    requires Accepted(d)
    ensures ReadMembers(Joined(EnvironmentLines(d))) == Reading(EnvironmentValue(d).members, Behind(FromUmask(d)))
  {
    var e := d.environment;
    KeysArePlain();
    PathsRead(CONFIG_ROOT, e[CONFIG_ROOT], LOG_ROOT, e[LOG_ROOT], STATE_ROOT, e[STATE_ROOT], FromUmask(d));
  }

  function EnvironmentLines(d: Definition): seq<string>
    requires Accepted(d)
  {
    var e := d.environment;
    KeyValue(CONFIG_ROOT, e[CONFIG_ROOT], "    ") + (KeyValue(LOG_ROOT, e[LOG_ROOT], "    ")
      + (KeyValue(STATE_ROOT, e[STATE_ROOT], "    ") + (["  </dict>"] + FromUmask(d))))
  }

  lemma OutputReads(d: Definition)
    requires Accepted(d)
    ensures RestReads(FromOutput(d), OutputMembers(d))
  {
    EnvironmentReads(d);
    PathLines(d.standardOutPath, d.standardErrorPath, FromEnvironment(d),
              [Member("EnvironmentVariables", EnvironmentValue(d))] + UmaskMembers(d));
  }

  lemma PathLines(u: string, v: string, more: seq<string>, ms: seq<Member>)
    requires RestReads(more, ms)
    ensures RestReads(KeyValue("StandardOutPath", u, "  ") + (KeyValue("StandardErrorPath", v, "  ") + more),
                      [Member("StandardOutPath", Text(u))] + ([Member("StandardErrorPath", Text(v))] + ms))
  {
    KeysArePlain();
    StringRest("StandardErrorPath", v, more, ms);
    StringRest("StandardOutPath", u, KeyValue("StandardErrorPath", v, "  ") + more,
               [Member("StandardErrorPath", Text(v))] + ms);
  }

  lemma IntervalReads(d: Definition)
    requires Accepted(d)
    ensures RestReads(FromInterval(d), IntervalMembers(d))
  {
    OutputReads(d);
    if d.startInterval.None? {
      assert [] + OutputMembers(d) == OutputMembers(d);
    } else {
      KeysArePlain();
      IntegerRest("StartInterval", d.startInterval.value.text, FromOutput(d), OutputMembers(d));
    }
  }

  lemma SwitchLines(u: string, load: bool, alive: bool, more: seq<string>, ms: seq<Member>)
    requires RestReads(more, ms)
    ensures RestReads(
      KeyValue("WorkingDirectory", u, "  ")
        + (BooleanValue("RunAtLoad", load) + (BooleanValue("KeepAlive", alive) + more)),
      [Member("WorkingDirectory", Text(u))]
        + ([Member("RunAtLoad", Flag(load))] + ([Member("KeepAlive", Flag(alive))] + ms)))
  {
    KeysArePlain();
    FlagRest("KeepAlive", alive, more, ms);
    var lines, members := BooleanValue("KeepAlive", alive) + more, [Member("KeepAlive", Flag(alive))] + ms;
    FlagRest("RunAtLoad", load, lines, members);
    StringRest("WorkingDirectory", u, BooleanValue("RunAtLoad", load) + lines,
               [Member("RunAtLoad", Flag(load))] + members);
  }

  lemma DirectoryReads(d: Definition)
    requires Accepted(d)
    ensures RestReads(FromDirectory(d), DirectoryMembers(d))
  {
    IntervalReads(d);
    SwitchLines(d.workingDirectory, d.runAtLoad, d.keepAlive, FromInterval(d), IntervalMembers(d));
  }

  /** The lines behind the header. */
  function Body(d: Definition): seq<string>
    requires Accepted(d)
  {
    KeyValue("Label", d.agentLabel, "  ")
    + ([KeyLine("ProgramArguments", "  ")] + (["  <array>"] + FromArguments(d)))
  }

  lemma LabelLines(u: string, values: seq<string>, more: seq<string>, ms: seq<Member>)
    requires RestReads(more, ms)
    ensures RestReads(
      KeyValue("Label", u, "  ") + ([KeyLine("ProgramArguments", "  ")]
        + (["  <array>"] + (Arguments(values) + (["  </array>"] + more)))),
      [Member("Label", Text(u))] + ([Member("ProgramArguments", Array(Texts(values)))] + ms))
  {
    KeysArePlain();
    ArgumentsRest("ProgramArguments", values, more, ms);
    StringRest("Label", u,
               [KeyLine("ProgramArguments", "  ")] + (["  <array>"] + (Arguments(values) + (["  </array>"] + more))),
               [Member("ProgramArguments", Array(Texts(values)))] + ms);
  }

  lemma BodyIsRead(d: Definition)
    requires Accepted(d)
    ensures RestReads(Body(d), Fields(d))
  {
    DirectoryReads(d);
    LabelLines(d.agentLabel, d.programArguments, FromDirectory(d), DirectoryMembers(d));
  }

  // ------------------------------------------------------------------- the header

  /** A declaration or comment line in front of the root. */
  lemma PrologLine(u: string, more: seq<string>)
    requires Starts(u, "<?") || Starts(u, "<!")
    requires '>' !in u && more != []
    ensures Root(Joined([u + ">"] + more)) == Root(Joined(more))
  {
    var x := Joined([u + ">"] + more);
    JoinFirst(u + ">", more);
    assert x == u + (">" + Behind(more));
    BeforeIs(u, '>', ">" + Behind(more));
    assert Trim(x) == x && x[..2] == u[..2];
    assert x[|u| + 1..] == Behind(more);
    BehindTrims(more);
    RootTrims(Behind(more), Joined(more));
  }

  lemma RootTrims(a: string, b: string)
    requires Trim(a) == Trim(b)
    ensures Root(a) == Root(b)
  {}

  lemma HeaderReads(more: seq<string>)
    requires more != []
    ensures Root(Joined(HEADER + more)) == OPENING + Behind(["<dict>"] + more)
  {
    var root := [OPENING] + (["<dict>"] + more);
    var comment := [COMMENT + ">"] + root;
    HeaderLines(more);
    PlainXml();
    PlainComment();
    PrologLine(XML, [DOCTYPE + PUBLIC_ID + SYSTEM_ID + ">"] + comment);
    PlainDoctype();
    PrologLine(DOCTYPE + PUBLIC_ID + SYSTEM_ID, comment);
    PrologLine(COMMENT, root);
    RootStays(["<dict>"] + more);
  }

  lemma RootStays(more: seq<string>)
    requires more != []
    ensures Root(Joined([OPENING] + more)) == OPENING + Behind(more)
  {
    JoinFirst(OPENING, more);
    var x := OPENING + Behind(more);
    assert x[0] == '<' && x[1] == 'p';
  }

  lemma HeaderLines(more: seq<string>)
    ensures HEADER + more ==
      [XML + ">"] + ([DOCTYPE + PUBLIC_ID + SYSTEM_ID + ">"]
        + ([COMMENT + ">"] + ([OPENING] + (["<dict>"] + more))))
  {}

  lemma PlainXml()
    ensures '>' !in XML && Starts(XML, "<?")
  {
    assert '>' !in "<?xml version=\"1.0\"" && '>' !in " encoding=\"UTF-8\"?";
    assert XML[..2] == [XML[0], XML[1]];
  }

  lemma PlainComment()
    ensures '>' !in COMMENT && Starts(COMMENT, "<!")
  {
    assert '>' !in "<!-- Managed" && '>' !in " by Localink --";
    assert COMMENT[..2] == [COMMENT[0], COMMENT[1]];
  }

  lemma PlainDoctype()
    ensures '>' !in DOCTYPE + PUBLIC_ID + SYSTEM_ID && Starts(DOCTYPE + PUBLIC_ID + SYSTEM_ID, "<!")
  {
    assert '>' !in DOCTYPE && '>' !in PUBLIC_ID;
    assert '>' !in "\"http://www.apple.com/" && '>' !in "DTDs/PropertyList-1.0.dtd\"";
  }

  // ------------------------------------------------------------------- main result

  /** The rendered text is a property list in which every field of the definition stands
      under its own key, with its own value. */
  lemma RenderedTextIsRead(d: Definition)
    requires Accepted(d)
    ensures Render(d).Some? && Read(Render(d).value) == Some(Dict(Fields(d)))
  {
    BodyIsRead(d);
    assert Lines(d) == HEADER + Body(d);
    HeaderReads(Body(d));
    RootIsRead(Joined(Lines(d)), Body(d), Fields(d));
  }

  lemma RootIsRead(s: string, body: seq<string>, ms: seq<Member>)
    requires RestReads(body, ms) && Root(s) == OPENING + Behind(["<dict>"] + body)
    ensures Read(s) == Some(Dict(ms))
  {
    StartsWith(OPENING, Behind(["<dict>"] + body));
    JoinFirst("<dict>", body);
    DictReads(body);
    BehindTrims(["<dict>"] + body);
    var x := "<dict>" + Behind(body);
    assert x[0] == '<' && Trim(x) == x;
    ClosingReads();
  }

  lemma ClosingReads()
    ensures Starts(Trim(Closing()), "</plist>") && Trim(Trim(Closing())[8..]) == ""
  {
    assert ["</plist>", ""][1..] == [""];
    assert Joined(["</plist>", ""]) == "</plist>" + "\n" + "";
    var x := "</plist>" + "\n" + "";
    assert Closing()[1..] == x && Trim(Closing()) == Trim(x) == x;
    assert x[8..] == "\n" && "\n"[1..] == "";
  }
}
