/** add_missing_keys of update-policy.py: an installer may add the connectivity keys an
    administrator's policy lacks, and nothing else.  Texts are decoded strings. */
module Policy {
  import opened Wrappers
  import ClipboardText

  const KEYS := ["internet_check_enabled", "internet_check_hosts",
                 "internet_check_interval_seconds", "internet_check_timeout_ms"]
  const LIMIT := 32768

  // ------------------------------------------------------------------- text

  /** The white space of \s and lstrip. */
  predicate Space(c: char) {
    var n := c as int;
    || 9 <= n <= 13 || 28 <= n <= 32 || n == 0x85 || n == 0xa0 || n == 0x1680 || 0x2000 <= n <= 0x200a
    || n == 0x2028 || n == 0x2029 || n == 0x202f || n == 0x205f || n == 0x3000
  }

  /** The characters at which splitlines ends a line. */
  predicate Break(c: char) {
    var n := c as int;
    10 <= n <= 13 || 28 <= n <= 30 || n == 0x85 || n == 0x2028 || n == 0x2029
  }

  /** Where the first line ends. */
  function LineEnd(s: string): (n: nat)
    requires s != ""
    ensures 0 < n <= |s|
  {
    if Break(s[0]) then (if s[0] == '\r' && |s| > 1 && s[1] == '\n' then 2 else 1)
    else if |s| == 1 then 1
    else 1 + LineEnd(s[1..])
  }

  /** splitlines(keepends=True) */
  function Lines(s: string): seq<string> {
    if s == "" then [] else [s[..LineEnd(s)]] + Lines(s[LineEnd(s)..])
  }

  function Join(lines: seq<string>): string {
    if lines == [] then "" else lines[0] + Join(lines[1..])
  }

  function LStrip(s: string): string {
    if s != "" && Space(s[0]) then LStrip(s[1..]) else s
  }

  function RStrip(s: string): string {
    if s != "" && Space(s[|s| - 1]) then RStrip(s[..|s| - 1]) else s
  }

  /** rstrip("\r\n") */
  function StripEnd(s: string): string {
    if s != "" && (s[|s| - 1] == '\r' || s[|s| - 1] == '\n') then StripEnd(s[..|s| - 1]) else s
  }

  /** All carriage returns and line feeds at the end go, and nothing else. */
  lemma {:induction false} StripEndExactly(s: string)
    ensures StripEnd(s) <= s
    ensures forall k | |StripEnd(s)| <= k < |s| :: s[k] == '\r' || s[k] == '\n'
    ensures StripEnd(s) != "" ==> StripEnd(s)[|StripEnd(s)| - 1] != '\r' && StripEnd(s)[|StripEnd(s)| - 1] != '\n'
  {
    if s != "" && (s[|s| - 1] == '\r' || s[|s| - 1] == '\n') {
      StripEndExactly(s[..|s| - 1]);
    }
  }

  function Width(c: char): nat {
    var n := c as int;
    if n < 0x80 then 1 else if n < 0x800 then 2 else if n < 0x1_0000 then 3 else 4
  }

  /** How many bytes the text takes in UTF-8. */
  function ByteLength(s: string): nat {
    if s == "" then 0
    else ByteLength(s[..|s| - 1]) + Width(s[|s| - 1])
  }

  // -------------------------------------------------------------- the patterns

  function Until(s: string, c: char): (n: nat)
    ensures n <= |s|
  {
    if s == "" || s[0] == c then 0 else 1 + Until(s[1..], c)
  }

  /** The section a line opens: SECTION.match(line)[1]. */
  function Header(line: string): Option<string> {
    var t := LStrip(line);
    if t == "" || t[0] != '[' then None
    else
      var n := Until(t[1..], ']');
      if n == 0 || n == |t| - 1 then None
      else if Trailer(t[n + 2..]) then Some(t[1..n + 1]) else None
  }

  /** Nothing but white space, or a comment, may follow the bracket. */
  predicate Trailer(s: string) {
    var rest := LStrip(s);
    rest == "" || rest[0] == '#' || rest[0] == ';'
  }

  function Word(s: string): (n: nat)
    ensures n <= |s|
  {
    if s == "" || s[0] == '=' || Space(s[0]) then 0 else 1 + Word(s[1..])
  }

  datatype Binding = Binding(key: string, value: string)

  /** The key a line assigns, ASSIGNMENT.match(line)[1], with the text after the sign. */
  function Assignment(line: string): Option<Binding> {
    var t := LStrip(line);
    var n := Word(t);
    var rest := LStrip(t[n..]);
    if n > 0 && rest != "" && rest[0] == '=' then Some(Binding(t[..n], RStrip(rest[1..]))) else None
  }

  predicate Comment(line: string) {
    var t := LStrip(line);
    t != "" && (t[0] == '#' || t[0] == ';')
  }

  // ------------------------------------------------------ what a policy says

  datatype Entry = Entry(section: string, binding: Binding)

  function After(section: string, line: string): string {
    if Header(line).Some? then Header(line).value else section
  }

  function Said(section: string, line: string): seq<Entry> {
    if Header(line).Some? || Comment(line) || Assignment(line).None? then []
    else [Entry(section, Assignment(line).value)]
  }

  /** The section that is open after the lines. */
  function Section(section: string, lines: seq<string>): string
    decreases |lines|
  {
    if lines == [] then section else Section(After(section, lines[0]), lines[1..])
  }

  /** The assignments of the lines, each with its section, in order. */
  function Entries(section: string, lines: seq<string>): seq<Entry>
    decreases |lines|
  {
    if lines == [] then [] else Said(section, lines[0]) + Entries(After(section, lines[0]), lines[1..])
  }

  function Assignments(text: string): seq<Entry> {
    Entries("", Lines(text))
  }

  // ----------------------------------------------------------- the function

  /** The first loop: one block of comments and assignment for every key the template
      has under [network]; a later assignment of a key replaces an earlier one. */
  function Blocks(section: string, comments: seq<string>, blocks: map<string, string>, lines: seq<string>)
    : map<string, string>
    decreases |lines|
  {
    if lines == [] then blocks
    else
      var line, rest := lines[0], lines[1..];
      if Header(line).Some? then Blocks(Header(line).value, [], blocks, rest)
      else if Comment(line) then Blocks(section, comments + [line], blocks, rest)
      else Blocks(section, [], Collected(section, comments, blocks, line), rest)
  }

  function Collected(section: string, comments: seq<string>, blocks: map<string, string>, line: string)
    : map<string, string> {
    var a := Assignment(line);
    if section == "network" && a.Some? && a.value.key in KEYS
    then blocks[a.value.key := Join(comments) + StripEnd(line) + "\n"] else blocks
  }

  /** The second loop: the keys assigned under [network]. */
  function Present(section: string, lines: seq<string>): set<string>
    decreases |lines|
  {
    if lines == [] then {}
    else (if Header(lines[0]).None? && section == "network" && Assignment(lines[0]).Some?
          then {Assignment(lines[0]).value.key} else {}) + Present(After(section, lines[0]), lines[1..])
  }

  /** ... and the place behind the first [network] header. */
  function Insertion(lines: seq<string>): (n: nat)
    ensures n <= |lines|
  {
    if lines == [] then 0
    else if Header(lines[0]) == Some("network") then 1
    else var n := Insertion(lines[1..]); if n == 0 then 0 else n + 1
  }

  /** The blocks of the missing keys, each followed by an empty line. */
  function Missing(keys: seq<string>, blocks: map<string, string>, present: set<string>): string {
    if keys == [] then ""
    else (if keys[0] in present || keys[0] !in blocks then "" else blocks[keys[0]] + "\n")
         + Missing(keys[1..], blocks, present)
  }

  predicate Complete(blocks: map<string, string>) {
    forall k | k in KEYS :: k in blocks
  }

  predicate Lacks(keys: seq<string>, present: set<string>) {
    exists k | k in keys :: k !in present
  }

  function Terminated(prefix: string): string {
    if prefix == "" || prefix[|prefix| - 1] == '\n' then prefix else prefix + "\n"
  }

  /** The text with the missing keys added. */
  function Added(text: string, addition: string): string {
    var lines := Lines(text);
    var n := Insertion(lines);
    if n == 0 then Terminated(text) + ("\n[network]\n" + addition)
    else Terminated(Join(lines[..n])) + addition + Join(lines[n..])
  }

  /** None stands for the ValueError. */
  function Update(original: string, reference: string): Option<string> {
    var blocks := Blocks("", [], map[], Lines(reference));
    var present := Present("", Lines(original));
    if !Complete(blocks) then None
    else if !Lacks(KEYS, present) then Some(original)
    else
      var updated := Added(original, "\n" + Missing(KEYS, blocks, present));
      if ByteLength(updated) > LIMIT then None else Some(updated)
  }

  // ------------------------------------------------------- lines of a text

  lemma {:induction false} LineEndAppend(a: string, b: string)
    requires a != "" && (LineEnd(a) < |a| || (Break(a[|a| - 1]) && (a[|a| - 1] == '\r' && b != "" ==> b[0] != '\n')))
    ensures LineEnd(a + b) == LineEnd(a)
  {
    if !Break(a[0]) && |a| > 1 {
      assert (a + b)[1..] == a[1..] + b;
      LineEndAppend(a[1..], b);
    }
  }

  /** Splitting goes piece by piece where the first piece ends a line. */
  lemma {:induction false} LinesAppend(a: string, b: string)
    requires a == "" || (Break(a[|a| - 1]) && (a[|a| - 1] == '\r' && b != "" ==> b[0] != '\n'))
    ensures Lines(a + b) == Lines(a) + Lines(b)
    decreases |a|
  {
    if a == "" {
      assert a + b == b;
    } else {
      var e := LineEnd(a);
      LineEndAppend(a, b);
      assert (a + b)[..e] == a[..e];
      assert (a + b)[e..] == a[e..] + b;
      LinesAppend(a[e..], b);
    }
  }

  lemma {:induction false} JoinLines(s: string)
    ensures Join(Lines(s)) == s
    decreases |s|
  {
    if s != "" {
      JoinLines(s[LineEnd(s)..]);
    }
  }

  /** Any stretch of whole lines, joined, splits into those lines again. */
  lemma {:induction false} LinesOfJoin(s: string, i: nat, j: nat)
    requires i <= j <= |Lines(s)|
    ensures Lines(Join(Lines(s)[i..j])) == Lines(s)[i..j]
    decreases |s|
  {
    var ls := Lines(s);
    if s != "" {
      var e := LineEnd(s);
      var rest := Lines(s[e..]);
      if i > 0 {
        assert ls[i..j] == rest[i - 1..j - 1];
        LinesOfJoin(s[e..], i - 1, j - 1);
      } else if j > 0 {
        assert ls[0..j] == [s[..e]] + rest[0..j - 1];
        LinesOfJoin(s[e..], 0, j - 1);
        JoinPrefix(s[e..], j - 1);
        FirstLine(s, Join(rest[..j - 1]));
        assert rest[..j - 1] == rest[0..j - 1];
        JoinOne(s[..e], rest[..j - 1]);
        LineFirst(s[..e], Join(rest[..j - 1]));
      }
    }
  }

  lemma {:induction false} JoinOne(line: string, lines: seq<string>)
    ensures Join([line] + lines) == line + Join(lines)
  {
    assert ([line] + lines)[1..] == lines;
  }

  lemma {:induction false} LineFirst(line: string, rest: string)
    requires line != "" && LineEnd(line + rest) == |line|
    ensures Lines(line + rest) == [line] + Lines(rest)
  {
    assert (line + rest)[..|line|] == line && (line + rest)[|line|..] == rest;
  }

  lemma {:induction false} JoinPrefix(s: string, j: nat)
    requires j <= |Lines(s)|
    ensures Join(Lines(s)[..j]) <= s
    decreases |s|
  {
    if j > 0 {
      var e := LineEnd(s);
      assert Lines(s)[..j] == [s[..e]] + Lines(s[e..])[..j - 1];
      JoinPrefix(s[e..], j - 1);
    }
  }

  /** The first line stays the first line when the text behind it is cut short. */
  lemma {:induction false} FirstLine(s: string, rest: string)
    requires s != "" && rest <= s[LineEnd(s)..]
    ensures s[..LineEnd(s)] + rest != "" && LineEnd(s[..LineEnd(s)] + rest) == LineEnd(s)
    decreases |s|
  {
    var e := LineEnd(s);
    var t := s[..e] + rest;
    if !Break(s[0]) && |s| > 1 {
      assert t[1..] == s[1..][..e - 1] + rest;
      FirstLine(s[1..], rest);
    }
  }

  // ------------------------------------- white space at the end changes nothing

  lemma {:induction false} LStripAppend(s: string, c: char)
    requires Space(c)
    ensures LStrip(s + [c]) == if LStrip(s) == "" then "" else LStrip(s) + [c]
  {
    if s == "" {
      assert s + [c] == [c];
      assert LStrip([c]) == LStrip([c][1..]);
    } else if Space(s[0]) {
      assert (s + [c])[1..] == s[1..] + [c];
      LStripAppend(s[1..], c);
    }
  }

  lemma {:induction false} UntilAppend(s: string, c: char, d: char)
    requires c != d
    ensures Until(s + [d], c) == if Until(s, c) == |s| then |s| + 1 else Until(s, c)
  {
    if s == "" {
      assert s + [d] == [d];
    } else if s[0] != c {
      assert (s + [d])[1..] == s[1..] + [d];
      UntilAppend(s[1..], c, d);
    }
  }

  lemma {:induction false} WordAppend(s: string, c: char)
    requires Space(c)
    ensures Word(s + [c]) == Word(s)
  {
    if s == "" {
      assert s + [c] == [c];
    } else if s[0] != '=' && !Space(s[0]) {
      assert (s + [c])[1..] == s[1..] + [c];
      WordAppend(s[1..], c);
    }
  }

  lemma {:induction false} HeaderAppend(line: string, c: char)
    requires Space(c)
    ensures Header(line + [c]) == Header(line)
  {
    LStripAppend(line, c);
    var t := LStrip(line);
    if t != "" && t[0] == '[' {
      var n := Until(t[1..], ']');
      assert (t + [c])[1..] == t[1..] + [c];
      UntilAppend(t[1..], ']', c);
      if n < |t| - 1 {
        assert (t + [c])[n + 2..] == t[n + 2..] + [c];
        LStripAppend(t[n + 2..], c);
        assert (t + [c])[1..n + 1] == t[1..n + 1];
      }
    }
  }

  lemma {:induction false} AssignmentAppend(line: string, c: char)
    requires Space(c)
    ensures Assignment(line + [c]) == Assignment(line) && (Comment(line + [c]) <==> Comment(line))
  {
    LStripAppend(line, c);
    var t := LStrip(line);
    if t != "" {
      WordAppend(t, c);
      var n := Word(t);
      assert (t + [c])[n..] == t[n..] + [c];
      assert (t + [c])[..n] == t[..n];
      LStripAppend(t[n..], c);
      var rest := LStrip(t[n..]);
      if rest != "" {
        assert (rest + [c])[1..] == rest[1..] + [c];
        assert (rest[1..] + [c])[..|rest| - 1] == rest[1..];
      }
    }
  }

  lemma {:induction false} SaidAppend(section: string, line: string, c: char)
    requires Space(c)
    ensures Said(section, line + [c]) == Said(section, line) && After(section, line + [c]) == After(section, line)
  {
    hide Header, Assignment, Comment, Space;
    HeaderAppend(line, c);
    AssignmentAppend(line, c);
  }

  lemma {:induction false} Blank(section: string, c: char)
    requires Space(c)
    ensures Said(section, [c]) == [] && After(section, [c]) == section
  {
    assert LStrip([c]) == LStrip([c][1..]) == "";
  }

  lemma {:induction false} OneLine(text: string)
    requires text != "" && LineEnd(text) == |text|
    ensures Lines(text) == [text]
  {
    assert text[..|text|] == text && text[|text|..] == "";
  }

  lemma {:induction false} EntriesOfOne(section: string, line: string)
    ensures Entries(section, [line]) == Said(section, line) && Section(section, [line]) == After(section, line)
  {
    hide Said, After;
    assert [line][1..] == [];
    assert Entries(After(section, line), []) == [];
  }

  lemma {:induction false} LastLine(text: string, c: char)
    requires text != "" && LineEnd(text) == |text| && Break(c)
    ensures LineEnd(text + [c]) == |text| || LineEnd(text + [c]) == |text| + 1
  {
    if !Break(text[0]) && |text| > 1 {
      assert (text + [c])[1..] == text[1..] + [c];
      LastLine(text[1..], c);
    }
  }

  lemma {:induction false} BreakEndsLine(section: string, text: string, c: char)
    requires Break(c) && text != "" && LineEnd(text) == |text|
    ensures Entries(section, Lines(text + [c])) == Said(section, text)
    ensures Section(section, Lines(text + [c])) == After(section, text)
  {
    hide Said, After, LineEnd, Lines, Entries, Section;
    LastLine(text, c);
    EntriesOfOne(section, text);
    if LineEnd(text + [c]) == |text| + 1 {
      OneLine(text + [c]);
      SaidAppend(section, text, c);
      EntriesOfOne(section, text + [c]);
    } else {
      SplitLast(text, c);
      EntriesAppend(section, [text], [[c]]);
      assert [text] + [[c]] == [text, [c]];
      EntriesOfOne(After(section, text), [c]);
      Blank(After(section, text), c);
    }
  }

  lemma {:induction false} SplitLast(text: string, c: char)
    requires Break(c) && text != "" && LineEnd(text + [c]) == |text|
    ensures Lines(text + [c]) == [text, [c]]
  {
    assert (text + [c])[..|text|] == text && (text + [c])[|text|..] == [c];
    OneLine([c]);
  }

  /** A line break added at the end of a text neither adds an assignment nor opens a
      section, whether it ends the last line, completes its "\r\n" or is a line itself. */
  lemma {:induction false} BreakAppend(section: string, text: string, c: char)
    requires Break(c)
    ensures Entries(section, Lines(text + [c])) == Entries(section, Lines(text))
    ensures Section(section, Lines(text + [c])) == Section(section, Lines(text))
    decreases |text|
  {
    hide Said, After;
    var both := text + [c];
    if text == "" {
      assert both == [c];
      OneLine([c]);
      EntriesOfOne(section, [c]);
      Blank(section, c);
    } else {
      var e := LineEnd(text);
      if e < |text| {
        LineEndAppend(text, [c]);
        assert both[..e] == text[..e] && both[e..] == text[e..] + [c];
        BreakAppend(After(section, text[..e]), text[e..], c);
      } else {
        OneLine(text);
        EntriesOfOne(section, text);
        BreakEndsLine(section, text, c);
      }
    }
  }

  lemma {:induction false} EntriesAppend(section: string, a: seq<string>, b: seq<string>)
    ensures Entries(section, a + b) == Entries(section, a) + Entries(Section(section, a), b)
    ensures Section(section, a + b) == Section(Section(section, a), b)
    decreases |a|
  {
    if a == [] {
      assert a + b == b;
    } else {
      hide Said, After;
      assert (a + b)[1..] == a[1..] + b;
      EntriesAppend(After(section, a[0]), a[1..], b);
    }
  }

  // ------------------------------------------------ what the patterns describe

  ghost predicate Spaces(s: string) {
    forall i | 0 <= i < |s| :: Space(s[i])
  }

  ghost predicate Bare(s: string) {
    s == "" || !Space(s[0])
  }

  /** ^\s*\[([^]]+)\]\s*(?:[#;].*)?$ on a line, spelt out; the line break at the end
      belongs to the spaces or to the comment. */
  ghost predicate HeaderShape(line: string, a: string, name: string, b: string, comment: string) {
    && Spaces(a) && name != "" && ']' !in name && Spaces(b)
    && (comment == "" || comment[0] == '#' || comment[0] == ';')
    && line == a + ("[" + name + "]" + (b + comment))
  }

  /** ^\s*([^=\s]+)\s*= on a line, spelt out. */
  ghost predicate AssignmentShape(line: string, a: string, key: string, b: string, rest: string) {
    && Spaces(a) && key != "" && (forall i | 0 <= i < |key| :: key[i] != '=' && !Space(key[i])) && Spaces(b)
    && line == a + (key + (b + ("=" + rest)))
  }

  lemma {:induction false} Strip(s: string) returns (a: string)
    ensures Spaces(a) && Bare(LStrip(s)) && s == a + LStrip(s)
  {
    if s != "" && Space(s[0]) {
      var b := Strip(s[1..]);
      a := [s[0]] + b;
    } else {
      a := "";
    }
  }

  lemma {:induction false} Stripped(a: string, t: string)
    requires Spaces(a) && Bare(t)
    ensures LStrip(a + t) == t
  {
    if a == "" {
      assert a + t == t;
    } else {
      assert (a + t)[1..] == a[1..] + t;
      Stripped(a[1..], t);
    }
  }

  lemma {:induction false} UntilFinds(s: string, c: char)
    ensures c !in s[..Until(s, c)] && (Until(s, c) < |s| ==> s[Until(s, c)] == c)
  {
    if s != "" && s[0] != c {
      UntilFinds(s[1..], c);
      assert s[..Until(s, c)] == [s[0]] + s[1..][..Until(s[1..], c)];
    }
  }

  lemma {:induction false} WordFinds(s: string)
    ensures forall i | 0 <= i < Word(s) :: s[i] != '=' && !Space(s[i])
    ensures Word(s) < |s| ==> s[Word(s)] == '=' || Space(s[Word(s)])
  {
    if s != "" && s[0] != '=' && !Space(s[0]) {
      WordFinds(s[1..]);
    }
  }

  lemma {:induction false} WordOf(key: string, rest: string)
    requires forall i | 0 <= i < |key| :: key[i] != '=' && !Space(key[i])
    requires rest == "" || rest[0] == '=' || Space(rest[0])
    ensures Word(key + rest) == |key|
  {
    if key == "" {
      assert key + rest == rest;
    } else {
      assert (key + rest)[1..] == key[1..] + rest;
      WordOf(key[1..], rest);
    }
  }

  /** A line opens section `name` exactly when it has the shape of the pattern. */
  lemma {:induction false} HeaderIsPattern(line: string, name: string)
    ensures Header(line) == Some(name)
      <==> exists a: string, b: string, comment: string :: HeaderShape(line, a, name, b, comment)
  {
    if Header(line) == Some(name) {
      HeaderHasShape(line, name);
    }
    if a: string, b: string, comment: string :| HeaderShape(line, a, name, b, comment) {
      ShapeIsHeader(line, a, name, b, comment);
    }
  }

  lemma {:induction false} HeaderHasShape(line: string, name: string)
    requires Header(line) == Some(name)
    ensures exists a: string, b: string, comment: string :: HeaderShape(line, a, name, b, comment)
  {
    var a := Strip(line);
    var t := LStrip(line);
    var n := Until(t[1..], ']');
    UntilFinds(t[1..], ']');
    assert t[1..][..n] == t[1..n + 1] == name;
    assert t[0] == '[' && t[n + 1] == ']' && name != "";
    var b := Strip(t[n + 2..]);
    var comment := LStrip(t[n + 2..]);
    assert comment == "" || comment[0] == '#' || comment[0] == ';';
    hide *;
    BracketParts(t, n, name, b + comment);
    HeaderParts(line, a, name, b, comment);
  }

  lemma {:induction false} BracketParts(t: string, n: nat, name: string, rest: string)
    requires n + 2 <= |t| && t[0] == '[' && t[1..n + 1] == name && t[n + 1] == ']' && t[n + 2..] == rest
    ensures t == "[" + name + "]" + rest
  {
    assert t == [t[0]] + t[1..n + 1] + [t[n + 1]] + t[n + 2..];
  }

  lemma {:induction false} HeaderParts(line: string, a: string, name: string, b: string, comment: string)
    requires Spaces(a) && name != "" && ']' !in name && Spaces(b)
    requires comment == "" || comment[0] == '#' || comment[0] == ';'
    requires line == a + ("[" + name + "]" + (b + comment))
    ensures HeaderShape(line, a, name, b, comment)
  {
  }

  lemma {:induction false} ShapeIsHeader(line: string, a: string, name: string, b: string, comment: string)
    requires HeaderShape(line, a, name, b, comment)
    ensures Header(line) == Some(name)
  {
    var n, t := |name|, "[" + name + "]" + (b + comment);
    Stripped(a, t);
    assert t[1..] == name + [']'] + (b + comment);
    UntilWord(name, ']', b + comment);
    assert t[1..n + 1] == name && t[n + 2..] == b + comment;
    Stripped(b, comment);
    hide LStrip, Until;
  }

  /** A line assigns `key` exactly when it has the shape of the pattern; the value is
      what follows the sign, without the white space at the end of the line. */
  lemma {:induction false} AssignmentIsPattern(line: string, key: string, value: string)
    ensures Assignment(line) == Some(Binding(key, value))
       <==> exists a: string, b: string, rest: string :: AssignmentShape(line, a, key, b, rest) && RStrip(rest) == value
  {
    if Assignment(line) == Some(Binding(key, value)) {
      AssignmentHasShape(line, key, value);
    }
    if a: string, b: string, rest: string :| AssignmentShape(line, a, key, b, rest) && RStrip(rest) == value {
      ShapeIsAssignment(line, a, key, b, rest);
    }
  }

  lemma {:induction false} AssignmentHasShape(line: string, key: string, value: string)
    requires Assignment(line) == Some(Binding(key, value))
    ensures exists a: string, b: string, rest: string :: AssignmentShape(line, a, key, b, rest) && RStrip(rest) == value
  {
    var t := LStrip(line);
    var n := Word(t);
    var tail := LStrip(t[n..]);
    assert t[..n] == key && n > 0 && tail != "" && tail[0] == '=' && RStrip(tail[1..]) == value;
    hide *;
    var a := Strip(line);
    WordFinds(t);
    var b := Strip(t[n..]);
    AssignmentParts(line, a, t, n, b, tail);
  }

  lemma {:induction false} AssignmentParts(line: string, a: string, t: string, n: nat, b: string, tail: string)
    requires 0 < n <= |t| && tail != "" && tail[0] == '='
    requires Spaces(a) && (forall i | 0 <= i < n :: t[i] != '=' && !Space(t[i])) && Spaces(b)
    requires line == a + t && t[n..] == b + tail
    ensures AssignmentShape(line, a, t[..n], b, tail[1..])
  {
    var key, rest := t[..n], tail[1..];
    assert tail == "=" + rest;
    assert t == key + (b + ("=" + rest));
  }

  lemma {:induction false} ShapeIsAssignment(line: string, a: string, key: string, b: string, rest: string)
    requires AssignmentShape(line, a, key, b, rest)
    ensures Assignment(line) == Some(Binding(key, RStrip(rest)))
  {
    var tail := "=" + rest;
    var t := key + (b + tail);
    Stripped(a, t);
    WordOf(key, b + tail);
    assert t[..|key|] == key && t[|key|..] == b + tail;
    Stripped(b, tail);
    assert tail[1..] == rest;
    hide LStrip, Word, RStrip;
  }

  /** The lines of a text: none is empty, a break ends every line but perhaps the last,
      and no line has a break before its end but the first half of "\r\n". */
  lemma {:induction false} LineShape(s: string, k: nat)
    requires k < |Lines(s)|
    ensures var line := Lines(s)[k]; var last := |line| - 1;
            && line != "" && (k + 1 < |Lines(s)| ==> Break(line[last]))
            && forall i | 0 <= i < last :: Break(line[i]) ==> i == last - 1 && line[i..] == "\r\n"
    decreases |s|
  {
    var e := LineEnd(s);
    if k > 0 {
      LineShape(s[e..], k - 1);
    } else {
      FirstLineShape(s);
    }
  }

  lemma {:induction false} FirstLineShape(s: string)
    requires s != ""
    ensures var e := LineEnd(s);
            && (e < |s| ==> Break(s[e - 1]))
            && forall i | 0 <= i < e - 1 :: Break(s[i]) ==> i == e - 2 && s[i] == '\r' && s[i + 1] == '\n'
  {
    if !Break(s[0]) && |s| > 1 {
      FirstLineShape(s[1..]);
    }
  }

  // --------------------------------------------------------- template blocks

  lemma {:induction false} StripTail(section: string, u: string, v: string)
    ensures Entries(section, Lines(u + StripEnd(v))) == Entries(section, Lines(u + v))
    ensures Section(section, Lines(u + StripEnd(v))) == Section(section, Lines(u + v))
    decreases |v|
  {
    hide Entries, Section, Lines;
    if v != "" && (v[|v| - 1] == '\r' || v[|v| - 1] == '\n') {
      var w, c := v[..|v| - 1], v[|v| - 1];
      StripTail(section, u, w);
      assert u + v == (u + w) + [c];
      BreakAppend(section, u + w, c);
    }
  }

  lemma {:induction false} JoinSnoc(lines: seq<string>, line: string)
    ensures Join(lines + [line]) == Join(lines) + line
  {
    if lines == [] {
      assert [line][1..] == [];
    } else {
      assert (lines + [line])[1..] == lines[1..] + [line];
      JoinSnoc(lines[1..], line);
    }
  }

  lemma {:induction false} JoinAppend(a: seq<string>, b: seq<string>)
    ensures Join(a + b) == Join(a) + Join(b)
    decreases |a|
  {
    if a == [] {
      assert a + b == b;
    } else {
      assert (a + b)[1..] == a[1..] + b;
      JoinAppend(a[1..], b);
    }
  }

  ghost predicate AllComments(lines: seq<string>) {
    forall i | 0 <= i < |lines| :: Comment(lines[i])
  }

  /** Comment lines never open a section and assign nothing. */
  lemma {:induction false} CommentsSilent(section: string, lines: seq<string>)
    requires AllComments(lines)
    ensures Entries(section, lines) == [] && Section(section, lines) == section
    decreases |lines|
  {
    if lines != [] {
      assert Comment(lines[0]);
      assert Header(lines[0]).None?;
      CommentsSilent(section, lines[1..]);
    }
  }

  /** A block says one thing: what the template says about its key. */
  ghost predicate BlockOf(reference: string, key: string, block: string, b: Binding) {
    && b.key == key && Entry("network", b) in Assignments(reference)
    && Entries("network", Lines(block)) == [Entry("network", b)]
    && Section("network", Lines(block)) == "network"
    && block != "" && block[|block| - 1] == '\n'
  }

  ghost predicate Sound(reference: string, blocks: map<string, string>) {
    forall k | k in blocks :: exists b: Binding :: BlockOf(reference, k, blocks[k], b)
  }

  lemma {:induction false} BlockSays(comments: seq<string>, line: string)
    requires AllComments(comments) && Lines(Join(comments + [line])) == comments + [line]
    requires Said("network", line) != []
    ensures Entries("network", Lines(Join(comments) + StripEnd(line) + "\n")) == Said("network", line)
    ensures Section("network", Lines(Join(comments) + StripEnd(line) + "\n")) == "network"
  {
    var text := Join(comments) + StripEnd(line);
    assert After("network", line) == "network";
    hide *;
    BreakAppend("network", text, '\n') by { BreakNewline(); }
    StripTail("network", Join(comments), line);
    JoinSnoc(comments, line);
    EntriesAppend("network", comments, [line]);
    CommentsSilent("network", comments);
    EntriesOfOne("network", line);
  }

  lemma {:induction false} BreakNewline()
    ensures Break('\n') && Space('\n')
  {
  }

  lemma {:induction false} SaidWithin(section: string, lines: seq<string>, j: nat)
    requires j < |lines|
    ensures forall e | e in Said(Section(section, lines[..j]), lines[j]) :: e in Entries(section, lines)
  {
    hide *;
    EntriesAppend(section, lines[..j], [lines[j]]);
    EntriesOfOne(Section(section, lines[..j]), lines[j]);
    EntriesAppend(section, lines[..j] + [lines[j]], lines[j + 1..]);
    assert lines[..j] + [lines[j]] + lines[j + 1..] == lines;
  }

  lemma {:induction false} BlockSound(reference: string, i: nat, j: nat)
    requires i <= j < |Lines(reference)| && AllComments(Lines(reference)[i..j])
    requires Section("", Lines(reference)[..j]) == "network"
    requires Header(Lines(reference)[j]).None? && !Comment(Lines(reference)[j]) && Assignment(Lines(reference)[j]).Some?
    ensures BlockOf(reference, Assignment(Lines(reference)[j]).value.key,
                    Join(Lines(reference)[i..j]) + StripEnd(Lines(reference)[j]) + "\n",
                    Assignment(Lines(reference)[j]).value)
  {
    hide Header, Comment, Assignment, Join, StripEnd, Lines, Section, Entries, AllComments;
    var ls := Lines(reference);
    var line, comments := ls[j], ls[i..j];
    assert Said("network", line) == [Entry("network", Assignment(line).value)];
    assert comments + [line] == ls[i..j + 1];
    LinesOfJoin(reference, i, j + 1);
    BlockSays(comments, line);
    SaidWithin("", ls, j);
  }

  /** The blocks collected from line j on, when lines i to j are the open comments. */
  ghost function Rest(reference: string, i: nat, j: nat, blocks: map<string, string>): map<string, string>
    requires i <= j <= |Lines(reference)|
  {
    var ls := Lines(reference);
    Blocks(Section("", ls[..j]), ls[i..j], blocks, ls[j..])
  }

  lemma {:induction false} RestStep(reference: string, i: nat, j: nat, blocks: map<string, string>)
    requires i <= j < |Lines(reference)|
    ensures var ls := Lines(reference);
            Rest(reference, i, j, blocks) ==
              if Header(ls[j]).Some? then Rest(reference, j + 1, j + 1, blocks)
              else if Comment(ls[j]) then Rest(reference, i, j + 1, blocks)
              else Rest(reference, j + 1, j + 1, Collected(Section("", ls[..j]), ls[i..j], blocks, ls[j]))
  {
    var ls := Lines(reference);
    hide Header, Comment, Collected, Lines, Section, Blocks;
    OneLineOn(ls, j);
    AfterHeader(Section("", ls[..j]), ls[j]);
    hide After;
    BlocksStep(Section("", ls[..j]), ls[i..j], blocks, ls[j..]);
    assert ls[i..j + 1] == ls[i..j] + [ls[j]];
  }

  lemma {:induction false} BlocksSound(reference: string, i: nat, j: nat, blocks: map<string, string>)
    requires i <= j <= |Lines(reference)| && AllComments(Lines(reference)[i..j]) && Sound(reference, blocks)
    ensures Sound(reference, Rest(reference, i, j, blocks))
    decreases |Lines(reference)| - j
  {
    var n := |Lines(reference)|;
    if j < n {
      hide *;
      RestStep(reference, i, j, blocks);
      CommentsOn(Lines(reference), i, j);
      if Header(Lines(reference)[j]).Some? {
        BlocksSound(reference, j + 1, j + 1, blocks);
      } else if Comment(Lines(reference)[j]) {
        BlocksSound(reference, i, j + 1, blocks);
      } else {
        Collects(reference, i, j, blocks);
        BlocksSound(reference, j + 1, j + 1,
                    Collected(Section("", Lines(reference)[..j]), Lines(reference)[i..j], blocks, Lines(reference)[j]));
      }
    } else {
      hide Lines, Sound;
      assert Lines(reference)[j..] == [];
    }
  }

  lemma {:induction false} CommentsOn(ls: seq<string>, i: nat, j: nat)
    requires i <= j < |ls| && AllComments(ls[i..j])
    ensures ls[i..j + 1] == ls[i..j] + [ls[j]] && (Comment(ls[j]) ==> AllComments(ls[i..j + 1]))
    ensures AllComments(ls[j + 1..j + 1])
  {
    hide Comment;
  }

  lemma {:induction false} BlocksStep(section: string, comments: seq<string>, blocks: map<string, string>,
                                      lines: seq<string>)
    requires lines != []
    ensures Blocks(section, comments, blocks, lines) ==
              var line, rest := lines[0], lines[1..];
              if Header(line).Some? then Blocks(Header(line).value, [], blocks, rest)
              else if Comment(line) then Blocks(section, comments + [line], blocks, rest)
              else Blocks(section, [], Collected(section, comments, blocks, line), rest)
  {
    hide Header, Comment, Collected;
  }

  lemma {:induction false} AfterHeader(section: string, line: string)
    ensures After(section, line) == if Header(line).Some? then Header(line).value else section
  {
  }

  lemma {:induction false} OneLineOn(ls: seq<string>, j: nat)
    requires j < |ls|
    ensures ls[j..] != [] && ls[j..][0] == ls[j] && ls[j..][1..] == ls[j + 1..] && ls[j + 1..j + 1] == []
    ensures Section("", ls[..j + 1]) == After(Section("", ls[..j]), ls[j])
  {
    hide Section, After;
    assert ls[..j + 1] == ls[..j] + [ls[j]];
    EntriesAppend("", ls[..j], [ls[j]]);
    EntriesOfOne(Section("", ls[..j]), ls[j]);
  }

  lemma {:induction false} Collects(reference: string, i: nat, j: nat, blocks: map<string, string>)
    requires i <= j < |Lines(reference)| && AllComments(Lines(reference)[i..j]) && Sound(reference, blocks)
    requires Header(Lines(reference)[j]).None? && !Comment(Lines(reference)[j])
    ensures Sound(reference,
                  Collected(Section("", Lines(reference)[..j]), Lines(reference)[i..j], blocks, Lines(reference)[j]))
  {
    hide Header, Comment, Assignment, Join, StripEnd, Lines, Section, BlockOf;
    var ls := Lines(reference);
    var a := Assignment(ls[j]);
    if Section("", ls[..j]) == "network" && a.Some? && a.value.key in KEYS {
      BlockSound(reference, i, j);
      hide KEYS;
    }
  }

  lemma {:induction false} TemplateSound(reference: string)
    ensures Sound(reference, Blocks("", [], map[], Lines(reference)))
  {
    hide Blocks, Sound;
    var ls := Lines(reference);
    assert ls[..0] == [] && ls[0..0] == [] && ls[0..] == ls;
    assert Sound(reference, map[]) by { NothingSound(reference); }
    BlocksSound(reference, 0, 0, map[]);
    assert Section("", []) == "";
    assert Rest(reference, 0, 0, map[]) == Blocks("", [], map[], ls);
  }

  lemma {:induction false} NothingSound(reference: string)
    ensures Sound(reference, map[])
  {
  }

  // ------------------------------------------------------------ what is added

  function MissingKeys(keys: seq<string>, present: set<string>): seq<string> {
    if keys == [] then []
    else (if keys[0] in present then [] else [keys[0]]) + MissingKeys(keys[1..], present)
  }

  ghost predicate Gained(reference: string, keys: seq<string>, gained: seq<Entry>) {
    && |gained| == |keys|
    && forall i | 0 <= i < |keys| ::
         gained[i].section == "network" && gained[i].binding.key == keys[i] && gained[i] in Assignments(reference)
  }

  lemma {:induction false} BlockThen(block: string, rest: string, said: seq<Entry>)
    requires Entries("network", Lines(block)) == said && Section("network", Lines(block)) == "network"
    ensures Entries("network", Lines(block + "\n" + rest)) == said + Entries("network", Lines(rest))
    ensures Section("network", Lines(block + "\n" + rest)) == Section("network", Lines(rest))
  {
    hide *;
    BreakNewline();
    LinesAppend(block + "\n", rest);
    BreakAppend("network", block, '\n');
    EntriesAppend("network", Lines(block + "\n"), Lines(rest));
  }

  lemma {:induction false} GainedMore(reference: string, key: string, b: Binding, keys: seq<string>, gained: seq<Entry>)
    requires Gained(reference, keys, gained) && b.key == key && Entry("network", b) in Assignments(reference)
    ensures Gained(reference, [key] + keys, [Entry("network", b)] + gained)
  {
    hide Assignments;
  }

  /** The addition says, under [network], what the template says about the missing keys. */
  lemma {:induction false} MissingSays(reference: string, keys: seq<string>, blocks: map<string, string>,
                                       present: set<string>)
    requires Sound(reference, blocks) && forall k | k in keys :: k in blocks
    ensures Gained(reference, MissingKeys(keys, present), Entries("network", Lines(Missing(keys, blocks, present))))
    ensures Section("network", Lines(Missing(keys, blocks, present))) == "network"
    decreases |keys|
  {
    if keys == [] {
      return;
    }
    hide Assignments, Entries, Section, Lines, Gained;
    MissingSays(reference, keys[1..], blocks, present);
    var rest := Missing(keys[1..], blocks, present);
    if keys[0] in present {
      assert Missing(keys, blocks, present) == rest;
      assert MissingKeys(keys, present) == MissingKeys(keys[1..], present);
    } else {
      var block := blocks[keys[0]];
      var b :| BlockOf(reference, keys[0], block, b);
      BlockThen(block, rest, [Entry("network", b)]);
      GainedMore(reference, keys[0], b, MissingKeys(keys[1..], present), Entries("network", Lines(rest)));
    }
  }

  /** Adding a line break where one is missing changes nothing that is said, and then
      the next text starts a line of its own. */
  lemma {:induction false} TerminatedSays(section: string, prefix: string, rest: string)
    ensures Entries(section, Lines(Terminated(prefix) + rest))
         == Entries(section, Lines(prefix)) + Entries(Section(section, Lines(prefix)), Lines(rest))
    ensures Section(section, Lines(Terminated(prefix) + rest)) == Section(Section(section, Lines(prefix)), Lines(rest))
  {
    hide Entries, Section, Lines;
    BreakNewline();
    LinesAppend(Terminated(prefix), rest);
    if Terminated(prefix) != prefix {
      BreakAppend(section, prefix, '\n');
    }
    EntriesAppend(section, Lines(Terminated(prefix)), Lines(rest));
  }

  lemma {:induction false} InsertionPoint(section: string, lines: seq<string>)
    ensures Insertion(lines) > 0 ==> Section(section, lines[..Insertion(lines)]) == "network"
    decreases |lines|
  {
    if lines != [] {
      hide Header;
      var n := Insertion(lines);
      InsertionPoint(After(section, lines[0]), lines[1..]);
      if n == 1 && Header(lines[0]) == Some("network") {
        assert lines[..1] == [lines[0]];
        EntriesOfOne(section, lines[0]);
      } else if n > 0 {
        assert lines[..n][1..] == lines[1..][..n - 1];
      }
    }
  }

  lemma {:induction false} MissingEnds(keys: seq<string>, blocks: map<string, string>, present: set<string>)
    ensures var m := Missing(keys, blocks, present); m == "" || m[|m| - 1] == '\n'
  {
    if keys != [] {
      MissingEnds(keys[1..], blocks, present);
    }
  }

  /** Where the addition goes in: behind the first [network] header, or behind the text
      under a header of its own. */
  ghost function Place(text: string): nat {
    var lines := Lines(text);
    |Entries("", if Insertion(lines) == 0 then lines else lines[..Insertion(lines)])|
  }

  lemma {:induction false} PlaceWithin(text: string)
    ensures Place(text) <= |Assignments(text)|
  {
    hide Entries, Lines, Insertion;
    var lines := Lines(text);
    var n := Insertion(lines);
    EntriesAppend("", lines[..n], lines[n..]);
    assert lines == lines[..n] + lines[n..];
  }

  ghost predicate Inserted(before: seq<Entry>, at: nat, gained: seq<Entry>, after: seq<Entry>) {
    at <= |before| && after == before[..at] + gained + before[at..]
  }

  lemma {:induction false} AddedSays(text: string, addition: string, gained: seq<Entry>)
    requires Entries("network", Lines("\n" + addition)) == gained
        && Section("network", Lines("\n" + addition)) == "network"
    requires addition == "" || addition[|addition| - 1] == '\n'
    ensures Inserted(Assignments(text), Place(text), gained, Assignments(Added(text, "\n" + addition)))
  {
    var lines := Lines(text);
    var n := Insertion(lines);
    var more := "\n" + addition;
    hide Entries, Section, Lines, Insertion, Terminated;
    if n == 0 {
      TerminatedSays("", text, "\n[network]\n" + more);
      HeaderSays(Section("", lines), more);
      assert Assignments(text)[..|Assignments(text)|] == Assignments(text)
          && Assignments(text)[|Assignments(text)|..] == [];
    } else {
      var head, tail := lines[..n], lines[n..];
      assert lines == head + tail;
      EntriesAppend("", head, tail);
      InsertionPoint("", lines);
      LinesOfJoin(text, 0, n);
      LinesOfJoin(text, n, |lines|);
      assert lines[0..n] == head && lines[n..|lines|] == tail;
      TerminatedSays("", Join(head), more + Join(tail));
      TerminatedSays("network", more, Join(tail));
      assert Terminated(more) == more by { Ends(more); }
      assert Terminated(Join(head)) + more + Join(tail) == Terminated(Join(head)) + (more + Join(tail));
      var front := Entries("", head);
      assert Assignments(text)[..|front|] == front;
      assert Assignments(text)[|front|..] == Entries("network", tail);
    }
  }

  lemma {:induction false} Ends(text: string)
    requires text != "" && text[|text| - 1] == '\n'
    ensures Terminated(text) == text
  {
  }

  lemma {:induction false} NetworkHeader()
    ensures Header("[network]\n") == Some("network")
  {
    HeaderOf("network");
    assert "[" + "network" + "]\n" == "[network]\n";
  }

  lemma {:induction false} HeaderOf(word: string)
    requires word != "" && ']' !in word
    ensures Header("[" + word + "]\n") == Some(word)
  {
    var line, n := "[" + word + "]\n", |word|;
    assert LStrip(line) == line;
    assert line[1..] == word + [']'] + "\n" && line[1..n + 1] == word && line[n + 2..] == "\n";
    UntilWord(word, ']', "\n");
    assert Trailer("\n") by { LineBreakTrails(); }
    hide Trailer, Until, LStrip;
  }

  lemma {:induction false} LineBreakTrails()
    ensures Trailer("\n")
  {
    assert LStrip("\n") == LStrip("\n"[1..]);
  }

  lemma {:induction false} UntilWord(word: string, c: char, rest: string)
    requires c !in word
    ensures Until(word + [c] + rest, c) == |word|
  {
    if word != "" {
      assert (word + [c] + rest)[1..] == word[1..] + [c] + rest;
      UntilWord(word[1..], c, rest);
    }
  }

  lemma {:induction false} LineOf(word: string)
    requires forall i | 0 <= i < |word| :: !Break(word[i])
    ensures LineEnd(word + "\n") == |word| + 1
  {
    if word != "" {
      assert (word + "\n")[1..] == word[1..] + "\n";
      LineOf(word[1..]);
    }
  }

  lemma {:induction false} LineThen(section: string, line: string, more: string)
    requires line != "" && LineEnd(line) == |line| && line[|line| - 1] == '\n' && Said(section, line) == []
    ensures Entries(section, Lines(line + more)) == Entries(After(section, line), Lines(more))
    ensures Section(section, Lines(line + more)) == Section(After(section, line), Lines(more))
  {
    BreakNewline();
    hide *;
    OneLine(line);
    EntriesOfOne(section, line);
    LinesAppend(line, more);
    EntriesAppend(section, [line], Lines(more));
  }

  lemma {:induction false} HeaderLine(section: string, line: string)
    requires Header(line) == Some("network")
    ensures Said(section, line) == [] && After(section, line) == "network"
  {
    hide Header;
  }

  lemma {:induction false} HeaderSays(section: string, more: string)
    ensures Entries(section, Lines("\n[network]\n" + more)) == Entries("network", Lines(more))
    ensures Section(section, Lines("\n[network]\n" + more)) == Section("network", Lines(more))
  {
    hide *;
    var line := "[network]\n";
    HeaderEnds();
    NetworkHeader();
    HeaderLine(section, line);
    LineThen(section, line, more);
    assert "\n[network]\n" + more == "\n" + (line + more);
    BlankThen(section, line + more);
  }

  lemma {:induction false} HeaderEnds()
    ensures LineEnd("[network]\n") == 10
  {
    LineOf("[network]");
    assert "[network]" + "\n" == "[network]\n";
  }

  lemma {:induction false} BlankThen(section: string, more: string)
    ensures Entries(section, Lines("\n" + more)) == Entries(section, Lines(more))
    ensures Section(section, Lines("\n" + more)) == Section(section, Lines(more))
  {
    BreakNewline();
    Blank(section, '\n');
    assert LineEnd("\n") == 1;
    assert "\n" == ['\n'];
    hide *;
    LineThen(section, "\n", more);
  }

  // ---------------------------------------------------------------- theorems

  lemma {:induction false} PresentIsSaid(section: string, lines: seq<string>, key: string)
    requires key in KEYS
    ensures key in Present(section, lines)
      <==> exists e | e in Entries(section, lines) :: e.section == "network" && e.binding.key == key
    decreases |lines|
  {
    if lines != [] {
      PresentIsSaid(After(section, lines[0]), lines[1..], key);
      KeysAreWords(key);
      hide Header;
    }
  }

  lemma {:induction false} KeysAreWords(key: string)
    requires key in KEYS
    ensures key != "" && key[0] == 'i'
  {
  }

  lemma {:induction false} CommentKey(line: string)
    requires Comment(line) && Assignment(line).Some?
    ensures Assignment(line).value.key !in KEYS
  {
  }

  lemma {:induction false} UpdateAdds(original: string, reference: string, keys: seq<string>,
                                      blocks: map<string, string>, present: set<string>)
    requires Sound(reference, blocks) && forall k | k in keys :: k in blocks
    ensures var after := Assignments(Added(original, "\n" + Missing(keys, blocks, present)));
            exists gained: seq<Entry> :: Gained(reference, MissingKeys(keys, present), gained)
              && Inserted(Assignments(original), Place(original), gained, after)
  {
    hide *;
    MissingSays(reference, keys, blocks, present);
    MissingEnds(keys, blocks, present);
    var addition := Missing(keys, blocks, present);
    BlankThen("network", addition);
    AddedSays(original, addition, Entries("network", Lines(addition)));
  }

  lemma {:induction false} NothingInserted(reference: string, before: seq<Entry>, at: nat)
    requires at <= |before|
    ensures Inserted(before, at, [], before) && Gained(reference, [], [])
  {
    assert before == before[..at] + [] + before[at..];
  }

  /** Whatever comes back is the policy as it was, or the policy with one assignment per
      missing key, as the template has it, put in at one place under [network]; all else
      that was said is still said, in the same order. */
  lemma {:induction false} OnlyAdds(original: string, reference: string)
    requires Update(original, reference).Some?
    ensures var missing := MissingKeys(KEYS, Present("", Lines(original)));
            exists gained: seq<Entry> :: Gained(reference, missing, gained)
              && Inserted(Assignments(original), Place(original), gained,
                          Assignments(Update(original, reference).value))
  {
    hide Blocks, Present, Lines, Missing, MissingKeys, Gained, Inserted, Assignments, Place, Added, ByteLength, Sound,
      Lacks;
    var blocks := Blocks("", [], map[], Lines(reference));
    var present := Present("", Lines(original));
    TemplateSound(reference);
    if Lacks(KEYS, present) {
      UpdateAdds(original, reference, KEYS, blocks, present);
    } else {
      NoneMissing(KEYS, present);
      PlaceWithin(original);
      NothingInserted(reference, Assignments(original), Place(original));
    }
  }

  lemma {:induction false} NoneMissing(keys: seq<string>, present: set<string>)
    ensures !Lacks(keys, present) <==> MissingKeys(keys, present) == []
  {
    if keys != [] {
      NoneMissing(keys[1..], present);
      assert keys == [keys[0]] + keys[1..];
    }
  }

  /** The values given to a key of a section, in order. */
  function Values(entries: seq<Entry>, section: string, key: string): seq<string> {
    if entries == [] then []
    else (if entries[0].section == section && entries[0].binding.key == key then [entries[0].binding.value] else [])
         + Values(entries[1..], section, key)
  }

  lemma {:induction false} ValuesAppend(a: seq<Entry>, b: seq<Entry>, section: string, key: string)
    ensures Values(a + b, section, key) == Values(a, section, key) + Values(b, section, key)
    decreases |a|
  {
    if a == [] {
      assert a + b == b;
    } else {
      assert (a + b)[1..] == a[1..] + b;
      ValuesAppend(a[1..], b, section, key);
    }
  }

  lemma {:induction false} GainedValues(reference: string, keys: seq<string>, gained: seq<Entry>, section: string,
                                        key: string)
    requires Gained(reference, keys, gained) && forall i, j | 0 <= i < j < |keys| :: keys[i] != keys[j]
    ensures |Values(gained, section, key)| == if section == "network" && key in keys then 1 else 0
    decreases |keys|
  {
    hide Assignments;
    if keys != [] {
      assert Gained(reference, keys[1..], gained[1..]);
      GainedValues(reference, keys[1..], gained[1..], section, key);
      assert keys == [keys[0]] + keys[1..];
      assert keys[0] !in keys[1..];
    }
  }

  lemma {:induction false} MissingSubset(keys: seq<string>, present: set<string>)
    requires forall i, j | 0 <= i < j < |keys| :: keys[i] != keys[j]
    ensures var missing := MissingKeys(keys, present);
            && (forall k :: k in missing <==> k in keys && k !in present)
            && (forall i, j | 0 <= i < j < |missing| :: missing[i] != missing[j])
  {
    if keys != [] {
      MissingSubset(keys[1..], present);
      assert keys == [keys[0]] + keys[1..];
    }
  }

  lemma {:induction false} NoValues(entries: seq<Entry>, section: string, key: string)
    ensures Values(entries, section, key) == []
      <==> !exists e | e in entries :: e.section == section && e.binding.key == key
  {
    if entries != [] {
      NoValues(entries[1..], section, key);
      assert entries == [entries[0]] + entries[1..];
    }
  }

  lemma {:induction false} InsertedValues(before: seq<Entry>, at: nat, gained: seq<Entry>, after: seq<Entry>,
                                          section: string, key: string)
    requires Inserted(before, at, gained, after)
    ensures Values(gained, section, key) == [] ==> Values(after, section, key) == Values(before, section, key)
    ensures Values(before, section, key) == [] ==> Values(after, section, key) == Values(gained, section, key)
  {
    hide Values;
    ValuesAppend(before[..at], gained, section, key);
    ValuesAppend(before[..at] + gained, before[at..], section, key);
    ValuesAppend(before[..at], before[at..], section, key);
    assert before == before[..at] + before[at..];
  }

  lemma {:induction false} MissingHasNoValue(text: string, key: string)
    ensures key in MissingKeys(KEYS, Present("", Lines(text)))
       <==> key in KEYS && Values(Assignments(text), "network", key) == []
  {
    hide Entries, Lines, Present, MissingKeys, Values;
    var present := Present("", Lines(text));
    MissingSubset(KEYS, present);
    NoValues(Assignments(text), "network", key);
    if key in KEYS {
      PresentIsSaid("", Lines(text), key);
    }
  }

  /** No value is replaced or shadowed: a key that had values keeps exactly these, one
      of the four keys that had none gets exactly one, every other key stays unset. */
  lemma {:induction false} KeepsEveryValue(original: string, reference: string, section: string, key: string)
    requires Update(original, reference).Some?
    ensures var before := Values(Assignments(original), section, key);
            var after := Values(Assignments(Update(original, reference).value), section, key);
            if section == "network" && key in KEYS && before == [] then |after| == 1 else after == before
  {
    MissingSubset(KEYS, Present("", Lines(original)));
    hide *;
    var missing := MissingKeys(KEYS, Present("", Lines(original)));
    OnlyAdds(original, reference);
    MissingHasNoValue(original, key);
    var after := Assignments(Update(original, reference).value);
    var gained :| Gained(reference, missing, gained) && Inserted(Assignments(original), Place(original), gained, after);
    GainedValues(reference, missing, gained, section, key);
    InsertedValues(Assignments(original), Place(original), gained, after, section, key);
  }

  /** All four keys are set afterwards ... */
  lemma {:induction false} AllKeysSet(original: string, reference: string, key: string)
    requires Update(original, reference).Some? && key in KEYS
    ensures key in Present("", Lines(Update(original, reference).value))
  {
    hide Update, Values;
    KeepsEveryValue(original, reference, "network", key);
    var updated := Update(original, reference).value;
    NoValues(Assignments(updated), "network", key);
    PresentIsSaid("", Lines(updated), key);
  }

  /** ... so that a second update, from any complete template, leaves the file alone. */
  lemma {:induction false} Idempotent(original: string, reference: string, later: string)
    requires Update(original, reference).Some?
    requires Complete(Blocks("", [], map[], Lines(later)))
    ensures Update(Update(original, reference).value, later) == Update(original, reference)
  {
    hide Blocks, Present;
    var updated := Update(original, reference).value;
    forall k | k in KEYS ensures k in Present("", Lines(updated)) {
      AllKeysSet(original, reference, k);
    }
    hide Lines, ByteLength, Added, Missing;
  }

  lemma {:induction false} PutIn(head: string, tail: string, addition: string)
    ensures exists at: nat, more: string :: at <= |head + tail|
              && Terminated(head) + addition + tail == (head + tail)[..at] + more + (head + tail)[at..]
  {
    var more := Terminated(head)[|head|..] + addition;
    assert (head + tail)[..|head|] == head && (head + tail)[|head|..] == tail;
    assert Terminated(head) + addition + tail == head + more + tail;
  }

  /** No character of the policy is lost: the update is the old text with something
      put in at one point. */
  lemma {:induction false} TextSurvives(original: string, reference: string)
    requires Update(original, reference).Some?
    ensures exists at: nat, more: string :: at <= |original|
              && Update(original, reference).value == original[..at] + more + original[at..]
  {
    hide Blocks, Present, Lines, Missing, ByteLength, Insertion, Join, Terminated;
    var lines := Lines(original);
    var n := Insertion(lines);
    var addition := "\n" + Missing(KEYS, Blocks("", [], map[], Lines(reference)), Present("", lines));
    if Update(original, reference).value == original {
      assert original == original[..0] + "" + original[0..];
    } else if n == 0 {
      PutIn(original, "", "\n[network]\n" + addition);
      assert original + "" == original;
      var updated := Terminated(original) + ("\n[network]\n" + addition);
      assert updated + "" == updated;
    } else {
      JoinLines(original);
      JoinAppend(lines[..n], lines[n..]);
      assert lines[..n] + lines[n..] == lines;
      PutIn(Join(lines[..n]), Join(lines[n..]), addition);
    }
  }

  /** A key has a block exactly when the template assigns it under [network]. */
  lemma {:induction false} BlocksAreSaid(section: string, comments: seq<string>, blocks: map<string, string>,
                                         lines: seq<string>, key: string)
    requires key in KEYS
    ensures key in Blocks(section, comments, blocks, lines)
       <==> key in blocks || exists e | e in Entries(section, lines) :: e.section == "network" && e.binding.key == key
    decreases |lines|
  {
    if lines != [] {
      var line, rest := lines[0], lines[1..];
      BlocksStep(section, comments, blocks, lines);
      AfterHeader(section, line);
      hide Header, Assignment, Join, StripEnd;
      if Header(line).Some? {
        BlocksAreSaid(Header(line).value, [], blocks, rest, key);
      } else if Comment(line) {
        BlocksAreSaid(section, comments + [line], blocks, rest, key);
      } else {
        CollectedIsSaid(section, comments, blocks, line, key);
        BlocksAreSaid(section, [], Collected(section, comments, blocks, line), rest, key);
        hide Collected, Said;
      }
    }
  }

  lemma {:induction false} CollectedIsSaid(section: string, comments: seq<string>, blocks: map<string, string>,
                                           line: string, key: string)
    requires key in KEYS && Header(line).None? && !Comment(line)
    ensures key in Collected(section, comments, blocks, line)
       <==> key in blocks || exists e | e in Said(section, line) :: e.section == "network" && e.binding.key == key
  {
    hide Header, Comment, Assignment, Join, StripEnd;
    if Assignment(line).Some? {
      assert Entry(section, Assignment(line).value) in Said(section, line);
    }
  }

  /** Text `text` gives key a value under [network]. */
  ghost predicate Sets(text: string, key: string) {
    Values(Assignments(text), "network", key) != []
  }

  lemma {:induction false} SetsIsFound(text: string, key: string)
    requires key in KEYS
    ensures Sets(text, key) <==> key in Blocks("", [], map[], Lines(text))
    ensures Sets(text, key) <==> key in Present("", Lines(text))
  {
    hide Blocks, Present, Entries, Lines, Values;
    NoValues(Assignments(text), "network", key);
    BlocksAreSaid("", [], map[], Lines(text), key);
    PresentIsSaid("", Lines(text), key);
  }

  /** The policy with the template's blocks of its missing keys. */
  ghost function Completed(original: string, reference: string): string {
    Added(original, "\n" + Missing(KEYS, Blocks("", [], map[], Lines(reference)), Present("", Lines(original))))
  }

  /** The update is refused exactly when the template leaves one of the four keys unset,
      or the policy does and would be too long with the template's values; a policy that
      sets all four is never touched, however long it is. */
  lemma {:induction false} Refusal(original: string, reference: string)
    ensures Update(original, reference) ==
              if exists k | k in KEYS :: !Sets(reference, k) then None
              else if forall k | k in KEYS :: Sets(original, k) then Some(original)
              else if ByteLength(Completed(original, reference)) > LIMIT then None
              else Some(Completed(original, reference))
  {
    hide Blocks, Present, Lines, Missing, Added, ByteLength, Sets;
    forall k | k in KEYS
      ensures Sets(reference, k) <==> k in Blocks("", [], map[], Lines(reference))
      ensures Sets(original, k) <==> k in Present("", Lines(original))
    {
      SetsIsFound(reference, k);
      SetsIsFound(original, k);
    }
  }

  // ------------------------------------------------------------------ the loops

  /** The loop over the template. */
  method ReadTemplate(lines: seq<string>) returns (blocks: map<string, string>)
    ensures blocks == Blocks("", [], map[], lines)
  {
    hide Header, Comment, Assignment, Join, StripEnd;
    var comments: seq<string>, section := [], "";
    blocks := map[];
    assert lines[0..] == lines;
    for i := 0 to |lines|
      invariant Blocks(section, comments, blocks, lines[i..]) == Blocks("", [], map[], lines)
    {
      var line := lines[i];
      assert lines[i..][1..] == lines[i + 1..];
      var header := Header(line);
      if header.Some? {
        section, comments := header.value, [];
      } else if Comment(line) {
        comments := comments + [line];
      } else {
        var assignment := Assignment(line);
        if section == "network" && assignment.Some? && assignment.value.key in KEYS {
          blocks := blocks[assignment.value.key := Join(comments) + StripEnd(line) + "\n"];
        }
        comments := [];
      }
    }
  }

  /** The loop over the policy. */
  method ReadPolicy(lines: seq<string>) returns (present: set<string>, insertion: nat)
    ensures present == Present("", lines) && insertion == Insertion(lines)
  {
    hide Header, Assignment;
    var section := "";
    present, insertion := {}, 0;
    assert lines[0..] == lines;
    for i := 0 to |lines|
      invariant present + Present(section, lines[i..]) == Present("", lines)
      invariant Insertion(lines) == if insertion > 0 then insertion
                else if Insertion(lines[i..]) == 0 then 0 else i + Insertion(lines[i..])
    {
      var line := lines[i];
      assert lines[i..][1..] == lines[i + 1..];
      var header := Header(line);
      if header.Some? {
        section := header.value;
        if section == "network" && insertion == 0 {
          insertion := i + 1;
        }
      } else if section == "network" {
        var assignment := Assignment(line);
        if assignment.Some? {
          present := present + {assignment.value.key};
        }
      }
    }
  }

  /** The blocks of the missing keys, in the order of KEYS. */
  method Collect(blocks: map<string, string>, present: set<string>) returns (addition: string)
    requires Complete(blocks)
    ensures addition == Missing(KEYS, blocks, present)
  {
    addition := "";
    var keys := KEYS;
    while keys != []
      invariant addition + Missing(keys, blocks, present) == Missing(KEYS, blocks, present)
      invariant forall k | k in keys :: k in KEYS
      decreases |keys|
    {
      var key := keys[0];
      if key !in present {
        addition := addition + (blocks[key] + "\n");
      }
      keys := keys[1..];
    }
  }

  method AddMissingKeys(original: string, reference: string) returns (result: Option<string>)
    ensures result == Update(original, reference)
  {
    hide Lines, Blocks, Present, Insertion, Missing, Join, ByteLength, Terminated;
    var blocks := ReadTemplate(Lines(reference));
    if !Complete(blocks) {
      return None;
    }
    var lines := Lines(original);
    var present, insertion := ReadPolicy(lines);
    if !Lacks(KEYS, present) {
      return Some(original);
    }
    var addition := Collect(blocks, present);
    addition := "\n" + addition;
    var updated;
    if insertion == 0 {
      updated := Terminated(original) + ("\n[network]\n" + addition);
    } else {
      updated := Terminated(Join(lines[..insertion])) + addition + Join(lines[insertion..]);
    }
    result := if ByteLength(updated) > LIMIT then None else Some(updated);
  }

  // ---------------------------------------------------------- the limit in bytes

  ghost function Codes(s: string): seq<nat> {
    if s == "" then [] else [s[0] as nat] + Codes(s[1..])
  }

  lemma {:induction false} ByteLengthCons(c: char, s: string)
    ensures ByteLength([c] + s) == Width(c) + ByteLength(s)
  {
    if s == "" {
      assert [c] + s == [c] && [c][..0] == "";
    } else {
      var n := |s| - 1;
      ByteLengthCons(c, s[..n]);
      assert ([c] + s)[..n + 1] == [c] + s[..n];
    }
  }

  /** The length the limit is about is that of the UTF-8 encoding. */
  lemma {:induction false} LengthIsEncoded(s: string)
    requires forall i | 0 <= i < |s| :: s[i] != '\0'
    ensures ClipboardText.Scalars(Codes(s)) && ByteLength(s) == |ClipboardText.EncodeAll(Codes(s))|
  {
    if s != "" {
      LengthIsEncoded(s[1..]);
      ByteLengthCons(s[0], s[1..]);
      assert s == [s[0]] + s[1..];
      var codes := Codes(s);
      assert codes[1..] == Codes(s[1..]);
      forall k | 0 <= k < |codes| ensures ClipboardText.Scalar(codes[k]) {
        if k > 0 {
          assert codes[k] == codes[1..][k - 1];
        }
      }
    }
  }

  // -------------------------------------------------- the added text, to the letter

  /** Line j assigns the key under [network]. */
  ghost predicate Names(ls: seq<string>, j: nat, key: string)
    requires j < |ls|
  {
    && Section("", ls[..j]) == "network" && Header(ls[j]).None? && !Comment(ls[j])
    && Assignment(ls[j]).Some? && Assignment(ls[j]).value.key == key
  }

  /** Line j is the last of these lines to do so, and the comments directly before it
      start at line i. */
  ghost predicate IsLast(ls: seq<string>, upTo: nat, key: string, i: nat, j: nat) {
    && i <= j < upTo <= |ls|
    && Names(ls, j, key) && (forall m | j < m < upTo :: !Names(ls, m, key))
    && AllComments(ls[i..j]) && (i == 0 || !Comment(ls[i - 1]))
  }

  ghost function BlockText(ls: seq<string>, i: nat, j: nat): string
    requires i <= j < |ls|
  {
    Join(ls[i..j]) + StripEnd(ls[j]) + "\n"
  }

  ghost predicate LastBlock(ls: seq<string>, upTo: nat, key: string, block: string) {
    exists i: nat, j: nat :: IsLast(ls, upTo, key, i, j) && block == BlockText(ls, i, j)
  }

  ghost predicate Latest(ls: seq<string>, upTo: nat, blocks: map<string, string>) {
    forall k | k in blocks :: k in KEYS && LastBlock(ls, upTo, k, blocks[k])
  }

  lemma {:induction false} LastOn(ls: seq<string>, j: nat, key: string, block: string)
    requires j < |ls| && LastBlock(ls, j, key, block) && !Names(ls, j, key)
    ensures LastBlock(ls, j + 1, key, block)
  {
    hide Names, AllComments, BlockText;
    var i: nat, m: nat :| IsLast(ls, j, key, i, m) && block == BlockText(ls, i, m);
    assert IsLast(ls, j + 1, key, i, m);
  }

  lemma {:induction false} LatestOn(ls: seq<string>, j: nat, blocks: map<string, string>)
    requires j < |ls| && Latest(ls, j, blocks) && forall k | k in KEYS :: !Names(ls, j, k)
    ensures Latest(ls, j + 1, blocks)
  {
    hide Names, LastBlock, KEYS;
    forall k | k in blocks ensures LastBlock(ls, j + 1, k, blocks[k]) {
      LastOn(ls, j, k, blocks[k]);
    }
  }

  lemma {:induction false} LatestCollected(ls: seq<string>, i: nat, j: nat, blocks: map<string, string>)
    requires i <= j < |ls| && Latest(ls, j, blocks)
    requires AllComments(ls[i..j]) && (i == 0 || !Comment(ls[i - 1]))
    requires Header(ls[j]).None? && !Comment(ls[j])
    ensures Latest(ls, j + 1, Collected(Section("", ls[..j]), ls[i..j], blocks, ls[j]))
  {
    hide KEYS, Header, Comment, Assignment, Join, StripEnd, Section, AllComments, LastBlock;
    var after := Collected(Section("", ls[..j]), ls[i..j], blocks, ls[j]);
    forall k | k in after ensures k in KEYS && LastBlock(ls, j + 1, k, after[k]) {
      if Names(ls, j, k) && k in KEYS {
        NewLast(ls, i, j, k);
      } else {
        assert k in blocks && after[k] == blocks[k];
        LastOn(ls, j, k, blocks[k]);
      }
    }
  }

  lemma {:induction false} NewLast(ls: seq<string>, i: nat, j: nat, key: string)
    requires i <= j < |ls| && AllComments(ls[i..j]) && (i == 0 || !Comment(ls[i - 1])) && Names(ls, j, key)
    ensures LastBlock(ls, j + 1, key, BlockText(ls, i, j))
  {
    hide Names, AllComments, BlockText, Comment;
    assert IsLast(ls, j + 1, key, i, j);
  }

  lemma {:induction false} HeaderIsNoComment(line: string)
    requires Header(line).Some?
    ensures !Comment(line)
  {
  }

  lemma {:induction false} BlocksLatest(reference: string, i: nat, j: nat, blocks: map<string, string>)
    requires i <= j <= |Lines(reference)| && Latest(Lines(reference), j, blocks)
    requires AllComments(Lines(reference)[i..j]) && (i == 0 || !Comment(Lines(reference)[i - 1]))
    ensures Latest(Lines(reference), |Lines(reference)|, Rest(reference, i, j, blocks))
    decreases |Lines(reference)| - j
  {
    var ls := Lines(reference);
    hide Lines, Latest, Header, Comment, Collected, AllComments, KEYS;
    if j < |ls| {
      RestStep(reference, i, j, blocks);
      CommentsOn(ls, i, j);
      hide Rest;
      if Header(ls[j]).Some? {
        HeaderIsNoComment(ls[j]);
        LatestOn(ls, j, blocks);
        BlocksLatest(reference, j + 1, j + 1, blocks);
      } else if Comment(ls[j]) {
        LatestOn(ls, j, blocks);
        BlocksLatest(reference, i, j + 1, blocks);
      } else {
        LatestCollected(ls, i, j, blocks);
        BlocksLatest(reference, j + 1, j + 1, Collected(Section("", ls[..j]), ls[i..j], blocks, ls[j]));
      }
    } else {
      assert ls[j..] == [];
    }
  }

  /** The block of a key is the template's last assignment of it under [network], without
      its line end, behind the comment lines directly before it. */
  lemma {:induction false} TemplateBlocks(reference: string, key: string)
    ensures var blocks := Blocks("", [], map[], Lines(reference));
            key in blocks ==> LastBlock(Lines(reference), |Lines(reference)|, key, blocks[key])
  {
    hide Blocks, Lines, LastBlock;
    var ls := Lines(reference);
    assert ls[..0] == [] && ls[0..0] == [] && ls[0..] == ls && Section("", []) == "";
    BlocksLatest(reference, 0, 0, map[]);
    assert Rest(reference, 0, 0, map[]) == Blocks("", [], map[], ls);
  }

  /** The first line that opens [network] is line n - 1. */
  ghost predicate Opened(ls: seq<string>, n: nat) {
    && 0 < n <= |ls| && Header(ls[n - 1]) == Some("network")
    && forall m | 0 <= m < n - 1 :: Header(ls[m]) != Some("network")
  }

  lemma {:induction false} InsertionExactly(ls: seq<string>)
    ensures Insertion(ls) == 0 <==> forall m | 0 <= m < |ls| :: Header(ls[m]) != Some("network")
    ensures Insertion(ls) > 0 ==> Opened(ls, Insertion(ls))
  {
    hide Header;
    if ls != [] {
      InsertionExactly(ls[1..]);
      assert ls == [ls[0]] + ls[1..];
    }
  }

  /** Those of the keys that the text does not set, in order. */
  ghost function Unset(text: string, keys: seq<string>): seq<string> {
    if keys == [] then [] else (if Sets(text, keys[0]) then [] else [keys[0]]) + Unset(text, keys[1..])
  }

  /** The texts one after the other, each followed by an empty line. */
  ghost function Spaced(texts: seq<string>): string {
    if texts == [] then "" else texts[0] + "\n" + Spaced(texts[1..])
  }

  ghost predicate FromTemplate(reference: string, keys: seq<string>, texts: seq<string>) {
    && |texts| == |keys|
    && forall m | 0 <= m < |keys| :: LastBlock(Lines(reference), |Lines(reference)|, keys[m], texts[m])
  }

  lemma {:induction false} MissingIsSpaced(original: string, reference: string, keys: seq<string>)
    returns (texts: seq<string>)
    requires forall k | k in keys :: k in KEYS && k in Blocks("", [], map[], Lines(reference))
    ensures FromTemplate(reference, Unset(original, keys), texts)
    ensures Missing(keys, Blocks("", [], map[], Lines(reference)), Present("", Lines(original))) == Spaced(texts)
    decreases |keys|
  {
    hide Blocks, Present, Lines, LastBlock, KEYS, Sets;
    texts := [];
    if keys != [] {
      var k := keys[0];
      texts := MissingIsSpaced(original, reference, keys[1..]);
      SetsIsFound(original, k);
      TemplateBlocks(reference, k);
      if !Sets(original, k) {
        var more := texts;
        texts := [Blocks("", [], map[], Lines(reference))[k]] + more;
        assert texts[1..] == more;
      }
    }
  }

  /** A line break, if there is none at the end. */
  ghost function Gap(text: string): string {
    if text == "" || text[|text| - 1] == '\n' then "" else "\n"
  }

  /** The updated text: the policy up to the end of its first [network] line, the template's
      blocks of the keys it does not set, each before an empty line, and the rest of the
      policy; or the whole policy, a [network] line and the blocks. */
  lemma {:induction false} AddsExactly(original: string, reference: string) returns (texts: seq<string>)
    requires Update(original, reference).Some? && exists k :: k in KEYS && !Sets(original, k)
    ensures FromTemplate(reference, Unset(original, KEYS), texts)
    ensures var ls, updated := Lines(original), Update(original, reference).value;
            && (forall n: nat | Opened(ls, n) ::
                  updated == Join(ls[..n]) + Gap(Join(ls[..n])) + "\n" + Spaced(texts) + Join(ls[n..]))
            && ((forall m | 0 <= m < |ls| :: Header(ls[m]) != Some("network")) ==>
                  updated == original + Gap(original) + "\n[network]\n\n" + Spaced(texts))
  {
    Refusal(original, reference);
    forall k | k in KEYS ensures k in Blocks("", [], map[], Lines(reference)) {
      SetsIsFound(reference, k);
    }
    hide Blocks, Present, Lines, LastBlock, Sets, Update, ByteLength, Missing, FromTemplate, Spaced, Unset, Header;
    texts := MissingIsSpaced(original, reference, KEYS);
    hide KEYS, Added;
    assert Completed(original, reference) == Added(original, "\n" + Spaced(texts));
    AddedExactly(original, Spaced(texts));
  }

  lemma {:induction false} AddedExactly(text: string, more: string)
    ensures var ls := Lines(text);
            && (forall n: nat | Opened(ls, n) ::
                  Added(text, "\n" + more) == Join(ls[..n]) + Gap(Join(ls[..n])) + "\n" + more + Join(ls[n..]))
            && ((forall m | 0 <= m < |ls| :: Header(ls[m]) != Some("network")) ==>
                  Added(text, "\n" + more) == text + Gap(text) + "\n[network]\n\n" + more)
  {
    var ls := Lines(text);
    hide Lines, Header, Added, Join, Gap;
    forall n: nat | Opened(ls, n)
      ensures Added(text, "\n" + more) == Join(ls[..n]) + Gap(Join(ls[..n])) + "\n" + more + Join(ls[n..])
    {
      AddedBehind(text, more, n);
    }
    if forall m | 0 <= m < |ls| :: Header(ls[m]) != Some("network") {
      AddedBelow(text, more);
    }
  }

  lemma {:induction false} AddedBehind(text: string, more: string, n: nat)
    requires Opened(Lines(text), n)
    ensures var ls := Lines(text);
            Added(text, "\n" + more) == Join(ls[..n]) + Gap(Join(ls[..n])) + "\n" + more + Join(ls[n..])
  {
    var ls := Lines(text);
    InsertionExactly(ls);
    assert Header(ls[n - 1]) == Some("network");
    assert n == Insertion(ls);
    TerminatedGap(Join(ls[..n]));
    hide Lines, Header, Insertion, Join, Terminated, Gap;
    Pieces(Terminated(Join(ls[..n])), "\n", more, Join(ls[n..]));
  }

  lemma {:induction false} AddedBelow(text: string, more: string)
    requires forall m | 0 <= m < |Lines(text)| :: Header(Lines(text)[m]) != Some("network")
    ensures Added(text, "\n" + more) == text + Gap(text) + "\n[network]\n\n" + more
  {
    InsertionExactly(Lines(text));
    TerminatedGap(text);
    hide Lines, Header, Insertion, Join, Terminated, Gap;
    Pieces(Terminated(text), "\n[network]\n", "\n", more);
  }

  lemma {:induction false} TerminatedGap(text: string)
    ensures Terminated(text) == text + Gap(text)
  {
  }

  lemma {:induction false} Pieces(a: string, b: string, c: string, d: string)
    ensures a + (b + c) + d == a + b + c + d && a + (b + (c + d)) == a + (b + c) + d
    ensures b == "\n[network]\n" && c == "\n" ==> b + c == "\n[network]\n\n"
  {
  }
}
