/** The rules file as a text: its lines, what a line must look like, and what is in force once it is loaded. */
module RulesText {
  import opened Prelude
  import opened Types
  import opened Sequences
  import opened Rules

  // ----- lines -----

  predicate OneLine(s: string) {
    forall i :: 0 <= i < |s| ==> s[i] != '\n'
  }

  /** The lines, each ended by a newline. */
  function Unlines(lines: seq<string>): string {
    if lines == [] then "" else lines[0] + ("\n" + Unlines(lines[1..]))
  }

  lemma {:induction false} LineOfPiece(line: string, after: string)
    requires OneLine(line) && (after == "" || after[0] == '\n')
    ensures LineOf(line + after) == line
  {
    if line == "" {
      assert line + after == after;
    } else {
      assert (line + after)[1..] == line[1..] + after;
      LineOfPiece(line[1..], after);
    }
  }

  function Ended(text: string): string {
    if text == "" || text[|text| - 1] == '\n' then text else text + "\n"
  }

  lemma EndedAfter(line: string, rest: string)
    ensures Ended(line + ("\n" + rest)) == line + ("\n" + Ended(rest))
  {
    var text := line + ("\n" + rest);
    if rest != "" {
      assert text[|text| - 1] == rest[|rest| - 1];
    }
    assert line + ("\n" + (rest + "\n")) == text + "\n";
  }

  lemma UnlinesCons(line: string, lines: seq<string>)
    ensures Unlines([line] + lines) == line + ("\n" + Unlines(lines))
  {
    assert ([line] + lines)[1..] == lines;
  }

  lemma Glued(text: string, first: string, rest: string)
    requires first <= text && |first| < |text| && text[|first|] == '\n' && rest == text[|first| + 1..]
    ensures text == first + ("\n" + rest)
  {
  }

  /** The first line, and the text after its newline if it has one. */
  lemma LinesStep(text: string) returns (first: string, rest: string)
    requires text != ""
    ensures OneLine(first) && |rest| < |text| && Lines(text) == [first] + Lines(rest)
    ensures text == first + ("\n" + rest) || (text == first && rest == "")
  {
    first := LineOf(text);
    rest := if |first| < |text| then text[|first| + 1..] else "";
    FirstLine(text, first, rest);
    if |first| < |text| {
      Glued(text, first, rest);
    }
  }

  lemma EndedLast(first: string)
    requires OneLine(first) && first != ""
    ensures Ended(first) == first + ("\n" + "")
  {
  }

  /** Writing the lines back gives the text, with a newline after the last one if it had none. */
  lemma {:induction false} LinesJoin(text: string)
    ensures forall line :: line in Lines(text) ==> OneLine(line)
    ensures Unlines(Lines(text)) == Ended(text)
    decreases |text|
  {
    if text != "" {
      var first, rest := LinesStep(text);
      LinesJoin(rest);
      UnlinesCons(first, Lines(rest));
      if text == first {
        EndedLast(first);
      } else {
        EndedAfter(first, rest);
      }
    }
  }

  /** Any list of lines is read back from the text it makes. */
  lemma {:induction false} LinesRoundTrip(lines: seq<string>)
    requires forall line :: line in lines ==> OneLine(line)
    ensures Lines(Unlines(lines)) == lines
  {
    if lines != [] {
      var rest := Unlines(lines[1..]);
      LineOfPiece(lines[0], "\n" + rest);
      assert Unlines(lines)[|lines[0]| + 1..] == rest;
      LinesRoundTrip(lines[1..]);
    }
  }

  /** A stretch of the text that starts after a newline or at the front and ends at a newline or at the end. */
  predicate PieceOf(text: string, before: string, line: string, after: string) {
    && text == before + (line + after) && OneLine(line)
    && (before == "" || before[|before| - 1] == '\n')
    && (after == "" || after[0] == '\n')
  }

  ghost predicate HasLine(text: string, line: string) {
    exists before, after :: PieceOf(text, before, line, after)
  }

  lemma {:induction false} PieceIsLine(text: string, before: string, line: string, after: string)
    requires PieceOf(text, before, line, after) && line != ""
    ensures line in Lines(text)
    decreases |before|
  {
    if before == "" {
      assert text == line + after;
      LineOfPiece(line, after);
    } else {
      var first := LineOf(before);
      var k := |first| + 1;
      FirstOfMany(before, line + after);
      assert PieceOf(text[k..], before[k..], line, after) by {
        assert text[k..] == before[k..] + (line + after);
      }
      PieceIsLine(text[k..], before[k..], line, after);
    }
  }

  lemma FirstOfMany(before: string, rest: string)
    requires before != "" && before[|before| - 1] == '\n'
    ensures var first := LineOf(before); |first| < |before| && LineOf(before + rest) == first
  {
    var first := LineOf(before);
    assert before + rest == first + (before[|first|..] + rest);
    LineOfPiece(first, before[|first|..] + rest);
  }

  lemma LaterPiece(text: string, first: string, rest: string, line: string)
    requires text == first + ("\n" + rest) && HasLine(rest, line)
    ensures HasLine(text, line)
  {
    var before, after :| PieceOf(rest, before, line, after);
    var all := first + ("\n" + before);
    assert text == all + (line + after);
    assert PieceOf(text, all, line, after);
  }

  lemma FirstPiece(text: string, first: string, after: string)
    requires text == first + after && OneLine(first) && (after == "" || after[0] == '\n')
    ensures HasLine(text, first)
  {
    assert text == "" + (first + after);
    assert PieceOf(text, "", first, after);
  }

  lemma {:induction false} LineIsPiece(text: string, line: string)
    requires line in Lines(text)
    ensures HasLine(text, line)
    decreases |text|
  {
    var first, rest := LinesStep(text);
    if line == first {
      FirstPiece(text, first, text[|first|..]);
    } else {
      LineIsPiece(rest, line);
      LaterPiece(text, first, rest, line);
    }
  }

  /** The lines read are exactly those stretches, blank ones aside. */
  lemma LinesExactly(text: string, line: string)
    requires line != ""
    ensures line in Lines(text) <==> HasLine(text, line)
  {
    if line in Lines(text) {
      LineIsPiece(text, line);
    }
    if HasLine(text, line) {
      var before, after :| PieceOf(text, before, line, after);
      PieceIsLine(text, before, line, after);
    }
  }

  // ----- what a line says -----

  lemma {:induction false} StrippedParts(line: string) returns (comment: string)
    ensures line == StripComment(line) + comment && (comment == "" || comment[0] == '#')
    ensures forall i :: 0 <= i < |StripComment(line)| ==> StripComment(line)[i] != '#'
  {
    if line == "" || line[0] == '#' {
      comment := line;
    } else {
      comment := StrippedParts(line[1..]);
      assert line == [line[0]] + line[1..];
    }
  }

  lemma {:induction false} TrimmedRight(s: string) returns (blanks: string)
    ensures s == TrimRight(s) + blanks && Blanks(blanks)
  {
    if s != "" && IsSpace(s[|s| - 1]) {
      blanks := TrimmedRight(s[..|s| - 1]);
      blanks := blanks + [s[|s| - 1]];
    } else {
      blanks := "";
    }
  }

  lemma {:induction false} TrimmedLeft(s: string) returns (blanks: string)
    ensures s == blanks + TrimLeft(s) && Blanks(blanks)
    ensures TrimLeft(s) == "" || !IsSpace(TrimLeft(s)[0])
  {
    if s != "" && IsSpace(s[0]) {
      blanks := TrimmedLeft(s[1..]);
      blanks := [s[0]] + blanks;
    } else {
      blanks := "";
    }
  }

  lemma {:induction false} AfterToken(s: string)
    ensures var rest := s[|Token(s)|..]; s == Token(s) + rest && (rest == "" || IsSpace(rest[0]))
    ensures forall i :: 0 <= i < |Token(s)| ==> !IsSpace(Token(s)[i])
  {
    if s != "" && !IsSpace(s[0]) {
      AfterToken(s[1..]);
      assert s[|Token(s)|..] == s[1..][|Token(s[1..])|..];
    }
  }

  /** The two words the parser looks at. */
  function Words(line: string): (string, string) {
    var s := TrimLeft(TrimRight(StripComment(line)));
    (Token(s), Token(TrimLeft(s[|Token(s)|..])))
  }

  /** A line is indentation, two words apart, and space or a comment. */
  lemma WordsAreSaid(line: string)
    requires Words(line).1 != ""
    ensures IsPlain(Words(line).0) && IsPlain(Words(line).1) && Says(line, Words(line).0, Words(line).1)
  {
    var stripped := StripComment(line);
    var comment := StrippedParts(line);
    var trailing := TrimmedRight(stripped);
    var indent, gap, left := WordsIn(TrimRight(stripped));
    var directive, value := Words(line).0, Words(line).1;
    var rest := left + (trailing + comment);
    Assoc(TrimRight(stripped), trailing, comment);
    Regroup(stripped, indent, directive, gap, value, left, trailing);
    SaidIsPlain(stripped, indent, directive, gap, value, left + trailing);
    RestStarts(left, trailing, comment);
    Regroup(line, indent, directive, gap, value, left, trailing + comment);
    assert Layout(line, indent, directive, gap, value, rest);
  }

  lemma Regroup(s: string, indent: string, directive: string, gap: string, value: string, left: string, more: string)
    requires s == (indent + (directive + (gap + (value + left)))) + more
    ensures s == indent + (directive + (gap + (value + (left + more))))
  {
  }

  lemma RestStarts(left: string, trailing: string, comment: string)
    requires left == "" || IsSpace(left[0])
    requires Blanks(trailing) && (comment == "" || comment[0] == '#')
    ensures var rest := left + (trailing + comment); rest == "" || IsSpace(rest[0]) || rest[0] == '#'
  {
  }

  lemma WordsIn(trimmed: string) returns (indent: string, gap: string, left: string)
    requires var s := TrimLeft(trimmed); Token(TrimLeft(s[|Token(s)|..])) != ""
    ensures var s := TrimLeft(trimmed);
            var directive, value := Token(s), Token(TrimLeft(s[|Token(s)|..]));
            && trimmed == indent + (directive + (gap + (value + left)))
            && (forall i :: 0 <= i < |directive| ==> !IsSpace(directive[i]))
            && (forall i :: 0 <= i < |value| ==> !IsSpace(value[i]))
            && directive != ""
    ensures Blanks(indent) && Blanks(gap) && gap != "" && (left == "" || IsSpace(left[0]))
  {
    var s := TrimLeft(trimmed);
    indent := TrimmedLeft(trimmed);
    var more := s[|Token(s)|..];
    AfterToken(s);
    gap := TrimmedLeft(more);
    var second := TrimLeft(more);
    AfterToken(second);
    left := second[|Token(second)|..];
  }

  lemma SaidIsPlain(s: string, indent: string, directive: string, gap: string, value: string, rest: string)
    requires s == indent + (directive + (gap + (value + rest))) && forall i :: 0 <= i < |s| ==> s[i] != '#'
    ensures forall i :: 0 <= i < |directive| ==> directive[i] != '#'
    ensures forall i :: 0 <= i < |value| ==> value[i] != '#'
  {
    forall i | 0 <= i < |directive| ensures directive[i] != '#' {
      assert directive[i] == s[|indent| + i];
    }
    forall i | 0 <= i < |value| ensures value[i] != '#' {
      assert value[i] == s[|indent| + |directive| + |gap| + i];
    }
  }

  /** A plain word pair is what a line says exactly when it is what the parser sees. */
  lemma SaysItsWords(line: string, directive: string, value: string)
    requires IsPlain(directive) && IsPlain(value)
    ensures Says(line, directive, value) <==> Words(line) == (directive, value)
  {
    if Says(line, directive, value) {
      SaidAreWords(line, directive, value);
    } else if Words(line) == (directive, value) {
      WordsAreSaid(line);
    }
  }

  lemma SaidAreWords(line: string, directive: string, value: string)
    requires IsPlain(directive) && IsPlain(value) && Says(line, directive, value)
    ensures Words(line) == (directive, value)
  {
    var indent, gap, rest :| Layout(line, indent, directive, gap, value, rest);
    var tail := Trimmed(line, indent, directive, gap, value, rest);
    var s := directive + (gap + (value + tail));
    TokenBeforeSpace(directive, gap + (value + tail));
    assert s[|directive|..] == gap + (value + tail);
    TrimLeftSkips(gap, value + tail);
    TokenBeforeSpace(value, tail);
  }

  // ----- the number in a block_port line -----

  predicate Digits(s: string) {
    forall i :: 0 <= i < |s| ==> IsDigit(s[i])
  }

  lemma {:induction false} DigitRunOf(digits: string, junk: string)
    requires Digits(digits) && (junk == "" || !IsDigit(junk[0]))
    ensures DigitRun(digits + junk) == digits
  {
    if digits == "" {
      assert digits + junk == junk;
    } else {
      assert (digits + junk)[1..] == digits[1..] + junk;
      DigitRunOf(digits[1..], junk);
    }
  }

  /** An optional sign, then a run of digits, then anything that does not continue it. */
  predicate Spelled(value: string, sign: string, digits: string, junk: string) {
    && value == sign + (digits + junk)
    && sign in {"", "+", "-"} && Digits(digits) && (junk == "" || !IsDigit(junk[0]))
    && (sign == "" && digits == "" ==> junk == "" || junk[0] !in {'+', '-'})
  }

  /** Leading digits, modulo 2^64 when negated; no digits or too large a number is an error. */
  lemma StoulExactly(value: string, sign: string, digits: string, junk: string)
    requires Spelled(value, sign, digits, junk)
    ensures Stoul(value)
         == if digits == "" || Decimal(digits) >= ULONG then None
            else if sign == "-" then Some((ULONG - Decimal(digits)) % ULONG)
            else Some(Decimal(digits))
  {
    DigitRunOf(digits, junk);
    if sign == "" {
      assert value == digits + junk;
    } else {
      assert value[1..] == digits + junk;
    }
  }

  // ----- which lines put a rule in force -----

  predicate IsDirective(word: string) {
    word == "block_ip" || word == "block_app" || word == "block_domain" || word == "block_port"
  }

  /** The line says this directive with a value for which it is valid. */
  ghost predicate Orders(line: string, directive: string, value: string) {
    && IsPlain(value) && Says(line, directive, value)
    && (directive == "block_port" ==> Stoul(value).Some?)
    && IsDirective(directive)
  }

  /** What such a line puts in force. */
  ghost predicate Enacts(directive: string, value: string, x: Item) {
    match x {
      case Address(ip) => directive == "block_ip" && IsQuad(value) && ParseIp(value) == ip
      case Port(port) => directive == "block_port" && Stoul(value).Some? && Stoul(value).value % 65536 == port
      case App(app) => directive == "block_app" && NamesApp(app, value)
      case Pattern(pattern) => directive == "block_domain" && pattern == value
    }
  }

  lemma OrdersAreParsed(line: string, directive: string, value: string)
    requires Orders(line, directive, value)
    ensures Words(line) == (directive, value)
    ensures ParseLine(line) == Interpret(directive, value) && !ParseLine(line).Invalid? && !ParseLine(line).Blank?
  {
    SaidAreWords(line, directive, value);
  }

  lemma ParsedAreOrders(line: string)
    requires !ParseLine(line).Invalid? && !ParseLine(line).Blank?
    ensures Orders(line, Words(line).0, Words(line).1)
  {
    WordsAreSaid(line);
  }

  lemma EnactsPuts(directive: string, value: string, x: Item)
    requires value != ""
    requires IsDirective(directive)
    ensures Puts(Interpret(directive, value), x) <==> Enacts(directive, value, x)
  {
    if x.App? {
      AppFromFinds(value, 0, x.app);
    }
  }

  ghost predicate LineEnacts(line: string, x: Item) {
    exists directive, value :: Orders(line, directive, value) && Enacts(directive, value, x)
  }

  /** A line puts something in force exactly when it is laid out as a valid directive for it. */
  lemma PutsExactly(line: string, x: Item)
    ensures Puts(ParseLine(line), x) <==> LineEnacts(line, x)
  {
    if Puts(ParseLine(line), x) {
      ParsedAreOrders(line);
      EnactsPuts(Words(line).0, Words(line).1, x);
    }
    if LineEnacts(line, x) {
      var directive, value :| Orders(line, directive, value) && Enacts(directive, value, x);
      OrdersAreParsed(line, directive, value);
      EnactsPuts(directive, value, x);
    }
  }

  ghost predicate Accepted(line: string) {
    exists directive, value :: Orders(line, directive, value)
  }

  lemma AcceptedExactly(line: string)
    ensures Accepted(line) <==> !ParseLine(line).Invalid? && !ParseLine(line).Blank?
  {
    if Accepted(line) {
      var directive, value :| Orders(line, directive, value);
      OrdersAreParsed(line, directive, value);
    } else if !ParseLine(line).Invalid? && !ParseLine(line).Blank? {
      ParsedAreOrders(line);
    }
  }

  ghost function AcceptedLines(lines: seq<string>): seq<string> {
    Filter(line => Accepted(line), lines)
  }

  /** The count loadRules returns is the number of valid directives. */
  lemma {:induction false} LoadedCount(lines: seq<string>)
    ensures Loaded(lines) == |AcceptedLines(lines)|
    decreases |lines|
  {
    if lines != [] {
      var p := line => Accepted(line);
      assert lines == [lines[0]] + lines[1..];
      FilterConcat(p, [lines[0]], lines[1..]);
      assert [lines[0]][..0] == [];
      AcceptedExactly(lines[0]);
      LoadedCount(lines[1..]);
    }
  }

  // ----- from the text of the file -----

  /** Some line of the file says this directive with this value. */
  ghost predicate TextOrders(text: string, directive: string, value: string) {
    exists line :: HasLine(text, line) && Orders(line, directive, value)
  }

  ghost predicate TextEnacts(text: string, x: Item) {
    exists directive, value :: TextOrders(text, directive, value) && Enacts(directive, value, x)
  }

  lemma OrderedLine(text: string, directive: string, value: string) returns (line: string)
    requires TextOrders(text, directive, value)
    ensures line in Lines(text) && Orders(line, directive, value)
  {
    line :| HasLine(text, line) && Orders(line, directive, value);
    SaidIsNotEmpty(line, directive, value);
    LinesExactly(text, line);
  }

  lemma SaidIsNotEmpty(line: string, directive: string, value: string)
    requires Says(line, directive, value) && value != ""
    ensures line != ""
  {
    var indent, gap, rest :| Layout(line, indent, directive, gap, value, rest);
    assert |line| >= |gap|;
  }

  lemma EnactedLine(text: string, x: Item)
    ensures TextEnacts(text, x) <==> SomeLinePuts(Lines(text), x)
  {
    if TextEnacts(text, x) {
      var directive, value :| TextOrders(text, directive, value) && Enacts(directive, value, x);
      var line := OrderedLine(text, directive, value);
      var n := Position(Lines(text), line);
      assert LineEnacts(line, x);
      PutsExactly(line, x);
    }
    if SomeLinePuts(Lines(text), x) {
      var n :| 0 <= n < |Lines(text)| && Puts(ParseLine(Lines(text)[n]), x);
      var line := Lines(text)[n];
      PutsExactly(line, x);
      var directive, value :| Orders(line, directive, value) && Enacts(directive, value, x);
      SaidIsNotEmpty(line, directive, value);
      LinesExactly(text, line);
      assert TextOrders(text, directive, value);
    }
  }

  /** The rules after loading a file of this text. */
  function LoadedFrom(r: RuleSet, text: string): RuleSet
    requires AllDefined(Lines(text))
  {
    AddAll(r, Lines(text))
  }

  /** After loading, a rule is in force exactly when it was before or a line of the file orders it. */
  lemma TextLoadedExactly(r: RuleSet, text: string, x: Item)
    requires AllDefined(Lines(text))
    ensures Has(LoadedFrom(r, text), x) <==> Has(r, x) || TextEnacts(text, x)
  {
    LoadedExactly(r, Lines(text), x);
    EnactedLine(text, x);
  }

  // ----- from the text of the file to the decision -----

  /** A directive that stops this packet, were it ordered. */
  ghost predicate Stops(directive: string, value: string, srcIp: u32, dstPort: u16, app: AppType, name: string) {
    || Enacts(directive, value, Address(srcIp))
    || Enacts(directive, value, Port(dstPort))
    || Enacts(directive, value, App(app))
    || (name != "" && directive == "block_domain" && Covers(value, name))
  }

  /** "*.d" covers the names below d, any other pattern the names it occurs in. */
  ghost predicate Covers(pattern: string, name: string) {
    if "*." <= pattern then exists host: string :: name == host + "." + pattern[2..]
    else exists before, after :: name == before + (pattern + after)
  }

  lemma CoversMatches(pattern: string, name: string)
    ensures Covers(pattern, name) <==> Matches(pattern, name)
  {
    if "*." <= pattern {
      assert pattern == "*." + pattern[2..];
      WildcardMatches(pattern[2..], name);
    } else {
      SubstringMatches(pattern, name);
    }
  }

  ghost predicate TextStops(text: string, srcIp: u32, dstPort: u16, app: AppType, name: string) {
    exists directive, value :: TextOrders(text, directive, value) && Stops(directive, value, srcIp, dstPort, app, name)
  }

  /** In other words: a rule of each kind is what decides. */
  ghost predicate SomeItemStops(r: RuleSet, srcIp: u32, dstPort: u16, app: AppType, name: string) {
    || Has(r, Address(srcIp)) || Has(r, Port(dstPort)) || Has(r, App(app))
    || (name != "" && exists pattern :: Has(r, Pattern(pattern)) && Covers(pattern, name))
  }

  lemma BlocksByItem(r: RuleSet, srcIp: u32, dstPort: u16, app: AppType, name: string)
    ensures Blocks(r, srcIp, dstPort, app, name) <==> SomeItemStops(r, srcIp, dstPort, app, name)
  {
    if name != "" {
      if i :| 0 <= i < |r.domains| && Matches(r.domains[i], name) {
        CoversMatches(r.domains[i], name);
        assert Has(r, Pattern(r.domains[i]));
      }
      if pattern :| Has(r, Pattern(pattern)) && Covers(pattern, name) {
        CoversMatches(pattern, name);
        var i := Position(r.domains, pattern);
        assert Matches(r.domains[i], name);
      }
    }
  }

  lemma OrderedPattern(text: string, name: string, pattern: string)
    requires TextEnacts(text, Pattern(pattern)) && name != "" && Covers(pattern, name)
    ensures TextOrders(text, "block_domain", pattern)
  {
  }

  lemma StoppedAdds(r: RuleSet, text: string, srcIp: u32, dstPort: u16, app: AppType, name: string)
    requires AllDefined(Lines(text))
    requires SomeItemStops(r, srcIp, dstPort, app, name) || TextStops(text, srcIp, dstPort, app, name)
    ensures SomeItemStops(LoadedFrom(r, text), srcIp, dstPort, app, name)
  {
    forall x: Item ensures Has(LoadedFrom(r, text), x) <==> Has(r, x) || TextEnacts(text, x) {
      TextLoadedExactly(r, text, x);
    }
    if TextStops(text, srcIp, dstPort, app, name) {
      var directive, value :|
        TextOrders(text, directive, value) && Stops(directive, value, srcIp, dstPort, app, name);
      if name != "" && directive == "block_domain" && Covers(value, name) {
        assert Enacts(directive, value, Pattern(value));
        assert Has(LoadedFrom(r, text), Pattern(value));
      }
    }
  }

  lemma StoppedOnly(r: RuleSet, text: string, srcIp: u32, dstPort: u16, app: AppType, name: string)
    requires AllDefined(Lines(text)) && SomeItemStops(LoadedFrom(r, text), srcIp, dstPort, app, name)
    ensures SomeItemStops(r, srcIp, dstPort, app, name) || TextStops(text, srcIp, dstPort, app, name)
  {
    forall x: Item ensures Has(LoadedFrom(r, text), x) <==> Has(r, x) || TextEnacts(text, x) {
      TextLoadedExactly(r, text, x);
    }
    if name != "" {
      if pattern :| Has(LoadedFrom(r, text), Pattern(pattern)) && Covers(pattern, name) {
        if !Has(r, Pattern(pattern)) {
          OrderedPattern(text, name, pattern);
          assert Stops("block_domain", pattern, srcIp, dstPort, app, name);
        }
      }
    }
  }

  /**
   From the text of the rules file to the decision: after loading it a packet is blocked exactly
   when it was before or the file has a line that orders a directive stopping it.
   */
  lemma BlockedExactly(r: RuleSet, text: string, srcIp: u32, dstPort: u16, app: AppType, name: string)
    requires AllDefined(Lines(text))
    ensures Blocks(LoadedFrom(r, text), srcIp, dstPort, app, name) <==>
              Blocks(r, srcIp, dstPort, app, name) || TextStops(text, srcIp, dstPort, app, name)
  {
    BlocksByItem(r, srcIp, dstPort, app, name);
    BlocksByItem(LoadedFrom(r, text), srcIp, dstPort, app, name);
    if SomeItemStops(LoadedFrom(r, text), srcIp, dstPort, app, name) {
      StoppedOnly(r, text, srcIp, dstPort, app, name);
    } else if SomeItemStops(r, srcIp, dstPort, app, name) || TextStops(text, srcIp, dstPort, app, name) {
      StoppedAdds(r, text, srcIp, dstPort, app, name);
    }
  }

  // ----- the four directives -----

  /** An address as ipToString spells it is what it spells ... */
  lemma SpelledAddress(ip: u32, value: string)
    requires value == IpToString(ip)
    ensures IsPlain(value) && IsQuad(value) && ParseIp(value) == ip
  {
    QuadIsPlain(ip);
    IpRoundTrip(ip);
  }

  /** ... and so is a port in decimal. */
  lemma SpelledPort(port: u16, value: string)
    requires value == Dec(port)
    ensures IsPlain(value) && Stoul(value) == Some(port)
  {
    DigitsArePlain(value);
    StoulOfDec(port);
  }

  lemma OrderEnacts(text: string, directive: string, value: string, x: Item)
    requires TextOrders(text, directive, value) && Enacts(directive, value, x)
    ensures TextEnacts(text, x)
  {
  }

  ghost predicate TextSays(text: string, directive: string, value: string) {
    exists line :: HasLine(text, line) && Says(line, directive, value)
  }

  lemma SaidIsOrdered(text: string, directive: string, value: string)
    requires TextSays(text, directive, value) && IsPlain(value)
    requires IsDirective(directive) && (directive == "block_port" ==> Stoul(value).Some?)
    ensures TextOrders(text, directive, value)
  {
    var line :| HasLine(text, line) && Says(line, directive, value);
    assert Orders(line, directive, value);
  }

  /** A block_ip line with the address as ipToString spells it blocks that address. */
  lemma BlockIpLine(r: RuleSet, text: string, ip: u32)
    requires AllDefined(Lines(text)) && TextSays(text, "block_ip", IpToString(ip))
    ensures ip in LoadedFrom(r, text).ips
  {
    var value := IpToString(ip);
    SpelledAddress(ip, value);
    SaidIsOrdered(text, "block_ip", value);
    OrderEnacts(text, "block_ip", value, Address(ip));
    TextLoadedExactly(r, text, Address(ip));
  }

  /** A block_port line with the port in decimal blocks that port. */
  lemma BlockPortLine(r: RuleSet, text: string, port: u16)
    requires AllDefined(Lines(text)) && TextSays(text, "block_port", Dec(port))
    ensures port in LoadedFrom(r, text).ports
  {
    var value := Dec(port);
    SpelledPort(port, value);
    SaidIsOrdered(text, "block_port", value);
    OrderEnacts(text, "block_port", value, Port(port));
    TextLoadedExactly(r, text, Port(port));
  }

  /** A block_app line blocks the application of that name. */
  lemma BlockAppLine(r: RuleSet, text: string, value: string, srcIp: u32, dstPort: u16, app: AppType, name: string)
    requires AllDefined(Lines(text)) && TextSays(text, "block_app", value) && IsPlain(value) && NamesApp(app, value)
    ensures TextStops(text, srcIp, dstPort, app, name) && Blocks(LoadedFrom(r, text), srcIp, dstPort, app, name)
  {
    SaidIsOrdered(text, "block_app", value);
    assert Stops("block_app", value, srcIp, dstPort, app, name);
    BlockedExactly(r, text, srcIp, dstPort, app, name);
  }

  /** A block_domain line blocks every name its pattern covers. */
  lemma BlockDomainLine(r: RuleSet, text: string, pattern: string, srcIp: u32, dstPort: u16, app: AppType, name: string)
    requires AllDefined(Lines(text)) && TextSays(text, "block_domain", pattern) && IsPlain(pattern)
    requires name != "" && Covers(pattern, name)
    ensures TextStops(text, srcIp, dstPort, app, name) && Blocks(LoadedFrom(r, text), srcIp, dstPort, app, name)
  {
    SaidIsOrdered(text, "block_domain", pattern);
    assert Stops("block_domain", pattern, srcIp, dstPort, app, name);
    BlockedExactly(r, text, srcIp, dstPort, app, name);
  }
}
