/** src/rule_manager.cpp: the four rule sets, the decision and the rules file. */
module Rules {
  import opened Prelude
  import opened Types
  import opened Sequences

  datatype RuleSet = RuleSet(ips: set<u32>, ports: set<u16>, apps: set<AppType>, domains: seq<string>)

  // ----- the decision -----

  predicate IsWildcard(pattern: string) {
    |pattern| >= 2 && pattern[0] == '*' && pattern[1] == '.'
  }

  predicate EndsWith(s: string, suffix: string) {
    |suffix| <= |s| && s[|s| - |suffix|..] == suffix
  }

  predicate OccursAt(s: string, part: string, i: nat) {
    i + |part| <= |s| && s[i..i + |part|] == part
  }

  predicate Contains(s: string, part: string) {
    exists i :: 0 <= i <= |s| && OccursAt(s, part, i)
  }

  /** "*.x" matches names ending in ".x"; any other pattern matches names containing it. */
  predicate Matches(pattern: string, domain: string) {
    if IsWildcard(pattern) then EndsWith(domain, pattern[1..]) else Contains(domain, pattern)
  }

  predicate DomainBlocked(r: RuleSet, domain: string) {
    exists i :: 0 <= i < |r.domains| && Matches(r.domains[i], domain)
  }

  predicate Blocks(r: RuleSet, srcIp: u32, dstPort: u16, app: AppType, domain: string) {
    srcIp in r.ips || dstPort in r.ports || app in r.apps || (domain != "" && DomainBlocked(r, domain))
  }

  // ----- the rules file -----

  datatype Directive =
    | BlockIp(quad: string) | BlockApp(name: string) | BlockDomain(pattern: string) | BlockPort(port: u16)
    | Invalid | Blank

  const APP_NAMES: seq<string> := [
    "Unknown", "HTTP", "HTTPS", "DNS", "TLS", "Google", "Facebook", "YouTube", "Twitter/X", "Instagram", "Netflix",
    "Amazon", "Microsoft", "Apple", "WhatsApp", "Telegram", "TikTok", "Spotify", "Zoom", "Discord", "GitHub",
    "Cloudflare"]
  const TWITTER: AppType := 8

  predicate NamesApp(app: AppType, name: string) {
    |APP_NAMES| == APP_COUNT && (APP_NAMES[app] == name || (app == TWITTER && name == "Twitter"))
  }

  /** The first app from `from` on that goes by `name`. */
  function AppFrom(name: string, from: nat): Option<AppType>
    decreases APP_COUNT - from
  {
    if from >= APP_COUNT then None
    else if NamesApp(from, name) then Some(from)
    else AppFrom(name, from + 1)
  }

  lemma AppNamesDiffer(a: AppType, b: AppType, name: string)
    requires NamesApp(a, name) && NamesApp(b, name)
    ensures a == b
  {
  }

  /** No name stands for two applications, so the first match is the only one. */
  lemma {:induction false} AppFromFinds(name: string, from: nat, app: AppType)
    ensures AppFrom(name, from) == Some(app) <==> from <= app && NamesApp(app, name)
    decreases APP_COUNT - from
  {
    if from < APP_COUNT {
      if NamesApp(from, name) && NamesApp(app, name) {
        AppNamesDiffer(from, app, name);
      }
      AppFromFinds(name, from + 1, app);
    }
  }

  /** The names applications go by, and Twitter's second one. */
  lemma NamesAre()
    ensures NamesApp(0, "Unknown") && NamesApp(1, "HTTP") && NamesApp(2, "HTTPS") && NamesApp(3, "DNS")
    ensures NamesApp(4, "TLS") && NamesApp(5, "Google") && NamesApp(6, "Facebook") && NamesApp(7, "YouTube")
    ensures NamesApp(8, "Twitter/X") && NamesApp(8, "Twitter") && NamesApp(9, "Instagram") && NamesApp(10, "Netflix")
    ensures NamesApp(11, "Amazon") && NamesApp(12, "Microsoft") && NamesApp(13, "Apple") && NamesApp(14, "WhatsApp")
    ensures NamesApp(15, "Telegram") && NamesApp(16, "TikTok") && NamesApp(17, "Spotify") && NamesApp(18, "Zoom")
    ensures NamesApp(19, "Discord") && NamesApp(20, "GitHub") && NamesApp(21, "Cloudflare")
  {
  }

  predicate IsSpace(ch: char) {
    ch == ' ' || '\t' <= ch <= '\r'
  }

  /** isspace of the C locale: tab, line feed, vertical tab, form feed, carriage return, space. */
  lemma SpacesAre(ch: char)
    ensures IsSpace(ch) <==> ch as int in [9, 10, 11, 12, 13, 32]
  {
  }

  function StripComment(s: string): (r: string)
    ensures |r| <= |s|
  {
    if s == "" || s[0] == '#' then "" else [s[0]] + StripComment(s[1..])
  }

  function TrimRight(s: string): string {
    if s != "" && IsSpace(s[|s| - 1]) then TrimRight(s[..|s| - 1]) else s
  }

  function TrimLeft(s: string): string {
    if s != "" && IsSpace(s[0]) then TrimLeft(s[1..]) else s
  }

  /** The leading run of non-space characters. */
  function Token(s: string): (t: string)
    ensures t <= s
  {
    if s == "" || IsSpace(s[0]) then "" else [s[0]] + Token(s[1..])
  }

  predicate IsDigit(ch: char) {
    '0' <= ch <= '9'
  }

  function DigitValue(ch: char): (d: nat)
    requires IsDigit(ch)
    ensures d < 10
  {
    ch as int - '0' as int
  }

  function DigitRun(s: string): (t: string)
    ensures t <= s && forall i :: 0 <= i < |t| ==> IsDigit(t[i])
  {
    if s == "" || !IsDigit(s[0]) then "" else [s[0]] + DigitRun(s[1..])
  }

  function Decimal(s: string): nat
    requires forall i :: 0 <= i < |s| ==> IsDigit(s[i])
  {
    if s == "" then 0 else Decimal(s[..|s| - 1]) * 10 + DigitValue(s[|s| - 1])
  }

  const ULONG: nat := 0x1_0000_0000_0000_0000

  /** stoul on a token: optional sign, a run of digits, nothing representable is an error. */
  function Stoul(s: string): Option<nat> {
    var signed := s != "" && (s[0] == '-' || s[0] == '+');
    var digits := DigitRun(if signed then s[1..] else s);
    if digits == "" || Decimal(digits) >= ULONG then None
    else if s[0] == '-' then Some((ULONG - Decimal(digits)) % ULONG)
    else Some(Decimal(digits))
  }

  /** The number cut to 16 bits. */
  function PortDirective(value: string): Directive {
    match Stoul(value)
    case None => Invalid
    case Some(n) => BlockPort(n % 0x1_0000)
  }

  function Interpret(directive: string, value: string): Directive {
    if directive == "" then Blank
    else if directive == "block_ip" && value != "" then BlockIp(value)
    else if directive == "block_app" && value != "" then BlockApp(value)
    else if directive == "block_domain" && value != "" then BlockDomain(value)
    else if directive == "block_port" && value != "" then PortDirective(value)
    else Invalid
  }

  function ParseLine(line: string): Directive {
    var s := TrimLeft(TrimRight(StripComment(line)));
    var directive := Token(s);
    Interpret(directive, Token(TrimLeft(s[|directive|..])))
  }

  /** std::getline until the file ends. */
  function Lines(text: string): seq<string>
    decreases |text|
  {
    if text == "" then []
    else
      var line := LineOf(text);
      [line] + if |line| < |text| then Lines(text[|line| + 1..]) else []
  }

  function LineOf(text: string): (line: string)
    ensures line <= text
    ensures |line| < |text| ==> text[|line|] == '\n'
    ensures forall i :: 0 <= i < |line| ==> line[i] != '\n'
  {
    if text == "" || text[0] == '\n' then "" else [text[0]] + LineOf(text[1..])
  }

  /** block_ip must be given a quad; the source is undefined otherwise. */
  predicate Defined(d: Directive) {
    d.BlockIp? ==> IsQuad(d.quad)
  }

  function Add(r: RuleSet, d: Directive): RuleSet
    requires Defined(d)
  {
    match d {
      case BlockIp(quad) => r.(ips := r.ips + {ParseIp(quad)})
      case BlockApp(name) => if AppFrom(name, 0).Some? then r.(apps := r.apps + {AppFrom(name, 0).value}) else r
      case BlockDomain(pattern) => r.(domains := r.domains + [pattern])
      case BlockPort(port) => r.(ports := r.ports + {port})
      case _ => r
    }
  }

  predicate AllDefined(lines: seq<string>) {
    forall i :: 0 <= i < |lines| ==> Defined(ParseLine(lines[i]))
  }

  function AddAll(r: RuleSet, lines: seq<string>): RuleSet
    requires AllDefined(lines)
    decreases |lines|
  {
    if lines == [] then r else AddAll(Add(r, ParseLine(lines[0])), lines[1..])
  }

  function Loaded(lines: seq<string>): (n: nat)
    ensures n <= |lines|
  {
    if lines == [] then 0
    else (if ParseLine(lines[0]).Invalid? || ParseLine(lines[0]).Blank? then 0 else 1) + Loaded(lines[1..])
  }

  lemma FirstLine(text: string, line: string, rest: string)
    requires text != "" && line == LineOf(text) && rest == if |line| < |text| then text[|line| + 1..] else ""
    ensures Lines(text) == [line] + Lines(rest)
  {
    var later := if |line| < |text| then Lines(text[|line| + 1..]) else [];
    assert Lines(text) == [line] + later;
    assert later == Lines(rest);
  }

  lemma LoadingCons(r: RuleSet, line: string, lines: seq<string>)
    requires AllDefined([line] + lines)
    ensures Defined(ParseLine(line)) && AllDefined(lines)
    ensures AddAll(r, [line] + lines) == AddAll(Add(r, ParseLine(line)), lines)
    ensures Loaded([line] + lines) == Loaded([line]) + Loaded(lines)
  {
    var all := [line] + lines;
    assert all[0] == line && Defined(ParseLine(all[0])) && all[1..] == lines && [line][1..] == [];
    assert forall i :: 0 <= i < |lines| ==> lines[i] == all[i + 1];
  }

  // ----- dotted quads -----

  /** The numbers between the dots; characters that are neither digits nor dots are skipped. */
  function Octets(s: string): (o: seq<nat>)
    ensures |o| > 0
  {
    if s == "" then [0]
    else
      var front, ch := Octets(s[..|s| - 1]), s[|s| - 1];
      if ch == '.' then front + [0]
      else if IsDigit(ch) then front[|front| - 1 := front[|front| - 1] * 10 + DigitValue(ch)]
      else front
  }

  const WEIGHTS: seq<nat> := [0x100_0000, 0x1_0000, 0x100, 1]
  const INT_LIMIT: nat := 0x8000_0000

  /** At most four numbers, each fitting an int: anything else overflows or shifts by a negative amount. */
  predicate IsQuad(s: string) {
    |Octets(s)| <= 4 && forall i :: 0 <= i < |Octets(s)| ==> Octets(s)[i] < INT_LIMIT
  }

  /** Bitwise or. */
  function Or(a: nat, b: nat): nat {
    if a == 0 then b
    else (if a % 2 == 1 || b % 2 == 1 then 1 else 0) + 2 * Or(a / 2, b / 2)
  }

  function Pow2(k: nat): (p: nat)
    ensures p > 0
  {
    if k == 0 then 1 else 2 * Pow2(k - 1)
  }

  lemma {:induction false} OrBound(a: nat, b: nat, k: nat)
    requires a < Pow2(k) && b < Pow2(k)
    ensures Or(a, b) < Pow2(k)
  {
    if a != 0 {
      OrBound(a / 2, b / 2, k - 1);
    }
  }

  /** A multiple of a power of two and a number below it have no common bit: they just add up. */
  lemma {:induction false} OrAdds(m: nat, b: nat, k: nat)
    requires b < Pow2(k)
    ensures Or(m * Pow2(k), b) == m * Pow2(k) + b
    decreases k
  {
    if k == 0 {
      OrZero(m);
    } else {
      var half := m * Pow2(k - 1);
      assert m * Pow2(k) == 2 * half;
      OrAdds(m, b / 2, k - 1);
      OrTwice(half, b);
    }
  }

  lemma OrTwice(h: nat, b: nat)
    requires Or(h, b / 2) == h + b / 2
    ensures Or(2 * h, b) == 2 * h + b
  {
    if h != 0 {
      assert 2 * h / 2 == h && 2 * h % 2 == 0;
    }
  }

  lemma {:induction false} OrZero(a: nat)
    ensures Or(a, 0) == a
  {
    if a != 0 {
      OrZero(a / 2);
    }
  }

  lemma PowersOfBytes()
    ensures Pow2(8) == 0x100 && Pow2(16) == 0x1_0000 && Pow2(24) == 0x100_0000 && Pow2(32) == 0x1_0000_0000
  {
    assert Pow2(4) == 16;
    assert Pow2(8) == 0x100;
    assert Pow2(12) == 0x1000;
    assert Pow2(16) == 0x1_0000;
    assert Pow2(20) == 0x10_0000;
    assert Pow2(24) == 0x100_0000;
    assert Pow2(28) == 0x1000_0000;
  }

  /** A number shifted to its place, cut to 32 bits. */
  function Shifted(octet: nat, place: nat): u32
    requires place < 4
  {
    octet * WEIGHTS[place] % 0x1_0000_0000
  }

  /** The shifted numbers or-ed together. */
  function Weigh(octets: seq<nat>): (n: u32)
    requires |octets| <= 4
    decreases |octets|
  {
    if octets == [] then 0
    else
      var sum := Weigh(octets[..|octets| - 1]);
      PowersOfBytes();
      OrBound(sum, Shifted(octets[|octets| - 1], |octets| - 1), 32);
      Or(sum, Shifted(octets[|octets| - 1], |octets| - 1))
  }

  function ParseIp(s: string): u32
    requires IsQuad(s)
  {
    Weigh(Octets(s))
  }

  lemma {:induction false} OctetsGrow(s: string, n: nat)
    requires n <= |s|
    ensures |Octets(s[..n])| <= |Octets(s)|
    ensures forall i :: 0 <= i < |Octets(s[..n])| ==> Octets(s[..n])[i] <= Octets(s)[i]
    decreases |s| - n
  {
    if n == |s| {
      assert s[..n] == s;
    } else {
      assert s[..n + 1][..n] == s[..n];
      OctetsGrow(s, n + 1);
    }
  }

  /** parseIPString: the source's loop over the characters. */
  method ParseIPString(ip: string) returns (result: u32)
    requires IsQuad(ip)
    ensures result == ParseIp(ip)
  {
    var sum: u32, octet: int, dots: int := 0, 0, 0;
    assert ip[..0] == "";
    PowersOfBytes();
    for i := 0 to |ip|
      invariant 0 <= dots < 4 && 0 <= octet < INT_LIMIT
      invariant |Octets(ip[..i])| == dots + 1 && Octets(ip[..i])[dots] == octet
      invariant Weigh(Octets(ip[..i])[..dots]) == sum
    {
      ghost var before, after := Octets(ip[..i]), Octets(ip[..i + 1]);
      assert ip[..i + 1][..i] == ip[..i];
      OctetsGrow(ip, i + 1);
      if ip[i] == '.' {
        assert after[..dots + 1] == before && before[..dots] == after[..dots];
        OrBound(sum, Shifted(octet, dots), 32);
        sum := Or(sum, Shifted(octet, dots));
        dots := dots + 1;
        octet := 0;
      } else if IsDigit(ip[i]) {
        octet := octet * 10 + DigitValue(ip[i]);
        assert after[..dots] == before[..dots];
        assert octet == after[dots] <= Octets(ip)[dots];
      }
    }
    assert ip[..|ip|] == ip;
    OrBound(sum, Shifted(octet, dots), 32);
    result := Or(sum, Shifted(octet, dots));
  }

  function Digit(d: nat): (ch: char)
    requires d < 10
    ensures IsDigit(ch) && DigitValue(ch) == d
  {
    (d + '0' as int) as char
  }

  function Dec(n: nat): (s: string)
    ensures s != "" && forall i :: 0 <= i < |s| ==> IsDigit(s[i])
  {
    if n < 10 then [Digit(n)] else Dec(n / 10) + [Digit(n % 10)]
  }

  /** ipToString of src/packet_parser.cpp. */
  function IpToString(ip: u32): string {
    Dec(ip / 0x100_0000) + "." + Dec(ip / 0x1_0000 % 0x100) + "." + Dec(ip / 0x100 % 0x100) + "." + Dec(ip % 0x100)
  }

  lemma {:induction false} OctetsOfDec(s: string, n: nat)
    requires Octets(s)[|Octets(s)| - 1] == 0
    ensures Octets(s + Dec(n)) == Octets(s)[|Octets(s)| - 1 := n]
  {
    if n < 10 {
      OctetsOfDigit(s, n);
    } else {
      OctetsOfDec(s, n / 10);
      OctetsOfDigit(s + Dec(n / 10), n % 10);
      Assoc(s, Dec(n / 10), [Digit(n % 10)]);
    }
  }

  lemma OctetsOfDigit(s: string, d: nat)
    requires d < 10
    ensures var o := Octets(s); Octets(s + [Digit(d)]) == o[|o| - 1 := o[|o| - 1] * 10 + d]
  {
    assert (s + [Digit(d)])[..|s|] == s;
  }

  lemma OctetsOfDot(s: string)
    ensures Octets(s + ".") == Octets(s) + [0]
  {
    assert (s + ".")[..|s|] == s;
  }

  lemma Grouped(a: string, b: string, c: string, d: string)
    ensures a + "." + b + "." + c + "." + d == (((((("" + a) + ".") + b) + ".") + c) + ".") + d
  {
    assert "" + a == a;
  }

  /** parseIPString inverts ipToString on every address. */
  lemma IpRoundTrip(ip: u32)
    ensures IsQuad(IpToString(ip)) && ParseIp(IpToString(ip)) == ip
  {
    var a, b, c, d := ip / 0x100_0000, ip / 0x1_0000 % 0x100, ip / 0x100 % 0x100, ip % 0x100;
    Grouped(Dec(a), Dec(b), Dec(c), Dec(d));
    var s1 := "" + Dec(a);
    OctetsOfDec("", a);
    OctetsOfDot(s1);
    var s2 := (s1 + ".") + Dec(b);
    OctetsOfDec(s1 + ".", b);
    OctetsOfDot(s2);
    var s3 := (s2 + ".") + Dec(c);
    OctetsOfDec(s2 + ".", c);
    OctetsOfDot(s3);
    OctetsOfDec(s3 + ".", d);
    assert Octets(IpToString(ip)) == [a, b, c, d];
    FourBytes(ip);
    WeighFour(a, b, c, d);
  }

  lemma ShiftedByte(x: nat, place: nat)
    requires x < 0x100 && place < 4
    ensures Shifted(x, place) == x * WEIGHTS[place]
  {
  }

  lemma OrAddsBytes(m: nat, b: nat, k: nat, p: nat)
    requires (k == 8 && p == 0x100) || (k == 16 && p == 0x1_0000) || (k == 24 && p == 0x100_0000)
    requires b < p
    ensures Or(m * p, b) == m * p + b
  {
    PowersOfBytes();
    OrAdds(m, b, k);
  }

  lemma WeighSnoc(octets: seq<nat>, x: nat)
    requires |octets| < 4
    ensures Weigh(octets + [x]) == Or(Weigh(octets), Shifted(x, |octets|))
  {
    assert (octets + [x])[..|octets|] == octets;
  }

  /** A byte at its place below a multiple of the place above it: or-ing them is adding them. */
  lemma OrByte(m: nat, x: nat, place: nat)
    requires 1 <= place <= 3 && x < 0x100
    ensures Or(m * WEIGHTS[place - 1], Shifted(x, place)) == (m * 0x100 + x) * WEIGHTS[place]
  {
    ShiftedByte(x, place);
    if place == 1 {
      OrAddsBytes(m, x * 0x1_0000, 24, 0x100_0000);
    } else if place == 2 {
      OrAddsBytes(m, x * 0x100, 16, 0x1_0000);
    } else {
      OrAddsBytes(m, x, 8, 0x100);
    }
  }

  lemma WeighByte(octets: seq<nat>, m: nat, x: nat)
    requires 1 <= |octets| <= 3 && x < 0x100 && Weigh(octets) == m * WEIGHTS[|octets| - 1]
    ensures Weigh(octets + [x]) == (m * 0x100 + x) * WEIGHTS[|octets|]
  {
    WeighSnoc(octets, x);
    OrByte(m, x, |octets|);
  }

  lemma WeighFour(a: nat, b: nat, c: nat, d: nat)
    requires a < 0x100 && b < 0x100 && c < 0x100 && d < 0x100
    ensures Weigh([a, b, c, d]) == ((a * 0x100 + b) * 0x100 + c) * 0x100 + d
  {
    assert [a][..0] == [];
    ShiftedByte(a, 0);
    WeighByte([a], a, b);
    WeighByte([a] + [b], a * 0x100 + b, c);
    WeighByte([a] + [b] + [c], (a * 0x100 + b) * 0x100 + c, d);
    assert [a] + [b] + [c] + [d] == [a, b, c, d];
  }

  lemma FourBytes(ip: u32)
    ensures ip / 0x100_0000 * 0x100_0000 + ip / 0x1_0000 % 0x100 * 0x1_0000
            + ip / 0x100 % 0x100 * 0x100 + ip % 0x100 == ip
    ensures ip / 0x100_0000 < 0x100
  {
    var q1, q2 := ip / 0x100, ip / 0x1_0000;
    assert q1 / 0x100 == q2 && q2 / 0x100 == ip / 0x100_0000;
  }

  // ----- the source's class -----

  class RuleManager {
    var blockedIps: set<u32>
    var blockedPorts: set<u16>
    var blockedApps: set<AppType>
    var blockedDomains: seq<string>

    function Value(): RuleSet
      reads this
    {
      RuleSet(blockedIps, blockedPorts, blockedApps, blockedDomains)
    }

    constructor ()
      ensures Value() == RuleSet({}, {}, {}, [])
    {
      blockedIps, blockedPorts, blockedApps, blockedDomains := {}, {}, {}, [];
    }

    method BlockIP(quad: string)
      requires IsQuad(quad)
      modifies this`blockedIps
      ensures Value() == Add(old(Value()), BlockIp(quad))
    {
      var ip := ParseIPString(quad);
      blockedIps := blockedIps + {ip};
    }

    method BlockAppByName(name: string)
      modifies this`blockedApps
      ensures Value() == Add(old(Value()), BlockApp(name))
    {
      var i := 0;
      while i < APP_COUNT
        invariant 0 <= i <= APP_COUNT && AppFrom(name, 0) == AppFrom(name, i)
        invariant Value() == old(Value())
      {
        if NamesApp(i, name) {
          blockedApps := blockedApps + {i};
          return;
        }
        i := i + 1;
      }
    }

    method IsDomainBlocked(domain: string) returns (blocked: bool)
      ensures blocked == DomainBlocked(Value(), domain)
    {
      for i := 0 to |blockedDomains|
        invariant forall k :: 0 <= k < i ==> !Matches(blockedDomains[k], domain)
      {
        if Matches(blockedDomains[i], domain) { return true; }
      }
      return false;
    }

    method ShouldBlock(srcIp: u32, dstPort: u16, app: AppType, domain: string) returns (action: FlowAction)
      ensures action == DROP <==> Blocks(Value(), srcIp, dstPort, app, domain)
    {
      if srcIp in blockedIps { return DROP; }
      if dstPort in blockedPorts { return DROP; }
      if app in blockedApps { return DROP; }
      if domain != "" {
        var blocked := IsDomainBlocked(domain);
        if blocked { return DROP; }
      }
      return FORWARD;
    }

    method ApplyLine(line: string) returns (n: nat)
      requires Defined(ParseLine(line))
      modifies this
      ensures Value() == Add(old(Value()), ParseLine(line)) && n == Loaded([line])
    {
      var d := ParseLine(line);
      assert [line][1..] == [];
      n := if d.Invalid? || d.Blank? then 0 else 1;
      match d {
        case BlockIp(quad) => BlockIP(quad);
        case BlockApp(name) => BlockAppByName(name);
        case BlockDomain(pattern) => blockedDomains := blockedDomains + [pattern];
        case BlockPort(port) => blockedPorts := blockedPorts + {port};
        case _ =>
      }
    }

    /** Reads the whole file on top of the rules already there. */
    method LoadRules(text: string) returns (count: nat)
      requires AllDefined(Lines(text))
      modifies this
      ensures Value() == AddAll(old(Value()), Lines(text)) && count == Loaded(Lines(text))
    {
      var rest := text;
      count := 0;
      while rest != ""
        invariant AllDefined(Lines(rest))
        invariant AddAll(Value(), Lines(rest)) == AddAll(old(Value()), Lines(text))
        invariant count + Loaded(Lines(rest)) == Loaded(Lines(text))
        decreases |rest|
      {
        var line := LineOf(rest);
        ghost var before := rest;
        rest := if |line| < |rest| then rest[|line| + 1..] else "";
        FirstLine(before, line, rest);
        LoadingCons(Value(), line, Lines(rest));
        var n := ApplyLine(line);
        count := count + n;
      }
    }
  }

  // ----- loading adds, and adding never unblocks -----

  ghost predicate Within(r: RuleSet, s: RuleSet) {
    r.ips <= s.ips && r.ports <= s.ports && r.apps <= s.apps && r.domains <= s.domains
  }

  lemma {:induction false} LoadingAdds(r: RuleSet, lines: seq<string>)
    requires AllDefined(lines)
    ensures Within(r, AddAll(r, lines))
    decreases |lines|
  {
    if lines != [] {
      assert Defined(ParseLine(lines[0]));
      LoadingAdds(Add(r, ParseLine(lines[0])), lines[1..]);
    }
  }

  lemma AddingNeverUnblocks(r: RuleSet, s: RuleSet, srcIp: u32, dstPort: u16, app: AppType, domain: string)
    requires Within(r, s) && Blocks(r, srcIp, dstPort, app, domain)
    ensures Blocks(s, srcIp, dstPort, app, domain)
  {
    if domain != "" && DomainBlocked(r, domain) {
      var i :| 0 <= i < |r.domains| && Matches(r.domains[i], domain);
      assert s.domains[i] == r.domains[i];
    }
  }

  /** Loading a file can only block more, whatever was loaded before it. */
  lemma LoadingNeverUnblocks(r: RuleSet, lines: seq<string>, srcIp: u32, dstPort: u16, app: AppType, domain: string)
    requires AllDefined(lines) && Blocks(r, srcIp, dstPort, app, domain)
    ensures Blocks(AddAll(r, lines), srcIp, dstPort, app, domain)
  {
    LoadingAdds(r, lines);
    AddingNeverUnblocks(r, AddAll(r, lines), srcIp, dstPort, app, domain);
  }

  /** One thing a rule set can hold. */
  datatype Item = Address(ip: u32) | Port(port: u16) | App(app: AppType) | Pattern(pattern: string)

  predicate Has(r: RuleSet, x: Item) {
    match x {
      case Address(ip) => ip in r.ips
      case Port(port) => port in r.ports
      case App(app) => app in r.apps
      case Pattern(pattern) => pattern in r.domains
    }
  }

  predicate Puts(d: Directive, x: Item) {
    match x {
      case Address(ip) => d.BlockIp? && IsQuad(d.quad) && ParseIp(d.quad) == ip
      case Port(port) => d.BlockPort? && d.port == port
      case App(app) => d.BlockApp? && AppFrom(d.name, 0) == Some(app)
      case Pattern(pattern) => d.BlockDomain? && d.pattern == pattern
    }
  }

  lemma AddHas(r: RuleSet, d: Directive, x: Item)
    requires Defined(d)
    ensures Has(Add(r, d), x) <==> Has(r, x) || Puts(d, x)
  {
  }

  ghost predicate SomeLinePuts(lines: seq<string>, x: Item) {
    exists n :: 0 <= n < |lines| && Puts(ParseLine(lines[n]), x)
  }

  lemma LaterLine(lines: seq<string>, x: Item)
    requires lines != [] && SomeLinePuts(lines[1..], x)
    ensures SomeLinePuts(lines, x)
  {
    var n :| 0 <= n < |lines[1..]| && Puts(ParseLine(lines[1..][n]), x);
    assert lines[1..][n] == lines[n + 1];
  }

  lemma FirstLineOrLater(lines: seq<string>, x: Item)
    requires lines != []
    ensures SomeLinePuts(lines, x) <==> Puts(ParseLine(lines[0]), x) || SomeLinePuts(lines[1..], x)
  {
    if SomeLinePuts(lines[1..], x) {
      LaterLine(lines, x);
    } else if SomeLinePuts(lines, x) {
      OnlyFirstLine(lines, x);
    }
  }

  lemma OnlyFirstLine(lines: seq<string>, x: Item)
    requires lines != [] && SomeLinePuts(lines, x) && !SomeLinePuts(lines[1..], x)
    ensures Puts(ParseLine(lines[0]), x)
  {
    var n :| 0 <= n < |lines| && Puts(ParseLine(lines[n]), x);
    assert forall i :: 0 < i < |lines| ==> lines[1..][i - 1] == lines[i];
  }

  /** After loading, the rule set holds what it held before and what the lines put, nothing else. */
  lemma {:induction false} LoadedExactly(r: RuleSet, lines: seq<string>, x: Item)
    requires AllDefined(lines)
    ensures Has(AddAll(r, lines), x) <==> Has(r, x) || SomeLinePuts(lines, x)
    decreases |lines|
  {
    if lines != [] {
      assert Defined(ParseLine(lines[0]));
      AddHas(r, ParseLine(lines[0]), x);
      LoadedExactly(Add(r, ParseLine(lines[0])), lines[1..], x);
      FirstLineOrLater(lines, x);
    }
  }

  /** The rule set is exactly what the file puts there: the header's promise of replacement. */
  ghost predicate Replaced(r: RuleSet, lines: seq<string>)
    requires AllDefined(lines)
  {
    forall x: Item :: Has(AddAll(r, lines), x) <==> SomeLinePuts(lines, x)
  }

  /** Loading replaces the rules exactly when every rule there before is in the file again. */
  lemma ReplacesExactlyWhen(r: RuleSet, lines: seq<string>)
    requires AllDefined(lines)
    ensures Replaced(r, lines) <==> forall x: Item :: Has(r, x) ==> SomeLinePuts(lines, x)
  {
    forall x: Item ensures Has(AddAll(r, lines), x) <==> Has(r, x) || SomeLinePuts(lines, x) {
      LoadedExactly(r, lines, x);
    }
  }

  /** An empty file leaves an earlier rule in force. */
  lemma MayNotReplace()
    ensures !Replaced(RuleSet({}, {4444}, {}, []), [])
  {
    var r := RuleSet({}, {4444}, {}, []);
    assert Has(AddAll(r, []), Port(4444)) && !SomeLinePuts([], Port(4444));
  }

  // ----- a line spelling a directive and its value -----

  /** No spaces and no comment sign. */
  predicate IsPlain(value: string) {
    value != "" && forall i :: 0 <= i < |value| ==> !IsSpace(value[i]) && value[i] != '#'
  }

  predicate Blanks(s: string) {
    forall i :: 0 <= i < |s| ==> IsSpace(s[i])
  }

  /** Indentation, the directive, space, the value; then nothing, or space or a comment and anything at all. */
  predicate Layout(line: string, indent: string, directive: string, gap: string, value: string, rest: string) {
    && Blanks(indent) && Blanks(gap) && gap != ""
    && (rest == "" || IsSpace(rest[0]) || rest[0] == '#')
    && line == indent + (directive + (gap + (value + rest)))
  }

  ghost predicate Says(line: string, directive: string, value: string) {
    exists indent, gap, rest :: Layout(line, indent, directive, gap, value, rest)
  }

  lemma {:induction false} StripAfter(s: string, rest: string)
    requires forall i :: 0 <= i < |s| ==> s[i] != '#'
    ensures StripComment(s + rest) == s + StripComment(rest)
  {
    if s == "" {
      assert s + rest == rest;
    } else {
      assert (s + rest)[1..] == s[1..] + rest;
      StripAfter(s[1..], rest);
    }
  }

  lemma {:induction false} TrimRightKeeps(s: string, t: string) returns (k: nat)
    requires s != "" && !IsSpace(s[|s| - 1])
    ensures k <= |t| && TrimRight(s + t) == s + t[..k]
    decreases |t|
  {
    if t == "" {
      k := 0;
      assert s + t == s;
    } else if IsSpace(t[|t| - 1]) {
      k := TrimRightKeeps(s, t[..|t| - 1]);
      assert (s + t)[..|s + t| - 1] == s + t[..|t| - 1];
      assert t[..|t| - 1][..k] == t[..k];
    } else {
      k := |t|;
    }
  }

  lemma {:induction false} TrimLeftSkips(indent: string, s: string)
    requires Blanks(indent) && s != "" && !IsSpace(s[0])
    ensures TrimLeft(indent + s) == s
  {
    if indent == "" {
      assert indent + s == s;
    } else {
      assert (indent + s)[1..] == indent[1..] + s;
      TrimLeftSkips(indent[1..], s);
    }
  }

  lemma {:induction false} TokenBeforeSpace(t: string, rest: string)
    requires forall i :: 0 <= i < |t| ==> !IsSpace(t[i])
    requires rest == "" || IsSpace(rest[0])
    ensures Token(t + rest) == t
  {
    if t == "" {
      assert t + rest == rest;
    } else {
      assert (t + rest)[1..] == t[1..] + rest;
      TokenBeforeSpace(t[1..], rest);
    }
  }

  /** Without the indentation and whatever was trimmed after the value. */
  lemma Trimmed(line: string, indent: string, directive: string, gap: string, value: string, rest: string)
    returns (tail: string)
    requires IsPlain(directive) && IsPlain(value) && Layout(line, indent, directive, gap, value, rest)
    ensures TrimLeft(TrimRight(StripComment(line))) == directive + (gap + (value + tail))
    ensures tail == "" || IsSpace(tail[0])
  {
    var said := indent + (directive + (gap + value));
    assert line == said + rest;
    StripAfter(said, rest);
    assert said[|said| - 1] == value[|value| - 1];
    var after := StripComment(rest);
    var k := TrimRightKeeps(said, after);
    tail := after[..k];
    assert said + tail == indent + (directive + (gap + (value + tail)));
    TrimLeftSkips(indent, directive + (gap + (value + tail)));
  }

  lemma QuadIsPlain(ip: u32)
    ensures IsPlain(IpToString(ip))
  {
    var s := IpToString(ip);
    forall i | 0 <= i < |s| ensures !IsSpace(s[i]) && s[i] != '#' {
      assert IsDigit(s[i]) || s[i] == '.';
    }
  }

  lemma {:induction false} DecimalOfDec(n: nat)
    ensures Decimal(Dec(n)) == n
  {
    if n >= 10 {
      DecimalOfDec(n / 10);
    } else {
      assert Dec(n)[..0] == "";
    }
  }

  lemma {:induction false} DigitRunOfDigits(s: string)
    requires forall i :: 0 <= i < |s| ==> IsDigit(s[i])
    ensures DigitRun(s) == s
  {
    if s != "" {
      DigitRunOfDigits(s[1..]);
    }
  }

  lemma StoulOfDec(n: nat)
    requires n < ULONG
    ensures Stoul(Dec(n)) == Some(n)
  {
    var value := Dec(n);
    assert IsDigit(value[0]);
    DecimalOfDec(n);
    DigitRunOfDigits(value);
  }

  lemma DigitsArePlain(value: string)
    requires value != "" && forall i :: 0 <= i < |value| ==> IsDigit(value[i])
    ensures IsPlain(value)
  {
  }

  /** A wildcard pattern matches exactly the names below its domain, never the bare domain. */
  lemma WildcardMatches(suffix: string, name: string)
    ensures Matches("*." + suffix, name) <==> exists host: string :: name == host + "." + suffix
    ensures !Matches("*." + suffix, suffix)
  {
    var dotted := "." + suffix;
    assert ("*." + suffix)[1..] == dotted;
    if EndsWith(name, dotted) {
      assert name == name[..|name| - |dotted|] + "." + suffix;
    }
    if host: string :| name == host + "." + suffix {
      assert name == host + dotted;
      assert name[|host|..] == dotted;
    }
  }

  /** Any other pattern matches exactly the names it occurs in. */
  lemma SubstringMatches(pattern: string, name: string)
    requires !("*." <= pattern)
    ensures Matches(pattern, name) <==> exists before, after :: name == before + (pattern + after)
  {
    if i :| 0 <= i <= |name| && OccursAt(name, pattern, i) {
      assert name == name[..i] + (pattern + name[i + |pattern|..]);
    }
    if before, after :| name == before + (pattern + after) {
      assert OccursAt(name, pattern, |before|);
    }
  }
}
