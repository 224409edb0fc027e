/** HTTPHostExtractor of src/sni_extractor.cpp (the Host field is section 7.2 of RFC 9110). */
module Http {
  import opened Prelude

  const METHODS: seq<string> := ["GET ", "POST", "PUT ", "HEAD", "DELE", "PATC", "OPTI"]

  predicate IsRequest(p: seq<byte>) {
    |p| >= 4 && Text(p[..4]) in METHODS
  }

  predicate Is(b: byte, lower: char, upper: char)
    requires lower as int < 0x100 && upper as int < 0x100
  {
    b == lower as int || b == upper as int
  }

  /** The bytes at `i` spell "host:", in any mixture of cases. */
  predicate HostWord(p: seq<byte>, i: nat) {
    && i + 5 <= |p|
    && Is(p[i], 'h', 'H') && Is(p[i + 1], 'o', 'O') && Is(p[i + 2], 's', 'S') && Is(p[i + 3], 't', 'T')
    && p[i + 4] == ':' as int
  }

  predicate IsBlank(b: byte) {
    b == ' ' as int || b == '\t' as int
  }

  predicate IsBreak(b: byte) {
    b == '\r' as int || b == '\n' as int
  }

  /** First position from `k` that is not blank, or the end. */
  function SkipBlanks(p: seq<byte>, k: nat): (r: nat)
    requires k <= |p|
    ensures k <= r <= |p|
    decreases |p| - k
  {
    if k < |p| && IsBlank(p[k]) then SkipBlanks(p, k + 1) else k
  }

  /** First line break from `k`, or the end. */
  function LineEnd(p: seq<byte>, k: nat): (r: nat)
    requires k <= |p|
    ensures k <= r <= |p|
    decreases |p| - k
  {
    if k < |p| && !IsBreak(p[k]) then LineEnd(p, k + 1) else k
  }

  /** The value after a "host:" at `i`, to the end of its line. */
  function ValueAt(p: seq<byte>, i: nat): seq<byte>
    requires i + 5 <= |p|
  {
    var start := SkipBlanks(p, i + 5);
    p[start..LineEnd(p, start)]
  }

  /** The value up to its first colon. */
  function StripPort(v: seq<byte>): seq<byte> {
    if v == [] || v[0] == ':' as int then [] else [v[0]] + StripPort(v[1..])
  }

  /** A "host:" with a value, looked for only where the scan looks. */
  predicate Candidate(p: seq<byte>, i: nat) {
    i + 6 < |p| && HostWord(p, i) && ValueAt(p, i) != []
  }

  function Scan(p: seq<byte>, i: nat): Option<string>
    decreases |p| - i
  {
    if i + 6 >= |p| then None
    else if Candidate(p, i) then Some(Text(StripPort(ValueAt(p, i))))
    else Scan(p, i + 1)
  }

  function Host(p: seq<byte>): Option<string> {
    if IsRequest(p) then Scan(p, 0) else None
  }

  method IsHttpRequest(payload: seq<byte>) returns (r: bool)
    ensures r == IsRequest(payload)
  {
    if |payload| < 4 { return false; }
    for m := 0 to |METHODS|
      invariant forall k :: 0 <= k < m ==> Text(payload[..4]) != METHODS[k]
    {
      if Text(payload[..4]) == METHODS[m] { return true; }
    }
    return false;
  }

  method Extract(payload: seq<byte>) returns (host: Option<string>)
    ensures host == Host(payload)
  {
    var request := IsHttpRequest(payload);
    if !request { return None; }
    var i := 0;
    while i + 6 < |payload|
      invariant Host(payload) == Scan(payload, i)
    {
      if HostWord(payload, i) {
        var value := ReadValue(payload, i);
        if value != [] {
          var name := CutAtColon(value);
          return Some(Text(name));
        }
      }
      i := i + 1;
    }
    return None;
  }

  /** The two inner loops: blanks after the colon, then the line. */
  method ReadValue(payload: seq<byte>, i: nat) returns (value: seq<byte>)
    requires i + 5 <= |payload|
    ensures value == ValueAt(payload, i)
  {
    var start := i + 5;
    while start < |payload| && IsBlank(payload[start])
      invariant start <= |payload| && SkipBlanks(payload, i + 5) == SkipBlanks(payload, start)
    {
      start := start + 1;
    }
    var end := start;
    while end < |payload| && !IsBreak(payload[end])
      invariant start <= end <= |payload| && LineEnd(payload, start) == LineEnd(payload, end)
    {
      end := end + 1;
    }
    value := payload[start..end];
  }

  /** string::find(':') and substr. */
  method CutAtColon(value: seq<byte>) returns (name: seq<byte>)
    ensures name == StripPort(value)
  {
    var colon := 0;
    while colon < |value| && value[colon] != ':' as int
      invariant colon <= |value|
      invariant StripPort(value) == value[..colon] + StripPort(value[colon..])
    {
      assert value[colon..][1..] == value[colon + 1..];
      assert value[..colon + 1] == value[..colon] + [value[colon]];
      colon := colon + 1;
    }
    assert value[..colon] + [] == value[..colon];
    name := value[..colon];
  }

  // ----- what the scan finds -----

  ghost predicate FirstCandidate(p: seq<byte>, i: nat) {
    Candidate(p, i) && forall j :: 0 <= j < i ==> !Candidate(p, j)
  }

  lemma {:induction false} ScanFinds(p: seq<byte>, from: nat, i: nat)
    requires from <= i && Candidate(p, i) && forall j :: from <= j < i ==> !Candidate(p, j)
    ensures Scan(p, from) == Some(Text(StripPort(ValueAt(p, i))))
    decreases i - from
  {
    if from < i {
      ScanFinds(p, from + 1, i);
    }
  }

  lemma {:induction false} ScanNothing(p: seq<byte>, from: nat)
    requires forall j :: from <= j ==> !Candidate(p, j)
    ensures Scan(p, from) == None
    decreases |p| - from
  {
    if from + 6 < |p| {
      ScanNothing(p, from + 1);
    }
  }

  lemma {:induction false} Earliest(p: seq<byte>, i: nat) returns (first: nat)
    requires Candidate(p, i)
    ensures FirstCandidate(p, first)
    decreases i
  {
    if j: nat :| j < i && Candidate(p, j) {
      first := Earliest(p, j);
    } else {
      first := i;
    }
  }

  /** No method ends in an "h", so "host:" cannot start inside one. */
  lemma HostIsLate(p: seq<byte>)
    requires IsRequest(p) && |p| <= 10
    ensures Host(p) == None
  {
    var m := Text(p[..4]);
    assert p[0] as char == m[0] && p[1] as char == m[1] && p[2] as char == m[2] && p[3] as char == m[3];
    forall j: nat ensures !Candidate(p, j) {
    }
    ScanNothing(p, 0);
  }

  /**
   For every request the result is the port-stripped value after the first "host:" whose value
   is not empty, and nothing if there is none.
   */
  lemma HostCharacterised(p: seq<byte>, host: string)
    requires IsRequest(p)
    ensures Host(p) == Some(host) <==> exists i :: FirstCandidate(p, i) && host == Text(StripPort(ValueAt(p, i)))
    ensures Host(p) == None <==> forall i: nat :: !Candidate(p, i)
  {
    if i: nat :| Candidate(p, i) {
      var first := Earliest(p, i);
      ScanFinds(p, 0, first);
      forall k | FirstCandidate(p, k) ensures k == first {
      }
    } else {
      ScanNothing(p, 0);
    }
  }

  // ----- the same in terms of the bytes -----

  /** Exactly the payloads that begin like one of these methods and a space, as far as four characters show. */
  lemma MethodsExactly(p: seq<byte>)
    ensures IsRequest(p) <==>
              exists m :: m in ["GET", "HEAD", "POST", "PUT", "DELETE", "OPTIONS", "PATCH"]
                          && |p| >= 4 && Text(p[..4]) == (m + " ")[..4]
  {
    assert ("GET" + " ")[..4] == METHODS[0] && ("POST" + " ")[..4] == METHODS[1];
    assert ("PUT" + " ")[..4] == METHODS[2] && ("HEAD" + " ")[..4] == METHODS[3];
    assert ("DELETE" + " ")[..4] == METHODS[4] && ("PATCH" + " ")[..4] == METHODS[5];
    assert ("OPTIONS" + " ")[..4] == METHODS[6];
    if IsRequest(p) {
      var words := ["GET", "POST", "PUT", "HEAD", "DELETE", "PATCH", "OPTIONS"];
      var k :| 0 <= k < |METHODS| && METHODS[k] == Text(p[..4]);
      assert words[k] in ["GET", "HEAD", "POST", "PUT", "DELETE", "OPTIONS", "PATCH"];
    }
  }

  /** The byte is this letter or its capital. */
  predicate Spells(b: byte, letter: char) {
    b == letter as int || ('a' <= letter <= 'z' && b == letter as int - 32)
  }

  /**
   At `i`: "host:" in any mixture of cases, spaces and tabs, a value that starts with neither, then the
   end of the line or of the payload; not all of it in the last six bytes.
   */
  predicate HostField(p: seq<byte>, i: nat, blanks: seq<byte>, value: seq<byte>, rest: seq<byte>) {
    && i + 6 < |p|
    && (forall k :: 0 <= k < 5 ==> Spells(p[i + k], "host:"[k]))
    && p[i + 5..] == blanks + (value + rest)
    && (forall k :: 0 <= k < |blanks| ==> blanks[k] == 32 || blanks[k] == 9)
    && value != [] && value[0] != 32 && value[0] != 9
    && (forall k :: 0 <= k < |value| ==> value[k] != 13 && value[k] != 10)
    && (rest != [] ==> rest[0] == 13 || rest[0] == 10)
  }

  lemma {:induction false} BlanksSkipped(p: seq<byte>, k: nat)
    requires k <= |p|
    ensures var r := SkipBlanks(p, k);
            && (forall j :: k <= j < r ==> p[j] == 32 || p[j] == 9)
            && (r < |p| ==> p[r] != 32 && p[r] != 9)
    decreases |p| - k
  {
    if k < |p| && IsBlank(p[k]) {
      BlanksSkipped(p, k + 1);
    }
  }

  lemma {:induction false} SkipsBlanks(p: seq<byte>, k: nat, r: nat)
    requires k <= r <= |p| && forall j :: k <= j < r ==> p[j] == 32 || p[j] == 9
    requires r < |p| ==> p[r] != 32 && p[r] != 9
    ensures SkipBlanks(p, k) == r
    decreases r - k
  {
    if k < r {
      SkipsBlanks(p, k + 1, r);
    }
  }

  lemma {:induction false} LineRead(p: seq<byte>, k: nat)
    requires k <= |p|
    ensures var r := LineEnd(p, k);
            && (forall j :: k <= j < r ==> p[j] != 13 && p[j] != 10)
            && (r < |p| ==> p[r] == 13 || p[r] == 10)
    decreases |p| - k
  {
    if k < |p| && !IsBreak(p[k]) {
      LineRead(p, k + 1);
    }
  }

  lemma {:induction false} ReadsLine(p: seq<byte>, k: nat, r: nat)
    requires k <= r <= |p| && forall j :: k <= j < r ==> p[j] != 13 && p[j] != 10
    requires r < |p| ==> p[r] == 13 || p[r] == 10
    ensures LineEnd(p, k) == r
    decreases r - k
  {
    if k < r {
      ReadsLine(p, k + 1, r);
    }
  }

  lemma WordSpelled(p: seq<byte>, i: nat)
    requires i + 5 <= |p|
    ensures HostWord(p, i) <==> forall k :: 0 <= k < 5 ==> Spells(p[i + k], "host:"[k])
  {
    var word := "host:";
    assert word[0] == 'h' && word[1] == 'o' && word[2] == 's' && word[3] == 't' && word[4] == ':';
    assert p[i + 0] == p[i];
  }

  lemma FieldOfCandidate(p: seq<byte>, i: nat) returns (blanks: seq<byte>, rest: seq<byte>)
    requires Candidate(p, i)
    ensures HostField(p, i, blanks, ValueAt(p, i), rest)
  {
    var start := SkipBlanks(p, i + 5);
    var end := LineEnd(p, start);
    BlanksSkipped(p, i + 5);
    LineRead(p, start);
    WordSpelled(p, i);
    blanks, rest := p[i + 5..start], p[end..];
    ThreeParts(p, i + 5, start, end);
  }

  lemma ThreeParts<T>(p: seq<T>, i: nat, j: nat, k: nat)
    requires i <= j <= k <= |p|
    ensures p[i..] == p[i..j] + (p[j..k] + p[k..])
  {
  }

  lemma CandidateOfField(p: seq<byte>, i: nat, blanks: seq<byte>, value: seq<byte>, rest: seq<byte>)
    requires HostField(p, i, blanks, value, rest)
    ensures Candidate(p, i) && ValueAt(p, i) == value
  {
    var start := i + 5 + |blanks|;
    var end := start + |value|;
    Advance(p, i + 5, blanks, value + rest);
    Advance(p, start, value, rest);
    WordSpelled(p, i);
    assert p[start] == value[0];
    forall j | i + 5 <= j < start ensures p[j] == 32 || p[j] == 9 {
      assert p[i + 5 + (j - i - 5)] == blanks[j - i - 5];
    }
    forall j | start <= j < end ensures p[j] != 13 && p[j] != 10 {
      assert p[start + (j - start)] == value[j - start];
    }
    assert end < |p| ==> p[end] == rest[0];
    SkipsBlanks(p, i + 5, start);
    ReadsLine(p, start, end);
  }

  ghost predicate FieldAt(p: seq<byte>, i: nat, value: seq<byte>) {
    exists blanks, rest :: HostField(p, i, blanks, value, rest)
  }

  /** The host, and after it nothing or a colon and the port. */
  predicate HostAndPort(value: seq<byte>, host: seq<byte>) {
    && host <= value && (forall k :: 0 <= k < |host| ==> host[k] != 58)
    && (host != value ==> value[|host|] == 58)
  }

  lemma {:induction false} PortStripped(value: seq<byte>)
    ensures HostAndPort(value, StripPort(value))
  {
    if value != [] && value[0] != 58 {
      PortStripped(value[1..]);
      assert StripPort(value) == [value[0]] + StripPort(value[1..]);
    }
  }

  lemma HostIsUnique(value: seq<byte>, a: seq<byte>, b: seq<byte>)
    requires HostAndPort(value, a) && HostAndPort(value, b)
    ensures a == b
  {
  }

  lemma FieldIsCandidate(p: seq<byte>, i: nat)
    ensures Candidate(p, i) <==> exists value :: FieldAt(p, i, value)
  {
    if Candidate(p, i) {
      var blanks, rest := FieldOfCandidate(p, i);
      assert FieldAt(p, i, ValueAt(p, i));
    }
    if value :| FieldAt(p, i, value) {
      var blanks, rest :| HostField(p, i, blanks, value, rest);
      CandidateOfField(p, i, blanks, value, rest);
    }
  }

  /** A host field at `i` with this host, and none before it. */
  ghost predicate FirstField(p: seq<byte>, i: nat, host: seq<byte>) {
    && (exists value :: FieldAt(p, i, value) && HostAndPort(value, host))
    && forall j, value :: 0 <= j < i ==> !FieldAt(p, j, value)
  }

  lemma FirstFieldIsCandidate(p: seq<byte>, i: nat, host: seq<byte>)
    ensures FirstField(p, i, host) <==> FirstCandidate(p, i) && host == StripPort(ValueAt(p, i))
  {
    if FirstField(p, i, host) {
      forall j | 0 <= j < i ensures !Candidate(p, j) {
        FieldIsCandidate(p, j);
      }
      var value :| FieldAt(p, i, value) && HostAndPort(value, host);
      var blanks, rest :| HostField(p, i, blanks, value, rest);
      CandidateOfField(p, i, blanks, value, rest);
      PortStripped(value);
      HostIsUnique(value, host, StripPort(value));
    }
    if FirstCandidate(p, i) && host == StripPort(ValueAt(p, i)) {
      var blanks, rest := FieldOfCandidate(p, i);
      PortStripped(ValueAt(p, i));
      assert FieldAt(p, i, ValueAt(p, i));
      forall j, value | 0 <= j < i ensures !FieldAt(p, j, value) {
        FieldIsCandidate(p, j);
      }
    }
  }

  /** For a request: the host of its first host field, and nothing exactly if it has none. */
  lemma HostExactly(p: seq<byte>, host: seq<byte>)
    requires IsRequest(p)
    ensures Host(p) == Some(Text(host)) <==> exists i :: FirstField(p, i, host)
    ensures Host(p) == None <==> forall i: nat, value :: !FieldAt(p, i, value)
  {
    HostCharacterised(p, Text(host));
    if Host(p) == Some(Text(host)) {
      var i :| FirstCandidate(p, i) && Text(host) == Text(StripPort(ValueAt(p, i)));
      SameText(host, StripPort(ValueAt(p, i)));
      FirstFieldIsCandidate(p, i, host);
    }
    if i :| FirstField(p, i, host) {
      FirstFieldIsCandidate(p, i, host);
    }
    forall i: nat ensures Candidate(p, i) <==> exists value :: FieldAt(p, i, value) {
      FieldIsCandidate(p, i);
    }
    if i: nat, value :| FieldAt(p, i, value) {
      assert Candidate(p, i);
    }
  }

  lemma SameText(a: seq<byte>, b: seq<byte>)
    requires Text(a) == Text(b)
    ensures a == b
  {
    forall i | 0 <= i < |a| ensures a[i] == b[i] {
      assert Text(a)[i] == Text(b)[i];
    }
  }

  // ----- building a request and extracting the host again -----

  ghost predicate FreeOfHost(path: seq<byte>) {
    forall i: nat :: !HostWord(path, i)
  }

  /** Not empty, no colon, no line break, and not starting with a blank. */
  predicate PlainHost(host: seq<byte>) {
    && host != [] && !IsBlank(host[0])
    && forall i :: 0 <= i < |host| ==> host[i] != ':' as int && !IsBreak(host[i])
  }

  /** Nothing, or a colon and the rest of the line. */
  predicate PortPart(port: seq<byte>) {
    port != [] ==> port[0] == ':' as int && forall i :: 0 <= i < |port| ==> !IsBreak(port[i])
  }

  const GET: seq<byte> := Raw("GET ")
  const VERSION: seq<byte> := Raw(" HTTP/1.1\r\n")
  const HOST: seq<byte> := Raw("Host: ")
  const CRLF: seq<byte> := Raw("\r\n")

  function Request(path: seq<byte>, host: seq<byte>, port: seq<byte>, tail: seq<byte>): seq<byte> {
    (GET + path + VERSION) + (HOST + (host + port + (CRLF + tail)))
  }

  lemma RequestLine(path: seq<byte>, j: nat)
    requires FreeOfHost(path)
    ensures var line := GET + path + VERSION + HOST; !HostWord(line, j) || j == 15 + |path|
  {
    var line := GET + path + VERSION + HOST;
    if j + 5 <= |line| && line[j + 4] == ':' as int {
      if j + 4 >= 4 + |path| {
        assert line[j + 4] == (VERSION + HOST)[j - |path|];
      } else if j >= 4 {
        assert !HostWord(path, j - 4);
        assert forall i :: j <= i < j + 5 ==> line[i] == path[i - 4];
      } else {
        assert line[j] == GET[j];
      }
    }
  }

  lemma {:induction false} LineEndAt(p: seq<byte>, k: nat, end: nat)
    requires k <= end < |p| && IsBreak(p[end]) && forall i :: k <= i < end ==> !IsBreak(p[i])
    ensures LineEnd(p, k) == end
    decreases end - k
  {
    if k < end {
      LineEndAt(p, k + 1, end);
    }
  }

  lemma {:induction false} StripPortOf(host: seq<byte>, port: seq<byte>)
    requires forall i :: 0 <= i < |host| ==> host[i] != ':' as int
    requires PortPart(port)
    ensures StripPort(host + port) == host
  {
    if host != [] {
      assert (host + port)[1..] == host[1..] + port;
      StripPortOf(host[1..], port);
    } else {
      assert host + port == port;
    }
  }

  lemma ValueOnLine(p: seq<byte>, k: nat, value: seq<byte>, rest: seq<byte>)
    requires k + 6 <= |p| && p[k + 5] == ' ' as int && p[k + 6..] == value + rest
    requires value != [] && !IsBlank(value[0]) && forall i :: 0 <= i < |value| ==> !IsBreak(value[i])
    requires rest != [] && IsBreak(rest[0])
    ensures ValueAt(p, k) == value
  {
    Advance(p, k + 6, value, rest);
    var end := k + 6 + |value|;
    assert p[k + 6 + 0] == value[0];
    assert SkipBlanks(p, k + 5) == k + 6;
    assert p[end] == p[end..][0];
    forall i | k + 6 <= i < end ensures !IsBreak(p[i]) {
      assert p[k + 6 + (i - k - 6)] == value[i - k - 6];
    }
    LineEndAt(p, k + 6, end);
  }

  /** The Host line of a request is where the scan stops, and its value is host and port. */
  lemma RequestValue(path: seq<byte>, host: seq<byte>, port: seq<byte>, tail: seq<byte>)
    requires PlainHost(host) && PortPart(port)
    ensures var p := Request(path, host, port, tail);
            var k := 15 + |path|;
            k + 6 < |p| && HostWord(p, k) && ValueAt(p, k) == host + port
  {
    var rest := CRLF + tail;
    Advance(Request(path, host, port, tail), 0, GET + path + VERSION, HOST + (host + port + rest));
    assert rest[0] == CRLF[0];
    HostLine(Request(path, host, port, tail), 15 + |path|, host + port, rest);
  }

  lemma HostLine(p: seq<byte>, k: nat, value: seq<byte>, rest: seq<byte>)
    requires k <= |p| && p[k..] == HOST + (value + rest)
    requires value != [] && !IsBlank(value[0]) && forall i :: 0 <= i < |value| ==> !IsBreak(value[i])
    requires rest != [] && IsBreak(rest[0])
    ensures k + 6 < |p| && HostWord(p, k) && ValueAt(p, k) == value
  {
    Advance(p, k, HOST, value + rest);
    assert p[k + 0] == HOST[0] && p[k + 1] == HOST[1] && p[k + 2] == HOST[2];
    assert p[k + 3] == HOST[3] && p[k + 4] == HOST[4] && p[k + 5] == HOST[5];
    ValueOnLine(p, k, value, rest);
  }

  /**
   Round trip: for every path free of "host:" and every plain host, with or without a port,
   whatever follows the Host line, the scan returns exactly the host.
   */
  lemma HttpRoundTrip(path: seq<byte>, host: seq<byte>, port: seq<byte>, tail: seq<byte>)
    requires FreeOfHost(path) && PlainHost(host) && PortPart(port)
    ensures Host(Request(path, host, port, tail)) == Some(Text(host))
  {
    var p := Request(path, host, port, tail);
    var k := 15 + |path|;
    var line := GET + path + VERSION + HOST;
    assert p[..4] == GET;
    TextOfRaw("GET ");
    assert METHODS[0] == "GET ";
    RequestValue(path, host, port, tail);
    assert p[..|line|] == line;
    forall j | 0 <= j < k ensures !Candidate(p, j) {
      RequestLine(path, j);
      assert j + 5 <= |line|;
      assert forall i :: j <= i < j + 5 ==> p[i] == line[i];
    }
    ScanFinds(p, 0, k);
    StripPortOf(host, port);
  }

  const HEADERS: seq<byte> := Raw("User-Agent: ") + Raw("NetScope-Test/1.0\r\n") + Raw("Accept: */*\r\n\r\n")

  /** http_request of tests/generate_test_pcap.py. */
  function HttpRequest(host: string, path: string): seq<byte>
    requires IsByteString(host) && IsByteString(path)
  {
    Request(Raw(path), Raw(host), [], HEADERS)
  }

  lemma GeneratedRoundTrip(host: string, path: string)
    requires IsByteString(host) && IsByteString(path)
    requires PlainHost(Raw(host)) && FreeOfHost(Raw(path))
    ensures Host(HttpRequest(host, path)) == Some(host)
  {
    HttpRoundTrip(Raw(path), Raw(host), [], HEADERS);
    TextOfRaw(host);
  }
}
