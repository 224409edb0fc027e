/** DNSExtractor of src/sni_extractor.cpp: names in DNS queries (sections 3.1 and 4.1.2 of RFC 1035). */
module Dns {
  import opened Prelude
  import opened Sequences

  const MAX_LABEL: nat := 63
  const HEADER: nat := 12

  /** QR bit clear and at least one question. */
  predicate IsQuery(p: seq<byte>) {
    |p| >= HEADER && p[2] < 0x80 && U16At(p, 4) > 0
  }

  /** A whole label of 1 to 63 bytes starts at `k`. */
  predicate LabelAt(p: seq<byte>, k: nat) {
    k < |p| && 1 <= p[k] <= MAX_LABEL && k + 1 + p[k] <= |p|
  }

  /** The maximal run of whole labels from `k`. */
  function Labels(p: seq<byte>, k: nat): seq<seq<byte>>
    decreases |p| - k
  {
    if LabelAt(p, k) then [p[k + 1..k + 1 + p[k]]] + Labels(p, k + 1 + p[k]) else []
  }

  function Join(labels: seq<seq<byte>>): string {
    if labels == [] then ""
    else if |labels| == 1 then Text(labels[0])
    else Text(labels[0]) + "." + Join(labels[1..])
  }

  function Query(p: seq<byte>): Option<string> {
    if !IsQuery(p) || Labels(p, HEADER) == [] then None else Some(Join(Labels(p, HEADER)))
  }

  predicate ValidLabels(labels: seq<seq<byte>>) {
    forall i :: 0 <= i < |labels| ==> 1 <= |labels[i]| <= 63
  }

  lemma {:induction false} JoinSnoc(labels: seq<seq<byte>>, l: seq<byte>)
    requires labels != [] && ValidLabels(labels)
    ensures Join(labels) != "" && Join(labels + [l]) == Join(labels) + "." + Text(l)
  {
    if |labels| == 1 {
      assert (labels + [l])[1..] == [l];
    } else {
      assert (labels + [l])[1..] == labels[1..] + [l];
      assert ValidLabels(labels[1..]);
      JoinSnoc(labels[1..], l);
      var head := Text(labels[0]) + ".";
      assert head + (Join(labels[1..]) + "." + Text(l)) == (head + Join(labels[1..])) + "." + Text(l);
    }
  }

  lemma NextLabel(p: seq<byte>, k: nat, seen: seq<seq<byte>>)
    requires LabelAt(p, k)
    ensures var next := k + 1 + p[k];
            seen + Labels(p, k) == (seen + [p[k + 1..next]]) + Labels(p, next)
  {
    Assoc(seen, [p[k + 1..k + 1 + p[k]]], Labels(p, k + 1 + p[k]));
  }

  /** The source's label loop. */
  method ExtractQuery(payload: seq<byte>) returns (name: Option<string>)
    ensures name == Query(payload)
  {
    if !IsQuery(payload) { return None; }
    var offset := HEADER;
    var domain := "";
    ghost var done: seq<seq<byte>> := [];
    while offset < |payload|
      invariant HEADER <= offset <= |payload|
      invariant Labels(payload, HEADER) == done + Labels(payload, offset)
      invariant ValidLabels(done) && domain == Join(done) && (domain == "" <==> done == [])
    {
      var labelLength := payload[offset];
      if labelLength == 0 { break; }
      if labelLength > 63 { break; }
      if offset + 1 + labelLength > |payload| { break; }
      ghost var chunk := payload[offset + 1..offset + 1 + labelLength];
      NextLabel(payload, offset, done);
      if domain != "" {
        JoinSnoc(done, chunk);
        domain := domain + ".";
      }
      domain := domain + Text(payload[offset + 1..offset + 1 + labelLength]);
      done := done + [chunk];
      offset := offset + 1 + labelLength;
    }
    assert !LabelAt(payload, offset);
    assert Labels(payload, HEADER) == done;
    name := if domain == "" then None else Some(domain);
  }

  // ----- the labels on the wire -----

  function Wire(labels: seq<seq<byte>>): seq<byte>
    requires ValidLabels(labels)
  {
    if labels == [] then [] else [|labels[0]|] + labels[0] + Wire(labels[1..])
  }

  lemma NoLabel(p: seq<byte>, k: nat)
    requires k <= |p|
    ensures LabelAt(p, k) <==> LabelAt(p[k..], 0)
  {
  }

  /** A whole label at `k` is the first of the labels from there. */
  lemma LabelRead(p: seq<byte>, k: nat, part: seq<byte>, more: seq<byte>)
    requires 1 <= |part| <= 63 && k <= |p| && p[k..] == ([|part|] + part) + more
    ensures k + 1 + |part| <= |p| && p[k + 1 + |part|..] == more
    ensures Labels(p, k) == [part] + Labels(p, k + 1 + |part|)
  {
    var head: seq<byte> := [|part|] + part;
    Advance(p, k, head, more);
    assert p[k] == head[0];
    assert p[k + 1..k + |head|] == p[k..k + |head|][1..];
  }

  lemma WireFirst(part: seq<byte>, labels: seq<seq<byte>>)
    requires 1 <= |part| <= 63 && ValidLabels(labels)
    ensures ValidLabels([part] + labels) && Wire([part] + labels) == [|part|] + part + Wire(labels)
  {
    assert ([part] + labels)[1..] == labels;
  }

  lemma {:induction false} LabelsRead(p: seq<byte>, k: nat, labels: seq<seq<byte>>, rest: seq<byte>)
    requires ValidLabels(labels) && k <= |p| && p[k..] == Wire(labels) + rest && !LabelAt(rest, 0)
    ensures Labels(p, k) == labels
    decreases |labels|
  {
    if labels == [] {
      assert p[k..] == rest;
      NoLabel(p, k);
    } else {
      var part, others := labels[0], labels[1..];
      assert labels == [part] + others;
      WireFirst(part, others);
      Assoc([|part|] + part, Wire(others), rest);
      LabelRead(p, k, part, Wire(others) + rest);
      LabelsRead(p, k + 1 + |part|, others, rest);
    }
  }

  /** A whole label in front of labels that have been read. */
  lemma FirstLabel(p: seq<byte>, k: nat, labels: seq<seq<byte>>, rest: seq<byte>)
    requires LabelAt(p, k) && ValidLabels(labels) && p[k + 1 + p[k]..] == Wire(labels) + rest
    ensures var part := p[k + 1..k + 1 + p[k]];
            ValidLabels([part] + labels) && p[k..] == Wire([part] + labels) + rest
  {
    var next := k + 1 + p[k];
    var part := p[k + 1..next];
    WireFirst(part, labels);
    Assoc([|part|] + part, Wire(labels), rest);
    assert p[k..] == [p[k]] + p[k + 1..next] + p[next..];
  }

  lemma {:induction false} LabelsParse(p: seq<byte>, k: nat) returns (rest: seq<byte>)
    requires k <= |p|
    ensures ValidLabels(Labels(p, k)) && p[k..] == Wire(Labels(p, k)) + rest && !LabelAt(rest, 0)
    decreases |p| - k
  {
    if LabelAt(p, k) {
      rest := LabelsParse(p, k + 1 + p[k]);
      FirstLabel(p, k, Labels(p, k + 1 + p[k]), rest);
    } else {
      rest := p[k..];
      NoLabel(p, k);
      assert [] + rest == rest;
    }
  }

  /** No whole label of 1 to 63 bytes comes next. */
  predicate Ends(rest: seq<byte>) {
    rest == [] || rest[0] == 0 || rest[0] > 63 || 1 + rest[0] > |rest|
  }

  /** `labels` is the longest run of whole labels after the 12 bytes of the header. */
  ghost predicate Spells(p: seq<byte>, labels: seq<seq<byte>>) {
    && 12 <= |p|
    && ValidLabels(labels)
    && exists rest: seq<byte> :: p[12..] == Wire(labels) + rest && Ends(rest)
  }

  /**
   For every payload that passes the query check there is exactly one maximal run of whole
   labels, and the result is its dot-join, or nothing if the run is empty.
   */
  lemma QueryCharacterised(p: seq<byte>, labels: seq<seq<byte>>)
    requires IsQuery(p)
    ensures Spells(p, labels) <==> labels == Labels(p, HEADER)
    ensures Spells(p, labels) ==> Query(p) == if labels == [] then None else Some(Join(labels))
  {
    var tail := LabelsParse(p, HEADER);
    if Spells(p, labels) {
      var rest: seq<byte> :| p[12..] == Wire(labels) + rest && Ends(rest);
      LabelsRead(p, HEADER, labels, rest);
    }
  }

  /** The header of section 4.1.1 of RFC 1035: the QR bit leads the flags. */
  function Header(id: u16, response: bool, flags: nat, questions: u16, others: seq<byte>): (b: seq<byte>)
    requires flags < 0x8000 && |others| == 6
    ensures |b| == 12
  {
    PutU16(id) + PutU16(if response then 0x8000 + flags else flags) + PutU16(questions) + others
  }

  lemma HeaderRead(id: u16, response: bool, flags: nat, questions: u16, others: seq<byte>, rest: seq<byte>)
    requires flags < 0x8000 && |others| == 6
    ensures var p := Header(id, response, flags, questions, others) + rest;
            && |p| == 12 + |rest| && p[12..] == rest
            && (p[2] >= 0x80 <==> response) && U16At(p, 4) == questions
  {
    var head := Header(id, response, flags, questions, others);
    var p := head + rest;
    assert p[2] == head[2] && p[4] == head[4] && p[5] == head[5];
    assert head[2] == PutU16(if response then 0x8000 + flags else flags)[0];
    assert head[4] == PutU16(questions)[0] && head[5] == PutU16(questions)[1];
  }

  /**
   Whatever the other header fields: a response, a message without a question or one whose first name
   is empty has no name; any other has its first name, whatever follows that.
   */
  lemma QueriesExactly(id: u16, response: bool, flags: nat, questions: u16, others: seq<byte>,
                       labels: seq<seq<byte>>, rest: seq<byte>)
    requires flags < 0x8000 && |others| == 6 && ValidLabels(labels) && Ends(rest)
    ensures Query(Header(id, response, flags, questions, others) + (Wire(labels) + rest))
         == if response || questions == 0 || labels == [] then None else Some(Join(labels))
  {
    HeaderRead(id, response, flags, questions, others, Wire(labels) + rest);
    var p := Header(id, response, flags, questions, others) + (Wire(labels) + rest);
    if IsQuery(p) {
      LabelsRead(p, 12, labels, rest);
    }
  }

  // ----- tests/generate_test_pcap.py -----

  /** str.split('.') */
  function Split(s: string): (parts: seq<string>)
    ensures parts != []
  {
    if s == "" then [""]
    else
      var rest := Split(s[1..]);
      if s[0] == '.' then [""] + rest else [[s[0]] + rest[0]] + rest[1..]
  }

  predicate ValidDomain(domain: string) {
    IsByteString(domain) && forall part :: part in Split(domain) ==> 1 <= |part| <= 63
  }

  function RawAll(parts: seq<string>): (labels: seq<seq<byte>>)
    requires forall part :: part in parts ==> IsByteString(part)
    ensures |labels| == |parts|
    ensures forall i :: 0 <= i < |parts| ==> Text(labels[i]) == parts[i] && |labels[i]| == |parts[i]|
  {
    if parts == [] then []
    else
      TextOfRaw(parts[0]);
      [Raw(parts[0])] + RawAll(parts[1..])
  }

  lemma {:induction false} SplitBytes(s: string)
    requires IsByteString(s)
    ensures forall part :: part in Split(s) ==> IsByteString(part)
  {
    if s != "" {
      SplitBytes(s[1..]);
      var rest := Split(s[1..]);
      assert IsByteString(rest[0]);
      assert forall part :: part in rest[1..] ==> part in rest;
    }
  }

  function JoinText(parts: seq<string>): string {
    if parts == [] then ""
    else if |parts| == 1 then parts[0]
    else parts[0] + "." + JoinText(parts[1..])
  }

  lemma {:induction false} JoinOfSplit(s: string)
    ensures JoinText(Split(s)) == s
  {
    if s != "" {
      var rest := Split(s[1..]);
      JoinOfSplit(s[1..]);
      if s[0] == '.' {
        assert ([""] + rest)[1..] == rest;
        assert s == "" + "." + s[1..];
      } else {
        var parts := [[s[0]] + rest[0]] + rest[1..];
        assert parts[1..] == rest[1..];
        if |rest| == 1 {
          assert s == [s[0]] + s[1..];
        } else {
          assert s == [s[0]] + (rest[0] + "." + JoinText(rest[1..]));
          assert s == ([s[0]] + rest[0]) + "." + JoinText(rest[1..]);
        }
      }
    }
  }

  lemma {:induction false} PartsHaveNoDot(s: string)
    ensures forall part :: part in Split(s) ==> '.' !in part
  {
    if s != "" {
      PartsHaveNoDot(s[1..]);
      var rest := Split(s[1..]);
      assert forall part :: part in rest[1..] ==> part in rest;
      assert '.' !in rest[0];
    }
  }

  /** The stretches between the dots, in order. */
  lemma SplitExactly(s: string)
    ensures JoinText(Split(s)) == s && forall part :: part in Split(s) ==> '.' !in part
  {
    JoinOfSplit(s);
    PartsHaveNoDot(s);
  }

  lemma {:induction false} JoinOfTexts(labels: seq<seq<byte>>, parts: seq<string>)
    requires |labels| == |parts| && forall i :: 0 <= i < |parts| ==> Text(labels[i]) == parts[i]
    ensures Join(labels) == JoinText(parts)
  {
    if |parts| > 1 {
      JoinOfTexts(labels[1..], parts[1..]);
    }
  }

  function QueryHeader(txid: u16): (b: seq<byte>)
    ensures |b| == HEADER
  {
    PutU16(txid) + PutU16(0x0100) + PutU16(1) + PutU16(0) + PutU16(0) + PutU16(0)
  }

  /** dns_query: one question of type A, class IN. */
  function DnsQuery(domain: string, txid: u16): seq<byte>
    requires ValidDomain(domain)
  {
    SplitBytes(domain);
    QueryHeader(txid) + Wire(RawAll(Split(domain))) + [0] + PutU16(1) + PutU16(1)
  }

  lemma LabelsOfQuery(txid: u16, labels: seq<seq<byte>>, rest: seq<byte>)
    requires ValidLabels(labels) && rest != [] && rest[0] == 0
    ensures var p := QueryHeader(txid) + (Wire(labels) + rest); IsQuery(p) && Labels(p, HEADER) == labels
  {
    var head := QueryHeader(txid);
    var p := head + (Wire(labels) + rest);
    Advance(p, 0, head, Wire(labels) + rest);
    assert p[2] == head[2] && p[4] == head[4] && p[5] == head[5];
    LabelsRead(p, HEADER, labels, rest);
  }

  /** The extractor inverts dns_query for every domain whose labels are all 1 to 63 bytes. */
  lemma DnsRoundTrip(domain: string, txid: u16)
    requires ValidDomain(domain)
    ensures Query(DnsQuery(domain, txid)) == Some(domain)
  {
    SplitBytes(domain);
    var labels := RawAll(Split(domain));
    Grouping(QueryHeader(txid), Wire(labels), [0], PutU16(1), PutU16(1));
    LabelsOfQuery(txid, labels, [0] + PutU16(1) + PutU16(1));
    JoinOfTexts(labels, Split(domain));
    JoinOfSplit(domain);
  }

  lemma Grouping<T>(a: seq<T>, b: seq<T>, c: seq<T>, d: seq<T>, e: seq<T>)
    ensures a + b + c + d + e == a + (b + (c + d + e))
  {
  }
}
