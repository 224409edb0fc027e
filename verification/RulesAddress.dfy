/** parseIPString on everything it is defined on, without its loop: pieces between dots, and bits. */
module RulesAddress {
  import opened Rules

  // ----- the numbers between the dots -----

  function Dotted(pieces: seq<string>): string
    requires pieces != []
  {
    if |pieces| == 1 then pieces[0] else Dotted(pieces[..|pieces| - 1]) + "." + pieces[|pieces| - 1]
  }

  predicate NoDots(pieces: seq<string>) {
    forall i :: 0 <= i < |pieces| ==> '.' !in pieces[i]
  }

  function Digits(piece: string): (digits: string)
    ensures forall i :: 0 <= i < |digits| ==> IsDigit(digits[i])
  {
    if piece == "" then ""
    else
      var ch := piece[|piece| - 1];
      Digits(piece[..|piece| - 1]) + if IsDigit(ch) then [ch] else ""
  }

  function Numbers(pieces: seq<string>): (numbers: seq<nat>)
    ensures |numbers| == |pieces|
    ensures forall i :: 0 <= i < |pieces| ==> numbers[i] == Decimal(Digits(pieces[i]))
  {
    seq(|pieces|, i requires 0 <= i < |pieces| => Decimal(Digits(pieces[i])))
  }

  lemma {:induction false} OctetsOfPiece(s: string, piece: string)
    requires Octets(s)[|Octets(s)| - 1] == 0 && '.' !in piece
    ensures Octets(s + piece) == Octets(s)[|Octets(s)| - 1 := Decimal(Digits(piece))]
  {
    if piece == "" {
      assert s + piece == s;
    } else {
      var front, ch := piece[..|piece| - 1], piece[|piece| - 1];
      OctetsOfPiece(s, front);
      assert (s + piece)[..|s + piece| - 1] == s + front;
      if IsDigit(ch) {
        assert (Digits(front) + [ch])[..|Digits(front)|] == Digits(front);
      } else {
        assert Digits(front) + "" == Digits(front);
      }
    }
  }

  lemma NumbersSnoc(pieces: seq<string>)
    requires |pieces| > 1
    ensures Numbers(pieces) == Numbers(pieces[..|pieces| - 1]) + [Decimal(Digits(pieces[|pieces| - 1]))]
  {
  }

  /** Between the dots only the digits matter, read in decimal. */
  lemma {:induction false} OctetsExactly(pieces: seq<string>)
    requires pieces != [] && NoDots(pieces)
    ensures Octets(Dotted(pieces)) == Numbers(pieces)
    decreases |pieces|
  {
    if |pieces| == 1 {
      OctetsOfPiece("", pieces[0]);
      assert "" + pieces[0] == pieces[0];
    } else {
      var front, last := pieces[..|pieces| - 1], pieces[|pieces| - 1];
      OctetsExactly(front);
      OctetsOfDot(Dotted(front));
      OctetsOfPiece(Dotted(front) + ".", last);
      NumbersSnoc(pieces);
    }
  }

  // ----- the bits of the address -----

  predicate Bit(n: nat, i: nat) {
    if i == 0 then n % 2 == 1 else Bit(n / 2, i - 1)
  }

  lemma {:induction false} ZeroBit(i: nat)
    ensures !Bit(0, i)
  {
    if i > 0 {
      ZeroBit(i - 1);
    }
  }

  lemma {:induction false} OrBit(a: nat, b: nat, i: nat)
    ensures Bit(Or(a, b), i) <==> Bit(a, i) || Bit(b, i)
    decreases i
  {
    if a == 0 {
      ZeroBit(i);
    } else if i > 0 {
      assert Or(a, b) / 2 == Or(a / 2, b / 2);
      OrBit(a / 2, b / 2, i - 1);
    }
  }

  lemma {:induction false} ShiftBit(n: nat, k: nat, i: nat)
    ensures Bit(n * Pow2(k), i) <==> i >= k && Bit(n, i - k)
    decreases k
  {
    if k > 0 {
      var half := n * Pow2(k - 1);
      assert n * Pow2(k) == 2 * half;
      ShiftBit(n, k - 1, if i == 0 then 0 else i - 1);
      assert 2 * half % 2 == 0 && 2 * half / 2 == half;
    }
  }

  lemma HalfOfRest(n: nat, p: nat)
    requires p > 0
    ensures n % (2 * p) / 2 == n / 2 % p && n % (2 * p) % 2 == n % 2
  {
    var q, r := n / 2 / p, n / 2 % p;
    var b := n % 2;
    assert n == 2 * (q * p + r) + b;
    assert n == (2 * p) * q + (2 * r + b);
    RestIs(n, 2 * p, q, 2 * r + b);
  }

  lemma RestIs(n: nat, d: nat, q: nat, r: nat)
    requires d > 0 && n == d * q + r && r < d
    ensures n % d == r
  {
    var q', r' := n / d, n % d;
    assert d * (q - q') == r' - r;
    Multiples(d, q - q');
  }

  lemma Multiples(d: nat, m: int)
    ensures (m >= 1 ==> d * m >= d) && (m <= -1 ==> d * m <= 0 - d)
  {
  }

  lemma {:induction false} CutBit(n: nat, w: nat, i: nat)
    requires i < w
    ensures Bit(n % Pow2(w), i) <==> Bit(n, i)
    decreases w
  {
    HalfOfRest(n, Pow2(w - 1));
    if i > 0 {
      CutBit(n / 2, w - 1, i - 1);
    }
  }

  /** Bit `i` of a number that is shifted to its place and cut to 32 bits. */
  lemma ShiftedBit(octet: nat, place: nat, i: nat)
    requires place < 4 && i < 32
    ensures Bit(Shifted(octet, place), i) <==> i >= 24 - 8 * place && Bit(octet, i - (24 - 8 * place))
  {
    PowersOfBytes();
    var k := 24 - 8 * place;
    assert Pow2(0) == 1;
    assert WEIGHTS[place] == Pow2(k);
    CutBit(octet * Pow2(k), 32, i);
    ShiftBit(octet, k, i);
  }

  /** Some number has this bit once it stands at its place. */
  predicate SomeBit(octets: seq<nat>, i: nat) {
    exists j :: 0 <= j < |octets| && BitAt(octets[j], j, i)
  }

  predicate BitAt(octet: nat, place: nat, i: nat) {
    var k: int := 24 - 8 * place;
    k <= i && Bit(octet, i - k)
  }

  lemma {:induction false} WeighBit(octets: seq<nat>, i: nat)
    requires |octets| <= 4 && i < 32
    ensures Bit(Weigh(octets), i) <==> SomeBit(octets, i)
    decreases |octets|
  {
    if octets == [] {
      ZeroBit(i);
    } else {
      var front, last := octets[..|octets| - 1], octets[|octets| - 1];
      WeighBit(front, i);
      OrBit(Weigh(front), Shifted(last, |front|), i);
      ShiftedBit(last, |front|, i);
      SomeBitSnoc(front, last, i);
      assert octets == front + [last];
    }
  }

  lemma SomeBitSnoc(front: seq<nat>, last: nat, i: nat)
    ensures SomeBit(front + [last], i) <==> SomeBit(front, i) || BitAt(last, |front|, i)
  {
    var octets := front + [last];
    if SomeBit(front, i) {
      var j :| 0 <= j < |front| && BitAt(front[j], j, i);
      assert BitAt(octets[j], j, i);
    }
    if BitAt(last, |front|, i) {
      assert BitAt(octets[|front|], |front|, i);
    }
  }

  /**
   The address of up to four pieces between dots, whatever they hold: its bits are those of the
   numbers their digits spell, the first shifted by 24, each next one by 8 less, and what is
   shifted out of 32 bits is lost.
   */
  lemma AddressBits(pieces: seq<string>, i: nat)
    requires pieces != [] && NoDots(pieces) && IsQuad(Dotted(pieces)) && i < 32
    ensures Bit(ParseIp(Dotted(pieces)), i) <==> SomeBit(Numbers(pieces), i)
  {
    OctetsExactly(pieces);
    WeighBit(Numbers(pieces), i);
  }
}
