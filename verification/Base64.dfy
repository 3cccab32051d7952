/** Standard padded base64 (section 4 of RFC 4648) with the canonical decoding of its section 3.5. */
module Base64 {
  import opened Wrappers

  type Byte = b: nat | b < 256
  type Digit = d: nat | d < 64

  /* ---- bytes and six-bit digits ---- */

  function Byte0(p: Digit, q: Digit): Byte { p * 4 + q / 16 }
  function Byte1(q: Digit, r: Digit): Byte { q % 16 * 16 + r / 4 }
  function Byte2(r: Digit, t: Digit): Byte { r % 4 * 64 + t }

  function Digit0(a: Byte): Digit { a / 4 }
  function Digit1(a: Byte, b: Byte): Digit { a % 4 * 16 + b / 16 }
  function Digit2(b: Byte, c: Byte): Digit { b % 16 * 4 + c / 64 }
  function Digit3(c: Byte): Digit { c % 64 }

  function Digits(bytes: seq<Byte>): seq<Digit> {
    if bytes == [] then []
    else if |bytes| == 1 then [Digit0(bytes[0]), Digit1(bytes[0], 0)]
    else if |bytes| == 2 then [Digit0(bytes[0]), Digit1(bytes[0], bytes[1]), Digit2(bytes[1], 0)]
    else
      [Digit0(bytes[0]), Digit1(bytes[0], bytes[1]), Digit2(bytes[1], bytes[2]), Digit3(bytes[2])]
      + Digits(bytes[3..])
  }

  // The bits that a short last group leaves over must be zero.
  function Regroup(ds: seq<Digit>): Option<seq<Byte>> {
    if ds == [] then Some([])
    else if |ds| == 1 then None
    else if |ds| == 2 then
      if ds[1] % 16 == 0 then Some([Byte0(ds[0], ds[1])]) else None
    else if |ds| == 3 then
      if ds[2] % 4 == 0 then Some([Byte0(ds[0], ds[1]), Byte1(ds[1], ds[2])]) else None
    else match Regroup(ds[4..])
      case None => None
      case Some(rest) => Some([Byte0(ds[0], ds[1]), Byte1(ds[1], ds[2]), Byte2(ds[2], ds[3])] + rest)
  }

  lemma {:induction false} RegroupDigits(bytes: seq<Byte>)
    ensures Regroup(Digits(bytes)) == Some(bytes)
  {
    if bytes == [] {
    } else if |bytes| == 1 {
      RegroupOne(bytes);
    } else if |bytes| == 2 {
      RegroupTwo(bytes);
    } else {
      RegroupDigits(bytes[3..]);
      RegroupThree(bytes[0], bytes[1], bytes[2], bytes[3..]);
      assert bytes == [bytes[0], bytes[1], bytes[2]] + bytes[3..];
    }
  }

  lemma RegroupOne(bytes: seq<Byte>)
    requires |bytes| == 1
    ensures Regroup(Digits(bytes)) == Some(bytes)
  {
    var (p, q) := (Digit0(bytes[0]), Digit1(bytes[0], 0));
    FirstByteBack(bytes[0], 0);
    NothingLeftOver(bytes[0]);
    RegroupPair(p, q);
    assert Digits(bytes) == [p, q];
    assert bytes == [Byte0(p, q)];
  }

  lemma FirstByteBack(a: Byte, b: Byte)
    ensures Byte0(Digit0(a), Digit1(a, b)) == a
  {
  }

  lemma RegroupPair(p: Digit, q: Digit)
    requires q % 16 == 0
    ensures Regroup([p, q]) == Some([Byte0(p, q)])
  {
  }

  lemma RegroupTwo(bytes: seq<Byte>)
    requires |bytes| == 2
    ensures Regroup(Digits(bytes)) == Some(bytes)
  {
    var (p, q, r) := (Digit0(bytes[0]), Digit1(bytes[0], bytes[1]), Digit2(bytes[1], 0));
    BytesBack(bytes[0], bytes[1], 0);
    NothingLeftOver(bytes[1]);
    assert Regroup([p, q, r]) == Some([Byte0(p, q), Byte1(q, r)]);
    assert bytes == [Byte0(p, q), Byte1(q, r)];
  }

  lemma NothingLeftOver(a: Byte)
    ensures Digit1(a, 0) % 16 == 0 && Digit2(a, 0) % 4 == 0
  {
  }

  lemma RegroupThree(a: Byte, b: Byte, c: Byte, rest: seq<Byte>)
    requires Regroup(Digits(rest)) == Some(rest)
    ensures Regroup(Digits([a, b, c] + rest)) == Some([a, b, c] + rest)
  {
    DigitsCons(a, b, c, rest);
    RegroupCons(Digit0(a), Digit1(a, b), Digit2(b, c), Digit3(c), Digits(rest));
    BytesBack(a, b, c);
  }

  lemma DigitsCons(a: Byte, b: Byte, c: Byte, rest: seq<Byte>)
    ensures Digits([a, b, c] + rest) == [Digit0(a), Digit1(a, b), Digit2(b, c), Digit3(c)] + Digits(rest)
  {
    assert ([a, b, c] + rest)[3..] == rest;
  }

  lemma BytesBack(a: Byte, b: Byte, c: Byte)
    ensures Byte0(Digit0(a), Digit1(a, b)) == a
    ensures Byte1(Digit1(a, b), Digit2(b, c)) == b
    ensures Byte2(Digit2(b, c), Digit3(c)) == c
  {
  }

  lemma RegroupCons(p: Digit, q: Digit, r: Digit, t: Digit, ds: seq<Digit>)
    requires Regroup(ds).Some?
    ensures Regroup([p, q, r, t] + ds) == Some([Byte0(p, q), Byte1(q, r), Byte2(r, t)] + Regroup(ds).value)
  {
    assert ([p, q, r, t] + ds)[4..] == ds;
  }

  lemma {:induction false} DigitsRegroup(ds: seq<Digit>)
    requires Regroup(ds).Some?
    ensures Digits(Regroup(ds).value) == ds
  {
    if |ds| == 2 {
      GroupBits(ds[0], ds[1], 0, 0);
      assert ds == [ds[0], ds[1]];
    } else if |ds| == 3 {
      GroupBits(ds[0], ds[1], ds[2], 0);
      assert ds == [ds[0], ds[1], ds[2]];
    } else if |ds| >= 4 {
      DigitsRegroup(ds[4..]);
      GroupBits(ds[0], ds[1], ds[2], ds[3]);
      var bytes := Regroup(ds).value;
      assert bytes[3..] == Regroup(ds[4..]).value;
      assert ds == [ds[0], ds[1], ds[2], ds[3]] + ds[4..];
    }
  }

  lemma GroupBits(p: Digit, q: Digit, r: Digit, t: Digit)
    ensures Digit0(Byte0(p, q)) == p
    ensures Digit1(Byte0(p, q), Byte1(q, r)) == q && (q % 16 == 0 ==> Digit1(Byte0(p, q), 0) == q)
    ensures Digit2(Byte1(q, r), Byte2(r, t)) == r && (r % 4 == 0 ==> Digit2(Byte1(q, r), 0) == r)
    ensures Digit3(Byte2(r, t)) == t
  {
  }

  lemma {:induction false} DigitCount(bytes: seq<Byte>)
    ensures |Digits(bytes)| == |bytes| / 3 * 4 + if |bytes| % 3 == 0 then 0 else |bytes| % 3 + 1
  {
    if |bytes| >= 3 {
      DigitCount(bytes[3..]);
      assert |bytes| / 3 == |bytes[3..]| / 3 + 1 && |bytes| % 3 == |bytes[3..]| % 3;
    }
  }

  /* ---- digits and symbols ---- */

  predicate InAlphabet(c: char) {
    'A' <= c <= 'Z' || 'a' <= c <= 'z' || '0' <= c <= '9' || c == '+' || c == '/'
  }

  function Symbol(d: Digit): (c: char)
    ensures InAlphabet(c) && Value(c) == d
  {
    if d < 26 then (d + 'A' as int) as char
    else if d < 52 then (d - 26 + 'a' as int) as char
    else if d < 62 then (d - 52 + '0' as int) as char
    else if d == 62 then '+'
    else '/'
  }

  function Value(c: char): (d: Digit)
    requires InAlphabet(c)
  {
    if 'A' <= c <= 'Z' then c as int - 'A' as int
    else if 'a' <= c <= 'z' then c as int - 'a' as int + 26
    else if '0' <= c <= '9' then c as int - '0' as int + 52
    else if c == '+' then 62
    else 63
  }

  function Symbols(ds: seq<Digit>): (s: string)
    ensures |s| == |ds| && forall i :: 0 <= i < |s| ==> InAlphabet(s[i])
    ensures Values(s) == ds
  {
    seq(|ds|, i requires 0 <= i < |ds| => Symbol(ds[i]))
  }

  function Values(s: string): (ds: seq<Digit>)
    requires forall i :: 0 <= i < |s| ==> InAlphabet(s[i])
    ensures |ds| == |s| && forall i :: 0 <= i < |s| ==> ds[i] == Value(s[i])
  {
    seq(|s|, i requires 0 <= i < |s| => Value(s[i]))
  }

  /* ---- the codec ---- */

  function Padding(digits: nat): (p: string)
    ensures forall i :: 0 <= i < |p| ==> p[i] == '='
  {
    if digits % 4 == 2 then "==" else if digits % 4 == 3 then "=" else ""
  }

  function Encode(bytes: seq<Byte>): string {
    Symbols(Digits(bytes)) + Padding(|Digits(bytes)|)
  }

  function PadCount(s: string): (n: nat)
    ensures n <= |s|
  {
    if s == [] || s[|s| - 1] != '=' then 0
    else if |s| == 1 || s[|s| - 2] != '=' then 1
    else 2
  }

  function Decode(s: string): Option<seq<Byte>> {
    var symbols := s[..|s| - PadCount(s)];
    if |s| % 4 == 0 && forall i :: 0 <= i < |symbols| ==> InAlphabet(symbols[i]) then Regroup(Values(symbols))
    else None
  }

  lemma DecodeEncoded(bytes: seq<Byte>)
    ensures Decode(Encode(bytes)) == Some(bytes)
  {
    var symbols := Symbols(Digits(bytes));
    DigitCount(bytes);
    PaddedShape(symbols);
    RegroupDigits(bytes);
  }

  lemma PaddedShape(symbols: string)
    requires forall i :: 0 <= i < |symbols| ==> InAlphabet(symbols[i])
    requires |symbols| % 4 != 1
    ensures var s := symbols + Padding(|symbols|);
            |s| % 4 == 0 && PadCount(s) == |Padding(|symbols|)| && s[..|s| - PadCount(s)] == symbols
  {
    var s := symbols + Padding(|symbols|);
    assert forall i :: 0 <= i < |symbols| ==> s[i] == symbols[i] && s[i] != '=';
  }

  // The decoder accepts only what the encoder prints, so equal bytes have equal text.
  lemma EncodeDecoded(s: string)
    requires Decode(s).Some?
    ensures Encode(Decode(s).value) == s
  {
    var symbols := s[..|s| - PadCount(s)];
    Unpadded(s);
    SymbolsOfValues(symbols);
    var bytes := Decode(s).value;
    assert Digits(bytes) == Values(symbols) by { DigitsRegroup(Values(symbols)); }
  }

  lemma Unpadded(s: string)
    requires |s| % 4 == 0
    ensures s == s[..|s| - PadCount(s)] + Padding(|s| - PadCount(s))
  {
    assert (|s| - 1) % 4 == 3 && (|s| - 2) % 4 == 2;
  }

  lemma SymbolsOfValues(s: string)
    requires forall i :: 0 <= i < |s| ==> InAlphabet(s[i])
    ensures Symbols(Values(s)) == s
  {
    forall i | 0 <= i < |s|
      ensures Symbol(Value(s[i])) == s[i]
    {
    }
  }

  // The text of n bytes has 4 * ceil(n / 3) characters and ends in '=' unless 3 divides n.
  lemma EncodedShape(bytes: seq<Byte>)
    ensures |Encode(bytes)| == (|bytes| + 2) / 3 * 4
    ensures forall i :: 0 <= i < |Encode(bytes)| ==> InAlphabet(Encode(bytes)[i]) || Encode(bytes)[i] == '='
    ensures |bytes| % 3 != 0 ==> Encode(bytes)[|Encode(bytes)| - 1] == '='
  {
    DigitCount(bytes);
    Rounding(|bytes|);
  }

  lemma Rounding(n: nat)
    ensures n % 3 == 0 ==> (n + 2) / 3 * 4 == n / 3 * 4
    ensures n % 3 != 0 ==> (n + 2) / 3 * 4 == n / 3 * 4 + 4
    ensures (n / 3 * 4 + 2) % 4 == 2 && (n / 3 * 4 + 3) % 4 == 3
  {
  }
}
