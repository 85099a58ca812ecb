/** UTF-8 as Python encodes and decodes it: strictly, or with U+FFFD for each ill-formed part. */
module Utf8 {
  import opened Prelude

  // ----- encoding -----

  function EncodeChar(c: char): (b: Bytes)
    ensures 1 <= |b| <= 4
  {
    var n := c as int;
    if n < 0x80 then [n as byte]
    else if n < 0x800 then [(0xC0 + n / 64) as byte, (0x80 + n % 64) as byte]
    else if n < 0x10000 then
      [(0xE0 + n / 4096) as byte, (0x80 + n / 64 % 64) as byte, (0x80 + n % 64) as byte]
    else
      [(0xF0 + n / 262144) as byte, (0x80 + n / 4096 % 64) as byte, (0x80 + n / 64 % 64) as byte, (0x80 + n % 64) as byte]
  }

  function Encode(text: string): Bytes {
    if text == [] then [] else EncodeChar(text[0]) + Encode(text[1..])
  }

  /** `len(text.encode("utf-8"))` */
  function Size(text: string): nat {
    |Encode(text)|
  }

  /** `(b & 0xC0) == 0x80` */
  predicate Continuation(b: byte) {
    b / 64 == 2
  }

  lemma {:induction false} EncodeConcat(a: string, b: string)
    ensures Encode(a + b) == Encode(a) + Encode(b)
    decreases |a|
  {
    hide *;
    EncodeStep(a);
    if a == [] {
      assert a + b == b && [] + Encode(b) == Encode(b);
    } else {
      EncodeConcat(a[1..], b);
      EncodeStep(a + b);
      assert (a + b)[1..] == a[1..] + b && (a + b)[0] == a[0];
      Regroup(EncodeChar(a[0]), Encode(a[1..]), Encode(b));
    }
  }

  lemma EncodeStep(text: string)
    ensures Encode(text) == if text == [] then [] else EncodeChar(text[0]) + Encode(text[1..])
  {
    hide EncodeChar;
  }

  lemma Regroup(a: Bytes, b: Bytes, c: Bytes)
    ensures a + b + c == a + (b + c)
  {}

  lemma EncodeSingle(c: char)
    ensures Encode([c]) == EncodeChar(c)
  {}

  lemma EncodeNext(text: string, n: nat)
    requires n < |text|
    ensures Encode(text[..n + 1]) == Encode(text[..n]) + EncodeChar(text[n])
  {
    hide *;
    EncodeSnoc(text[..n], text[n]);
    OneLonger(text, n);
  }

  lemma OneLonger(text: string, n: nat)
    requires n < |text|
    ensures text[..n + 1] == text[..n] + [text[n]]
  {}

  lemma EncodeSnoc(text: string, c: char)
    ensures Encode(text + [c]) == Encode(text) + EncodeChar(c)
  {
    hide *;
    EncodeSingle(c);
    EncodeConcat(text, [c]);
  }

  lemma EncodeSplit(text: string, n: nat)
    requires n <= |text|
    ensures Encode(text) == Encode(text[..n]) + Encode(text[n..])
  {
    hide *;
    EncodeConcat(text[..n], text[n..]);
    Halves(text, n);
  }

  lemma Halves(text: string, n: nat)
    requires n <= |text|
    ensures text == text[..n] + text[n..]
  {}

  lemma PrefixSize(text: string, i: nat, j: nat)
    requires i <= j <= |text|
    ensures Size(text[..j]) == Size(text[..i]) + Size(text[i..j]) && j - i <= Size(text[i..j])
  {
    EncodeConcat(text[..i], text[i..j]);
    assert text[..i] + text[i..j] == text[..j];
    SizeAtLeast(text[i..j]);
  }

  lemma {:induction false} SizeAtLeast(text: string)
    ensures |text| <= Size(text)
  {
    if text != [] { SizeAtLeast(text[1..]); }
  }

  /** Byte `k` belongs to one character, and is a continuation byte exactly when it is not its first. */
  lemma {:induction false} CharHolding(text: string, k: nat) returns (n: nat)
    requires k < Size(text)
    ensures n < |text| && Size(text[..n]) <= k < Size(text[..n + 1]) <= Size(text)
    ensures n + 1 < |text| ==> Size(text[..n + 1]) < Size(text)
    ensures Continuation(Encode(text)[k]) <==> Size(text[..n]) < k
    ensures forall j :: Size(text[..n]) < j < Size(text[..n + 1]) ==> Continuation(Encode(text)[j])
    ensures !Continuation(Encode(text)[Size(text[..n])])
    ensures n + 1 < |text| ==> !Continuation(Encode(text)[Size(text[..n + 1])])
  {
    n := IndexHolding(text, k);
    BytesOfChar(text, n);
    if n + 1 < |text| { BytesOfChar(text, n + 1); }
  }

  lemma {:induction false} IndexHolding(text: string, k: nat) returns (n: nat)
    requires k < Size(text)
    ensures n < |text| && Size(text[..n]) <= k < Size(text[..n + 1])
    decreases |text|
  {
    var m := |text| - 1;
    assert text[..m + 1] == text;
    if Size(text[..m]) <= k {
      n := m;
    } else {
      n := IndexHolding(text[..m], k);
      assert text[..m][..n] == text[..n] && text[..m][..n + 1] == text[..n + 1];
    }
  }

  lemma BytesOfChar(text: string, n: nat)
    requires n < |text|
    ensures Size(text[..n]) < Size(text[..n + 1]) <= Size(text)
    ensures !Continuation(Encode(text)[Size(text[..n])])
    ensures forall j :: Size(text[..n]) < j < Size(text[..n + 1]) ==> Continuation(Encode(text)[j])
  {
    hide *;
    EncodeNext(text, n);
    EncodeSplit(text, n + 1);
    LeadThenContinuations(text[n]);
    var head, bytes, tail := Encode(text[..n]), EncodeChar(text[n]), Encode(text[n + 1..]);
    SizeIs(text[..n]);
    SizeIs(text[..n + 1]);
    SizeIs(text);
    forall j | |head| <= j < |head| + |bytes| ensures Encode(text)[j] == bytes[j - |head|] { Middle(head, bytes, tail, j); }
  }

  lemma SizeIs(text: string)
    ensures Size(text) == |Encode(text)|
  {}

  lemma Middle(a: Bytes, b: Bytes, c: Bytes, j: nat)
    requires |a| <= j < |a| + |b|
    ensures (a + b + c)[j] == b[j - |a|]
  {}

  lemma LeadThenContinuations(c: char)
    ensures var b := EncodeChar(c);
            !Continuation(b[0]) && forall i :: 1 <= i < |b| ==> Continuation(b[i])
  {}

  // ----- decoding -----

  /** One step of the decoder: a character, or nothing for an ill-formed part, and the bytes it uses. */
  datatype Unit = Unit(got: Option<char>, width: nat)

  function Needed(lead: byte): nat {
    if lead < 0x80 then 1
    else if 0xC2 <= lead < 0xE0 then 2
    else if 0xE0 <= lead < 0xF0 then 3
    else if 0xF0 <= lead < 0xF5 then 4
    else 0
  }

  /** The second byte's range excludes over-long forms, surrogates and values past U+10FFFF. */
  predicate SecondFits(lead: byte, b: byte) {
    && Continuation(b)
    && (lead == 0xE0 ==> b >= 0xA0) && (lead == 0xED ==> b < 0xA0)
    && (lead == 0xF0 ==> b >= 0x90) && (lead == 0xF4 ==> b < 0x90)
  }

  function Next(b: Bytes): (u: Unit)
    requires b != []
    ensures 1 <= u.width <= |b|
    ensures u.got.Some? ==> u.width == |EncodeChar(u.got.value)|
  {
    var need := Needed(b[0]);
    if need == 1 then Unit(Some(b[0] as char), 1)
    else if need == 0 || |b| < 2 || !SecondFits(b[0], b[1]) then Unit(None, 1)
    else if need == 2 then Unit(Some(((b[0] as int - 0xC0) * 64 + (b[1] as int - 0x80)) as char), 2)
    else if |b| < 3 || !Continuation(b[2]) then Unit(None, 2)
    else if need == 3 then
      Unit(Some(((b[0] as int - 0xE0) * 4096 + (b[1] as int - 0x80) * 64 + (b[2] as int - 0x80)) as char), 3)
    else if |b| < 4 || !Continuation(b[3]) then Unit(None, 3)
    else
      Unit(Some(((b[0] as int - 0xF0) * 262144 + (b[1] as int - 0x80) * 4096 + (b[2] as int - 0x80) * 64
                 + (b[3] as int - 0x80)) as char), 4)
  }

  /** `decode("utf-8")`: nothing stands for `UnicodeDecodeError`. */
  function Decode(b: Bytes): Option<string> {
    if b == [] then Some([])
    else
      var u := Next(b);
      var rest := Decode(b[u.width..]);
      if u.got.None? || rest.None? then None else Some([u.got.value] + rest.value)
  }

  const REPLACEMENT: char := '\U{FFFD}'

  /** `decode("utf-8", errors="replace")` */
  function DecodeLossy(b: Bytes): string {
    if b == [] then []
    else
      var u := Next(b);
      [if u.got.Some? then u.got.value else REPLACEMENT] + DecodeLossy(b[u.width..])
  }

  lemma NextOfEncoded(c: char, rest: Bytes)
    ensures Next(EncodeChar(c) + rest) == Unit(Some(c), |EncodeChar(c)|)
  {
    var n := c as int;
    if n >= 0x10000 {
      NextOfFour(c, rest);
    } else if n >= 0x800 {
      NextOfThree(c, rest);
    }
  }

  lemma NextOfThree(c: char, rest: Bytes)
    requires 0x800 <= c as int < 0x10000
    ensures Next(EncodeChar(c) + rest) == Unit(Some(c), 3)
  {
    var n, b := c as int, EncodeChar(c) + rest;
    assert n / 4096 * 4096 + n / 64 % 64 * 64 + n % 64 == n;
    assert b[0] as int == 0xE0 + n / 4096 && b[1] as int == 0x80 + n / 64 % 64 && b[2] as int == 0x80 + n % 64;
    assert SecondFits(b[0], b[1]);
  }

  lemma NextOfFour(c: char, rest: Bytes)
    requires 0x10000 <= c as int
    ensures Next(EncodeChar(c) + rest) == Unit(Some(c), 4)
  {
    var n, b := c as int, EncodeChar(c) + rest;
    FourDigits(n);
    assert b[0] as int == 0xF0 + n / 262144 && b[1] as int == 0x80 + n / 4096 % 64;
    assert b[2] as int == 0x80 + n / 64 % 64 && b[3] as int == 0x80 + n % 64;
    assert SecondFits(b[0], b[1]);
  }

  lemma FourDigits(n: int)
    requires 0x10000 <= n < 0x110000
    ensures n / 262144 * 262144 + n / 4096 % 64 * 4096 + n / 64 % 64 * 64 + n % 64 == n
    ensures n / 262144 <= 4 && (n / 262144 == 0 ==> n / 4096 % 64 >= 16) && (n / 262144 == 4 ==> n / 4096 % 64 < 16)
  {
    assert n / 64 == n / 4096 * 64 + n / 64 % 64;
    assert n / 4096 == n / 262144 * 64 + n / 4096 % 64;
  }

  lemma NextReencodes(b: Bytes)
    requires b != [] && Next(b).got.Some?
    ensures EncodeChar(Next(b).got.value) == b[..Next(b).width]
  {
    hide EncodeChar;
    var u := Next(b);
    if u.width == 1 {
      EncodeOne(b[0]);
    } else if u.width == 2 {
      EncodeTwo(b[0], b[1], u.got.value);
    } else if u.width == 3 {
      EncodeThree(b[0], b[1], b[2], u.got.value);
    } else {
      EncodeFour(b[0], b[1], b[2], b[3], u.got.value);
    }
  }

  lemma EncodeOne(b0: byte)
    requires b0 < 0x80
    ensures EncodeChar(b0 as char) == [b0]
  {}

  lemma EncodeTwo(b0: byte, b1: byte, c: char)
    requires Needed(b0) == 2 && Continuation(b1)
    requires c as int == (b0 as int - 0xC0) * 64 + (b1 as int - 0x80)
    ensures EncodeChar(c) == [b0, b1]
  {}

  lemma EncodeThree(b0: byte, b1: byte, b2: byte, c: char)
    requires Needed(b0) == 3 && SecondFits(b0, b1) && Continuation(b2)
    requires c as int == (b0 as int - 0xE0) * 4096 + (b1 as int - 0x80) * 64 + (b2 as int - 0x80)
    ensures EncodeChar(c) == [b0, b1, b2]
  {
    assert c as int / 64 == (b0 as int - 0xE0) * 64 + (b1 as int - 0x80);
  }

  lemma EncodeFour(b0: byte, b1: byte, b2: byte, b3: byte, c: char)
    requires Needed(b0) == 4 && SecondFits(b0, b1) && Continuation(b2) && Continuation(b3)
    requires c as int == (b0 as int - 0xF0) * 262144 + (b1 as int - 0x80) * 4096 + (b2 as int - 0x80) * 64
                         + (b3 as int - 0x80)
    ensures EncodeChar(c) == [b0, b1, b2, b3]
  {
    Digits(b0 as int - 0xF0, b1 as int - 0x80, b2 as int - 0x80, b3 as int - 0x80, c as int);
    assert c as int >= 0x10000;
  }

  lemma Digits(d3: int, d2: int, d1: int, d0: int, n: int)
    requires 0 <= d3 && 0 <= d2 < 64 && 0 <= d1 < 64 && 0 <= d0 < 64
    requires n == d3 * 262144 + d2 * 4096 + d1 * 64 + d0
    ensures n % 64 == d0 && n / 64 % 64 == d1 && n / 4096 % 64 == d2 && n / 262144 == d3
  {
    assert n / 64 == d3 * 4096 + d2 * 64 + d1;
    assert n / 4096 == d3 * 64 + d2;
  }

  lemma {:induction false} DecodeEncode(text: string)
    ensures Decode(Encode(text)) == Some(text) && DecodeLossy(Encode(text)) == text
  {
    hide EncodeChar, Next;
    if text != [] {
      DecodeEncode(text[1..]);
      NextOfEncoded(text[0], Encode(text[1..]));
      assert Encode(text) == EncodeChar(text[0]) + Encode(text[1..]);
      assert Encode(text)[|EncodeChar(text[0])|..] == Encode(text[1..]);
      assert [text[0]] + text[1..] == text;
    }
  }

  lemma {:induction false} EncodeDecode(b: Bytes)
    requires Decode(b).Some?
    ensures Encode(Decode(b).value) == b && DecodeLossy(b) == Decode(b).value
    decreases |b|
  {
    hide EncodeChar, Next;
    if b != [] {
      var u := Next(b);
      EncodeDecode(b[u.width..]);
      NextReencodes(b);
      assert b == b[..u.width] + b[u.width..];
    }
  }

  /** Text in front of anything is read as it was written. */
  lemma {:induction false} LossyKeepsText(text: string, b: Bytes)
    ensures DecodeLossy(Encode(text) + b) == text + DecodeLossy(b)
    decreases |text|
  {
    hide *;
    EncodeStep(text);
    if text == [] {
      assert [] + b == b && text + DecodeLossy(b) == DecodeLossy(b);
    } else {
      LossyKeepsText(text[1..], b);
      LossyFirst(text[0], Encode(text[1..]) + b);
      Regroup(EncodeChar(text[0]), Encode(text[1..]), b);
      assert [text[0]] + (text[1..] + DecodeLossy(b)) == text + DecodeLossy(b);
    }
  }

  lemma LossyFirst(c: char, rest: Bytes)
    ensures DecodeLossy(EncodeChar(c) + rest) == [c] + DecodeLossy(rest)
  {
    hide EncodeChar, Next;
    NextOfEncoded(c, rest);
    assert (EncodeChar(c) + rest)[|EncodeChar(c)|..] == rest;
  }

  lemma LossyNone(width: nat, b: Bytes)
    requires b != [] && Next(b) == Unit(None, width)
    ensures DecodeLossy(b) == [REPLACEMENT] + DecodeLossy(b[width..])
  {
    hide Next;
  }

  /** No character starts with this byte. */
  predicate Stray(b: byte) {
    forall c: char :: EncodeChar(c)[0] != b
  }

  lemma StrayIsUnneeded(b: byte)
    ensures Stray(b) <==> Needed(b) == 0
  {
    var lead := b as int;
    if Needed(b) == 1 {
      assert EncodeChar(b as char)[0] == b;
    } else if Needed(b) == 2 {
      assert EncodeChar(((lead - 0xC0) * 64) as char)[0] == b;
    } else if Needed(b) == 3 {
      var n := if b == 0xE0 then 0x800 else (lead - 0xE0) * 4096;
      assert EncodeChar(n as char)[0] == b;
    } else if Needed(b) == 4 {
      var n := if b == 0xF0 then 0x10000 else (lead - 0xF0) * 262144;
      assert EncodeChar(n as char)[0] == b;
    } else {
      forall c: char ensures EncodeChar(c)[0] != b { LeadIsNeeded(c); }
    }
  }

  lemma LeadIsNeeded(c: char)
    ensures Needed(EncodeChar(c)[0]) == |EncodeChar(c)|
  {
    NextOfEncoded(c, []);
    assert EncodeChar(c) + [] == EncodeChar(c);
  }

  /** A byte that starts no character, and a character that stops too early, are read as one U+FFFD each. */
  lemma LossyMarks(text: string, b: byte, c: char, k: nat, rest: Bytes)
    ensures Stray(b) ==> DecodeLossy(Encode(text) + ([b] + rest)) == text + [REPLACEMENT] + DecodeLossy(rest)
    ensures 0 < k < |EncodeChar(c)| && (rest == [] || !Continuation(rest[0])) ==>
              DecodeLossy(Encode(text) + (EncodeChar(c)[..k] + rest)) == text + [REPLACEMENT] + DecodeLossy(rest)
  {
    hide EncodeChar, Encode, DecodeLossy, Continuation, Stray, Needed;
    StrayIsUnneeded(b);
    if Stray(b) {
      LossyKeepsText(text, [b] + rest);
      LossyNone(1, [b] + rest);
      assert ([b] + rest)[1..] == rest;
    }
    if 0 < k < |EncodeChar(c)| && (rest == [] || !Continuation(rest[0])) {
      var cut := EncodeChar(c)[..k];
      LossyKeepsText(text, cut + rest);
      NextOfCut(c, k, rest);
      LossyNone(k, cut + rest);
      assert (cut + rest)[k..] == rest;
    }
  }

  lemma NextOfCut(c: char, k: nat, rest: Bytes)
    requires 0 < k < |EncodeChar(c)| && (rest == [] || !Continuation(rest[0]))
    ensures Next(EncodeChar(c)[..k] + rest) == Unit(None, k)
  {
    hide EncodeChar, Continuation;
    var b := EncodeChar(c);
    NextOfEncoded(c, []);
    assert b + [] == b;
    var cut := b[..k] + rest;
    assert forall i :: 0 <= i < k ==> cut[i] == b[i];
    assert |cut| > k ==> cut[k] == rest[0];
  }
}
