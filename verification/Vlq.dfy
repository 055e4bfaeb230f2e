/** Base64 VLQ, the number format of source maps (section 6 of ECMA-426): the encoder of
    tools/wasm-sourcemap.py, the decoder of tools/emsymbolizer.py on Python's unbounded integers,
    and the decoder of src/source_map_support.js on JavaScript's 32-bit shifts. */
module Vlq {
  import opened Options

  /** Position in 'ABC...Zabc...z0123456789+/='. */
  function CharOf(d: nat): char
    requires d <= 64
  {
    if d < 26 then 'A' + d as char
    else if d < 52 then 'a' + (d - 26) as char
    else if d < 62 then '0' + (d - 52) as char
    else if d == 62 then '+' else if d == 63 then '/' else '='
  }

  function DigitOf(c: char): Option<nat> {
    if 'A' <= c <= 'Z' then Some(c as int - 'A' as int)
    else if 'a' <= c <= 'z' then Some(c as int - 'a' as int + 26)
    else if '0' <= c <= '9' then Some(c as int - '0' as int + 52)
    else if c == '+' then Some(62) else if c == '/' then Some(63) else if c == '=' then Some(64)
    else None
  }

  function Pow2(n: nat): (p: nat)
    ensures p >= 1
  {
    if n == 0 then 1 else 2 * Pow2(n - 1)
  }

  // ----- encoding

  /** The sign goes into the lowest bit. */
  function Zigzag(n: int): nat {
    if n >= 0 then 2 * n else 2 * -n + 1
  }

  function Signed(v: nat): int {
    if v % 2 == 1 then -(v / 2) else v / 2
  }

  /** Five bits at a time, lowest first; 32 marks that more follow. */
  function Chars(x: nat): string {
    if x < 32 then [CharOf(x)] else [CharOf(32 + x % 32)] + Chars(x / 32)
  }

  function Encode(n: int): string {
    Chars(Zigzag(n))
  }

  function EncodeAll(ns: seq<int>): string {
    if ns == [] then [] else Encode(ns[0]) + EncodeAll(ns[1..])
  }

  method EncodeVlq(n: int) returns (result: string)
    ensures result == Encode(n)
  {
    var x: nat := if n >= 0 then 2 * n else 2 * -n + 1;
    result := "";
    while x > 31
      invariant result + Chars(x) == Encode(n)
    {
      assert result + Chars(x) == result + [CharOf(32 + x % 32)] + Chars(x / 32);
      result := result + [CharOf(32 + x % 32)];
      x := x / 32;
    }
    result := result + [CharOf(x)];
  }

  // ----- decoding in Python

  function Cons(n: int, rest: Option<seq<int>>): Option<seq<int>> {
    if rest.Some? then Some([n] + rest.value) else None
  }

  function Prepend(ns: seq<int>, rest: Option<seq<int>>): Option<seq<int>> {
    if rest.Some? then Some(ns + rest.value) else None
  }

  /** The numbers in `s`, when `value` has been read of the first one and its next digit counts
      2^shift. None: a character is not in the alphabet. A number left unfinished is dropped. */
  function DecodeFrom(s: string, shift: nat, value: nat): Option<seq<int>> {
    if s == [] then Some([])
    else
      match DigitOf(s[0])
      case None => None
      case Some(d) =>
        var v := value + d % 32 * Pow2(shift);
        if d / 32 % 2 == 1 then DecodeFrom(s[1..], shift + 5, v)
        else Cons(Signed(v), DecodeFrom(s[1..], 0, 0))
  }

  function Decode(s: string): Option<seq<int>> {
    DecodeFrom(s, 0, 0)
  }

  lemma PrependOneMore(ns: seq<int>, n: int, rest: Option<seq<int>>)
    ensures Prepend(ns, Cons(n, rest)) == Prepend(ns + [n], rest)
  {
    if rest.Some? {
      assert ns + ([n] + rest.value) == ns + [n] + rest.value;
    }
  }

  method DecodeVLQ(s: string) returns (r: Option<seq<int>>)
    ensures r == Decode(s)
  {
    var result: seq<int> := [];
    var shift: nat, value: nat := 0, 0;
    var i := 0;
    assert s[0..] == s;
    assert Decode(s).Some? ==> [] + Decode(s).value == Decode(s).value;
    while i < |s|
      invariant 0 <= i <= |s|
      invariant Decode(s) == Prepend(result, DecodeFrom(s[i..], shift, value))
    {
      var d := DigitOf(s[i]);
      assert s[i..][0] == s[i] && s[i..][1..] == s[i + 1..];
      if d.None? {
        return None;
      }
      value := value + d.value % 32 * Pow2(shift);
      if d.value / 32 % 2 == 1 {
        shift := shift + 5;
      } else {
        PrependOneMore(result, Signed(value), DecodeFrom(s[i + 1..], 0, 0));
        result := result + [Signed(value)];
        value, shift := 0, 0;
      }
      i := i + 1;
    }
    assert result + [] == result;
    r := Some(result);
  }

  lemma Pow2Plus5(n: nat)
    ensures Pow2(n + 5) == 32 * Pow2(n)
  {
    assert Pow2(n + 5) == 2 * Pow2(n + 4) == 4 * Pow2(n + 3) == 8 * Pow2(n + 2) == 16 * Pow2(n + 1);
  }

  lemma DigitRoundTrip(d: nat)
    requires d < 64
    ensures DigitOf(CharOf(d)) == Some(d)
  {
  }

  /** The sixth bit of a digit says that more digits follow. */
  lemma DigitBits(d: nat)
    requires d < 32
    ensures (32 + d) % 32 == d && (32 + d) / 32 % 2 == 1 && d % 32 == d && d / 32 % 2 == 0
  {
  }

  lemma DecodeMore(d: nat, rest: string, shift: nat, value: nat)
    requires d < 32
    ensures DecodeFrom([CharOf(32 + d)] + rest, shift, value) == DecodeFrom(rest, shift + 5, value + d * Pow2(shift))
  {
    DigitRoundTrip(32 + d);
    DigitBits(d);
    assert ([CharOf(32 + d)] + rest)[0] == CharOf(32 + d) && ([CharOf(32 + d)] + rest)[1..] == rest;
  }

  lemma DecodeLast(d: nat, rest: string, shift: nat, value: nat)
    requires d < 32
    ensures DecodeFrom([CharOf(d)] + rest, shift, value) == Cons(Signed(value + d * Pow2(shift)), Decode(rest))
  {
    DigitRoundTrip(d);
    DigitBits(d);
    assert ([CharOf(d)] + rest)[0] == CharOf(d) && ([CharOf(d)] + rest)[1..] == rest;
  }

  lemma Horner(x: nat, p: nat)
    ensures x % 32 * p + x / 32 * (32 * p) == x * p
  {
    var q, r := x / 32, x % 32;
    assert x == 32 * q + r;
    assert (32 * q + r) * p == 32 * q * p + r * p;
  }

  lemma {:induction false} DecodeChars(x: nat, rest: string, shift: nat, value: nat)
    ensures DecodeFrom(Chars(x) + rest, shift, value) == Cons(Signed(value + x * Pow2(shift)), Decode(rest))
    decreases x
  {
    if x < 32 {
      DecodeLast(x, rest, shift, value);
    } else {
      assert Chars(x) + rest == [CharOf(32 + x % 32)] + (Chars(x / 32) + rest);
      DecodeMore(x % 32, Chars(x / 32) + rest, shift, value);
      DecodeChars(x / 32, rest, shift + 5, value + x % 32 * Pow2(shift));
      Pow2Plus5(shift);
      Horner(x, Pow2(shift));
    }
  }

  /** Decoding undoes encoding, for all integers and however many of them are run together. */
  lemma ZigzagRoundTrip(n: int)
    ensures Signed(Zigzag(n)) == n
  {
  }

  lemma DecodeOne(n: int, rest: string)
    ensures Decode(Encode(n) + rest) == Cons(n, Decode(rest))
  {
    DecodeChars(Zigzag(n), rest, 0, 0);
    assert Zigzag(n) * Pow2(0) == Zigzag(n);
    ZigzagRoundTrip(n);
  }

  /** Decoding the encoding of a list of numbers gives back the list. */
  lemma {:induction false} DecodeUndoesEncode(ns: seq<int>)
    ensures Decode(EncodeAll(ns)) == Some(ns)
  {
    if ns != [] {
      DecodeUndoesEncode(ns[1..]);
      DecodeOne(ns[0], EncodeAll(ns[1..]));
      assert ns == [ns[0]] + ns[1..];
    }
  }

  lemma {:induction false} CharsArePlain(x: nat)
    ensures Chars(x) != [] && ',' !in Chars(x)
  {
    if x < 32 {
    } else {
      CharsArePlain(x / 32);
    }
  }

  lemma {:induction false} EncodingIsPlain(ns: seq<int>)
    ensures ',' !in EncodeAll(ns) && (ns != [] ==> EncodeAll(ns) != [])
  {
    if ns != [] {
      CharsArePlain(Zigzag(ns[0]));
      EncodingIsPlain(ns[1..]);
    }
  }

  // ----- what a text stands for

  /** The texts of one number: characters of the first 64, and all but the last say that more follow. */
  predicate OneNumber(s: string) {
    && s != []
    && (forall i :: 0 <= i < |s| ==> DigitOf(s[i]).Some? && DigitOf(s[i]).value < 64)
    && (forall i :: 0 <= i < |s| ==> (DigitOf(s[i]).value >= 32 <==> i < |s| - 1))
  }

  /** The five low bits of each character, the first one lowest. */
  function Weight(s: string): nat
    requires forall i :: 0 <= i < |s| ==> DigitOf(s[i]).Some?
  {
    if s == [] then 0 else DigitOf(s[0]).value % 32 + 32 * Weight(s[1..])
  }

  /** Such a text stands for half its weight, rounded down, negative if the weight is odd; and what stands
      behind it does not matter for it. */
  lemma DecodesWeight(s: string, rest: string)
    requires OneNumber(s)
    ensures var n := if Weight(s) % 2 == 0 then Weight(s) / 2 else -(Weight(s) / 2);
      Decode(s + rest) == Cons(n, Decode(rest))
  {
    DecodesWeightFrom(s, rest, 0, 1, 0, Weight(s));
  }

  lemma {:induction false} DecodesWeightFrom(s: string, rest: string, shift: nat, p: nat, value: nat, total: nat)
    requires OneNumber(s) && p == Pow2(shift) && total == value + Weight(s) * p
    ensures DecodeFrom(s + rest, shift, value) == Cons(Signed(total), Decode(rest))
    decreases |s|
  {
    var d, more := DigitOf(s[0]).value, s[1..];
    if d < 32 {
      LastOfNumber(s, d, p, value, total);
      assert s + rest == [s[0]] + rest;
      LastCharacter(s[0], d, rest, shift, p, value, total);
    } else {
      var v := value + (d - 32) * p;
      RestOfNumber(s, d - 32, p, value, total);
      Pow2Plus5(shift);
      DecodesWeightFrom(more, rest, shift + 5, 32 * p, v, total);
      assert s + rest == [s[0]] + (more + rest);
      OtherCharacter(s[0], d - 32, more + rest, shift, p, value, v);
    }
  }

  lemma LastOfNumber(s: string, d: nat, p: nat, value: nat, total: nat)
    requires OneNumber(s) && DigitOf(s[0]) == Some(d) && d < 32 && total == value + Weight(s) * p
    ensures s == [s[0]] && total == value + d * p
  {
    assert |s| == 1 && s[1..] == [];
    DigitBits(d);
    assert Weight(s) == d;
  }

  lemma LastCharacter(c: char, d: nat, rest: string, shift: nat, p: nat, value: nat, total: nat)
    requires DigitOf(c) == Some(d) && d < 32 && p == Pow2(shift) && total == value + d * p
    ensures DecodeFrom([c] + rest, shift, value) == Cons(Signed(total), Decode(rest))
  {
    DigitBits(d);
    assert ([c] + rest)[0] == c && ([c] + rest)[1..] == rest;
  }

  lemma OtherCharacter(c: char, d: nat, rest: string, shift: nat, p: nat, value: nat, v: nat)
    requires DigitOf(c) == Some(32 + d) && d < 32 && p == Pow2(shift) && v == value + d * p
    ensures DecodeFrom([c] + rest, shift, value) == DecodeFrom(rest, shift + 5, v)
  {
    DigitBits(d);
    assert ([c] + rest)[0] == c && ([c] + rest)[1..] == rest;
  }

  lemma RestOfNumber(s: string, d: nat, p: nat, value: nat, total: nat)
    requires OneNumber(s) && DigitOf(s[0]) == Some(32 + d) && d < 32 && total == value + Weight(s) * p
    ensures OneNumber(s[1..]) && total == value + d * p + Weight(s[1..]) * (32 * p)
  {
    DigitBits(d);
    Regrouped(d, Weight(s[1..]), p, value, total);
  }

  lemma Regrouped(d: nat, w: nat, p: nat, value: nat, total: nat)
    requires total == value + (d + 32 * w) * p
    ensures total == value + d * p + w * (32 * p)
  {
  }

  /** The alphabet: capitals, small letters, digits, `+`, `/` and `=`, in this order. */
  lemma Alphabet(i: nat)
    ensures i < 26 ==> DigitOf("ABCDEFGHIJKLMNOPQRSTUVWXYZ"[i]) == Some(i)
    ensures i < 26 ==> DigitOf("abcdefghijklmnopqrstuvwxyz"[i]) == Some(26 + i)
    ensures i < 10 ==> DigitOf("0123456789"[i]) == Some(52 + i)
    ensures i < 3 ==> DigitOf("+/="[i]) == Some(62 + i)
  {
    if i < 26 {
      Capitals(i);
      SmallLetters(i);
    }
  }

  lemma Capitals(i: nat)
    requires i < 26
    ensures DigitOf("ABCDEFGHIJKLMNOPQRSTUVWXYZ"[i]) == Some(i)
  {
  }

  lemma SmallLetters(i: nat)
    requires i < 26
    ensures DigitOf("abcdefghijklmnopqrstuvwxyz"[i]) == Some(26 + i)
  {
  }

  // ----- decoding in JavaScript

  /** The signed 32-bit integer that JavaScript's shift operators make of a number. */
  function Int32(v: int): int {
    (v + 0x8000_0000) % 0x1_0000_0000 - 0x8000_0000
  }

  /** `value & 1` decides the sign, `value >>= 1` halves. */
  function JsSigned(v: int): int {
    if v % 2 == 1 then -(Int32(v) / 2) else Int32(v) / 2
  }

  /** Shift counts are taken modulo 32. */
  function JsDecodeFrom(s: string, shift: nat, value: int): Option<seq<int>> {
    if s == [] then Some([])
    else
      match DigitOf(s[0])
      case None => None
      case Some(d) =>
        var v := value + Int32(d % 32 * Pow2(shift % 32));
        if d / 32 % 2 == 1 then JsDecodeFrom(s[1..], shift + 5, v)
        else Cons(JsSigned(v), JsDecodeFrom(s[1..], 0, 0))
  }

  function JsDecode(s: string): Option<seq<int>> {
    JsDecodeFrom(s, 0, 0)
  }

  /** What the JavaScript decoder makes of the digits of one number. */
  function JsValue(x: nat, shift: nat, value: int): int {
    if x < 32 then value + Int32(x * Pow2(shift % 32))
    else JsValue(x / 32, shift + 5, value + Int32(x % 32 * Pow2(shift % 32)))
  }

  lemma JsDecodeMore(d: nat, rest: string, shift: nat, value: int)
    requires d < 32
    ensures JsDecodeFrom([CharOf(32 + d)] + rest, shift, value) ==
      JsDecodeFrom(rest, shift + 5, value + Int32(d * Pow2(shift % 32)))
  {
    DigitRoundTrip(32 + d);
    DigitBits(d);
    assert ([CharOf(32 + d)] + rest)[0] == CharOf(32 + d) && ([CharOf(32 + d)] + rest)[1..] == rest;
  }

  lemma JsDecodeLast(d: nat, rest: string, shift: nat, value: int)
    requires d < 32
    ensures JsDecodeFrom([CharOf(d)] + rest, shift, value) ==
      Cons(JsSigned(value + Int32(d * Pow2(shift % 32))), JsDecode(rest))
  {
    assert ([CharOf(d)] + rest)[1..] == rest;
    assert d % 32 == d && d / 32 % 2 == 0;
  }

  lemma {:induction false} JsDecodeChars(x: nat, rest: string, shift: nat, value: int)
    ensures JsDecodeFrom(Chars(x) + rest, shift, value) == Cons(JsSigned(JsValue(x, shift, value)), JsDecode(rest))
    decreases x
  {
    if x < 32 {
      JsDecodeLast(x, rest, shift, value);
    } else {
      assert Chars(x) + rest == [CharOf(32 + x % 32)] + (Chars(x / 32) + rest);
      JsDecodeMore(x % 32, Chars(x / 32) + rest, shift, value);
      JsDecodeChars(x / 32, rest, shift + 5, value + Int32(x % 32 * Pow2(shift % 32)));
    }
  }

  lemma Pow2At30()
    ensures Pow2(30) == 0x4000_0000
  {
    Pow2Plus5(0);
    Pow2Plus5(5);
    Pow2Plus5(10);
    Pow2Plus5(15);
    Pow2Plus5(20);
    Pow2Plus5(25);
  }

  lemma {:induction false} Pow2Grows(a: nat, b: nat)
    requires a <= b
    ensures Pow2(a) <= Pow2(b)
  {
    if a < b {
      Pow2Grows(a, b - 1);
    }
  }

  lemma Int32Small(v: nat)
    requires v < 0x8000_0000
    ensures Int32(v) == v
  {
  }

  lemma ShiftStaysSmall(x: nat, shift: nat)
    requires x >= 32 && x * Pow2(shift) < 0x8000_0000
    ensures shift + 5 <= 30
  {
    Pow2Plus5(shift);
    if shift + 5 > 30 {
      Pow2Grows(31, shift + 5);
      Pow2At30();
    }
  }

  lemma PartIsSmaller(x: nat, p: nat)
    ensures x % 32 * p <= x * p
  {
    Horner(x, p);
    assert x / 32 * (32 * p) >= 0;
  }

  /** As long as everything fits into 31 bits, the shifts do not wrap. */
  lemma {:induction false} SmallValuesAreExact(x: nat, shift: nat, value: nat)
    requires value + x * Pow2(shift) < 0x8000_0000 && shift <= 30
    ensures JsValue(x, shift, value) == value + x * Pow2(shift)
    decreases x
  {
    var p := Pow2(shift);
    assert shift % 32 == shift;
    if x < 32 {
      Int32Small(x * p);
    } else {
      PartIsSmaller(x, p);
      Int32Small(x % 32 * p);
      ShiftStaysSmall(x, shift);
      Horner(x, p);
      Pow2Plus5(shift);
      SmallValuesAreExact(x / 32, shift + 5, value + x % 32 * p);
    }
  }

  lemma JsValueStep(x: nat, shift: nat, value: int)
    requires x >= 1
    ensures JsValue(32 * x, shift, value) == JsValue(x, shift + 5, value)
  {
    assert 32 * x % 32 == 0 && 32 * x / 32 == x;
    assert 0 * Pow2(shift % 32) == 0 && Int32(0) == 0;
  }

  /** `k` digits of zero before a last digit of 2. */
  lemma {:induction false} JsValueZeros(k: nat, shift: nat, value: int)
    ensures JsValue(2 * Pow2(5 * k), shift, value) == JsValue(2, shift + 5 * k, value)
  {
    if k > 0 {
      Pow2Plus5(5 * (k - 1));
      var x := 2 * Pow2(5 * (k - 1));
      assert 2 * Pow2(5 * k) == 32 * x;
      JsValueStep(x, shift, value);
      JsValueZeros(k - 1, shift + 5, value);
    }
  }

  lemma JsFirstDigit(x: nat, low: nat)
    requires x >= 1 && low < 32
    ensures JsValue(32 * x + low, 0, 0) == JsValue(x, 5, low)
  {
    assert (32 * x + low) % 32 == low && (32 * x + low) / 32 == x;
    assert Pow2(0) == 1 && Int32(low) == low;
  }

  lemma JsTopDigit(k: nat, low: nat)
    requires low < 32
    ensures JsValue(64 * Pow2(5 * k) + low, 0, 0) == JsValue(2, 5 + 5 * k, low)
  {
    JsFirstDigit(2 * Pow2(5 * k), low);
    JsValueZeros(k, 5, low);
  }

  lemma BoundaryDigits(n: int, k: nat, low: nat)
    requires k == 5 && ((n == 0x4000_0000 && low == 0) || (n == -0x4000_0000 && low == 1))
    ensures Zigzag(n) == 64 * Pow2(5 * k) + low
  {
    Pow2At30();
    Pow2Plus5(5 * k);
  }

  lemma JsSignedAtBoundary(v: int)
    ensures v == -0x8000_0000 ==> JsSigned(v) == -0x4000_0000
    ensures v == -0x7fff_ffff ==> JsSigned(v) == 0x4000_0000
  {
  }

  lemma JsBoundaryValue(n: int, k: nat, low: nat)
    requires k == 5 && ((n == 0x4000_0000 && low == 0) || (n == -0x4000_0000 && low == 1))
    ensures JsValue(Zigzag(n), 0, 0) == low - 0x8000_0000
  {
    BoundaryDigits(n, k, low);
    JsTopDigit(k, low);
    JsLastDigit(low);
  }

  /** At 2^30 the last digit is shifted into the sign bit: the sign comes out wrong. */
  lemma JsBoundaryFails(n: int)
    requires n == 0x4000_0000 || n == -0x4000_0000
    ensures JsSigned(JsValue(Zigzag(n), 0, 0)) == -n
  {
    JsBoundaryValue(n, 5, if n > 0 then 0 else 1);
    JsSignedAtBoundary(JsValue(Zigzag(n), 0, 0));
  }

  lemma JsLastDigit(low: nat)
    requires low < 32
    ensures JsValue(2, 30, low) == low - 0x8000_0000
  {
    Pow2At30();
    var p := Pow2(30);
    assert JsValue(2, 30, low) == low + Int32(2 * p);
    assert Int32(0x8000_0000) == -0x8000_0000;
  }

  predicate Fits31(n: int) {
    -0x4000_0000 < n < 0x4000_0000
  }

  lemma SmallSigned(n: int)
    requires Fits31(n)
    ensures JsSigned(Zigzag(n)) == n
  {
    Int32Small(Zigzag(n));
  }

  /** A single number survives the JavaScript decoder exactly when its magnitude is below 2^30. */
  lemma JsDecodesExactlySmall(n: int)
    ensures JsSigned(JsValue(Zigzag(n), 0, 0)) == n <==> Fits31(n)
  {
    if Fits31(n) {
      assert Pow2(0) == 1;
      SmallValuesAreExact(Zigzag(n), 0, 0);
      SmallSigned(n);
    } else {
      if n == 0x4000_0000 || n == -0x4000_0000 {
        JsBoundaryFails(n);
      }
    }
  }

  function JsImage(ns: seq<int>): seq<int> {
    seq(|ns|, i requires 0 <= i < |ns| => JsSigned(JsValue(Zigzag(ns[i]), 0, 0)))
  }

  lemma {:induction false} JsDecodesImage(ns: seq<int>)
    ensures JsDecode(EncodeAll(ns)) == Some(JsImage(ns))
  {
    if ns == [] {
      assert JsImage(ns) == [];
    } else {
      JsDecodesImage(ns[1..]);
      JsDecodeChars(Zigzag(ns[0]), EncodeAll(ns[1..]), 0, 0);
      assert JsImage(ns) == [JsSigned(JsValue(Zigzag(ns[0]), 0, 0))] + JsImage(ns[1..]);
      assert EncodeAll(ns) == Chars(Zigzag(ns[0])) + EncodeAll(ns[1..]);
    }
  }

  /** The JavaScript decoder undoes the encoding of a segment exactly when every number in it has
      a magnitude below 2^30; beyond that it and the Python decoder disagree. */
  lemma JsDecodeUndoesEncode(ns: seq<int>)
    ensures JsDecode(EncodeAll(ns)) == Some(ns) <==> forall i :: 0 <= i < |ns| ==> Fits31(ns[i])
  {
    JsDecodesImage(ns);
    forall i | 0 <= i < |ns| ensures JsImage(ns)[i] == ns[i] <==> Fits31(ns[i]) {
      JsDecodesExactlySmall(ns[i]);
    }
    if forall i :: 0 <= i < |ns| ==> Fits31(ns[i]) {
      assert JsImage(ns) == ns;
    }
  }
}
