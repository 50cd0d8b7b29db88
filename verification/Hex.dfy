// Lowercase hexadecimal text, as the recorder writes it and validation reads it.
module Hex {
  import opened Options

  predicate IsByte(b: int) { 0 <= b < 256 }

  predicate AllBytes(s: seq<int>) { forall i :: 0 <= i < |s| ==> IsByte(s[i]) }

  const DIGITS: string := "0123456789abcdef"

  function Digit(n: int): char { if 0 <= n < 16 then DIGITS[n] else '0' }

  function Encode(bytes: seq<int>): string {
    if bytes == [] then [] else [Digit(bytes[0] / 16), Digit(bytes[0] % 16)] + Encode(bytes[1..])
  }

  predicate IsHexDigit(c: char) { '0' <= c <= '9' || 'a' <= c <= 'f' }

  function DigitValue(c: char): int {
    if '0' <= c <= '9' then c as int - '0' as int else c as int - 'a' as int + 10
  }

  function Decode(text: string): Option<seq<int>> {
    if |text| % 2 != 0 || (exists i :: 0 <= i < |text| && !IsHexDigit(text[i])) then None else Some(Pairs(text))
  }

  function Pairs(text: string): seq<int> {
    if |text| < 2 then [] else [16 * DigitValue(text[0]) + DigitValue(text[1])] + Pairs(text[2..])
  }

  lemma DigitsInverse(n: int)
    requires 0 <= n < 16
    ensures IsHexDigit(Digit(n)) && DigitValue(Digit(n)) == n
  {
    assert DIGITS[..10] == "0123456789" && DIGITS[10..] == "abcdef";
    if n < 10 { assert DIGITS[n] == "0123456789"[n]; } else { assert DIGITS[n] == "abcdef"[n - 10]; }
  }

  lemma ValuesInverse(c: char)
    requires IsHexDigit(c)
    ensures 0 <= DigitValue(c) < 16 && Digit(DigitValue(c)) == c
  {
    var n := DigitValue(c);
    DigitsInverse(n);
  }

  lemma {:induction false} EncodedDigits(bytes: seq<int>)
    requires AllBytes(bytes)
    ensures |Encode(bytes)| == 2 * |bytes|
    ensures forall i :: 0 <= i < |Encode(bytes)| ==> IsHexDigit(Encode(bytes)[i])
    ensures Pairs(Encode(bytes)) == bytes
    decreases |bytes|
  {
    if bytes != [] {
      var b, rest := bytes[0], bytes[1..];
      assert IsByte(b) && AllBytes(rest);
      EncodedDigits(rest);
      DigitsInverse(b / 16);
      DigitsInverse(b % 16);
      var text := Encode(bytes);
      assert text[2..] == Encode(rest);
      assert forall i :: 2 <= i < |text| ==> text[i] == Encode(rest)[i - 2];
      assert 16 * (b / 16) + b % 16 == b;
      assert bytes == [b] + rest;
    }
  }

  /** The two digits of a byte stand at its place, the high one first. */
  lemma {:induction false} DigitsAt(bytes: seq<int>, k: nat)
    requires AllBytes(bytes) && k < |bytes|
    ensures var text := Encode(bytes);
      && 2 * k + 1 < |text| && IsHexDigit(text[2 * k]) && IsHexDigit(text[2 * k + 1])
      && bytes[k] == 16 * DigitValue(text[2 * k]) + DigitValue(text[2 * k + 1])
    decreases k
  {
    var text, rest := Encode(bytes), bytes[1..];
    EncodedDigits(bytes);
    if k == 0 {
      DigitsInverse(bytes[0] / 16);
      DigitsInverse(bytes[0] % 16);
    } else {
      DigitsAt(rest, k - 1);
      assert text[2..] == Encode(rest);
      assert text[2 * k] == Encode(rest)[2 * k - 2] && text[2 * k + 1] == Encode(rest)[2 * k - 1];
    }
  }

  /** Decoding undoes encoding, for every byte string. */
  lemma RoundTrip(bytes: seq<int>)
    requires AllBytes(bytes)
    ensures Decode(Encode(bytes)) == Some(bytes)
  {
    EncodedDigits(bytes);
  }

  lemma {:induction false} PairsInverse(text: string)
    requires |text| % 2 == 0 && forall i :: 0 <= i < |text| ==> IsHexDigit(text[i])
    ensures AllBytes(Pairs(text)) && Encode(Pairs(text)) == text
    decreases |text|
  {
    if text != [] {
      assert |text| >= 2;
      var rest := text[2..];
      assert forall i :: 0 <= i < |rest| ==> rest[i] == text[i + 2];
      PairsInverse(rest);
      ValuesInverse(text[0]);
      ValuesInverse(text[1]);
      var h, l := DigitValue(text[0]), DigitValue(text[1]);
      assert (16 * h + l) / 16 == h && (16 * h + l) % 16 == l;
      var bytes := Pairs(text);
      assert bytes[0] == 16 * h + l && bytes[1..] == Pairs(rest);
      assert text == [text[0], text[1]] + rest;
    }
  }

  /** And only canonical text decodes: encoding undoes decoding. */
  lemma CanonicalText(text: string)
    requires Decode(text).Some?
    ensures AllBytes(Decode(text).value) && Encode(Decode(text).value) == text
  {
    PairsInverse(text);
  }

  /** Writing and reading the digits one by one, as the recorder and the validator do. */
  method Write(bytes: seq<int>) returns (text: string)
    ensures text == Encode(bytes)
  {
    text := [];
    for i := 0 to |bytes|
      invariant text + Encode(bytes[i..]) == Encode(bytes)
    {
      assert bytes[i..][0] == bytes[i] && bytes[i..][1..] == bytes[i + 1..];
      text := text + [Digit(bytes[i] / 16)] + [Digit(bytes[i] % 16)];
      assert text + Encode(bytes[i + 1..]) == Encode(bytes);
    }
    assert bytes[|bytes|..] == [];
  }
}
