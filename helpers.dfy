/**
 * Two small loops of functions.user.js over the UTF-16 code units of a string: `str2len`
 * (functions.user.js:415-426), a display-width estimate that counts a code unit above 255
 * twice, and the body of `Promise.prototype.response2array` (functions.user.js:355-371),
 * which turns a response text into bytes.
 */
module Helpers {
  import opened Wrappers
  import opened JsText

  type Byte = x: int | 0 <= x < 0x100

  /** Code units above 255 (CJK text in practice) take two columns. */
  predicate IsWide(c: CodeUnit)
  {
    c > 255
  }

  /** How many code units of `s` are wide. */
  function WideCount(s: seq<CodeUnit>): (n: nat)
    ensures n <= |s|
  {
    if s == [] then 0
    else WideCount(s[..|s| - 1]) + (if IsWide(s[|s| - 1]) then 1 else 0)
  }

  /**
   * `str2len(str)`: one per code unit, one more for each code unit above 255. The result
   * lies between the length and twice the length.
   */
  method Str2Len(s: seq<CodeUnit>) returns (n: nat)
    ensures n == |s| + WideCount(s)
    ensures |s| <= n <= 2 * |s|
  {
    n := 0;
    for i := 0 to |s|
      invariant n == i + WideCount(s[..i])
    {
      assert s[..i + 1][..i] == s[..i];
      if s[i] > 255 {
        n := n + 2;
      } else {
        n := n + 1;
      }
    }
    assert s[..|s|] == s;
  }

  /** The count of a concatenation is the sum of the counts. */
  lemma {:induction false} WideCountConcat(a: seq<CodeUnit>, b: seq<CodeUnit>)
    ensures WideCount(a + b) == WideCount(a) + WideCount(b)
    decreases |b|
  {
    if b == [] {
      assert a + b == a;
    } else {
      var b' := b[..|b| - 1];
      assert (a + b)[..|a + b| - 1] == a + b';
      WideCountConcat(a, b');
    }
  }

  /** The estimate is the length exactly when no code unit is above 255. */
  lemma {:induction false} NarrowIffLength(s: seq<CodeUnit>)
    ensures WideCount(s) == 0 <==> forall k :: 0 <= k < |s| ==> s[k] <= 255
  {
    if s != [] {
      var t := s[..|s| - 1];
      NarrowIffLength(t);
      assert forall k :: 0 <= k < |t| ==> t[k] == s[k];
    }
  }

  /** The estimate is twice the length exactly when every code unit is above 255. */
  lemma {:induction false} WideIffDouble(s: seq<CodeUnit>)
    ensures WideCount(s) == |s| <==> forall k :: 0 <= k < |s| ==> s[k] > 255
  {
    if s != [] {
      var t := s[..|s| - 1];
      WideIffDouble(t);
      assert forall k :: 0 <= k < |t| ==> t[k] == s[k];
    }
  }

  /** The message the promise rejects with when the response has no text. */
  const NoResponseText := "response translating Uint8Array failed."

  /**
   * Storing a code unit into a `Uint8Array` keeps its low eight bits: a code unit below 256
   * is stored as it is, and any other differs from the stored byte by a multiple of 256.
   */
  function ToUint8(c: CodeUnit): (b: Byte)
    ensures c < 0x100 ==> b == c
    ensures exists q :: 0 <= q < 0x100 && c == 0x100 * q + b
    ensures b == c % 0x100
  {
    var q := c / 0x100;
    assert 0 <= q < 0x100 && c == 0x100 * q + c % 0x100;
    c % 0x100
  }

  /**
   * The callback of `response2array`: an empty (or missing) `responseText` is an error;
   * otherwise a `Uint8Array` of the same length is filled, slot by slot, with the low byte
   * of each code unit.
   */
  method ResponseToBytes(text: seq<CodeUnit>) returns (r: Result<seq<Byte>, string>)
    ensures text == [] ==> r == Failure(NoResponseText)
    ensures text != [] ==> r.Success? && |r.value| == |text|
    ensures r.Success? ==> forall k :: 0 <= k < |text| ==> r.value[k] == text[k] % 0x100
  {
    if text == [] {
      return Failure(NoResponseText);
    }
    var data := new Byte[|text|];
    var index := 0;
    while index < |text|
      invariant 0 <= index <= |text|
      invariant forall k :: 0 <= k < index ==> data[k] == text[k] % 0x100
    {
      data[index] := ToUint8(text[index]);
      index := index + 1;
    }
    return Success(data[..]);
  }

  /**
   * The `x-user-defined` decoder of the WHATWG Encoding Standard, the charset a response is
   * fetched with when its bytes are wanted back: bytes below 0x80 map to themselves, the
   * others to U+F780..U+F7FF.
   */
  function XUserDefined(bytes: seq<Byte>): (text: seq<CodeUnit>)
    ensures |text| == |bytes|
    ensures forall k :: 0 <= k < |bytes| ==> text[k] == if bytes[k] < 0x80 then bytes[k] as int else 0xF700 + bytes[k] as int
  {
    seq(|bytes|, k requires 0 <= k < |bytes| => if bytes[k] < 0x80 then bytes[k] as CodeUnit else (0xF700 + bytes[k] as int) as CodeUnit)
  }

  /** Reading a non-empty `x-user-defined` text back through the byte loop gives the bytes. */
  method BytesRoundTrip(bytes: seq<Byte>) returns (r: Result<seq<Byte>, string>)
    requires bytes != []
    ensures r == Success(bytes)
  {
    r := ResponseToBytes(XUserDefined(bytes));
    assert r.value == bytes;
  }
}
