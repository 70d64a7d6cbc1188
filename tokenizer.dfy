/**
 * The static character-scanning helpers of the scene reader: finding the next
 * delimiter in a C string and converting a `[start, end)` slice of a line
 * with the C library's conversion routines.
 *
 * `atof` and `atoi` are foreign code; they are parameters here, so every
 * statement below holds whatever conversion the C library performs.
 */
module Tokenizer {
  import opened Wrappers

  /** Arithmetic on `unsigned int` is modulo 2^32. */
  const UINT_MODULUS: int := 0x1_0000_0000

  /** The range of a 32-bit `int`, the result type of `atoi`. */
  type Int32 = x: int | -0x8000_0000 <= x < 0x8000_0000

  /** What `std::string::substr` throws when its start position lies past the end of the string. */
  datatype SubstrError = OutOfRange(pos: nat, size: nat)

  function Min(a: int, b: int): int {
    if a <= b then a else b
  }

  /**
   * The character read at index `i` of the C string of `str`: index `|str|`
   * is the terminating NUL that `c_str()` guarantees.
   */
  function CharAt(str: string, i: nat): char
    requires i <= |str|
  {
    if i < |str| then str[i] else '\0'
  }

  /**
   * Where `FindNextChar` stops: the first index after `start` and before
   * `length` that holds `token`, or `length` if there is none; `start`
   * itself when it is already at or past `length`.
   */
  function NextCharIndex(start: nat, str: string, length: nat, token: char): (r: nat)
    requires length <= |str|
    ensures start >= length ==> r == start
    ensures start < length ==> start < r <= length
    ensures r < length ==> str[r] == token
    ensures forall k :: start < k < r ==> str[k] != token
    decreases length - start
  {
    if start >= length then start
    else if CharAt(str, start + 1) == token then start + 1
    else NextCharIndex(start + 1, str, length, token)
  }

  /**
   * The scanning loop: the index is incremented BEFORE the character is
   * compared, so the character at `start` is never examined.
   */
  method FindNextChar(start: nat, str: string, length: nat, token: char) returns (r: nat)
    requires length <= |str|
    ensures r == NextCharIndex(start, str, length, token)
  {
    r := start;
    while r < length
      invariant start <= r
      invariant start < length ==> r <= length
      invariant NextCharIndex(r, str, length, token) == NextCharIndex(start, str, length, token)
    {
      r := r + 1;
      if CharAt(str, r) == token {
        break;
      }
    }
  }

  /**
   * `std::string::substr(pos, count)`: throws when `pos` is past the end,
   * and otherwise yields the at most `count` characters from `pos` on.
   */
  function Substr(s: string, pos: nat, count: nat): (r: Result<string, SubstrError>)
    ensures r.Failure? <==> pos > |s|
    ensures r.Failure? ==> r.error == OutOfRange(pos, |s|)
    ensures r.Success? ==> |r.value| == Min(count, |s| - pos)
    ensures r.Success? ==> forall i :: 0 <= i < |r.value| ==> r.value[i] == s[pos + i]
  {
    if pos > |s| then Failure(OutOfRange(pos, |s|))
    else Success(s[pos..pos + Min(count, |s| - pos)])
  }

  /** The `unsigned int` difference `end - start`, which wraps when `end < start`. */
  function UnsignedDiff(end: nat, start: nat): (d: nat)
    ensures d < UINT_MODULUS
    ensures start <= end < start + UINT_MODULUS ==> d == end - start
    ensures end < start <= end + UINT_MODULUS ==> d == UINT_MODULUS + end - start
  {
    (end - start) % UINT_MODULUS
  }

  /** `atof` applied to the slice `[start, end)` of `token`. */
  function ParseFloatValue(token: string, start: nat, end: nat, atof: string -> real): (r: Result<real, SubstrError>)
    ensures r.Failure? <==> start > |token|
    ensures start <= end <= |token| < UINT_MODULUS ==> r == Success(atof(token[start..end]))
    ensures end < start <= |token| <= UINT_MODULUS ==> r == Success(atof(token[start..]))
  {
    var count := UnsignedDiff(end, start);
    // a wrapped count reaches past the end of the line, so substr stops there
    assert end < start <= |token| <= UINT_MODULUS ==> count >= |token| - start;
    var slice :- Substr(token, start, count);
    assert end < start <= |token| <= UINT_MODULUS ==> slice == token[start..];
    Success(atof(slice))
  }

  /**
   * `atoi` applied to the slice `[start, end)` of `token`, minus one (a
   * one-based index made zero-based), returned as an `unsigned int`.
   */
  function ParseIndexValue(token: string, start: nat, end: nat, atoi: string -> Int32): (r: Result<nat, SubstrError>)
    ensures r.Failure? <==> start > |token|
    ensures r.Success? ==> r.value < UINT_MODULUS
    ensures start <= end <= |token| < UINT_MODULUS && atoi(token[start..end]) >= 1 ==>
              r == Success(atoi(token[start..end]) - 1)
    ensures start <= end <= |token| < UINT_MODULUS && atoi(token[start..end]) <= 0 ==>
              r == Success(atoi(token[start..end]) - 1 + UINT_MODULUS)
  {
    var slice :- Substr(token, start, UnsignedDiff(end, start));
    Success((atoi(slice) - 1) % UINT_MODULUS)
  }
}
