/**
 * Digit characters and keypad keys.
 *
 * The game keeps both the secret and the player's entry as arrays of
 * one-character strings ("0" .. "9"), and compares them with `join('')`.
 * A keypad key is therefore a `string`; the blank slots hold "".
 */
module Digits {

  predicate IsDigitChar(c: char) {
    '0' <= c <= '9'
  }

  predicate AllDigits(s: string) {
    forall k :: 0 <= k < |s| ==> IsDigitChar(s[k])
  }

  /** A key that types a digit: a one-character string holding a digit. */
  predicate IsDigitKey(key: string) {
    |key| == 1 && IsDigitChar(key[0])
  }

  predicate AllDigitKeys(keys: seq<string>) {
    forall k :: 0 <= k < |keys| ==> IsDigitKey(keys[k])
  }

  /** The key for the number d, as `d.toString()` renders it. */
  function DigitKey(d: nat): (key: string)
    requires d < 10
    ensures IsDigitKey(key)
    ensures key[0] as int - '0' as int == d
  {
    [('0' as int + d) as char]
  }

  /**
   * `value.replace(/[^0-9]/g, '')`: the digits of s, in order.
   */
  function FilterDigits(s: string): (r: string)
    ensures AllDigits(r)
    ensures |r| <= |s|
    ensures r == s <==> AllDigits(s)
    ensures forall c :: c in r <==> c in s && IsDigitChar(c)
    ensures forall c :: multiset(r)[c] == if IsDigitChar(c) then multiset(s)[c] else 0
  {
    if s == [] then []
    else
      assert s == [s[0]] + s[1..];
      if IsDigitChar(s[0]) then [s[0]] + FilterDigits(s[1..])
      else FilterDigits(s[1..])
  }

  /** A single character is kept when it is a digit and dropped otherwise. */
  lemma FilterDigitsChar(c: char)
    ensures FilterDigits([c]) == if IsDigitChar(c) then [c] else []
  {
  }

  /**
   * The filter works character by character: filtering a concatenation
   * filters each part, so the digits keep their order.
   */
  lemma {:induction false} FilterDigitsAppend(a: string, b: string)
    ensures FilterDigits(a + b) == FilterDigits(a) + FilterDigits(b)
  {
    if a == [] {
      assert a + b == b;
    } else {
      assert (a + b)[0] == a[0];
      assert (a + b)[1..] == a[1..] + b;
      FilterDigitsAppend(a[1..], b);
    }
  }

  /** `keys.join('')`: for digit keys, a digit string with one character per key. */
  function Join(keys: seq<string>): (s: string)
    ensures AllDigitKeys(keys) ==> |s| == |keys| && AllDigits(s)
  {
    if keys == [] then [] else keys[0] + Join(keys[1..])
  }

  /** `s.split('')`: one one-character string per character. */
  function Split(s: string): (keys: seq<string>)
    ensures |keys| == |s|
    ensures forall k :: 0 <= k < |s| ==> keys[k] == [s[k]]
    ensures AllDigits(s) ==> AllDigitKeys(keys)
  {
    seq(|s|, k requires 0 <= k < |s| => [s[k]])
  }

  /** Joining digit keys spells one character per key. */
  lemma {:induction false} JoinOfDigitKeys(keys: seq<string>)
    requires AllDigitKeys(keys)
    ensures |Join(keys)| == |keys|
    ensures forall k :: 0 <= k < |keys| ==> Join(keys)[k] == keys[k][0]
  {
    if keys != [] {
      JoinOfDigitKeys(keys[1..]);
      assert forall k :: 1 <= k < |keys| ==> Join(keys)[k] == Join(keys[1..])[k - 1];
    }
  }

  /**
   * For digit keys, comparing the joined strings is the same as comparing
   * the arrays element by element.
   */
  lemma JoinDigitKeysInjective(a: seq<string>, b: seq<string>)
    requires AllDigitKeys(a) && AllDigitKeys(b)
    ensures Join(a) == Join(b) <==> a == b
  {
    if Join(a) == Join(b) {
      JoinOfDigitKeys(a);
      JoinOfDigitKeys(b);
      forall k | 0 <= k < |a| ensures a[k] == b[k] {
        assert a[k][0] == Join(a)[k] == b[k][0];
      }
    }
  }

  /** Splitting a string into characters and joining them again gives it back. */
  lemma {:induction false} JoinSplit(s: string)
    ensures Join(Split(s)) == s
  {
    if s != [] {
      assert Split(s)[1..] == Split(s[1..]);
      JoinSplit(s[1..]);
    }
  }
}
