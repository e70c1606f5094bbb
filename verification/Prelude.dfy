/** Small shared vocabulary. */
module Prelude {

  /** An optional value: Go's `(value, ok)` pair or nilable pointer. */
  datatype Option<+T> = None | Some(value: T)

  /** One more than the greatest 32-bit value. */
  const WORD: nat := 0x1_0000_0000

  /** One second in nanoseconds. */
  const SECOND: int := 1_000_000_000

  type Byte = b: int | 0 <= b < 256

  function Max(a: int, b: int): int { if a < b then b else a }

  function Min(a: int, b: int): int { if a < b then a else b }

  function LowerChar(c: char): char { if 'A' <= c <= 'Z' then c - 'A' + 'a' else c }

  /** Lower case, on ASCII letters; equality of lower-cased strings stands for case-insensitive equality. */
  function ToLower(s: string): string { seq(|s|, i requires 0 <= i < |s| => LowerChar(s[i])) }

  /** The same character, or the same ASCII letter in two cases. */
  predicate SameLetter(c: char, d: char) {
    || c == d
    || ('A' <= c <= 'Z' && d as int == c as int + 32)
    || ('A' <= d <= 'Z' && c as int == d as int + 32)
  }

  /** Equal letter by letter, in whatever case. */
  predicate EqualFold(s: string, t: string) { |s| == |t| && forall k | 0 <= k < |s| :: SameLetter(s[k], t[k]) }

  lemma LowerCharMeaning(c: char, d: char)
    ensures LowerChar(c) == LowerChar(d) <==> SameLetter(c, d)
  {
  }

  /** Strings are equal in lower case exactly when they are equal letter by letter. */
  lemma ToLowerMeaning(s: string, t: string)
    ensures ToLower(s) == ToLower(t) <==> EqualFold(s, t)
  {
    if |s| == |t| {
      forall k | 0 <= k < |s| ensures ToLower(s)[k] == ToLower(t)[k] <==> SameLetter(s[k], t[k]) {
        LowerCharMeaning(s[k], t[k]);
      }
      if EqualFold(s, t) {
        assert forall k | 0 <= k < |s| :: ToLower(s)[k] == ToLower(t)[k];
      }
    } else {
      assert |ToLower(s)| != |ToLower(t)|;
    }
  }

  predicate HasSuffix(s: string, t: string) { |t| <= |s| && s[|s| - |t|..] == t }

  /** Taking one entry off a map takes at most that entry's value off its values. */
  lemma ValuesWithout<K, V>(m: map<K, V>, k: K)
    requires k in m
    ensures m.Values == (m - {k}).Values + {m[k]}
  {
    forall v | v in m.Values ensures v in (m - {k}).Values + {m[k]} {
      var j :| j in m && m[j] == v;
      assert j == k || (j in m - {k} && (m - {k})[j] == v);
    }
  }
}
