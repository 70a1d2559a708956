/**
 * The JavaScript string operations the client relies on: `String.prototype.trim`,
 * `toLowerCase`, `split(sep)[0]` and `String(n)` for a non-negative integer.
 */
module Text {
  import opened Seqs

  /** JavaScript's WhiteSpace and LineTerminator code points, the ones `trim` strips. */
  predicate IsSpace(c: char) {
    || c == '\t' || c == '\n' || c == '\U{000B}' || c == '\U{000C}' || c == '\r' || c == ' '
    || c == '\U{00A0}' || c == '\U{1680}' || ('\U{2000}' <= c <= '\U{200A}')
    || c == '\U{2028}' || c == '\U{2029}' || c == '\U{202F}' || c == '\U{205F}'
    || c == '\U{3000}' || c == '\U{FEFF}'
  }

  predicate AllSpace(s: string) {
    forall i :: 0 <= i < |s| ==> IsSpace(s[i])
  }

  /** Drops the leading white space. */
  function TrimStart(s: string): (r: string)
    ensures |r| <= |s| && r == s[|s| - |r|..]
    ensures r == [] || !IsSpace(r[0])
    ensures forall i :: 0 <= i < |s| - |r| ==> IsSpace(s[i])
    decreases |s|
  {
    if s != [] && IsSpace(s[0]) then TrimStart(s[1..]) else s
  }

  /** Drops the trailing white space. */
  function TrimEnd(s: string): (r: string)
    ensures |r| <= |s| && r == s[..|r|]
    ensures r == [] || !IsSpace(r[|r| - 1])
    ensures forall i :: |r| <= i < |s| ==> IsSpace(s[i])
    decreases |s|
  {
    if s != [] && IsSpace(s[|s| - 1]) then TrimEnd(s[..|s| - 1]) else s
  }

  /** `r` is the slice of `s` at offset `k`, with only white space before and after it. */
  predicate SliceBetweenSpace(s: string, r: string, k: nat) {
    k + |r| <= |s| && r == s[k..k + |r|] && AllSpace(s[..k]) && AllSpace(s[k + |r|..])
  }

  /** `s.trim()`: the slice of `s` left after removing white space at both ends, which neither starts nor ends with white space. */
  function Trim(s: string): (r: string)
    ensures |r| <= |s|
    ensures r == [] || (!IsSpace(r[0]) && !IsSpace(r[|r| - 1]))
    ensures exists k: nat :: SliceBetweenSpace(s, r, k)
  {
    var t := TrimStart(s);
    TrimIsSlice(s, t, TrimEnd(t));
    TrimEnd(t)
  }

  /** Cutting white space off the front of `s` (giving `t`) and then off the back of `t` (giving `r`) leaves a slice of `s` between white space. */
  lemma TrimIsSlice(s: string, t: string, r: string)
    requires |t| <= |s| && t == s[|s| - |t|..] && forall i :: 0 <= i < |s| - |t| ==> IsSpace(s[i])
    requires |r| <= |t| && r == t[..|r|] && forall i :: |r| <= i < |t| ==> IsSpace(t[i])
    ensures SliceBetweenSpace(s, r, |s| - |t|)
  {
    PrefixOfSuffix(s, t, r);
    SpacePrefix(s, |s| - |t|);
    SpaceSuffix(t, |r|);
  }

  /** A prefix `r` of a suffix `t` of `s` is a slice of `s`, and what follows it in `t` is what follows it in `s`. */
  lemma PrefixOfSuffix<T>(s: seq<T>, t: seq<T>, r: seq<T>)
    requires |t| <= |s| && t == s[|s| - |t|..]
    requires |r| <= |t| && r == t[..|r|]
    ensures r == s[|s| - |t|..|s| - |t| + |r|]
    ensures t[|r|..] == s[|s| - |t| + |r|..]
  {
  }

  lemma SpacePrefix(s: string, k: nat)
    requires k <= |s| && forall i :: 0 <= i < k ==> IsSpace(s[i])
    ensures AllSpace(s[..k])
  {
    var front := s[..k];
    forall i | 0 <= i < |front| ensures IsSpace(front[i]) {
      assert front[i] == s[i];
    }
  }

  lemma SpaceSuffix(s: string, k: nat)
    requires k <= |s| && forall i :: k <= i < |s| ==> IsSpace(s[i])
    ensures AllSpace(s[k..])
  {
    var back := s[k..];
    forall i | 0 <= i < |back| ensures IsSpace(back[i]) {
      assert back[i] == s[k + i];
    }
  }

  /** The head and tail of a concatenation whose front part is non-empty. */
  lemma ConcatTail<T>(a: seq<T>, b: seq<T>)
    requires a != []
    ensures (a + b)[0] == a[0] && (a + b)[1..] == a[1..] + b
  {
  }

  /** The last element and the front of a concatenation whose back part is non-empty. */
  lemma ConcatInit<T>(a: seq<T>, b: seq<T>)
    requires b != []
    ensures (a + b)[|a + b| - 1] == b[|b| - 1] && (a + b)[..|a + b| - 1] == a + b[..|b| - 1]
  {
  }

  lemma {:induction false} TrimStartAfterSpace(pre: string, t: string)
    requires AllSpace(pre)
    ensures TrimStart(pre + t) == TrimStart(t)
    decreases |pre|
  {
    if pre == [] {
      assert pre + t == t;
    } else {
      ConcatTail(pre, t);
      assert AllSpace(pre[1..]) by {
        forall i | 0 <= i < |pre| - 1 ensures IsSpace(pre[1..][i]) {
          assert pre[1..][i] == pre[i + 1];
        }
      }
      TrimStartAfterSpace(pre[1..], t);
    }
  }

  lemma {:induction false} TrimStartBeforeTail(t: string, post: string)
    requires TrimStart(t) != []
    ensures TrimStart(t + post) == TrimStart(t) + post
    decreases |t|
  {
    if IsSpace(t[0]) {
      ConcatTail(t, post);
      TrimStartBeforeTail(t[1..], post);
    } else {
      ConcatTail(t, post);
    }
  }

  lemma {:induction false} TrimEndBeforeSpace(t: string, post: string)
    requires AllSpace(post)
    ensures TrimEnd(t + post) == TrimEnd(t)
    decreases |post|
  {
    if post == [] {
      assert t + post == t;
    } else {
      var k := |post| - 1;
      ConcatInit(t, post);
      assert AllSpace(post[..k]) by {
        forall i | 0 <= i < k ensures IsSpace(post[..k][i]) {
          assert post[..k][i] == post[i];
        }
      }
      TrimEndBeforeSpace(t, post[..k]);
    }
  }

  /** `trim` removes exactly the white space around a string, and nothing inside it. */
  lemma TrimSurrounding(pre: string, mid: string, post: string)
    requires AllSpace(pre) && AllSpace(post)
    ensures Trim(pre + mid + post) == Trim(mid)
  {
    assert pre + mid + post == pre + (mid + post);
    TrimStartAfterSpace(pre, mid + post);
    if TrimStart(mid) != [] {
      TrimStartBeforeTail(mid, post);
      TrimEndBeforeSpace(TrimStart(mid), post);
    } else {
      assert AllSpace(mid);
      TrimStartAfterSpace(mid, post);
      assert post == post + [];
      TrimStartAfterSpace(post, []);
    }
  }

  /** Lower-cases the ASCII letters A-Z and leaves every other character alone. */
  function LowerChar(c: char): (d: char)
    ensures !('A' <= d <= 'Z')
  {
    if 'A' <= c <= 'Z' then (c as int + 32) as char else c
  }

  /** Lower-casing never makes or unmakes white space. */
  lemma LowerCharKeepsSpace(c: char)
    ensures IsSpace(LowerChar(c)) == IsSpace(c)
  {
  }

  /** `s.toLowerCase()`, character by character. */
  function ToLower(s: string): (r: string)
    ensures |r| == |s|
    ensures forall i :: 0 <= i < |s| ==> r[i] == LowerChar(s[i])
  {
    Map(s, LowerChar)
  }

  lemma ToLowerDrop(s: string, n: nat)
    requires n <= |s|
    ensures ToLower(s[n..]) == ToLower(s)[n..]
  {
    MapDrop(s, LowerChar, n);
  }

  lemma ToLowerTake(s: string, n: nat)
    requires n <= |s|
    ensures ToLower(s[..n]) == ToLower(s)[..n]
  {
    MapTake(s, LowerChar, n);
  }

  lemma {:induction false} TrimStartToLower(s: string)
    ensures TrimStart(ToLower(s)) == ToLower(TrimStart(s))
    decreases |s|
  {
    if s != [] && IsSpace(s[0]) {
      LowerStartSpace(s);
      TrimStartToLower(s[1..]);
    } else {
      LowerStartNoSpace(s);
    }
  }

  /** A leading space stays a leading space after lower-casing, and both trims skip it. */
  lemma LowerStartSpace(s: string)
    requires s != [] && IsSpace(s[0])
    ensures TrimStart(ToLower(s)) == TrimStart(ToLower(s[1..]))
  {
    var l := ToLower(s);
    LowerCharKeepsSpace(s[0]);
    assert TrimStart(l) == TrimStart(l[1..]);
    ToLowerDrop(s, 1);
  }

  lemma LowerStartNoSpace(s: string)
    requires s == [] || !IsSpace(s[0])
    ensures TrimStart(ToLower(s)) == ToLower(s) && TrimStart(s) == s
  {
    if s != [] {
      LowerCharKeepsSpace(s[0]);
    }
  }

  lemma {:induction false} TrimEndToLower(s: string)
    ensures TrimEnd(ToLower(s)) == ToLower(TrimEnd(s))
    decreases |s|
  {
    if s != [] && IsSpace(s[|s| - 1]) {
      LowerEndSpace(s);
      TrimEndToLower(s[..|s| - 1]);
    } else {
      LowerEndNoSpace(s);
    }
  }

  /** A trailing space stays a trailing space after lower-casing, and both trims drop it. */
  lemma LowerEndSpace(s: string)
    requires s != [] && IsSpace(s[|s| - 1])
    ensures TrimEnd(ToLower(s)) == TrimEnd(ToLower(s[..|s| - 1]))
  {
    var n := |s| - 1;
    var l := ToLower(s);
    LowerCharKeepsSpace(s[n]);
    assert TrimEnd(l) == TrimEnd(l[..n]);
    ToLowerTake(s, n);
  }

  lemma LowerEndNoSpace(s: string)
    requires s == [] || !IsSpace(s[|s| - 1])
    ensures TrimEnd(ToLower(s)) == ToLower(s) && TrimEnd(s) == s
  {
    if s != [] {
      LowerCharKeepsSpace(s[|s| - 1]);
    }
  }

  /** Trimming and lower-casing commute, since lower-casing never makes or unmakes white space. */
  lemma TrimToLower(s: string)
    ensures Trim(ToLower(s)) == ToLower(Trim(s))
  {
    TrimStartToLower(s);
    TrimEndToLower(TrimStart(s));
  }

  /** `s.split(sep)[0]`: the part of `s` before the first `sep`, or all of `s` when there is none. */
  function BeforeFirst(s: string, sep: char): (r: string)
    ensures |r| <= |s| && r == s[..|r|]
    ensures sep !in r
    ensures |r| < |s| ==> s[|r|] == sep
  {
    if s == [] || s[0] == sep then [] else [s[0]] + BeforeFirst(s[1..], sep)
  }

  /** The date part of an ISO-8601 timestamp, `iso.split('T')[0]`. */
  function DateOf(iso: string): (r: string)
    ensures |r| <= |iso| && r == iso[..|r|]
    ensures 'T' !in r
    ensures |r| < |iso| ==> iso[|r|] == 'T'
  {
    BeforeFirst(iso, 'T')
  }

  predicate IsDigit(c: char) {
    '0' <= c <= '9'
  }

  function DigitChar(d: nat): (c: char)
    requires d < 10
    ensures IsDigit(c)
  {
    ('0' as int + d) as char
  }

  function DigitValue(c: char): (d: nat)
    requires IsDigit(c)
    ensures d < 10 && DigitChar(d) == c
  {
    c as int - '0' as int
  }

  /** `String(n)` for a non-negative integer: its decimal digits, without leading zeros. */
  function NatToDecimal(n: nat): (r: string)
    ensures |r| >= 1
    ensures forall i :: 0 <= i < |r| ==> IsDigit(r[i])
    ensures r[0] == '0' ==> n == 0
    decreases n
  {
    if n < 10 then [DigitChar(n)] else NatToDecimal(n / 10) + [DigitChar(n % 10)]
  }

  /** The number a string of decimal digits denotes. */
  function DecimalValue(s: string): nat
    requires forall i :: 0 <= i < |s| ==> IsDigit(s[i])
    decreases |s|
  {
    if s == [] then 0 else DecimalValue(s[..|s| - 1]) * 10 + DigitValue(s[|s| - 1])
  }

  /** Reading back the digits `String(n)` writes gives `n`. */
  lemma {:induction false} DecimalRoundTrip(n: nat)
    ensures DecimalValue(NatToDecimal(n)) == n
    decreases n
  {
    var r := NatToDecimal(n);
    if n < 10 {
      assert r[..0] == [];
    } else {
      DecimalRoundTrip(n / 10);
      assert r[..|r| - 1] == NatToDecimal(n / 10);
    }
  }

  /** Distinct numbers give distinct strings. */
  lemma NatToDecimalInjective(m: nat, n: nat)
    ensures NatToDecimal(m) == NatToDecimal(n) <==> m == n
  {
    if NatToDecimal(m) == NatToDecimal(n) {
      DecimalRoundTrip(m);
      DecimalRoundTrip(n);
    }
  }
}
