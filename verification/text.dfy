/**
 * String operations used by the three layers, written out the way Python's
 * str methods behave: strip(), find/`in`, replace(), split()/join(), and the
 * decimal and zero-padded renderings of `f"{n}"` and `f"{n:03d}"`.
 */
module Text {
  import opened Wrappers

  /** Python's str.isspace() for a single character. */
  predicate IsSpace(c: char) {
    || c == ' '
    || ('\t' <= c <= '\r')
    || ('\U{1C}' <= c <= '\U{1F}')
    || c == '\U{85}' || c == '\U{A0}' || c == '\U{1680}'
    || ('\U{2000}' <= c <= '\U{200A}')
    || c == '\U{2028}' || c == '\U{2029}' || c == '\U{202F}' || c == '\U{205F}'
    || c == '\U{3000}'
  }

  /** A string that strip() leaves unchanged: empty, or no whitespace at either end. */
  predicate IsStripped(s: string) {
    s == [] || (!IsSpace(s[0]) && !IsSpace(s[|s| - 1]))
  }

  function LeadingSpaces(s: string): (n: nat)
    ensures n <= |s|
    ensures forall k :: 0 <= k < n ==> IsSpace(s[k])
    ensures n < |s| ==> !IsSpace(s[n])
  {
    if s != [] && IsSpace(s[0]) then 1 + LeadingSpaces(s[1..]) else 0
  }

  function TrailingSpaces(s: string): (n: nat)
    ensures n <= |s|
    ensures forall k :: |s| - n <= k < |s| ==> IsSpace(s[k])
    ensures n < |s| ==> !IsSpace(s[|s| - n - 1])
  {
    if s != [] && IsSpace(s[|s| - 1]) then 1 + TrailingSpaces(s[..|s| - 1]) else 0
  }

  /** Python's str.strip(): `s` without the whitespace at either end. */
  function Strip(s: string): (r: string)
    ensures IsStripped(r)
  {
    var t := s[LeadingSpaces(s)..];
    t[..|t| - TrailingSpaces(t)]
  }

  lemma StripOfStripped(s: string)
    requires IsStripped(s)
    ensures Strip(s) == s
  {
  }

  /** `p` occurs in `s` starting at index `i`. */
  predicate OccursAt(s: string, p: string, i: nat) {
    i + |p| <= |s| && s[i..i + |p|] == p
  }

  predicate IsPrefix(p: string, s: string) {
    |p| <= |s| && s[..|p|] == p
  }

  /** The first index at or after `from` where `p` occurs in `s` (str.find with a start). */
  function IndexOfFrom(s: string, p: string, from: nat): (r: Option<nat>)
    decreases |s| - from
    ensures r.Some? ==> from <= r.value && OccursAt(s, p, r.value)
    ensures r.Some? ==> forall k :: from <= k < r.value ==> !OccursAt(s, p, k)
    ensures r.None? ==> forall k :: from <= k ==> !OccursAt(s, p, k)
  {
    if from + |p| > |s| then None
    else if OccursAt(s, p, from) then Some(from)
    else IndexOfFrom(s, p, from + 1)
  }

  /** Python's `p in s`. */
  function Contains(s: string, p: string): (r: bool)
    ensures r <==> exists k :: OccursAt(s, p, k)
  {
    IndexOfFrom(s, p, 0).Some?
  }

  /** Python's s.replace(p, r) for a non-empty `p`: every non-overlapping occurrence, left to right. */
  function Replace(s: string, p: string, r: string): string
    requires p != []
    decreases |s|
  {
    if |s| < |p| then s
    else if s[..|p|] == p then r + Replace(s[|p|..], p, r)
    else [s[0]] + Replace(s[1..], p, r)
  }

  /** Python's s.split(p) for a non-empty `p`. */
  function Split(s: string, p: string): (parts: seq<string>)
    requires p != []
    ensures |parts| >= 1
    decreases |s|
  {
    if |s| < |p| then [s]
    else if s[..|p|] == p then [[]] + Split(s[|p|..], p)
    else
      var t := Split(s[1..], p);
      [[s[0]] + t[0]] + t[1..]
  }

  /** Python's sep.join(parts). */
  function Join(parts: seq<string>, sep: string): string
  {
    if parts == [] then []
    else if |parts| == 1 then parts[0]
    else parts[0] + sep + Join(parts[1..], sep)
  }

  /** Python's "".join(parts). */
  function Concat(parts: seq<string>): string
  {
    if parts == [] then [] else parts[0] + Concat(parts[1..])
  }

  lemma JoinPrependToHead(c: string, parts: seq<string>, sep: string)
    requires |parts| >= 1
    ensures Join([c + parts[0]] + parts[1..], sep) == c + Join(parts, sep)
  {
    var q := [c + parts[0]] + parts[1..];
    assert q[1..] == parts[1..];
  }

  lemma {:induction false} SplitHeadIsPrefix(s: string, p: string)
    requires p != []
    ensures IsPrefix(Split(s, p)[0], s)
    decreases |s|
  {
    if |s| < |p| {
    } else if s[..|p|] == p {
    } else {
      SplitHeadIsPrefix(s[1..], p);
    }
  }

  /** replace() is join() over split(): Python's `s.replace(p, r) == r.join(s.split(p))`. */
  lemma {:induction false} ReplaceIsJoinOfSplit(s: string, p: string, r: string)
    requires p != []
    ensures Replace(s, p, r) == Join(Split(s, p), r)
    decreases |s|
  {
    if |s| < |p| {
    } else if s[..|p|] == p {
      ReplaceIsJoinOfSplit(s[|p|..], p, r);
      var t := Split(s[|p|..], p);
      assert ([[]] + t)[1..] == t;
    } else {
      ReplaceIsJoinOfSplit(s[1..], p, r);
      JoinPrependToHead([s[0]], Split(s[1..], p), r);
    }
  }

  lemma {:induction false} ReplaceWithItself(s: string, p: string)
    requires p != []
    ensures Replace(s, p, p) == s
    decreases |s|
  {
    if |s| < |p| {
    } else if s[..|p|] == p {
      ReplaceWithItself(s[|p|..], p);
      assert s == s[..|p|] + s[|p|..];
    } else {
      ReplaceWithItself(s[1..], p);
      assert s == [s[0]] + s[1..];
    }
  }

  /** Joining the pieces back with the separator gives the original string. */
  lemma SplitJoinRoundTrip(s: string, p: string)
    requires p != []
    ensures Join(Split(s, p), p) == s
  {
    ReplaceIsJoinOfSplit(s, p, p);
    ReplaceWithItself(s, p);
  }

  /** No piece of a split still contains the separator. */
  lemma {:induction false} SplitPiecesAreFree(s: string, p: string)
    requires p != []
    ensures forall i :: 0 <= i < |Split(s, p)| ==> !Contains(Split(s, p)[i], p)
    decreases |s|
  {
    if |s| < |p| {
      forall k: nat ensures !OccursAt(s, p, k) { }
    } else if s[..|p|] == p {
      SplitPiecesAreFree(s[|p|..], p);
      var t := Split(s[|p|..], p);
      assert Split(s, p) == [[]] + t;
      forall i | 0 <= i < |Split(s, p)| ensures !Contains(Split(s, p)[i], p) {
        if i == 0 {
          forall k: nat ensures !OccursAt([], p, k) { }
        } else {
          assert Split(s, p)[i] == t[i - 1];
        }
      }
    } else {
      SplitPiecesAreFree(s[1..], p);
      SplitHeadIsPrefix(s[1..], p);
      var t := Split(s[1..], p);
      var h := [s[0]] + t[0];
      assert Split(s, p) == [h] + t[1..];
      forall k: nat ensures !OccursAt(h, p, k) {
        if k == 0 {
          if |p| <= |h| {
            assert h[..|p|] == s[..|p|];
          }
        } else if k - 1 + |p| <= |t[0]| {
          assert t[0][k - 1..k - 1 + |p|] == h[k..k + |p|];
          assert !OccursAt(t[0], p, k - 1);
        }
      }
      forall i | 0 <= i < |Split(s, p)| ensures !Contains(Split(s, p)[i], p) {
        if i > 0 {
          assert Split(s, p)[i] == t[i];
        }
      }
    }
  }

  /** A one-character separator absent from `a`: `a` is the first piece. */
  lemma {:induction false} SplitAtFirstChar(a: string, c: char, b: string)
    requires c !in a
    ensures Split(a + [c] + b, [c]) == [a] + Split(b, [c])
    decreases |a|
  {
    var s := a + [c] + b;
    if a == [] {
      assert s[..1] == [c];
      assert s[1..] == b;
    } else {
      SplitAtFirstChar(a[1..], c, b);
      assert a[0] in a;
      assert s[..1] == [a[0]] && s[..1] != [c];
      assert s[1..] == a[1..] + [c] + b;
      assert [a[0]] + a[1..] == a;
    }
  }

  /** A string without the separator character splits into itself alone. */
  lemma {:induction false} SplitWithoutChar(a: string, c: char)
    requires c !in a
    ensures Split(a, [c]) == [a]
    decreases |a|
  {
    if a != [] {
      SplitWithoutChar(a[1..], c);
      assert a[0] in a;
      assert a[..1] == [a[0]] && a[..1] != [c];
      assert [a[0]] + a[1..] == a;
    }
  }

  /** Splitting a join on a character none of the parts contains gives the parts back. */
  lemma {:induction false} SplitJoinInverse(parts: seq<string>, c: char)
    requires parts != []
    requires forall i :: 0 <= i < |parts| ==> c !in parts[i]
    ensures Split(Join(parts, [c]), [c]) == parts
  {
    if |parts| == 1 {
      SplitWithoutChar(parts[0], c);
    } else {
      SplitJoinInverse(parts[1..], c);
      SplitAtFirstChar(parts[0], c, Join(parts[1..], [c]));
    }
  }

  /** A string without the pattern is returned unchanged by replace(). */
  lemma ReplaceAbsent(s: string, p: string, r: string)
    requires p != [] && !Contains(s, p)
    ensures Replace(s, p, r) == s
  {
    ReplaceIsJoinOfSplit(s, p, r);
    SplitJoinRoundTrip(s, p);
    SplitPiecesAreFree(s, p);
    var parts := Split(s, p);
    if |parts| > 1 {
      // the separator sits inside the original string after the first piece
      assert s == parts[0] + p + Join(parts[1..], p);
      assert OccursAt(s, p, |parts[0]|) by {
        assert s[|parts[0]|..|parts[0]| + |p|] == p;
      }
    }
  }

  predicate IsDigit(c: char) {
    '0' <= c <= '9'
  }

  predicate AllDigits(s: string) {
    forall k :: 0 <= k < |s| ==> IsDigit(s[k])
  }

  function DigitChar(d: nat): (c: char)
    requires d < 10
    ensures IsDigit(c) && c as int - '0' as int == d
  {
    ('0' as int + d) as char
  }

  /** Python's f"{n}" for a non-negative integer. */
  function Decimal(n: nat): (r: string)
    ensures |r| >= 1 && AllDigits(r)
  {
    if n < 10 then [DigitChar(n)] else Decimal(n / 10) + [DigitChar(n % 10)]
  }

  /** The value of a string of decimal digits (int(s) for digit strings; 0 for the empty one). */
  function ParseDecimal(s: string): nat
    requires AllDigits(s)
  {
    if s == [] then 0 else ParseDecimal(s[..|s| - 1]) * 10 + (s[|s| - 1] as int - '0' as int)
  }

  lemma {:induction false} DecimalRoundTrip(n: nat)
    ensures ParseDecimal(Decimal(n)) == n
  {
    if n >= 10 {
      DecimalRoundTrip(n / 10);
      var s := Decimal(n / 10) + [DigitChar(n % 10)];
      assert s[..|s| - 1] == Decimal(n / 10);
    }
  }

  /** `n` copies of '0'. */
  function Zeros(n: nat): (r: string)
    ensures |r| == n && forall k :: 0 <= k < n ==> r[k] == '0'
  {
    seq(n, _ => '0')
  }

  /** Left-pads with '0' up to `width` characters (the `0w` in Python's `f"{n:0wd}"`). */
  function ZeroPad(s: string, width: nat): (r: string)
    ensures |r| == if |s| >= width then |s| else width
    ensures r[|r| - |s|..] == s
    ensures forall k :: 0 <= k < |r| - |s| ==> r[k] == '0'
  {
    if |s| >= width then s else Zeros(width - |s|) + s
  }

  lemma {:induction false} LeadingZeroValue(s: string)
    requires AllDigits(s)
    ensures ParseDecimal(['0'] + s) == ParseDecimal(s)
    decreases |s|
  {
    if s != [] {
      var t := ['0'] + s;
      assert t[..|t| - 1] == ['0'] + s[..|s| - 1];
      LeadingZeroValue(s[..|s| - 1]);
    }
  }

  lemma {:induction false} ZerosValue(n: nat, s: string)
    requires AllDigits(s)
    ensures AllDigits(Zeros(n) + s) && ParseDecimal(Zeros(n) + s) == ParseDecimal(s)
  {
    if n > 0 {
      ZerosValue(n - 1, s);
      assert Zeros(n) + s == ['0'] + (Zeros(n - 1) + s);
      LeadingZeroValue(Zeros(n - 1) + s);
    } else {
      assert Zeros(n) + s == s;
    }
  }

  /** Zero padding keeps the digits and their value. */
  lemma ZeroPadValue(s: string, width: nat)
    requires AllDigits(s)
    ensures AllDigits(ZeroPad(s, width)) && ParseDecimal(ZeroPad(s, width)) == ParseDecimal(s)
  {
    if |s| < width {
      ZerosValue(width - |s|, s);
    }
  }
}
