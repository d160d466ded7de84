/** The fragments of Python's built-in string and list behaviour that the
    client relies on: `str.split` with a non-empty separator, `str.join`,
    `str(int)`, `str(bool).lower()`, list indexing and `[:n]` slicing. */
module Builtins {
  import opened Wrappers

  // ---------------------------------------------------------------- lists

  /** `s[i]` for a non-negative index: an IndexError past the end. */
  function At<T>(s: seq<T>, i: nat): (r: Result<T, PyError>)
    ensures r.Success? <==> i < |s|
    ensures r.Success? ==> r.value == s[i]
    ensures r.Failure? ==> r.error == IndexError
  {
    if i < |s| then Success(s[i]) else Failure(IndexError)
  }

  /** `s[:n]`: the first n elements, or all of them when there are fewer. */
  function Take<T>(s: seq<T>, n: nat): (r: seq<T>)
    ensures |r| == if n <= |s| then n else |s|
    ensures r <= s
  {
    if n <= |s| then s[..n] else s
  }

  // ------------------------------------------------------ substring search

  /** `sep` occurs in `s` starting at position `i`. */
  predicate OccursAt(s: string, sep: string, i: nat) {
    i + |sep| <= |s| && s[i..i + |sep|] == sep
  }

  /** `sep in s` */
  predicate Contains(s: string, sep: string) {
    exists i | 0 <= i <= |s| :: OccursAt(s, sep, i)
  }

  /** `sep` occurs at `i` and nowhere before it. */
  predicate FirstAt(s: string, sep: string, i: nat) {
    OccursAt(s, sep, i) && forall j | 0 <= j < i :: !OccursAt(s, sep, j)
  }

  /** The first occurrence of `sep` in `s` at or after `from`. */
  function IndexOf(s: string, sep: string, from: nat): (r: Option<nat>)
    requires from <= |s|
    ensures r.Some? ==> from <= r.value && OccursAt(s, sep, r.value)
    ensures r.Some? ==> forall j | from <= j < r.value :: !OccursAt(s, sep, j)
    ensures r.None? ==> forall j | from <= j <= |s| :: !OccursAt(s, sep, j)
    decreases |s| - from
  {
    if from + |sep| > |s| then None
    else if s[from..from + |sep|] == sep then Some(from)
    else IndexOf(s, sep, from + 1)
  }

  /** Occurrences in a suffix are occurrences in the whole string, shifted. */
  lemma OccursInSuffix(s: string, sep: string, k: nat, j: nat)
    requires k <= |s|
    ensures OccursAt(s[k..], sep, j) <==> OccursAt(s, sep, k + j)
  {
    if k + j + |sep| <= |s| {
      assert s[k..][j..j + |sep|] == s[k + j..k + j + |sep|];
    }
  }

  /** For a one-character separator an occurrence is just that character. */
  lemma OccursAtChar(s: string, c: char, i: nat)
    ensures OccursAt(s, [c], i) <==> i < |s| && s[i] == c
  {
    if i < |s| {
      assert s[i..i + 1] == [s[i]];
    }
  }

  lemma ContainsChar(s: string, c: char)
    ensures Contains(s, [c]) <==> c in s
  {
    if c in s {
      var i :| 0 <= i < |s| && s[i] == c;
      OccursAtChar(s, c, i);
    }
    if Contains(s, [c]) {
      var i :| 0 <= i <= |s| && OccursAt(s, [c], i);
      OccursAtChar(s, c, i);
    }
  }

  // -------------------------------------------------------- split and join

  /** `s.split(sep)` for a non-empty separator: the pieces between
      non-overlapping occurrences found left to right; empty pieces are kept. */
  function Split(s: string, sep: string): (parts: seq<string>)
    requires |sep| > 0
    ensures |parts| >= 1
    decreases |s|
  {
    match IndexOf(s, sep, 0)
    case None => [s]
    case Some(i) => [s[..i]] + Split(s[i + |sep|..], sep)
  }

  /** `sep.join(parts)` */
  function Join(parts: seq<string>, sep: string): string
  {
    if |parts| == 0 then ""
    else if |parts| == 1 then parts[0]
    else parts[0] + sep + Join(parts[1..], sep)
  }

  /** Joining the pieces of a split with the same separator gives back the
      original string. */
  lemma {:induction false} JoinSplit(s: string, sep: string)
    requires |sep| > 0
    ensures Join(Split(s, sep), sep) == s
    decreases |s|
  {
    match IndexOf(s, sep, 0)
    case None =>
    case Some(i) =>
      var rest := s[i + |sep|..];
      var parts := Split(s, sep);
      assert parts == [s[..i]] + Split(rest, sep);
      assert parts[1..] == Split(rest, sep);
      JoinSplit(rest, sep);
      assert Join(parts, sep) == s[..i] + sep + rest;
      assert s[i..i + |sep|] == sep;
      SliceThree(s, i, i + |sep|);
  }

  /** A string is its three slices at `i` and `j` put back together. */
  lemma SliceThree(s: string, i: nat, j: nat)
    requires i <= j <= |s|
    ensures s == s[..i] + s[i..j] + s[j..]
  {
    assert s[..i] + s[i..j] == s[..j];
    assert s[..j] + s[j..] == s;
  }

  /** The first piece of a split is everything before the first occurrence
      of the separator, or the whole string when there is none. */
  lemma SplitHead(s: string, sep: string)
    requires |sep| > 0
    ensures var f := Split(s, sep)[0];
      && |f| <= |s| && f == s[..|f|]
      && (forall j | 0 <= j < |f| :: !OccursAt(s, sep, j))
      && (|f| == |s| || OccursAt(s, sep, |f|))
  {
    var r := IndexOf(s, sep, 0);
    if r.Some? {
      var i := r.value;
      assert Split(s, sep) == [s[..i]] + Split(s[i + |sep|..], sep);
    }
  }

  /** A second piece exists exactly when the separator occurs; the remaining
      pieces are then the split of what follows its first occurrence. */
  lemma SplitTail(s: string, sep: string)
    requires |sep| > 0
    ensures |Split(s, sep)| > 1 <==> Contains(s, sep)
    ensures |Split(s, sep)| > 1 ==>
      var f := Split(s, sep)[0];
      FirstAt(s, sep, |f|) && Split(s, sep)[1..] == Split(s[|f| + |sep|..], sep)
  {
    var r := IndexOf(s, sep, 0);
    if r.None? {
      assert |Split(s, sep)| == 1;
      assert !Contains(s, sep);
    } else {
      var i := r.value;
      var tail := Split(s[i + |sep|..], sep);
      assert Split(s, sep) == [s[..i]] + tail;
      assert |Split(s, sep)[0]| == i;
      assert Split(s, sep)[1..] == tail;
      assert OccursAt(s, sep, i);
    }
  }

  /** At most one position is the first occurrence. */
  lemma FirstAtUnique(s: string, sep: string, i: nat, k: nat)
    requires FirstAt(s, sep, i) && FirstAt(s, sep, k)
    ensures i == k
  {
  }

  /** A split already taken has a second piece exactly when the separator
      occurs. */
  lemma SplitCount(s: string, sep: string, parts: seq<string>)
    requires |sep| > 0 && parts == Split(s, sep)
    ensures |parts| > 1 <==> Contains(s, sep)
  {
    SplitTail(s, sep);
  }

  /** `SplitTail` stated about a split already taken. */
  lemma SplitRest(s: string, sep: string, parts: seq<string>)
    requires |sep| > 0 && parts == Split(s, sep) && |parts| > 1
    ensures FirstAt(s, sep, |parts[0]|)
    ensures parts[1..] == Split(s[|parts[0]| + |sep|..], sep)
  {
    SplitTail(s, sep);
  }

  /** The second piece of a split runs from just after the first occurrence
      of the separator up to its next occurrence or the end. */
  lemma SecondPiece(s: string, sep: string, parts: seq<string>)
    requires |sep| > 0 && parts == Split(s, sep) && |parts| > 1
    ensures var start := |parts[0]| + |sep|;
      var end := start + |parts[1]|;
      && FirstAt(s, sep, |parts[0]|)
      && end <= |s|
      && s[start..end] == parts[1]
      && (forall j | start <= j < end :: !OccursAt(s, sep, j))
      && (end == |s| || OccursAt(s, sep, end))
  {
    SplitRest(s, sep, parts);
    var start := |parts[0]| + |sep|;
    var tail := s[start..];
    var rest := Split(tail, sep);
    assert parts[1] == rest[0];
    SplitHead(tail, sep);
    ShiftedPiece(s, sep, start, rest[0]);
  }

  /** The same, measured from any position that is the first occurrence. */
  lemma SecondPieceAfterFirst(s: string, sep: string, parts: seq<string>)
    requires |sep| > 0 && parts == Split(s, sep) && |parts| > 1
    ensures forall i: nat | FirstAt(s, sep, i) ::
      var start := i + |sep|;
      var end := start + |parts[1]|;
      && end <= |s|
      && s[start..end] == parts[1]
      && (forall j | start <= j < end :: !OccursAt(s, sep, j))
      && (end == |s| || OccursAt(s, sep, end))
  {
    SecondPiece(s, sep, parts);
    forall i: nat | FirstAt(s, sep, i)
      ensures i == |parts[0]|
    {
      FirstAtUnique(s, sep, i, |parts[0]|);
    }
  }

  /** A piece read off a suffix `s[start..]` sits at `start` in `s`. */
  lemma ShiftedPiece(s: string, sep: string, start: nat, p: string)
    requires start <= |s|
    requires |p| <= |s| - start && s[start..][..|p|] == p
    requires forall j | 0 <= j < |p| :: !OccursAt(s[start..], sep, j)
    requires |p| == |s| - start || OccursAt(s[start..], sep, |p|)
    ensures var end := start + |p|;
      && s[start..end] == p
      && (forall j | start <= j < end :: !OccursAt(s, sep, j))
      && (end == |s| || OccursAt(s, sep, end))
  {
    forall j | start <= j < start + |p|
      ensures !OccursAt(s, sep, j)
    {
      OccursInSuffix(s, sep, start, j - start);
    }
    if start + |p| < |s| {
      OccursInSuffix(s, sep, start, |p|);
    }
  }

  /** For a one-character separator: the first piece is the text before the
      first `c`, or the whole string when `c` does not occur. */
  lemma SplitCharHead(s: string, c: char)
    ensures var f := Split(s, [c])[0];
      && c !in f && f == s[..|f|]
      && (|f| == |s| || s[|f|] == c)
  {
    SplitHead(s, [c]);
    var f := Split(s, [c])[0];
    forall j | 0 <= j < |f|
      ensures f[j] != c
    {
      OccursAtChar(s, c, j);
    }
    OccursAtChar(s, c, |f|);
  }

  /** Splitting text without the separator character gives the text. */
  lemma SplitNoChar(a: string, c: char)
    requires c !in a
    ensures Split(a, [c]) == [a]
  {
    ContainsChar(a, c);
    SplitTail(a, [c]);
  }

  /** Splitting at the first `c` peels off the text before it. */
  lemma SplitAtChar(a: string, c: char, b: string)
    requires c !in a
    ensures Split(a + [c] + b, [c]) == [a] + Split(b, [c])
  {
    var s := a + [c] + b;
    OccursAtChar(s, c, |a|);
    var r := IndexOf(s, [c], 0);
    assert r.Some?;
    OccursAtChar(s, c, r.value);
    assert r.value == |a|;
    assert s[..|a|] == a;
    assert s[|a| + 1..] == b;
  }

  /** No piece of a split contains the separator. */
  lemma {:induction false} SplitPiecesFree(s: string, sep: string)
    requires |sep| > 0
    ensures forall k | 0 <= k < |Split(s, sep)| :: !Contains(Split(s, sep)[k], sep)
    decreases |s|
  {
    var parts := Split(s, sep);
    SplitHead(s, sep);
    SplitTail(s, sep);
    var f := parts[0];
    if Contains(f, sep) {
      var j :| 0 <= j <= |f| && OccursAt(f, sep, j);
      assert f[j..j + |sep|] == s[j..j + |sep|];
      assert OccursAt(s, sep, j);
      assert false;
    }
    if |parts| > 1 {
      var rest := s[|f| + |sep|..];
      SplitPiecesFree(rest, sep);
      forall k | 1 <= k < |parts|
        ensures !Contains(parts[k], sep)
      {
        assert parts[k] == Split(rest, sep)[k - 1];
      }
    }
  }

  /** Splitting on one character yields one more piece than there are
      occurrences of that character. */
  lemma {:induction false} SplitCharCount(s: string, c: char)
    ensures |Split(s, [c])| == multiset(s)[c] + 1
    decreases |s|
  {
    var parts := Split(s, [c]);
    SplitHead(s, [c]);
    SplitTail(s, [c]);
    ContainsChar(s, c);
    var f := parts[0];
    if |parts| == 1 {
      assert multiset(s)[c] == 0;
    } else {
      var rest := s[|f| + 1..];
      SplitCharCount(rest, c);
      OccursAtChar(s, c, |f|);
      assert c !in f by {
        forall j | 0 <= j < |f|
          ensures f[j] != c
        {
          OccursAtChar(s, c, j);
        }
      }
      assert s == f + [c] + rest;
      assert multiset(s) == multiset(f) + multiset([c]) + multiset(rest);
      assert |parts| == 1 + |Split(rest, [c])|;
    }
  }

  /** Joining a concatenation of two non-empty lists puts one separator
      between the two joins. */
  lemma {:induction false} JoinAppend(a: seq<string>, b: seq<string>, sep: string)
    requires |a| > 0 && |b| > 0
    ensures Join(a + b, sep) == Join(a, sep) + sep + Join(b, sep)
    decreases |a|
  {
    if |a| == 1 {
      assert (a + b)[1..] == b;
    } else {
      assert (a + b)[1..] == a[1..] + b;
      JoinAppend(a[1..], b, sep);
    }
  }

  // ------------------------------------------------------------- numbers

  predicate IsDigit(ch: char) {
    '0' <= ch <= '9'
  }

  predicate AllDigits(s: string) {
    forall i | 0 <= i < |s| :: IsDigit(s[i])
  }

  function DigitChar(d: nat): (ch: char)
    requires d < 10
    ensures IsDigit(ch) && (ch as int) - ('0' as int) == d
  {
    (('0' as int) + d) as char
  }

  /** `str(n)` for a non-negative integer: decimal digits, no leading zero. */
  function NatToDecimal(n: nat): (s: string)
    ensures |s| >= 1 && AllDigits(s)
    ensures |s| > 1 ==> s[0] != '0'
    decreases n
  {
    if n < 10 then [DigitChar(n)] else NatToDecimal(n / 10) + [DigitChar(n % 10)]
  }

  /** `str(n)` for any integer: a minus sign in front of a negative value. */
  function IntToDecimal(n: int): (s: string)
    ensures |s| >= 1
    ensures forall i | 0 <= i < |s| :: IsDigit(s[i]) || s[i] == '-'
    ensures (s[0] == '-') <==> n < 0
  {
    if n < 0 then "-" + NatToDecimal(-n) else NatToDecimal(n)
  }

  /** The value a string of decimal digits denotes. */
  function DecimalValue(s: string): nat
    requires AllDigits(s)
  {
    if |s| == 0 then 0
    else DecimalValue(s[..|s| - 1]) * 10 + ((s[|s| - 1] as int) - ('0' as int))
  }

  /** Digits as `str` writes them: at least one, and no leading zero in a
      number of two or more digits. */
  predicate CanonicalDigits(s: string) {
    |s| >= 1 && AllDigits(s) && (|s| > 1 ==> s[0] != '0')
  }

  /** Reads back exactly the text `IntToDecimal` writes: an optional minus
      sign followed by canonical digits, with no `-0`. */
  function ReadDecimal(s: string): Option<int>
  {
    if |s| > 1 && s[0] == '-' && CanonicalDigits(s[1..]) && s[1..] != "0" then Some(0 - DecimalValue(s[1..]))
    else if CanonicalDigits(s) then Some(DecimalValue(s))
    else None
  }

  lemma {:induction false} NatToDecimalValue(n: nat)
    ensures DecimalValue(NatToDecimal(n)) == n
    decreases n
  {
    if n >= 10 {
      var s := NatToDecimal(n);
      NatToDecimalValue(n / 10);
      assert s[..|s| - 1] == NatToDecimal(n / 10);
    }
  }

  /** `ReadDecimal` inverts `str(n)` on every integer. */
  lemma DecimalRoundTrip(n: int)
    ensures ReadDecimal(IntToDecimal(n)) == Some(n)
  {
    var s := IntToDecimal(n);
    if n < 0 {
      var t := NatToDecimal(-n);
      NatToDecimalValue(-n);
      assert s[1..] == t;
      assert CanonicalDigits(t);
      assert "0"[0] == '0' && AllDigits("0");
      assert DecimalValue(t) != DecimalValue("0");
    } else {
      NatToDecimalValue(n);
      assert CanonicalDigits(s);
    }
  }

  /** Digits without a leading zero denote a positive number. */
  lemma {:induction false} LeadingDigitPositive(s: string)
    requires |s| >= 1 && AllDigits(s) && s[0] != '0'
    ensures DecimalValue(s) >= 1
    decreases |s|
  {
    if |s| > 1 {
      LeadingDigitPositive(s[..|s| - 1]);
    }
  }

  /** Canonical digits are the `str` of the value they denote. */
  lemma {:induction false} CanonicalDigitsWritten(s: string)
    requires CanonicalDigits(s)
    ensures NatToDecimal(DecimalValue(s)) == s
    decreases |s|
  {
    var v := DecimalValue(s);
    if |s| == 1 {
      assert s[..0] == [] && IsDigit(s[0]);
      assert DecimalValue(s[..0]) == 0;
      assert v == (s[0] as int) - ('0' as int);
      assert [DigitChar(v)] == s;
    } else {
      var init := s[..|s| - 1];
      var last := (s[|s| - 1] as int) - ('0' as int);
      LeadingDigitPositive(init);
      CanonicalDigitsWritten(init);
      assert v / 10 == DecimalValue(init) && v % 10 == last;
      assert s == init + [DigitChar(last)];
    }
  }

  /** `ReadDecimal` accepts no other spelling: whatever it reads as `n` is
      `str(n)`. */
  lemma ReadDecimalCanonical(s: string, n: int)
    requires ReadDecimal(s) == Some(n)
    ensures s == IntToDecimal(n)
  {
    if |s| > 1 && s[0] == '-' && CanonicalDigits(s[1..]) && s[1..] != "0" {
      var t := s[1..];
      CanonicalDigitsWritten(t);
      if |t| > 1 {
        LeadingDigitPositive(t);
      } else {
        assert t[0] != '0';
      }
      assert s == "-" + t;
    } else {
      CanonicalDigitsWritten(s);
    }
  }

  // ------------------------------------------------------------- booleans

  /** `str(b)` for a Python bool. */
  function BoolRepr(b: bool): string
  {
    if b then "True" else "False"
  }

  function LowerChar(ch: char): char
  {
    if 'A' <= ch <= 'Z' then ((ch as int) - ('A' as int) + ('a' as int)) as char else ch
  }

  /** `s.lower()` on ASCII text. */
  function Lower(s: string): (r: string)
    ensures |r| == |s|
    ensures forall i | 0 <= i < |s| :: r[i] == LowerChar(s[i])
  {
    if |s| == 0 then "" else [LowerChar(s[0])] + Lower(s[1..])
  }

  /** Finds the last position of `c` in `s`. */
  function LastIndexOf(s: string, c: char): (r: Option<nat>)
    ensures r.Some? ==> r.value < |s| && s[r.value] == c
    ensures r.Some? ==> forall j | r.value < j < |s| :: s[j] != c
    ensures r.None? ==> c !in s
  {
    if |s| == 0 then None
    else if s[|s| - 1] == c then Some(|s| - 1)
    else LastIndexOf(s[..|s| - 1], c)
  }

  /** The last `c` of `a + [c] + b` is the one between them when `b` holds none. */
  lemma {:induction false} LastIndexOfSplit(a: string, c: char, b: string)
    requires c !in b
    ensures LastIndexOf(a + [c] + b, c) == Some(|a|)
    decreases |b|
  {
    var s := a + [c] + b;
    if |b| == 0 {
      assert s == a + [c];
    } else {
      assert s[|s| - 1] == b[|b| - 1];
      assert s[..|s| - 1] == a + [c] + b[..|b| - 1];
      LastIndexOfSplit(a, c, b[..|b| - 1]);
    }
  }
}
