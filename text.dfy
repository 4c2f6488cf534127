/** String operations with the meaning of the Python built-ins the order flow relies on:
    `pat in s`, `s.split(sep)`, `s.strip()` and `f"{n}"` for an integer `n`. */
module Text {

  datatype Option<+T> = None | Some(value: T)

  /** `pat` occurs in `s` starting at index `i`. */
  predicate OccursAt(s: string, pat: string, i: int)
  {
    0 <= i && i + |pat| <= |s| && s[i..i + |pat|] == pat
  }

  /** Index of the first occurrence of `pat` in `s` (Python's `s.find(pat)`);
      `pat in s` is `Find(s, pat).Some?`. */
  function Find(s: string, pat: string): (r: Option<nat>)
    ensures r.Some? ==> OccursAt(s, pat, r.value)
    ensures r.Some? ==> forall j :: 0 <= j < r.value ==> !OccursAt(s, pat, j)
    ensures r.None? ==> forall j :: !OccursAt(s, pat, j)
    decreases |s|
  {
    if |s| < |pat| then None
    else if s[..|pat|] == pat then Some(0)
    else
      var r := Find(s[1..], pat);
      assert forall j :: 1 <= j ==> (OccursAt(s, pat, j) <==> OccursAt(s[1..], pat, j - 1)) by {
        forall j | 1 <= j
          ensures OccursAt(s, pat, j) <==> OccursAt(s[1..], pat, j - 1)
        {
          if j + |pat| <= |s| {
            assert s[1..][j - 1..j - 1 + |pat|] == s[j..j + |pat|];
          }
        }
      }
      match r
      case None => None
      case Some(k) => Some(k + 1)
  }

  /** An occurrence that is the leftmost one is what `Find` returns. */
  lemma FindIsFirst(s: string, pat: string, k: nat)
    requires OccursAt(s, pat, k)
    requires forall j :: 0 <= j < k ==> !OccursAt(s, pat, j)
    ensures Find(s, pat) == Some(k)
  {
  }

  /** The occurrences inside a prefix are the occurrences of the whole that end in it. */
  lemma OccursInPrefix(s: string, pat: string, n: nat, j: int)
    requires n <= |s|
    ensures OccursAt(s[..n], pat, j) <==> OccursAt(s, pat, j) && j + |pat| <= n
  {
    if 0 <= j && j + |pat| <= n {
      assert s[..n][j..j + |pat|] == s[j..j + |pat|];
    }
  }

  /** Python's `s.split(sep)` for a non-empty separator: the pieces between the
      non-overlapping occurrences of `sep`, found from left to right. */
  function Split(s: string, sep: string): (r: seq<string>)
    requires |sep| > 0
    ensures |r| >= 1
    ensures Find(s, sep).None? ==> r == [s]
    ensures Find(s, sep).Some? ==> |r| >= 2 && r[0] == s[..Find(s, sep).value]
    decreases |s|
  {
    match Find(s, sep)
    case None => [s]
    case Some(i) => [s[..i]] + Split(s[i + |sep|..], sep)
  }

  /** Python's `sep.join(parts)`. */
  function Join(parts: seq<string>, sep: string): string
    decreases |parts|
  {
    if |parts| == 0 then ""
    else if |parts| == 1 then parts[0]
    else parts[0] + sep + Join(parts[1..], sep)
  }

  /** Splitting and joining again with the same separator gives back the text. */
  lemma {:induction false} SplitJoin(s: string, sep: string)
    requires |sep| > 0
    ensures Join(Split(s, sep), sep) == s
    decreases |s|
  {
    match Find(s, sep)
    case None =>
    case Some(i) =>
      var rest := s[i + |sep|..];
      SplitJoin(rest, sep);
      assert s == s[..i] + sep + rest;
  }

  /** No piece of a split contains the separator. */
  lemma {:induction false} SplitPiecesFree(s: string, sep: string)
    requires |sep| > 0
    ensures forall k :: 0 <= k < |Split(s, sep)| ==> Find(Split(s, sep)[k], sep).None?
    decreases |s|
  {
    match Find(s, sep)
    case None =>
    case Some(i) =>
      var rest := s[i + |sep|..];
      SplitPiecesFree(rest, sep);
      forall j ensures !OccursAt(s[..i], sep, j) {
        OccursInPrefix(s, sep, i, j);
      }
      assert Split(s, sep) == [s[..i]] + Split(rest, sep);
  }

  /** The second piece of a split: what follows the first separator, up to the next one. */
  lemma SplitSecond(s: string, sep: string, i: nat)
    requires |sep| > 0 && Find(s, sep) == Some(i)
    ensures |Split(s, sep)| >= 2
    ensures var rest := s[i + |sep|..];
      Split(s, sep)[1] == match Find(rest, sep) case None => rest case Some(j) => rest[..j]
  {
    var tail := Split(s[i + |sep|..], sep);
    SplitUnfold(s, sep, i);
    assert ([s[..i]] + tail)[1] == tail[0];
  }

  lemma SplitUnfold(s: string, sep: string, i: nat)
    requires |sep| > 0 && Find(s, sep) == Some(i)
    ensures Split(s, sep) == [s[..i]] + Split(s[i + |sep|..], sep)
  {
  }

  /** The characters Python's `str.isspace` accepts. */
  predicate IsSpace(c: char)
  {
    || c == ' '
    || '\t' <= c <= '\r'
    || '\U{1C}' <= c <= '\U{1F}'
    || c == '\U{85}' || c == '\U{A0}' || c == '\U{1680}'
    || '\U{2000}' <= c <= '\U{200A}'
    || c == '\U{2028}' || c == '\U{2029}' || c == '\U{202F}' || c == '\U{205F}' || c == '\U{3000}'
  }

  /** Every character of `s` from index `lo` up to `hi` is whitespace. */
  predicate SpaceBetween(s: string, lo: int, hi: int)
    requires 0 <= lo && hi <= |s|
  {
    forall k :: lo <= k < hi ==> IsSpace(s[k])
  }

  /** The first index from `i` on that is not whitespace, or `|s|`. */
  function SkipSpace(s: string, i: nat): (k: nat)
    requires i <= |s|
    ensures i <= k <= |s| && SpaceBetween(s, i, k)
    ensures k == |s| || !IsSpace(s[k])
    decreases |s| - i
  {
    if i < |s| && IsSpace(s[i]) then SkipSpace(s, i + 1) else i
  }

  /** Walking back from `j`, but not past `lo`, the index just after the last
      non-whitespace character, or `lo`. */
  function SkipSpaceBack(s: string, lo: nat, j: nat): (k: nat)
    requires lo <= j <= |s|
    ensures lo <= k <= j && SpaceBetween(s, k, j)
    ensures k == lo || !IsSpace(s[k - 1])
    decreases j
  {
    if j > lo && IsSpace(s[j - 1]) then SkipSpaceBack(s, lo, j - 1) else j
  }

  /** Python's `s.strip()`: the infix of `s` left when whitespace is cut from both ends. */
  function Strip(s: string): (r: string)
    ensures var i := SkipSpace(s, 0);
      && i + |r| <= |s| && r == s[i..i + |r|]
      && SpaceBetween(s, 0, i) && SpaceBetween(s, i + |r|, |s|)
    ensures r == [] || (!IsSpace(r[0]) && !IsSpace(r[|r| - 1]))
  {
    var i := SkipSpace(s, 0);
    s[i..SkipSpaceBack(s, i, |s|)]
  }

  /** The strip is the only such infix: cutting whitespace-only ends off `s` so that
      what remains starts and ends with a non-space character gives `Strip(s)`. */
  lemma StripUnique(s: string, i: nat, j: nat)
    requires i <= j <= |s|
    requires SpaceBetween(s, 0, i) && SpaceBetween(s, j, |s|)
    requires i == j || (!IsSpace(s[i]) && !IsSpace(s[j - 1]))
    ensures Strip(s) == s[i..j]
  {
    var k := SkipSpace(s, 0);
    if i == j {
      assert SpaceBetween(s, 0, |s|);
    } else {
      assert k == i;
      assert SkipSpaceBack(s, k, |s|) == j;
    }
  }

  /** Stripping twice is stripping once. */
  lemma StripIdempotent(s: string)
    ensures Strip(Strip(s)) == Strip(s)
  {
    var r := Strip(s);
    StripUnique(r, 0, |r|);
  }

  predicate IsDigit(c: char)
  {
    '0' <= c <= '9'
  }

  predicate AllDigits(s: string)
  {
    forall i :: 0 <= i < |s| ==> IsDigit(s[i])
  }

  function DigitChar(d: nat): (c: char)
    requires d < 10
    ensures IsDigit(c)
  {
    ('0' as int + d) as char
  }

  /** Decimal digits of a natural number, most significant first, no leading zeros. */
  function NatString(n: nat): (r: string)
    ensures |r| > 0 && AllDigits(r)
    decreases n
  {
    if n < 10 then [DigitChar(n)] else NatString(n / 10) + [DigitChar(n % 10)]
  }

  /** Python's `str(n)` (and `f"{n}"`) for an integer: a minus sign for negative numbers. */
  function IntString(n: int): string
  {
    if n < 0 then "-" + NatString(-n) else NatString(n)
  }

  /** The value of a string of decimal digits. */
  function ParseNat(s: string): nat
    requires AllDigits(s)
    decreases |s|
  {
    if s == [] then 0
    else ParseNat(s[..|s| - 1]) * 10 + (s[|s| - 1] as int - '0' as int)
  }

  /** Reads back a decimal integer as `IntString` writes it; `None` for anything else. */
  function ParseInt(s: string): Option<int>
  {
    if |s| > 1 && s[0] == '-' && AllDigits(s[1..]) then Some(0 - ParseNat(s[1..]))
    else if |s| > 0 && AllDigits(s) then Some(ParseNat(s))
    else None
  }

  lemma {:induction false} NatStringRoundTrip(n: nat)
    ensures ParseNat(NatString(n)) == n
    decreases n
  {
    if n >= 10 {
      NatStringRoundTrip(n / 10);
      var s := NatString(n);
      assert s[..|s| - 1] == NatString(n / 10);
    }
  }

  /** Every integer is written in a form that reads back as itself. */
  lemma IntStringRoundTrip(n: int)
    ensures ParseInt(IntString(n)) == Some(n)
  {
    var s := IntString(n);
    if n < 0 {
      NatStringRoundTrip(-n);
      assert s[1..] == NatString(-n);
    } else {
      NatStringRoundTrip(n);
      assert IsDigit(s[0]);
    }
  }

  /** A written integer uses only digits and the minus sign. */
  lemma IntStringChars(n: int)
    ensures forall i :: 0 <= i < |IntString(n)| ==> IsDigit(IntString(n)[i]) || IntString(n)[i] == '-'
  {
    if n < 0 {
      var d := NatString(-n);
      assert forall i :: 1 <= i < |IntString(n)| ==> IntString(n)[i] == d[i - 1];
    }
  }
}
