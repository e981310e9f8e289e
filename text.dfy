/** The handful of Python `str` operations the contact store relies on, as
    functions on `seq<char>`: `str.isspace` and `str.strip`, `str.lower`,
    filtering with `str.isdigit`, the substring test `needle in hay`,
    `sep.join(parts)` and the slice `s[:n]`. */
module Text {

  datatype Option<+T> = None | Some(value: T)

  /** Python's `str.isspace()` for one character: the whitespace set that
      `str.strip()` without arguments removes. */
  predicate IsSpace(c: char) {
    || '\t' <= c <= '\r'
    || '\U{1C}' <= c <= '\U{1F}'
    || c == ' '
    || c == '\U{85}'
    || c == '\U{A0}'
    || c == '\U{1680}'
    || '\U{2000}' <= c <= '\U{200A}'
    || c == '\U{2028}'
    || c == '\U{2029}'
    || c == '\U{202F}'
    || c == '\U{205F}'
    || c == '\U{3000}'
  }

  /** Every character is whitespace (also true of the empty string). */
  predicate IsBlank(s: string) {
    forall i :: 0 <= i < |s| ==> IsSpace(s[i])
  }

  /** `s.rstrip()`: drops the trailing whitespace, keeps the rest. */
  function TrimEnd(s: string): (r: string)
    ensures |r| <= |s| && r == s[..|r|]
    ensures r == [] || !IsSpace(r[|r| - 1])
    ensures forall i :: |r| <= i < |s| ==> IsSpace(s[i])
  {
    if s != [] && IsSpace(s[|s| - 1]) then TrimEnd(s[..|s| - 1]) else s
  }

  /** `r` is `s[i..j]` where everything before `i` and everything from `j`
      on is whitespace: only whitespace was cut off, and only at the ends. */
  predicate CutsOnlyWhitespace(s: string, r: string) {
    exists i, j :: 0 <= i <= j <= |s| && r == s[i..j] && IsBlank(s[..i]) && IsBlank(s[j..])
  }

  /** `r` is what `s.strip()` gives: only whitespace cut off at the ends,
      and none left at either end of `r`. By `StripOfIsUnique` at most one
      string is, so this pins the result down. */
  predicate IsStripOf(s: string, r: string) {
    && (r == [] || (!IsSpace(r[0]) && !IsSpace(r[|r| - 1])))
    && CutsOnlyWhitespace(s, r)
  }

  /** `s.strip()`: a piece of `s` with neither leading nor trailing
      whitespace, everything cut off on either side being whitespace; in
      particular nothing is left exactly when `s` is all whitespace, which is
      what the test `not s or len(s.strip()) == 0` relies on. */
  function Strip(s: string): (r: string)
    ensures |r| <= |s| && IsStripOf(s, r)
    ensures r == [] <==> IsBlank(s)
  {
    if s != [] && IsSpace(s[0]) then
      var r := Strip(s[1..]);
      CutLeadingSpace(s, r);
      r
    else
      TrimEndOfUnindented(s);
      TrimEnd(s)
  }

  /** A leading whitespace character can be cut off as well. */
  lemma CutLeadingSpace(s: string, r: string)
    requires s != [] && IsSpace(s[0]) && CutsOnlyWhitespace(s[1..], r)
    ensures CutsOnlyWhitespace(s, r)
  {
    var i, j :| 0 <= i <= j <= |s[1..]| && r == s[1..][i..j] && IsBlank(s[1..][..i]) && IsBlank(s[1..][j..]);
    assert s[1..][i..j] == s[i + 1..j + 1];
    assert s[1..][j..] == s[j + 1..];
    var head := s[..i + 1];
    forall k | 0 < k < |head| ensures IsSpace(head[k]) {
      assert head[k] == s[1..][..i][k - 1];
    }
    assert r == s[i + 1..j + 1] && IsBlank(head) && IsBlank(s[j + 1..]);
  }

  /** Once no leading whitespace is left, `rstrip` finishes the job. */
  lemma TrimEndOfUnindented(s: string)
    requires s == [] || !IsSpace(s[0])
    ensures var r := TrimEnd(s);
      && IsStripOf(s, r)
      && (r == [] <==> IsBlank(s))
  {
    var r := TrimEnd(s);
    assert r == s[0..|r|] && s[..0] == [];
    assert forall k :: 0 <= k < |s[|r|..]| ==> s[|r|..][k] == s[|r| + k];
    if r == [] {
      assert s == s[|r|..];
    } else {
      assert r[0] == s[0];
    }
  }

  /** No two strings are both what stripping leaves of `s`. */
  lemma StripOfIsUnique(s: string, a: string, b: string)
    requires IsStripOf(s, a) && IsStripOf(s, b)
    ensures a == b
  {
    StripOfEmpty(s, a);
    StripOfEmpty(s, b);
    if a != [] && b != [] {
      NonEmptyStripOfIsUnique(s, a, b);
    }
  }

  /** Nothing is left exactly when `s` is all whitespace. */
  lemma StripOfEmpty(s: string, r: string)
    requires IsStripOf(s, r)
    ensures r == [] <==> IsBlank(s)
  {
    var i, j :| 0 <= i <= j <= |s| && r == s[i..j] && IsBlank(s[..i]) && IsBlank(s[j..]);
    BlankPieces(s, i, j);
  }

  lemma NonEmptyStripOfIsUnique(s: string, a: string, b: string)
    requires IsStripOf(s, a) && IsStripOf(s, b) && a != [] && b != []
    ensures a == b
  {
    var i, j :| 0 <= i <= j <= |s| && a == s[i..j] && IsBlank(s[..i]) && IsBlank(s[j..]);
    var i', j' :| 0 <= i' <= j' <= |s| && b == s[i'..j'] && IsBlank(s[..i']) && IsBlank(s[j'..]);
    BlankEnds(s, i, j);
    BlankEnds(s, i', j');
    PieceEnds(s, i, j, a);
    PieceEnds(s, i', j', b);
    assert !IsSpace(s[i]) && !IsSpace(s[j - 1]) && !IsSpace(s[i']) && !IsSpace(s[j' - 1]);
    SameBounds(s, i, j, i', j');
  }

  /** The first and last characters of a non-empty piece `r == s[i..j]`. */
  lemma PieceEnds(s: string, i: nat, j: nat, r: string)
    requires i <= j <= |s| && r == s[i..j] && r != []
    ensures i < j && r[0] == s[i] && r[|r| - 1] == s[j - 1]
  {
  }

  /** Two pieces of `s` that begin and end with non-space characters and
      have only whitespace around them are the same piece. */
  lemma SameBounds(s: string, i: nat, j: nat, i': nat, j': nat)
    requires i < j <= |s| && i' < j' <= |s|
    requires !IsSpace(s[i]) && !IsSpace(s[j - 1]) && !IsSpace(s[i']) && !IsSpace(s[j' - 1])
    requires forall k :: 0 <= k < i ==> IsSpace(s[k])
    requires forall k :: 0 <= k < i' ==> IsSpace(s[k])
    requires forall k :: j <= k < |s| ==> IsSpace(s[k])
    requires forall k :: j' <= k < |s| ==> IsSpace(s[k])
    ensures i == i' && j == j'
  {
  }

  /** The blank prefix and suffix, character by character. */
  lemma BlankEnds(s: string, i: nat, j: nat)
    requires i <= j <= |s| && IsBlank(s[..i]) && IsBlank(s[j..])
    ensures forall k :: 0 <= k < i ==> IsSpace(s[k])
    ensures forall k :: j <= k < |s| ==> IsSpace(s[k])
  {
    forall k | 0 <= k < i ensures IsSpace(s[k]) { assert s[..i][k] == s[k]; }
    forall k | j <= k < |s| ensures IsSpace(s[k]) { assert s[j..][k - j] == s[k]; }
  }

  /** When only whitespace surrounds `s[i..j]`, that piece is empty or
      holds every non-space character of `s`. */
  lemma BlankPieces(s: string, i: nat, j: nat)
    requires i <= j <= |s| && IsBlank(s[..i]) && IsBlank(s[j..])
    ensures s[i..j] == [] ==> IsBlank(s)
    ensures IsBlank(s) ==> IsBlank(s[i..j])
  {
    BlankEnds(s, i, j);
    forall k | 0 <= k < j - i && IsBlank(s) ensures IsSpace(s[i..j][k]) {
      assert s[i..j][k] == s[i + k];
    }
  }

  /** Stripping twice is stripping once. */
  lemma StripIdempotent(s: string)
    ensures Strip(Strip(s)) == Strip(s)
  {
    var r := Strip(s);
    assert TrimEnd(r) == r;
  }

  /** `str.lower()` for one character: ASCII, Latin-1 and full-width Latin
      capitals map to their small letters; every other character is kept. */
  function LowerChar(c: char): char {
    if 'A' <= c <= 'Z' then (c as int + 32) as char
    else if ('\U{C0}' <= c <= '\U{DE}' && c != '\U{D7}') then (c as int + 32) as char
    else if '\U{FF21}' <= c <= '\U{FF3A}' then (c as int + 32) as char
    else c
  }

  /** `str.lower()`: each character lowered on its own, so the length is
      kept. */
  function Lower(s: string): (r: string)
    ensures |r| == |s|
    ensures forall i :: 0 <= i < |s| ==> r[i] == LowerChar(s[i])
  {
    seq(|s|, i requires 0 <= i < |s| => LowerChar(s[i]))
  }

  /** Python's `needle in hay` on strings: `needle` occurs somewhere in `hay`
      (the empty string occurs in every string). */
  predicate Contains(hay: string, needle: string) {
    exists i :: 0 <= i <= |hay| && needle <= hay[i..]
  }

  /** A prefix occurs in the text, and nothing longer than the text does. */
  lemma ContainsBounds(hay: string, needle: string)
    ensures needle <= hay ==> Contains(hay, needle)
    ensures Contains(hay, needle) ==> |needle| <= |hay|
  {
    assert hay[0..] == hay;
  }

  /** The characters '0' to '9'. */
  predicate IsDigit(c: char) {
    '0' <= c <= '9'
  }

  predicate AllDigits(s: string) {
    forall i :: 0 <= i < |s| ==> IsDigit(s[i])
  }

  /** `''.join(filter(str.isdigit, s))`: the digits of `s`, in order. */
  function Digits(s: string): (r: string)
    ensures AllDigits(r)
    ensures |r| <= |s|
  {
    if s == [] then []
    else (if IsDigit(s[0]) then [s[0]] else []) + Digits(s[1..])
  }

  lemma {:induction false} DigitsConcat(a: string, b: string)
    ensures Digits(a + b) == Digits(a) + Digits(b)
  {
    if a == [] {
      assert a + b == b;
    } else {
      assert (a + b)[1..] == a[1..] + b;
      DigitsConcat(a[1..], b);
    }
  }

  /** Filtering a digit-only string keeps all of it; filtering is idempotent. */
  lemma {:induction false} DigitsOfDigitsOnly(s: string)
    ensures AllDigits(s) <==> Digits(s) == s
  {
    if s != [] {
      DigitsOfDigitsOnly(s[1..]);
      if !IsDigit(s[0]) {
        assert |Digits(s)| <= |s[1..]| < |s|;
      }
    }
  }

  /** A filtering that changes the text makes it strictly shorter. */
  lemma {:induction false} DigitsShortens(s: string)
    requires Digits(s) != s
    ensures |Digits(s)| < |s|
  {
    if IsDigit(s[0]) {
      assert Digits(s) == [s[0]] + Digits(s[1..]) && s == [s[0]] + s[1..];
      DigitsShortens(s[1..]);
    }
  }

  lemma DigitsIdempotent(s: string)
    ensures Digits(Digits(s)) == Digits(s)
  {
    DigitsOfDigitsOnly(Digits(s));
  }

  /** The lengths of `parts`, added up. */
  function TotalLength(parts: seq<string>): nat {
    if parts == [] then 0 else |parts[0]| + TotalLength(parts[1..])
  }

  /** `sep.join(parts)`: the parts in order with one separator between each
      two, so the first part leads and one separator fewer than parts is
      added. */
  function Join(parts: seq<string>, sep: string): (r: string)
    ensures parts != [] ==> parts[0] <= r
    ensures parts != [] ==> |r| == TotalLength(parts) + (|parts| - 1) * |sep|
  {
    if |parts| == 0 then ""
    else if |parts| == 1 then parts[0]
    else parts[0] + sep + Join(parts[1..], sep)
  }

  /** The slice `s[:n]`: the longest prefix of `s` that is at most `n` long. */
  function Truncate(s: string, n: nat): (r: string)
    ensures r <= s
    ensures |r| == if |s| <= n then |s| else n
  {
    if |s| <= n then s else s[..n]
  }
}
