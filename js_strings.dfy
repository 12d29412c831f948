/**
 * The JavaScript string built-ins that the sheet-ingestion code relies on, modelled over
 * Dafny strings (sequences of Unicode scalar values): `trim`, `toLowerCase`,
 * `normalize("NFD")` followed by removal of combining marks, `includes`, `replace` with a
 * string pattern, `split` (by one character, or by the quote-balanced comma regex of the
 * CSV splitter) and the decimal rendering of a number inside a template literal.
 */
module JsStrings {
  import opened Wrappers

  // ---------------------------------------------------------------------------------------
  // trim
  // ---------------------------------------------------------------------------------------

  /** The ECMAScript WhiteSpace and LineTerminator code points, which `trim` removes. */
  predicate IsWhitespace(c: char) {
    c == '\t' || c == '\n' || c == '\U{000B}' || c == '\U{000C}' || c == '\r' || c == ' '
    || c == '\U{00A0}' || c == '\U{1680}' || ('\U{2000}' <= c <= '\U{200A}')
    || c == '\U{2028}' || c == '\U{2029}' || c == '\U{202F}' || c == '\U{205F}'
    || c == '\U{3000}' || c == '\U{FEFF}'
  }

  /** `s.trim()`: drop whitespace at both ends. */
  function Trim(s: string): (r: string)
    ensures r == [] || (!IsWhitespace(r[0]) && !IsWhitespace(r[|r| - 1]))
    ensures forall c :: c in r ==> c in s
    ensures |r| <= |s|
    decreases |s|
  {
    if s == [] then []
    else if IsWhitespace(s[0]) then Trim(s[1..])
    else if IsWhitespace(s[|s| - 1]) then Trim(s[..|s| - 1])
    else s
  }

  /** `r` sits at `i` in `s`, with only whitespace before and after it. */
  predicate InfixAt(s: string, r: string, i: nat) {
    && i + |r| <= |s| && s[i..i + |r|] == r
    && (forall k :: 0 <= k < i ==> IsWhitespace(s[k]))
    && (forall k :: i + |r| <= k < |s| ==> IsWhitespace(s[k]))
  }

  lemma InfixDropFront(s: string, r: string, j: nat)
    requires s != [] && IsWhitespace(s[0]) && InfixAt(s[1..], r, j)
    ensures InfixAt(s, r, j + 1)
  {
    var t := s[1..];
    forall k | 0 <= k < |r| ensures s[j + 1 + k] == r[k] {
      assert t[j..j + |r|][k] == t[j + k];
    }
    assert s[j + 1..j + 1 + |r|] == r;
    assert forall k :: 1 <= k < |s| ==> s[k] == t[k - 1];
  }

  lemma InfixDropBack(s: string, r: string, i: nat)
    requires s != [] && IsWhitespace(s[|s| - 1]) && InfixAt(s[..|s| - 1], r, i)
    ensures InfixAt(s, r, i)
  {
    var t := s[..|s| - 1];
    forall k | 0 <= k < |r| ensures s[i + k] == r[k] {
      assert t[i..i + |r|][k] == t[i + k];
    }
    assert s[i..i + |r|] == r;
    assert forall k :: 0 <= k < |s| - 1 ==> s[k] == t[k];
  }

  /** What `trim` removes is whitespace, and it keeps one contiguous block of `s`. */
  lemma {:induction false} TrimInfix(s: string) returns (i: nat)
    ensures i + |Trim(s)| <= |s| && s[i..i + |Trim(s)|] == Trim(s)
    ensures forall k :: 0 <= k < i ==> IsWhitespace(s[k])
    ensures forall k :: i + |Trim(s)| <= k < |s| ==> IsWhitespace(s[k])
    decreases |s|
  {
    if s == [] {
      i := 0;
    } else if IsWhitespace(s[0]) {
      var j := TrimInfix(s[1..]);
      assert Trim(s) == Trim(s[1..]);
      InfixDropFront(s, Trim(s), j);
      i := j + 1;
    } else if IsWhitespace(s[|s| - 1]) {
      i := TrimInfix(s[..|s| - 1]);
      assert Trim(s) == Trim(s[..|s| - 1]);
      InfixDropBack(s, Trim(s), i);
    } else {
      i := 0;
    }
  }

  /** `trim` removes nothing from a string that neither starts nor ends with whitespace. */
  lemma TrimTrimmed(s: string)
    requires s == [] || (!IsWhitespace(s[0]) && !IsWhitespace(s[|s| - 1]))
    ensures Trim(s) == s
  {
  }

  /** `trim` is idempotent. */
  lemma TrimIdempotent(s: string)
    ensures Trim(Trim(s)) == Trim(s)
  {
    TrimTrimmed(Trim(s));
  }

  // ---------------------------------------------------------------------------------------
  // toLowerCase and normalize("NFD") + removal of U+0300..U+036F
  // ---------------------------------------------------------------------------------------

  /** The upper-case letters of ASCII and Latin-1: A–Z and U+00C0..U+00DE except U+00D7. */
  predicate IsUpper(c: char) {
    'A' <= c <= 'Z' || ('\U{00C0}' <= c <= '\U{00DE}' && c != '\U{00D7}')
  }

  /** `toLowerCase` on one character: exact for ASCII and Latin-1, identity elsewhere. */
  function LowerChar(c: char): char {
    if IsUpper(c) then (c as int + 32) as char else c
  }

  /**
   * `s.toLowerCase()`, character by character: each upper-case letter becomes the letter
   * 32 code points above it, every other character stays, and no upper-case letter is left.
   */
  function ToLower(s: string): (r: string)
    ensures |r| == |s|
    ensures forall i :: 0 <= i < |s| && IsUpper(s[i]) ==> r[i] as int == s[i] as int + 32
    ensures forall i :: 0 <= i < |s| && !IsUpper(s[i]) ==> r[i] == s[i]
    ensures forall c :: c in r ==> !IsUpper(c)
  {
    seq(|s|, i requires 0 <= i < |s| => LowerChar(s[i]))
  }

  /** A string without upper-case letters is its own lower-case form. */
  lemma ToLowerFixesLower(s: string)
    requires forall c :: c in s ==> !IsUpper(c)
    ensures ToLower(s) == s
  {
    assert forall i :: 0 <= i < |s| ==> !IsUpper(s[i]);
  }

  /** Lower-casing works character by character, so it distributes over concatenation. */
  lemma ToLowerAppend(x: string, y: string)
    ensures ToLower(x + y) == ToLower(x) + ToLower(y)
  {
    assert forall i :: 0 <= i < |x + y| ==> ToLower(x + y)[i] == (ToLower(x) + ToLower(y))[i];
  }

  /** `toLowerCase` is idempotent. */
  lemma ToLowerIdempotent(s: string)
    ensures ToLower(ToLower(s)) == ToLower(s)
  {
    ToLowerFixesLower(ToLower(s));
  }

  /** The combining diacritical marks U+0300..U+036F that the source's regex removes. */
  predicate IsCombiningMark(c: char) {
    '\U{0300}' <= c <= '\U{036F}'
  }

  /**
   * The first code point of the canonical decomposition (NFD) of a Latin-1 letter:
   * its base letter when it carries an accent, the letter itself otherwise.
   */
  function BaseLetter(c: char): char {
    if '\U{00E0}' <= c <= '\U{00E5}' then 'a'
    else if c == '\U{00E7}' then 'c'
    else if '\U{00E8}' <= c <= '\U{00EB}' then 'e'
    else if '\U{00EC}' <= c <= '\U{00EF}' then 'i'
    else if c == '\U{00F1}' then 'n'
    else if '\U{00F2}' <= c <= '\U{00F6}' then 'o'
    else if '\U{00F9}' <= c <= '\U{00FC}' then 'u'
    else if c == '\U{00FD}' || c == '\U{00FF}' then 'y'
    else if '\U{00C0}' <= c <= '\U{00C5}' then 'A'
    else if c == '\U{00C7}' then 'C'
    else if '\U{00C8}' <= c <= '\U{00CB}' then 'E'
    else if '\U{00CC}' <= c <= '\U{00CF}' then 'I'
    else if c == '\U{00D1}' then 'N'
    else if '\U{00D2}' <= c <= '\U{00D6}' then 'O'
    else if '\U{00D9}' <= c <= '\U{00DC}' then 'U'
    else if c == '\U{00DD}' then 'Y'
    else c
  }

  /** What one code point leaves after decomposition and mark removal. */
  function StripChar(c: char): (r: string)
    ensures |r| <= 1 && forall d :: d in r ==> !IsCombiningMark(d)
    ensures !IsUpper(c) ==> forall d :: d in r ==> !IsUpper(d)
    ensures !IsCombiningMark(c) ==> r == [BaseLetter(c)]
    ensures IsCombiningMark(c) ==> r == []
  {
    if IsCombiningMark(c) then [] else [BaseLetter(c)]
  }

  /** `s.normalize("NFD").replace(/[̀-ͯ]/g, "")`: accents stripped. */
  function StripAccents(s: string): (r: string)
    ensures forall c :: c in r ==> !IsCombiningMark(c)
    ensures |r| <= |s|
    ensures (forall c :: c in s ==> !IsUpper(c)) ==> forall c :: c in r ==> !IsUpper(c)
  {
    if s == [] then []
    else
      assert forall c :: c in s[1..] ==> c in s;
      StripChar(s[0]) + StripAccents(s[1..])
  }

  /** Accents are stripped character by character: stripping distributes over `+`. */
  lemma {:induction false} StripAccentsAppend(x: string, y: string)
    ensures StripAccents(x + y) == StripAccents(x) + StripAccents(y)
    decreases |x|
  {
    if x == [] {
      assert x + y == y;
    } else {
      assert (x + y)[0] == x[0] && (x + y)[1..] == x[1..] + y;
      StripAccentsAppend(x[1..], y);
      assert StripChar(x[0]) + (StripAccents(x[1..]) + StripAccents(y))
        == (StripChar(x[0]) + StripAccents(x[1..])) + StripAccents(y);
    }
  }

  // ---------------------------------------------------------------------------------------
  // removing every occurrence of one character (`replace(/c/g, "")`)
  // ---------------------------------------------------------------------------------------

  /**
   * `s` with every `c` removed and everything else kept: `RemoveAllCounts` adds that each
   * other character stays as often as in `s`, `RemoveAllAppend` that they stay in order.
   */
  function RemoveAll(s: string, c: char): (r: string)
    ensures forall x :: x in r <==> x in s && x != c
    ensures |r| <= |s|
  {
    if s == [] then []
    else (if s[0] == c then [] else [s[0]]) + RemoveAll(s[1..], c)
  }

  /** Every character other than `c` is kept as often as it occurs; `c` not at all. */
  lemma {:induction false} RemoveAllCounts(s: string, c: char)
    ensures multiset(RemoveAll(s, c)) == multiset(s)[c := 0]
  {
    if s != [] {
      assert s == [s[0]] + s[1..];
      RemoveAllCounts(s[1..], c);
    }
  }

  /** Removal works piece by piece, so the kept characters keep their order. */
  lemma {:induction false} RemoveAllAppend(x: string, y: string, c: char)
    ensures RemoveAll(x + y, c) == RemoveAll(x, c) + RemoveAll(y, c)
  {
    if x == [] {
      assert x + y == y;
    } else {
      assert (x + y)[0] == x[0] && (x + y)[1..] == x[1..] + y;
      RemoveAllAppend(x[1..], y, c);
    }
  }

  /** Removing a character that does not occur changes nothing. */
  lemma {:induction false} RemoveAllAbsent(s: string, c: char)
    requires c !in s
    ensures RemoveAll(s, c) == s
  {
    if s != [] {
      RemoveAllAbsent(s[1..], c);
    }
  }

  // ---------------------------------------------------------------------------------------
  // includes, replace(string, string)
  // ---------------------------------------------------------------------------------------

  /** `p` occurs in `s` starting at index `i`. */
  predicate OccursAt(s: string, p: string, i: nat) {
    i + |p| <= |s| && s[i..i + |p|] == p
  }

  /** `s.indexOf(p, from)`: the first occurrence of `p` at or after `from`. */
  function IndexOf(s: string, p: string, from: nat): (r: Option<nat>)
    ensures r.Some? ==> from <= r.value && OccursAt(s, p, r.value)
    ensures r.Some? ==> forall j :: from <= j < r.value ==> !OccursAt(s, p, j)
    ensures r.None? ==> forall j :: from <= j ==> !OccursAt(s, p, j)
    decreases |s| - from
  {
    if from + |p| > |s| then None
    else if OccursAt(s, p, from) then Some(from)
    else IndexOf(s, p, from + 1)
  }

  /** `s.includes(p)`. */
  predicate Contains(s: string, p: string) {
    IndexOf(s, p, 0).Some?
  }

  /** An occurrence agrees with the pattern character by character. */
  lemma OccursAtChars(s: string, p: string, i: nat)
    ensures OccursAt(s, p, i) ==> forall k :: 0 <= k < |p| ==> s[i + k] == p[k]
  {
    if OccursAt(s, p, i) {
      forall k | 0 <= k < |p| ensures s[i + k] == p[k] {
        assert s[i..i + |p|][k] == s[i + k];
      }
    }
  }

  /** The leftmost occurrence is the one `indexOf` finds. */
  lemma FirstOccurrence(s: string, p: string, i: nat)
    requires OccursAt(s, p, i) && forall j :: 0 <= j < i ==> !OccursAt(s, p, j)
    ensures IndexOf(s, p, 0) == Some(i)
  {
  }

  /** `s.replace(p, q)` with a string pattern: only the first occurrence is replaced. */
  function ReplaceFirst(s: string, p: string, q: string): (r: string)
    ensures !Contains(s, p) ==> r == s
    ensures Contains(s, p) ==> |r| == |s| - |p| + |q|
    ensures Contains(s, p) ==>
      exists i: nat :: OccursAt(s, p, i) && r == s[..i] + q + s[i + |p|..]
        && forall j: nat :: j < i ==> !OccursAt(s, p, j)
  {
    match IndexOf(s, p, 0)
    case None => s
    case Some(i) => s[..i] + q + s[i + |p|..]
  }

  /** What `replace` produces is drawn from the original and the replacement. */
  lemma ReplaceFirstChars(s: string, p: string, q: string)
    ensures forall c :: c in ReplaceFirst(s, p, q) ==> c in s || c in q
  {
    match IndexOf(s, p, 0)
    case None =>
    case Some(i) =>
      forall c | c in ReplaceFirst(s, p, q) ensures c in s || c in q {
        var r := s[..i] + q + s[i + |p|..];
        assert r == ReplaceFirst(s, p, q);
        if c in s[..i] { assert c in s; } else if c in s[i + |p|..] { assert c in s; }
      }
  }

  // ---------------------------------------------------------------------------------------
  // split
  // ---------------------------------------------------------------------------------------

  /** How many `"` characters `s` holds. */
  function QuoteCount(s: string): nat {
    if s == [] then 0 else (if s[0] == '"' then 1 else 0) + QuoteCount(s[1..])
  }

  /**
   * The separators the ingestion code splits on: one character (`split('\n')`,
   * `split(',')`), or the regex `/,(?=(?:(?:[^"]*"){2})*[^"]*$)/`, which matches a comma
   * exactly when the rest of the line after it holds an even number of `"`.
   */
  datatype Separator = CharSep(c: char) | QuoteBalancedComma

  /** The character a separator consumes. */
  function SepChar(sep: Separator): char {
    match sep
    case CharSep(c) => c
    case QuoteBalancedComma => ','
  }

  /**
   * Whether the first character of `t` is a split point, where `t` is the part of the
   * line from that character to its end. Only the suffix matters, for both separators.
   */
  predicate IsSepAt(sep: Separator, t: string) {
    |t| > 0 && t[0] == SepChar(sep) &&
    match sep
    case CharSep(_) => true
    case QuoteBalancedComma => QuoteCount(t[1..]) % 2 == 0
  }

  /** How many split points `s` holds. */
  function SepCount(s: string, sep: Separator): nat {
    if s == [] then 0 else (if IsSepAt(sep, s) then 1 else 0) + SepCount(s[1..], sep)
  }

  /**
   * `s.split(sep)`: the pieces between split points, in order. A string with no split
   * point gives one piece (the empty string gives `[""]`).
   */
  function Split(s: string, sep: Separator): (r: seq<string>)
    ensures |r| == SepCount(s, sep) + 1
    decreases |s|
  {
    if s == [] then [""]
    else
      var rest := Split(s[1..], sep);
      if IsSepAt(sep, s) then [""] + rest
      else [[s[0]] + rest[0]] + rest[1..]
  }

  /** One step of `Split`: the first character either is a split point or joins the first piece. */
  lemma SplitCons(c: char, t: string, sep: Separator)
    ensures Split([c] + t, sep) ==
      if IsSepAt(sep, [c] + t) then [""] + Split(t, sep)
      else [[c] + Split(t, sep)[0]] + Split(t, sep)[1..]
  {
    assert ([c] + t)[1..] == t;
  }

  /** A character that is not a split point is prepended to the first piece. */
  lemma SplitConsPiece(c: char, t: string, sep: Separator, first: string, rest: seq<string>)
    requires !IsSepAt(sep, [c] + t) && Split(t, sep) == [first] + rest
    ensures Split([c] + t, sep) == [[c] + first] + rest
  {
    SplitCons(c, t, sep);
    assert Split(t, sep)[1..] == rest;
  }

  lemma QuoteCountCons(c: char, t: string)
    ensures QuoteCount([c] + t) == (if c == '"' then 1 else 0) + QuoteCount(t)
  {
    assert ([c] + t)[1..] == t;
  }

  /** `fields.join(c)`. */
  function Join(fields: seq<string>, c: char): string
    requires |fields| >= 1
  {
    if |fields| == 1 then fields[0] else fields[0] + [c] + Join(fields[1..], c)
  }

  /** Splitting loses nothing: joining the pieces with the separator gives back `s`. */
  lemma {:induction false} SplitJoin(s: string, sep: Separator)
    ensures Join(Split(s, sep), SepChar(sep)) == s
    decreases |s|
  {
    if s != [] {
      var rest := Split(s[1..], sep);
      SplitJoin(s[1..], sep);
      if !IsSepAt(sep, s) && |rest| > 1 {
        assert rest == [rest[0]] + rest[1..];
        assert Join(rest, SepChar(sep)) == rest[0] + [SepChar(sep)] + Join(rest[1..], SepChar(sep));
        assert ([s[0]] + rest[0]) + [SepChar(sep)] + Join(rest[1..], SepChar(sep))
            == [s[0]] + (rest[0] + [SepChar(sep)] + Join(rest[1..], SepChar(sep)));
      }
    }
  }

  /**
   * Every piece after the first starts right after a split point: the separator character
   * followed by the rest of the pieces, joined, is a split point. With the count of
   * `Split`, these are all the split points of `s`.
   */
  lemma {:induction false} SplitAtSeparators(s: string, sep: Separator, m: nat)
    requires 1 <= m < |Split(s, sep)|
    ensures IsSepAt(sep, [SepChar(sep)] + Join(Split(s, sep)[m..], SepChar(sep)))
    decreases |s|
  {
    var rest := Split(s[1..], sep);
    var c := SepChar(sep);
    if IsSepAt(sep, s) {
      assert Split(s, sep) == [""] + rest;
      if m == 1 {
        SplitJoin(s[1..], sep);
        assert Split(s, sep)[1..] == rest;
        assert s == [s[0]] + s[1..] && s[0] == c;
      } else {
        SplitAtSeparators(s[1..], sep, m - 1);
        assert Split(s, sep)[m..] == rest[m - 1..];
      }
    } else {
      assert Split(s, sep) == [[s[0]] + rest[0]] + rest[1..];
      SplitAtSeparators(s[1..], sep, m);
      assert Split(s, sep)[m..] == rest[m..];
    }
  }

  /** No piece holds the separator character when it is a plain character separator. */
  lemma {:induction false} SplitCharFree(s: string, c: char, m: nat)
    requires m < |Split(s, CharSep(c))|
    ensures c !in Split(s, CharSep(c))[m]
    decreases |s|
  {
    if s != [] {
      var rest := Split(s[1..], CharSep(c));
      if IsSepAt(CharSep(c), s) {
        if m > 0 { SplitCharFree(s[1..], c, m - 1); }
      } else if m == 0 {
        SplitCharFree(s[1..], c, 0);
      } else {
        SplitCharFree(s[1..], c, m);
      }
    }
  }

  /**
   * On a line without any `"`, the quote-balanced comma is just the comma: every comma
   * is a split point.
   */
  lemma {:induction false} QuoteFreeSplit(s: string)
    requires '"' !in s
    ensures Split(s, QuoteBalancedComma) == Split(s, CharSep(','))
    decreases |s|
  {
    if s != [] {
      QuoteFreeCount(s[1..]);
      QuoteFreeSplit(s[1..]);
    }
  }

  lemma {:induction false} QuoteFreeCount(s: string)
    requires '"' !in s
    ensures QuoteCount(s) == 0
  {
    if s != [] { QuoteFreeCount(s[1..]); }
  }

  /** A string with no occurrence of the separator character is a single piece. */
  lemma {:induction false} SplitNoSeparator(s: string, sep: Separator)
    requires SepChar(sep) !in s
    ensures Split(s, sep) == [s]
    decreases |s|
  {
    if s != [] {
      SplitNoSeparator(s[1..], sep);
      assert !IsSepAt(sep, s);
      assert [s[0]] + s[1..] == s;
    }
  }

  /**
   * Where no character of `y` is a split point (given what follows it), `y` just joins the
   * first piece of what follows.
   */
  lemma {:induction false} SplitNoSplitPoint(y: string, t: string, sep: Separator)
    requires forall k :: 0 <= k < |y| ==> !IsSepAt(sep, y[k..] + t)
    ensures Split(y + t, sep) == [y + Split(t, sep)[0]] + Split(t, sep)[1..]
    decreases |y|
  {
    if y == [] {
      assert y + t == t;
      assert y + Split(t, sep)[0] == Split(t, sep)[0];
      assert Split(t, sep) == [Split(t, sep)[0]] + Split(t, sep)[1..];
    } else {
      var y' := y[1..];
      forall k | 0 <= k < |y'| ensures !IsSepAt(sep, y'[k..] + t) {
        assert y'[k..] == y[k + 1..];
      }
      SplitNoSplitPoint(y', t, sep);
      assert y[0..] + t == [y[0]] + (y' + t);
      assert y + t == [y[0]] + (y' + t);
      SplitConsPiece(y[0], y' + t, sep, y' + Split(t, sep)[0], Split(t, sep)[1..]);
      assert [y[0]] + (y' + Split(t, sep)[0]) == y + Split(t, sep)[0];
    }
  }

  /** A string without the separator character holds no split point, whatever follows. */
  lemma SepFreeNoSplitPoint(x: string, t: string, sep: Separator)
    requires SepChar(sep) !in x
    ensures forall k :: 0 <= k < |x| ==> !IsSepAt(sep, x[k..] + t)
  {
    forall k | 0 <= k < |x| ensures !IsSepAt(sep, x[k..] + t) {
      assert (x[k..] + t)[0] == x[k];
    }
  }

  /** Splitting undoes joining, when no field holds the separator character. */
  lemma {:induction false} SplitOfJoin(fields: seq<string>, c: char)
    requires |fields| >= 1 && forall f :: f in fields ==> c !in f
    ensures Split(Join(fields, c), CharSep(c)) == fields
    decreases |fields|
  {
    var sep := CharSep(c);
    if |fields| == 1 {
      SplitNoSeparator(fields[0], sep);
    } else {
      var rest := fields[1..];
      assert forall f :: f in rest ==> f in fields;
      SplitOfJoin(rest, c);
      var t := [c] + Join(rest, c);
      SplitCons(c, Join(rest, c), sep);
      assert Split(t, sep) == [""] + rest;
      assert fields[0] in fields;
      SepFreeNoSplitPoint(fields[0], t, sep);
      SplitNoSplitPoint(fields[0], t, sep);
      assert fields[0] + [c] + Join(rest, c) == fields[0] + t;
      assert fields[0] + "" == fields[0];
      assert fields == [fields[0]] + rest;
    }
  }

  // ---------------------------------------------------------------------------------------
  // numbers in template literals
  // ---------------------------------------------------------------------------------------

  predicate IsDigit(c: char) {
    '0' <= c <= '9'
  }

  /** `${n}` for a non-negative integer: its decimal digits, without leading zeros. */
  function NatToString(n: nat): (r: string)
    ensures |r| >= 1 && forall c :: c in r ==> IsDigit(c)
    decreases n
  {
    var d := ('0' as int + n % 10) as char;
    if n < 10 then [d] else NatToString(n / 10) + [d]
  }

  /** The value of a string of decimal digits. */
  function DigitsValue(s: string): nat {
    if s == [] then 0
    else DigitsValue(s[..|s| - 1]) * 10 + (if IsDigit(s[|s| - 1]) then s[|s| - 1] as int - '0' as int else 0)
  }

  /** Reading the decimal rendering back gives the number. */
  lemma {:induction false} NatToStringRoundTrip(n: nat)
    ensures DigitsValue(NatToString(n)) == n
    decreases n
  {
    var s := NatToString(n);
    if n >= 10 {
      NatToStringRoundTrip(n / 10);
      assert s[..|s| - 1] == NatToString(n / 10);
    }
  }

  /** Different numbers render differently. */
  lemma NatToStringInjective(m: nat, n: nat)
    requires NatToString(m) == NatToString(n)
    ensures m == n
  {
    NatToStringRoundTrip(m);
    NatToStringRoundTrip(n);
  }
}
