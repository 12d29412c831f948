/**
 * The text helpers of `services/dataService.ts`: `cleanString`, `splitCSVLine` and
 * `normalizeUrl`. All three are pure and total.
 */
module CsvText {
  import opened Wrappers
  import opened JsStrings

  /** U+FEFF, the byte-order mark a CSV export may start with. */
  const Bom: char := '\U{FEFF}'
  /** U+FFFD, what a mis-decoded byte turns into. */
  const Replacement: char := '\U{FFFD}'

  /** A string `cleanString` leaves alone: no BOM, U+FFFD or CR, and trimmed. */
  predicate IsClean(s: string) {
    Bom !in s && Replacement !in s && '\r' !in s
    && (s == [] || (!IsWhitespace(s[0]) && !IsWhitespace(s[|s| - 1])))
  }

  // ---------------------------------------------------------------------------------------
  // cleanString
  // ---------------------------------------------------------------------------------------

  /**
   * The three characters `cleanString` deletes wherever they are; every other character
   * stays, as often as in `s` (`WithoutNoiseCounts`) and in order (`WithoutNoiseAppend`).
   */
  function WithoutNoise(s: string): (r: string)
    ensures Bom !in r && Replacement !in r && '\r' !in r
    ensures forall c :: c in r <==> c in s && c != Bom && c != Replacement && c != '\r'
    ensures |r| <= |s|
  {
    RemoveAll(RemoveAll(RemoveAll(s, Bom), Replacement), '\r')
  }

  /** Every character other than the three is kept as often as it occurs in `s`. */
  lemma WithoutNoiseCounts(s: string)
    ensures multiset(WithoutNoise(s)) == multiset(s)[Bom := 0][Replacement := 0]['\r' := 0]
  {
    RemoveAllCounts(s, Bom);
    RemoveAllCounts(RemoveAll(s, Bom), Replacement);
    RemoveAllCounts(RemoveAll(RemoveAll(s, Bom), Replacement), '\r');
  }

  /** Noise is removed piece by piece: what survives of `x + y` is what survives of each. */
  lemma WithoutNoiseAppend(x: string, y: string)
    ensures WithoutNoise(x + y) == WithoutNoise(x) + WithoutNoise(y)
  {
    RemoveAllAppend(x, y, Bom);
    RemoveAllAppend(RemoveAll(x, Bom), RemoveAll(y, Bom), Replacement);
    RemoveAllAppend(RemoveAll(RemoveAll(x, Bom), Replacement), RemoveAll(RemoveAll(y, Bom), Replacement), '\r');
  }

  /** `cleanString`: delete every BOM, U+FFFD and CR, then trim. */
  function CleanString(s: string): (r: string)
    ensures IsClean(r)
    ensures |r| <= |s| && forall c :: c in r ==> c in s
  {
    if s == [] then [] else Trim(WithoutNoise(s))
  }

  /** A clean string is a fixed point, so `cleanString` is idempotent. */
  lemma CleanStringFixesClean(s: string)
    requires IsClean(s)
    ensures CleanString(s) == s
  {
    RemoveAllAbsent(s, Bom);
    RemoveAllAbsent(s, Replacement);
    RemoveAllAbsent(s, '\r');
    TrimTrimmed(s);
  }

  lemma CleanStringIdempotent(s: string)
    ensures CleanString(CleanString(s)) == CleanString(s)
  {
    CleanStringFixesClean(CleanString(s));
  }

  /** `cleanString` deletes nothing else: every other non-blank character survives. */
  lemma CleanStringKeeps(s: string, c: char)
    requires c in s && c != Bom && c != Replacement && c != '\r' && !IsWhitespace(c)
    ensures c in CleanString(s)
  {
    var w := WithoutNoise(s);
    assert c in w;
    var i := TrimInfix(w);
    var k :| 0 <= k < |w| && w[k] == c;
    assert i <= k < i + |Trim(w)|;
    assert Trim(w)[k - i] == c;
  }

  // ---------------------------------------------------------------------------------------
  // splitCSVLine
  // ---------------------------------------------------------------------------------------

  /**
   * `p.replace(/^"|"$/g, '')`: a leading `"` and a trailing `"` are each removed when
   * present, independently of one another; quotes inside are kept.
   */
  function StripWrappingQuotes(p: string): (r: string)
    ensures |p| >= 2 && p[0] == '"' && p[|p| - 1] == '"' ==> r == p[1..|p| - 1]
    ensures |p| >= 1 && p[0] == '"' && (|p| == 1 || p[|p| - 1] != '"') ==> r == p[1..]
    ensures |p| >= 1 && p[0] != '"' && p[|p| - 1] == '"' ==> r == p[..|p| - 1]
    ensures (p == [] || (p[0] != '"' && p[|p| - 1] != '"')) ==> r == p
  {
    var a := if |p| > 0 && p[0] == '"' then p[1..] else p;
    if |a| > 0 && a[|a| - 1] == '"' then a[..|a| - 1] else a
  }

  /**
   * `splitCSVLine`: split at every comma followed by an even number of `"` in the rest of
   * the line, then remove the wrapping quotes of each piece and clean it.
   */
  function SplitCsvLine(line: string): (r: seq<string>)
    ensures |r| == SepCount(line, QuoteBalancedComma) + 1
    ensures forall f :: f in r ==> IsClean(f)
  {
    var pieces := Split(line, QuoteBalancedComma);
    seq(|pieces|, i requires 0 <= i < |pieces| => CleanString(StripWrappingQuotes(pieces[i])))
  }

  lemma {:induction false} QuoteCountAppend(a: string, b: string)
    ensures QuoteCount(a + b) == QuoteCount(a) + QuoteCount(b)
    decreases |a|
  {
    if a != [] {
      assert (a + b)[0] == a[0];
      assert (a + b)[1..] == a[1..] + b;
      QuoteCountAppend(a[1..], b);
      assert QuoteCount(a + b) == (if a[0] == '"' then 1 else 0) + QuoteCount(a[1..] + b);
    } else {
      assert a + b == b;
    }
  }

  /** The quote count of a quoted, quote-free field followed by `v`. */
  lemma QuotedFieldCount(x: string, v: string)
    requires '"' !in x
    ensures QuoteCount(x + (['"'] + v)) == 1 + QuoteCount(v)
  {
    QuoteFreeCount(x);
    QuoteCountAppend(x, ['"'] + v);
    assert (['"'] + v)[1..] == v;
  }

  /**
   * A comma inside a quoted field is not a split point when the rest of the line after
   * the field is quote-balanced (section 2, rule 6 of RFC 4180).
   */
  lemma QuotedCommaInside(x: string, v: string, j: nat)
    requires '"' !in x && j < |x| && x[j] == ','
    requires QuoteCount(v) % 2 == 0
    ensures !IsSepAt(QuoteBalancedComma, x[j..] + (['"'] + v))
  {
    var t := x[j..] + (['"'] + v);
    assert t[1..] == x[j + 1..] + (['"'] + v);
    assert '"' !in x[j + 1..] by {
      forall c | c in x[j + 1..] ensures c in x { }
    }
    QuotedFieldCount(x[j + 1..], v);
  }

  /** ... while the comma right before such a field is one. */
  lemma CommaBeforeQuoted(x: string, v: string)
    requires '"' !in x
    requires QuoteCount(v) % 2 == 0
    ensures IsSepAt(QuoteBalancedComma, [','] + (['"'] + (x + (['"'] + v))))
  {
    QuotedFieldCount(x, v);
    QuoteCountCons('"', x + (['"'] + v));
    assert ([','] + (['"'] + (x + (['"'] + v))))[1..] == ['"'] + (x + (['"'] + v));
  }

  /** On a line without `"`, `splitCSVLine` splits at every comma and only cleans the pieces. */
  lemma QuoteFreeLine(line: string)
    requires '"' !in line
    ensures var pieces := Split(line, CharSep(','));
      SplitCsvLine(line) == seq(|pieces|, i requires 0 <= i < |pieces| => CleanString(pieces[i]))
  {
    QuoteFreeSplit(line);
    var pieces := Split(line, CharSep(','));
    forall i | 0 <= i < |pieces| ensures '"' !in pieces[i] {
      SplitJoin(line, CharSep(','));
      JoinedPieceChars(pieces, ',', i);
    }
  }

  /** Every character of a piece occurs in the joined string. */
  lemma {:induction false} JoinedPieceChars(pieces: seq<string>, c: char, i: nat)
    requires i < |pieces|
    ensures forall x :: x in pieces[i] ==> x in Join(pieces, c)
  {
    if |pieces| > 1 {
      if i > 0 {
        JoinedPieceChars(pieces[1..], c, i - 1);
      }
    }
  }

  /** A quote-free `y` followed by an odd number of quotes holds no split point. */
  lemma QuotedNoSplitPoint(y: string, t: string)
    requires '"' !in y && QuoteCount(t) % 2 == 1
    ensures forall k :: 0 <= k < |y| ==> !IsSepAt(QuoteBalancedComma, y[k..] + t)
  {
    forall k | 0 <= k < |y| ensures !IsSepAt(QuoteBalancedComma, y[k..] + t) {
      assert (y[k..] + t)[1..] == y[k + 1..] + t;
      assert '"' !in y[k + 1..] by {
        forall c | c in y[k + 1..] ensures c in y { }
      }
      QuoteFreeCount(y[k + 1..]);
      QuoteCountAppend(y[k + 1..], t);
    }
  }

  /** A clean field without quotes comes back as it is, bare or wrapped in quotes. */
  lemma CleanUnquoted(f: string, g: string)
    requires IsClean(f) && '"' !in f
    requires g == f || g == ['"'] + f + ['"']
    ensures CleanString(StripWrappingQuotes(g)) == f
  {
    if f != [] {
      assert f[0] in f && f[|f| - 1] in f;
    }
    assert StripWrappingQuotes(g) == f;
    CleanStringFixesClean(f);
  }

  /** The tail `"y",z` of such a line: two pieces, and an even number of quotes. */
  lemma QuotedTail(y: string, z: string)
    requires '"' !in y && '"' !in z && ',' !in z
    ensures var t := ['"'] + (y + (['"'] + ([','] + z)));
      Split(t, QuoteBalancedComma) == [['"'] + y + ['"'], z] && QuoteCount(t) == 2
  {
    var sep := QuoteBalancedComma;
    var t3 := [','] + z;
    var t2 := ['"'] + t3;
    var r1 := y + t2;
    SplitNoSeparator(z, sep);
    QuoteFreeCount(z);
    QuoteCountCons(',', z);
    SplitCons(',', z, sep);
    assert Split(t3, sep) == [""] + [z];
    SplitConsPiece('"', t3, sep, "", [z]);
    assert ['"'] + "" == ['"'];
    QuoteCountCons('"', t3);
    QuotedNoSplitPoint(y, t2);
    SplitNoSplitPoint(y, t2, sep);
    assert Split(r1, sep) == [y + ['"']] + [z];
    SplitConsPiece('"', r1, sep, y + ['"'], [z]);
    assert ['"'] + (y + ['"']) == ['"'] + y + ['"'];
    QuoteFreeCount(y);
    QuoteCountAppend(y, t2);
    QuoteCountCons('"', r1);
  }

  /** The pieces of `x,"y",z`: the commas inside the quotes are not split points. */
  lemma QuotedLinePieces(x: string, y: string, z: string)
    requires '"' !in x && '"' !in y && '"' !in z && ',' !in x && ',' !in z
    ensures Split(x + [','] + ['"'] + y + ['"'] + [','] + z, QuoteBalancedComma)
      == [x, ['"'] + y + ['"'], z]
  {
    var sep := QuoteBalancedComma;
    var t1 := ['"'] + (y + (['"'] + ([','] + z)));
    var t0 := [','] + t1;
    assert x + t0 == x + [','] + ['"'] + y + ['"'] + [','] + z;
    QuotedTail(y, z);
    QuoteCountCons(',', t1);
    SplitCons(',', t1, sep);
    assert Split(t0, sep) == [""] + [['"'] + y + ['"'], z];
    SepFreeNoSplitPoint(x, t0, sep);
    SplitNoSplitPoint(x, t0, sep);
    assert x + "" == x;
  }

  /** `splitCSVLine` on a line of three pieces that each clean to the given field. */
  lemma ThreeFields(line: string, p0: string, p1: string, p2: string, f0: string, f1: string, f2: string)
    requires Split(line, QuoteBalancedComma) == [p0, p1, p2]
    requires CleanString(StripWrappingQuotes(p0)) == f0
    requires CleanString(StripWrappingQuotes(p1)) == f1
    requires CleanString(StripWrappingQuotes(p2)) == f2
    ensures SplitCsvLine(line) == [f0, f1, f2]
  {
  }

  /**
   * Section 2, rule 6 of RFC 4180: a field enclosed in double quotes may hold commas.
   * `x,"y",z` gives the three fields `x`, `y` and `z`, for clean fields without `"` and
   * commas in `y` only.
   */
  lemma QuotedFieldLine(x: string, y: string, z: string)
    requires IsClean(x) && IsClean(y) && IsClean(z)
    requires '"' !in x && '"' !in y && '"' !in z && ',' !in x && ',' !in z
    ensures SplitCsvLine(x + [','] + ['"'] + y + ['"'] + [','] + z) == [x, y, z]
  {
    var q := ['"'] + y + ['"'];
    QuotedLinePieces(x, y, z);
    CleanUnquoted(x, x);
    CleanUnquoted(y, q);
    CleanUnquoted(z, z);
    ThreeFields(x + [','] + ['"'] + y + ['"'] + [','] + z, x, q, z, x, y, z);
  }

  /** The example `a,"b,c",d` gives the three fields `a`, `b,c` and `d`. */
  lemma {:induction false} SplitCsvLineExample(line: string)
    requires line == "a,\"b,c\",d"
    ensures SplitCsvLine(line) == ["a", "b,c", "d"]
  {
    var a, bc, d := "a", "b,c", "d";
    assert line == a + [','] + ['"'] + bc + ['"'] + [','] + d;
    QuotedFieldLine(a, bc, d);
  }

  // ---------------------------------------------------------------------------------------
  // normalizeUrl
  // ---------------------------------------------------------------------------------------

  const DriveHost := "drive.google.com"
  const OneDriveHost := "onedrive.live.com"
  /** Where a Drive file is served directly: `https://lh3.googleusercontent.com/d/<id>`. */
  const DirectPrefix := "https://lh3.googleusercontent.com/d/"

  /** `[a-zA-Z0-9_-]`. */
  predicate IsIdChar(c: char) {
    'a' <= c <= 'z' || 'A' <= c <= 'Z' || '0' <= c <= '9' || c == '_' || c == '-'
  }

  /** `/\/d\/([a-zA-Z0-9_-]+)/` can match at index `q`. */
  predicate SlashDAt(s: string, q: nat) {
    q + 3 < |s| && s[q] == '/' && s[q + 1] == 'd' && s[q + 2] == '/' && IsIdChar(s[q + 3])
  }

  /** `/[?&]id=([a-zA-Z0-9_-]+)/` can match at index `q`. */
  predicate IdParamAt(s: string, q: nat) {
    q + 4 < |s| && (s[q] == '?' || s[q] == '&') && s[q + 1] == 'i' && s[q + 2] == 'd'
    && s[q + 3] == '=' && IsIdChar(s[q + 4])
  }

  /** The leftmost match of the `/d/` pattern at or after `from`. */
  function FindSlashD(s: string, from: nat): (r: Option<nat>)
    ensures r.Some? ==> from <= r.value && SlashDAt(s, r.value)
    ensures r.Some? ==> forall j :: from <= j < r.value ==> !SlashDAt(s, j)
    ensures r.None? ==> forall j :: from <= j ==> !SlashDAt(s, j)
    decreases |s| - from
  {
    if from + 3 >= |s| then None
    else if SlashDAt(s, from) then Some(from)
    else FindSlashD(s, from + 1)
  }

  /** The leftmost match of the `id=` pattern at or after `from`. */
  function FindIdParam(s: string, from: nat): (r: Option<nat>)
    ensures r.Some? ==> from <= r.value && IdParamAt(s, r.value)
    ensures r.Some? ==> forall j :: from <= j < r.value ==> !IdParamAt(s, j)
    ensures r.None? ==> forall j :: from <= j ==> !IdParamAt(s, j)
    decreases |s| - from
  {
    if from + 4 >= |s| then None
    else if IdParamAt(s, from) then Some(from)
    else FindIdParam(s, from + 1)
  }

  /** What the greedy group `([a-zA-Z0-9_-]+)` captures from the start of `t`. */
  function IdRun(t: string): (r: string)
    ensures |r| <= |t| && r == t[..|r|]
    ensures forall c :: c in r ==> IsIdChar(c)
    ensures |r| < |t| ==> !IsIdChar(t[|r|])
  {
    if t != [] && IsIdChar(t[0]) then [t[0]] + IdRun(t[1..]) else []
  }

  /**
   * The Drive file id: the `/d/<id>` form is tried first, then `?id=<id>` / `&id=<id>`.
   * An id is never empty, and there is none exactly when neither pattern matches anywhere.
   */
  function DriveFileId(url: string): (r: Option<string>)
    ensures r.Some? ==> r.value != "" && forall c :: c in r.value ==> IsIdChar(c)
    ensures r.None? <==> forall j :: 0 <= j ==> !SlashDAt(url, j) && !IdParamAt(url, j)
  {
    match FindSlashD(url, 0)
    case Some(q) => Some(IdRun(url[q + 3..]))
    case None =>
      match FindIdParam(url, 0)
      case Some(q) => Some(IdRun(url[q + 4..]))
      case None => None
  }

  /** The first step of `normalizeUrl`: clean, then delete every `"` and `'`. */
  function Unquoted(raw: string): (r: string)
    ensures '"' !in r && '\'' !in r
  {
    RemoveAll(RemoveAll(CleanString(raw), '"'), '\'')
  }

  /**
   * The OneDrive rules, in order: `view.aspx` to `download`, embed links kept, `redir=0` to
   * `redir=1`. A link with neither `view.aspx` nor `redir=0` is kept, and no rule lengthens one.
   */
  function OneDriveLink(url: string): (r: string)
    ensures !Contains(url, "view.aspx") && !Contains(url, "redir=0") ==> r == url
    ensures Contains(url, "view.aspx") ==> |r| == |url| - 1
    ensures |r| <= |url|
  {
    if Contains(url, "view.aspx") then ReplaceFirst(url, "view.aspx", "download")
    else if Contains(url, "embed") then url
    else ReplaceFirst(url, "redir=0", "redir=1")
  }

  /** The Drive id `normalizeUrl` rewrites to, if any: only Drive links have one. */
  function DriveRewrite(url: string): (r: Option<string>)
    ensures r.Some? ==> Contains(url, DriveHost) && r.value != "" && forall c :: c in r.value ==> IsIdChar(c)
    ensures Contains(url, DriveHost) ==> r == DriveFileId(url)
  {
    if Contains(url, DriveHost) then DriveFileId(url) else None
  }

  /** `normalizeUrl`: a directly embeddable image URL, or the cleaned link unchanged. */
  function NormalizeUrl(raw: string): (r: string)
    ensures raw == "" ==> r == ""
  {
    if raw == "" then ""
    else
      var url := Unquoted(raw);
      match DriveRewrite(url)
      case Some(id) => DirectPrefix + id
      case None => if Contains(url, OneDriveHost) then OneDriveLink(url) else url
  }

  /** The empty string mentions no host, so every lemma below concerns a non-empty input. */
  lemma EmptyUnquoted()
    ensures Unquoted("") == ""
    ensures !Contains("", DriveHost) && !Contains("", OneDriveHost)
  {
  }

  lemma OneDriveLinkUnquoted(url: string)
    requires '"' !in url && '\'' !in url
    ensures '"' !in OneDriveLink(url) && '\'' !in OneDriveLink(url)
  {
    ReplaceFirstChars(url, "view.aspx", "download");
    ReplaceFirstChars(url, "redir=0", "redir=1");
  }

  /** All quote characters are gone from the result, not only the surrounding ones. */
  lemma NormalizeUrlUnquoted(raw: string)
    ensures '"' !in NormalizeUrl(raw) && '\'' !in NormalizeUrl(raw)
  {
    if raw != "" {
      var url := Unquoted(raw);
      OneDriveLinkUnquoted(url);
      if DriveRewrite(url).Some? {
        var id := DriveRewrite(url).value;
        DirectLinkChars(id);
        UrlCharsClean(DirectPrefix + id);
      }
    }
  }

  /** A link to neither Drive nor OneDrive comes back cleaned and unquoted, nothing more. */
  lemma NormalizeUrlOther(raw: string)
    requires !Contains(Unquoted(raw), DriveHost) && !Contains(Unquoted(raw), OneDriveHost)
    ensures NormalizeUrl(raw) == Unquoted(raw)
  {
    EmptyUnquoted();
  }

  /** On a Drive link with a `/d/<id>` match, the leftmost one gives the id, whatever follows. */
  lemma NormalizeUrlDrivePath(raw: string, q: nat)
    requires Contains(Unquoted(raw), DriveHost)
    requires SlashDAt(Unquoted(raw), q) && forall j :: 0 <= j < q ==> !SlashDAt(Unquoted(raw), j)
    ensures NormalizeUrl(raw) == DirectPrefix + IdRun(Unquoted(raw)[q + 3..])
  {
    EmptyUnquoted();
    var found := FindSlashD(Unquoted(raw), 0);
    assert found.Some? && found.value == q;
  }

  /** Without a `/d/` match, the leftmost `?id=` or `&id=` gives the id. */
  lemma DriveFileIdQuery(url: string, q: nat)
    requires forall j :: 0 <= j ==> !SlashDAt(url, j)
    requires IdParamAt(url, q) && forall j :: 0 <= j < q ==> !IdParamAt(url, j)
    ensures DriveFileId(url) == Some(IdRun(url[q + 4..]))
  {
    assert FindSlashD(url, 0).None?;
    var found := FindIdParam(url, 0);
    assert found.Some? && found.value == q;
  }

  lemma NormalizeUrlDriveQuery(raw: string, q: nat)
    requires Contains(Unquoted(raw), DriveHost)
    requires forall j :: 0 <= j ==> !SlashDAt(Unquoted(raw), j)
    requires IdParamAt(Unquoted(raw), q) && forall j :: 0 <= j < q ==> !IdParamAt(Unquoted(raw), j)
    ensures NormalizeUrl(raw) == DirectPrefix + IdRun(Unquoted(raw)[q + 4..])
  {
    EmptyUnquoted();
    DriveFileIdQuery(Unquoted(raw), q);
  }

  /** A Drive link in which neither pattern matches falls through, unrewritten. */
  lemma NormalizeUrlDriveNoId(raw: string)
    requires forall j :: 0 <= j ==> !SlashDAt(Unquoted(raw), j) && !IdParamAt(Unquoted(raw), j)
    ensures NormalizeUrl(raw) ==
      if Contains(Unquoted(raw), OneDriveHost) then OneDriveLink(Unquoted(raw)) else Unquoted(raw)
  {
    var url := Unquoted(raw);
    assert FindSlashD(url, 0).None?;
    assert FindIdParam(url, 0).None?;
  }

  /** The three OneDrive cases, in order; each replacement touches the first occurrence only. */
  lemma OneDriveLinkCases(url: string, i: nat)
    ensures OccursAt(url, "view.aspx", i) && (forall j :: 0 <= j < i ==> !OccursAt(url, "view.aspx", j))
        ==> OneDriveLink(url) == url[..i] + "download" + url[i + 9..]
    ensures !Contains(url, "view.aspx") && Contains(url, "embed") ==> OneDriveLink(url) == url
    ensures !Contains(url, "view.aspx") && !Contains(url, "embed")
         && OccursAt(url, "redir=0", i) && (forall j :: 0 <= j < i ==> !OccursAt(url, "redir=0", j))
        ==> OneDriveLink(url) == url[..i] + "redir=1" + url[i + 7..]
    ensures !Contains(url, "view.aspx") && !Contains(url, "embed") && !Contains(url, "redir=0")
        ==> OneDriveLink(url) == url
  {
    if OccursAt(url, "view.aspx", i) && (forall j :: 0 <= j < i ==> !OccursAt(url, "view.aspx", j)) {
      FirstOccurrence(url, "view.aspx", i);
    }
    if OccursAt(url, "redir=0", i) && (forall j :: 0 <= j < i ==> !OccursAt(url, "redir=0", j)) {
      FirstOccurrence(url, "redir=0", i);
    }
  }

  /** A OneDrive link that is not also a Drive link with an id goes through the OneDrive rules. */
  lemma NormalizeUrlOneDrive(raw: string)
    requires DriveRewrite(Unquoted(raw)).None? && Contains(Unquoted(raw), OneDriveHost)
    ensures NormalizeUrl(raw) == OneDriveLink(Unquoted(raw))
  {
    EmptyUnquoted();
  }

  // --- the direct link is a fixed point -------------------------------------------------

  /** The characters a direct link is made of. */
  predicate IsUrlChar(c: char) {
    IsIdChar(c) || c == ':' || c == '/' || c == '.'
  }

  /** A direct link is made of URL characters, and its only dots are the two of its host name. */
  lemma DirectLinkChars(id: string)
    requires forall c :: c in id ==> IsIdChar(c)
    ensures forall k :: 0 <= k < |DirectPrefix + id| ==> IsUrlChar((DirectPrefix + id)[k])
    ensures forall k :: 0 <= k < |DirectPrefix + id| && (DirectPrefix + id)[k] == '.' ==> k == 11 || k == 29
  {
    var url := DirectPrefix + id;
    forall k | |DirectPrefix| <= k < |url| ensures IsIdChar(url[k]) {
      assert url[k] == id[k - |DirectPrefix|];
      assert url[k] in id;
    }
    forall k | 0 <= k < |DirectPrefix| ensures IsUrlChar(url[k]) && (url[k] == '.' ==> k == 11 || k == 29) {
      assert url[k] == DirectPrefix[k];
    }
  }

  /** A string whose dots stand 18 apart contains no pattern with two dots a different distance apart. */
  lemma DotGapExcludes(s: string, p: string, a: nat, b: nat)
    requires a < b < |p| && p[a] == '.' && p[b] == '.' && b - a != 18
    requires forall k :: 0 <= k < |s| && s[k] == '.' ==> k == 11 || k == 29
    ensures !Contains(s, p)
  {
    forall i: nat ensures !OccursAt(s, p, i) {
      OccursAtChars(s, p, i);
    }
  }

  /** A direct link mentions neither Drive nor OneDrive: their dots are 7 and 5 apart. */
  lemma DirectLinkHosts(id: string)
    requires forall c :: c in id ==> IsIdChar(c)
    ensures !Contains(DirectPrefix + id, DriveHost)
    ensures !Contains(DirectPrefix + id, OneDriveHost)
  {
    DirectLinkChars(id);
    assert DriveHost[5] == '.' && DriveHost[12] == '.';
    DotGapExcludes(DirectPrefix + id, DriveHost, 5, 12);
    assert OneDriveHost[8] == '.' && OneDriveHost[13] == '.';
    DotGapExcludes(DirectPrefix + id, OneDriveHost, 8, 13);
  }

  /** A non-empty string of URL characters is clean and unquoted. */
  lemma UrlCharsClean(s: string)
    requires s != [] && forall k :: 0 <= k < |s| ==> IsUrlChar(s[k])
    ensures IsClean(s) && '"' !in s && '\'' !in s
  {
  }

  /** `normalizeUrl` leaves a direct link `https://lh3.googleusercontent.com/d/<id>` as it is. */
  lemma DirectLinkFixedPoint(id: string)
    requires id != [] && forall c :: c in id ==> IsIdChar(c)
    ensures NormalizeUrl(DirectPrefix + id) == DirectPrefix + id
  {
    var url := DirectPrefix + id;
    DirectLinkChars(id);
    UrlCharsClean(url);
    CleanStringFixesClean(url);
    RemoveAllAbsent(url, '"');
    RemoveAllAbsent(url, '\'');
    assert Unquoted(url) == url;
    DirectLinkHosts(id);
  }

  /** Whenever `normalizeUrl` rewrites a Drive link, applying it again changes nothing. */
  lemma NormalizeUrlDriveIdempotent(raw: string)
    requires DriveRewrite(Unquoted(raw)).Some?
    ensures NormalizeUrl(NormalizeUrl(raw)) == NormalizeUrl(raw)
  {
    EmptyUnquoted();
    var url := Unquoted(raw);
    var id := DriveRewrite(url).value;
    DirectLinkFixedPoint(id);
  }
}
