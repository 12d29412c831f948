/**
 * How `fetchPortfolioData` reads a sheet: the published CSV text is split into lines, blank
 * lines are skipped, every other line is split into cleaned cells, and each sheet keeps the
 * rows it recognises, in order, remembering the raw line index of each.
 */
module SheetRows {
  import opened Wrappers
  import opened JsStrings
  import opened CsvText

  /** `fetchSafe`: the cleaned body of a successful response, `""` on any failure. */
  function FetchSafe(response: Option<string>): (r: string)
    ensures IsClean(r)
    ensures response.None? ==> r == ""
  {
    match response
    case None => ""
    case Some(body) => CleanString(body)
  }

  /** `if (text) text.split('\n')`: no lines at all for an empty text. */
  function Lines(text: string): (r: seq<string>)
    ensures text == "" <==> r == []
    ensures forall k :: 0 <= k < |r| ==> '\n' !in r[k]
  {
    if text == "" then []
    else
      var r := Split(text, CharSep('\n'));
      assert forall k :: 0 <= k < |r| ==> '\n' !in r[k] by {
        forall k | 0 <= k < |r| ensures '\n' !in r[k] { SplitCharFree(text, '\n', k); }
      }
      r
  }

  /** The cells of one line (`splitCSVLine(cleanString(line))`), or None for a blank line. */
  function Cells(line: string): (r: Option<seq<string>>)
    ensures r.Some? ==> |r.value| >= 1 && forall f :: f in r.value ==> IsClean(f)
    ensures r.None? <==> CleanString(line) == ""
  {
    var trimmed := CleanString(line);
    if trimmed == "" then None else Some(SplitCsvLine(trimmed))
  }

  /** A clean, non-empty line without `"` or `,` is a row of one cell: itself. */
  lemma PlainLineCells(line: string)
    requires line != "" && IsClean(line) && '"' !in line && ',' !in line
    ensures Cells(line) == Some([line])
  {
    CleanStringFixesClean(line);
    QuoteFreeLine(line);
    SplitNoSeparator(line, CharSep(','));
    var pieces := Split(line, CharSep(','));
    assert SplitCsvLine(line) == seq(|pieces|, i requires 0 <= i < |pieces| => CleanString(pieces[i]));
    assert SplitCsvLine(line)[0] == line && |SplitCsvLine(line)| == 1;
    assert SplitCsvLine(line) == [line];
    assert CleanString(line) == line;
  }

  /** `parts[i] || ""`: the cell, or the empty string past the end of the row. */
  function Field(parts: seq<string>, i: nat): (r: string)
    ensures i < |parts| ==> r == parts[i]
    ensures i >= |parts| ==> r == ""
  {
    if i < |parts| then parts[i] else ""
  }

  /** `parts[0].toLowerCase().replace(/:/g, '').trim()`: the key of a key/value row. */
  function SheetKey(cell: string): (r: string)
    ensures ':' !in r
    ensures forall c :: c in r ==> !IsUpper(c)
    ensures r == [] || (!IsWhitespace(r[0]) && !IsWhitespace(r[|r| - 1]))
  {
    Trim(RemoveAll(ToLower(cell), ':'))
  }

  /** A key already in that form is its own sheet key. */
  lemma SheetKeyFixes(key: string)
    requires ':' !in key && forall c :: c in key ==> !IsUpper(c)
    requires key == [] || (!IsWhitespace(key[0]) && !IsWhitespace(key[|key| - 1]))
    ensures SheetKey(key) == key
  {
    ToLowerFixesLower(key);
    RemoveAllAbsent(key, ':');
    TrimTrimmed(key);
  }

  /** Case does not matter: a cell and its lower-case form have the same key. */
  lemma SheetKeyIgnoresCase(cell: string)
    ensures SheetKey(ToLower(cell)) == SheetKey(cell)
  {
    ToLowerIdempotent(cell);
  }

  /** Every `:` is dropped, wherever it stands: one more colon gives the same key. */
  lemma SheetKeyIgnoresColons(x: string, y: string)
    ensures SheetKey(x + [':'] + y) == SheetKey(x + y)
  {
    var lx, ly := ToLower(x), ToLower(y);
    ToLowerAppend(x, [':'] + y);
    ToLowerAppend([':'], y);
    ToLowerAppend(x, y);
    assert x + [':'] + y == x + ([':'] + y);
    assert ToLower([':']) == [':'];
    assert ToLower(x + [':'] + y) == lx + ([':'] + ly);
    RemoveAllAppend(lx, [':'] + ly, ':');
    RemoveAllAppend([':'], ly, ':');
    assert RemoveAll([':'], ':') == [];
    RemoveAllAppend(lx, ly, ':');
    assert RemoveAll(ToLower(x + [':'] + y), ':') == RemoveAll(ToLower(x + y), ':');
  }

  /** `Nome:` is the key `nome`. */
  lemma SheetKeyExample()
    ensures SheetKey("Nome:") == "nome"
  {
    SheetKeyIgnoresColons("Nome", "");
    assert "Nome" + [':'] + "" == "Nome:" && "Nome" + "" == "Nome";
    assert ToLower("Nome") == "nome";
    SheetKeyIgnoresCase("Nome");
    SheetKeyFixes("nome");
  }

  /** `f` applied to every line. */
  function MapLines<T>(lines: seq<string>, f: string -> T): (r: seq<T>)
    ensures |r| == |lines|
    ensures forall i :: 0 <= i < |lines| ==> r[i] == f(lines[i])
  {
    seq(|lines|, i requires 0 <= i < |lines| => f(lines[i]))
  }

  /** One more line adds its image at the end. */
  lemma MapLinesSnoc<T>(lines: seq<string>, f: string -> T, i: nat)
    requires i < |lines|
    ensures MapLines(lines[..i + 1], f) == MapLines(lines[..i], f) + [f(lines[i])]
  {
    var a, b := MapLines(lines[..i + 1], f), MapLines(lines[..i], f);
    assert forall k :: 0 <= k < i ==> lines[..i + 1][k] == lines[..i][k];
    assert lines[..i + 1][i] == lines[i];
    assert a == b + [f(lines[i])];
  }

  // ---------------------------------------------------------------------------------------
  // keeping the recognised rows of a sheet
  // ---------------------------------------------------------------------------------------

  /**
   * `text.split('\n').forEach((line, index) => …push(…))`: the values `row` makes of the
   * lines, in line order; `row` sees each line with its index.
   */
  function Collect<T>(lines: seq<string>, row: (string, nat) -> Option<T>): (r: seq<T>)
    ensures |r| <= |lines|
  {
    if lines == [] then []
    else
      var n := |lines| - 1;
      Collect(lines[..n], row) + (match row(lines[n], n) case Some(x) => [x] case None => [])
  }

  /** One more line adds what `row` makes of it. */
  lemma CollectSnoc<T>(lines: seq<string>, row: (string, nat) -> Option<T>, i: nat)
    requires i < |lines|
    ensures Collect(lines[..i + 1], row) ==
      Collect(lines[..i], row) + (match row(lines[i], i) case Some(x) => [x] case None => [])
  {
    assert lines[..i + 1][..i] == lines[..i];
  }

  /** The indices of the lines `Collect` keeps, in order. */
  function KeptIndices<T>(lines: seq<string>, row: (string, nat) -> Option<T>): seq<nat> {
    if lines == [] then []
    else
      var n := |lines| - 1;
      KeptIndices(lines[..n], row) + (if row(lines[n], n).Some? then [n] else [])
  }

  predicate StrictlyIncreasing(ix: seq<nat>) {
    forall j, k :: 0 <= j < k < |ix| ==> ix[j] < ix[k]
  }

  /**
   * What `Collect` keeps, exactly: the k-th value is what `row` made of line `ix[k]`, the
   * indices ascend, and every line `row` accepts is among them.
   */
  lemma {:induction false} CollectKeepsRows<T>(lines: seq<string>, row: (string, nat) -> Option<T>)
    ensures var c, ix := Collect(lines, row), KeptIndices(lines, row);
      |ix| == |c| && StrictlyIncreasing(ix)
      && (forall k :: 0 <= k < |ix| ==> ix[k] < |lines| && row(lines[ix[k]], ix[k]) == Some(c[k]))
      && (forall i :: 0 <= i < |lines| && row(lines[i], i).Some? ==> i in ix)
  {
    if lines != [] {
      var n := |lines| - 1;
      var p := lines[..n];
      CollectKeepsRows(p, row);
      var c, ix := Collect(lines, row), KeptIndices(lines, row);
      var c', ix' := Collect(p, row), KeptIndices(p, row);
      assert forall k :: 0 <= k < |ix'| ==> ix'[k] < n;
      assert forall i :: 0 <= i < n ==> lines[i] == p[i];
      if row(lines[n], n).Some? {
        assert c == c' + [row(lines[n], n).value] && ix == ix' + [n];
      } else {
        assert c == c' && ix == ix';
      }
    }
  }

  /** The collected entries are exactly the entries of the sheet's lines. */
  lemma CollectMembers<T>(lines: seq<string>, row: (string, nat) -> Option<T>)
    ensures forall x :: x in Collect(lines, row) <==> exists i :: 0 <= i < |lines| && row(lines[i], i) == Some(x)
  {
    var c, ix := Collect(lines, row), KeptIndices(lines, row);
    CollectKeepsRows(lines, row);
    forall x ensures x in c <==> exists i :: 0 <= i < |lines| && row(lines[i], i) == Some(x) {
      if x in c {
        var k :| 0 <= k < |c| && c[k] == x;
        assert row(lines[ix[k]], ix[k]) == Some(x);
      }
      if i :| 0 <= i < |lines| && row(lines[i], i) == Some(x) {
        var k :| 0 <= k < |ix| && ix[k] == i;
        assert c[k] == x;
      }
    }
  }

  /** Values tagged with distinct line indices through an injective tag are distinct. */
  lemma TaggedDistinct(prefix: string, m: nat, n: nat)
    requires m != n
    ensures prefix + NatToString(m) != prefix + NatToString(n)
  {
    if prefix + NatToString(m) == prefix + NatToString(n) {
      assert (prefix + NatToString(m))[|prefix|..] == NatToString(m);
      assert (prefix + NatToString(n))[|prefix|..] == NatToString(n);
      NatToStringInjective(m, n);
    }
  }

  /**
   * When `row` tags every value with `prefix` and the line index, the values `Collect`
   * keeps carry pairwise distinct tags.
   */
  lemma CollectTagsDistinct<T>(lines: seq<string>, row: (string, nat) -> Option<T>, tag: T -> string, prefix: string)
    requires forall line, i :: row(line, i).Some? ==> tag(row(line, i).value) == prefix + NatToString(i)
    ensures var c := Collect(lines, row);
      forall j, k :: 0 <= j < k < |c| ==> tag(c[j]) != tag(c[k])
  {
    var c, ix := Collect(lines, row), KeptIndices(lines, row);
    CollectKeepsRows(lines, row);
    forall j, k | 0 <= j < k < |c| ensures tag(c[j]) != tag(c[k]) {
      assert row(lines[ix[j]], ix[j]) == Some(c[j]);
      assert row(lines[ix[k]], ix[k]) == Some(c[k]);
      TaggedDistinct(prefix, ix[j], ix[k]);
    }
  }
}
