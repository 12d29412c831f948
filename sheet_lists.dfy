/**
 * The sheets that produce lists: the technologies sheet (skills), the about sheet
 * (education, certifications, courses) and the projects sheet. Each line becomes at most
 * one entry; entries carry an id made from the line's raw index.
 */
module SheetLists {
  import opened Wrappers
  import opened JsStrings
  import opened JsArrays
  import opened Types
  import opened CsvText
  import opened SheetRows

  // ---------------------------------------------------------------------------------------
  // technologies sheet
  // ---------------------------------------------------------------------------------------

  /** Header and profile words that are not skills, compared lower-cased. */
  const IgnoredSkillKeys: seq<string> := ["avatar", "banner", "bio", "name", "nome", "role", "cargo",
    "linkedin", "github", "email", "social", "technologies", "tecnologias", "key", "value", "sobre"]

  /** The skill one line names: its first cell, unless empty or an ignored word. */
  function SkillRow(line: string, index: nat): (r: Option<string>)
    ensures r.Some? ==> r.value != "" && IsClean(r.value) && ToLower(r.value) !in IgnoredSkillKeys
    ensures r.Some? <==> Cells(line).Some? && Cells(line).value[0] != "" && ToLower(Cells(line).value[0]) !in IgnoredSkillKeys
    ensures r.Some? ==> r.value == Cells(line).value[0]
  {
    match Cells(line)
    case None => None
    case Some(parts) =>
      var possibleSkill := parts[0];
      if possibleSkill != "" && ToLower(possibleSkill) !in IgnoredSkillKeys then Some(possibleSkill) else None
  }

  /** `Array.from(new Set(newSkills))` over the technologies sheet. */
  function Skills(lines: seq<string>): (r: seq<string>)
    ensures NoDuplicates(r)
    ensures forall s :: s in r <==> s in Collect(lines, SkillRow)
  {
    Dedup(Collect(lines, SkillRow))
  }

  /**
   * The skills are the distinct first cells of the technologies sheet that are not ignored
   * words, each once, in the order they first appear.
   */
  lemma {:induction false} SkillsOfSheet(lines: seq<string>)
    ensures NoDuplicates(Skills(lines))
    ensures forall s :: s in Skills(lines) <==> exists i :: 0 <= i < |lines| && SkillRow(lines[i], i) == Some(s)
    ensures forall s :: s in Skills(lines) ==> s != "" && ToLower(s) !in IgnoredSkillKeys
    ensures var raw := Collect(lines, SkillRow);
      forall j, k :: 0 <= j < k < |Skills(lines)| ==> FirstIndex(raw, Skills(lines)[j]) < FirstIndex(raw, Skills(lines)[k])
  {
    CollectMembers(lines, SkillRow);
    DedupKeepsFirstOccurrenceOrder(Collect(lines, SkillRow));
  }

  /** One plain word per line: whether its line names a skill. */
  predicate PlainWord(w: string) {
    w != "" && IsClean(w) && '"' !in w && ',' !in w
  }

  /**
   * Lines `x`, `k`, `y`, `x` where `k` is an ignored word (say `avatar`) give the skills
   * `x`, `y`: ignored words are dropped and a repeated skill is kept once, where it first
   * appears.
   */
  lemma SkillsExample(x: string, k: string, y: string)
    requires PlainWord(x) && PlainWord(k) && PlainWord(y) && x != y
    requires ToLower(x) !in IgnoredSkillKeys && ToLower(y) !in IgnoredSkillKeys
    requires ToLower(k) in IgnoredSkillKeys
    ensures Skills([x, k, y, x]) == [x, y]
  {
    PlainSkillRow(x, 0);
    IgnoredSkillRow(k, 1);
    PlainSkillRow(y, 2);
    PlainSkillRow(x, 3);
    CollectDedupExample(x, k, y, SkillRow, x, y);
  }

  /**
   * `Collect` over lines `x`, `k`, `y`, `x` where the row keeps `x` and `y` and drops `k`,
   * followed by `Array.from(new Set(...))`: `x`, `y`.
   */
  lemma CollectDedupExample<T(!new)>(x: string, k: string, y: string, row: (string, nat) -> Option<T>, u: T, v: T)
    requires row(x, 0) == Some(u) && row(k, 1) == None && row(y, 2) == Some(v) && row(x, 3) == Some(u)
    requires u != v
    ensures Dedup(Collect([x, k, y, x], row)) == [u, v]
  {
    var lines := [x, k, y, x];
    var l3 := lines[..3];
    var l2 := l3[..2];
    var l1 := l2[..1];
    assert l1[..0] == [];
    assert Collect(l1, row) == [u];
    assert Collect(l2, row) == [u];
    assert Collect(l3, row) == [u, v];
    assert Collect(lines, row) == [u, v, u];
    DedupExample(u, v);
  }

  /** A plain word that is not an ignored word is a skill. */
  lemma PlainSkillRow(w: string, index: nat)
    requires PlainWord(w) && ToLower(w) !in IgnoredSkillKeys
    ensures SkillRow(w, index) == Some(w)
  {
    PlainLineCells(w);
  }

  /** A plain word that is an ignored word is not. */
  lemma IgnoredSkillRow(w: string, index: nat)
    requires PlainWord(w) && ToLower(w) in IgnoredSkillKeys
    ensures SkillRow(w, index) == None
  {
    PlainLineCells(w);
  }

  /** The skills are a subsequence of the kept first cells. */
  lemma SkillsSubsequence(lines: seq<string>) returns (idx: seq<nat>)
    ensures SubsequenceAt(Skills(lines), Collect(lines, SkillRow), idx)
  {
    idx := DedupSubsequence(Collect(lines, SkillRow));
  }

  // ---------------------------------------------------------------------------------------
  // about sheet
  // ---------------------------------------------------------------------------------------

  /** `parts[0].toLowerCase().normalize("NFD").replace(/[̀-ͯ]/g, "")`. */
  function Discriminator(cell: string): (r: string)
    ensures forall c :: c in r ==> !IsUpper(c) && !IsCombiningMark(c)
    ensures |r| <= |cell|
  {
    StripAccents(ToLower(cell))
  }

  /** A non-blank line of at least two cells whose folded first cell is `kind`. */
  predicate IsAboutRow(line: string, kind: string)
    ensures IsAboutRow(line, kind) ==> Cells(line).Some? && |Cells(line).value| >= 2 && |kind| <= |Cells(line).value[0]|
    ensures IsAboutRow(line, kind) ==> forall c :: c in kind ==> !IsUpper(c) && !IsCombiningMark(c)
  {
    Cells(line).Some? && |Cells(line).value| >= 2 && Discriminator(Cells(line).value[0]) == kind
  }

  /** A `formacao` row: degree, institution and period from cells 2–4, `""` where missing. */
  function EducationRow(line: string, index: nat): (r: Option<Education>)
    ensures r.Some? <==> IsAboutRow(line, "formacao")
    ensures r.Some? ==> var parts := Cells(line).value;
      r.value == Education("edu-sheet-" + NatToString(index), Field(parts, 1), Field(parts, 2), Field(parts, 3))
  {
    match Cells(line)
    case None => None
    case Some(parts) =>
      if |parts| >= 2 && Discriminator(parts[0]) == "formacao"
      then Some(Education("edu-sheet-" + NatToString(index), Field(parts, 1), Field(parts, 2), Field(parts, 3)))
      else None
  }

  /** A `certificacao` row: name, issuer and year from cells 2–4, `""` where missing. */
  function CertificationRow(line: string, index: nat): (r: Option<Certification>)
    ensures r.Some? <==> IsAboutRow(line, "certificacao")
    ensures r.Some? ==> var parts := Cells(line).value;
      r.value == Certification("cert-sheet-" + NatToString(index), Field(parts, 1), Field(parts, 2), Field(parts, 3))
  {
    match Cells(line)
    case None => None
    case Some(parts) =>
      if |parts| >= 2 && Discriminator(parts[0]) == "certificacao"
      then Some(Certification("cert-sheet-" + NatToString(index), Field(parts, 1), Field(parts, 2), Field(parts, 3)))
      else None
  }

  /** A `curso` row: title, institution and year from cells 2–4, `""` where missing. */
  function CourseRow(line: string, index: nat): (r: Option<Course>)
    ensures r.Some? <==> IsAboutRow(line, "curso")
    ensures r.Some? ==> var parts := Cells(line).value;
      r.value == Course("course-sheet-" + NatToString(index), Field(parts, 1), Field(parts, 2), Field(parts, 3))
  {
    match Cells(line)
    case None => None
    case Some(parts) =>
      if |parts| >= 2 && Discriminator(parts[0]) == "curso"
      then Some(Course("course-sheet-" + NatToString(index), Field(parts, 1), Field(parts, 2), Field(parts, 3)))
      else None
  }

  /**
   * A row lands in at most one of the three lists, and in none when its discriminator is
   * none of the three words.
   */
  lemma AboutRowKinds(line: string, index: nat)
    ensures !(EducationRow(line, index).Some? && CertificationRow(line, index).Some?)
    ensures !(EducationRow(line, index).Some? && CourseRow(line, index).Some?)
    ensures !(CertificationRow(line, index).Some? && CourseRow(line, index).Some?)
    ensures Cells(line).Some? && |Cells(line).value| >= 2
        && Discriminator(Cells(line).value[0]) !in {"formacao", "certificacao", "curso"}
        ==> EducationRow(line, index).None? && CertificationRow(line, index).None? && CourseRow(line, index).None?
  {
  }

  /** The education, certification and course lists each have pairwise distinct ids. */
  lemma AboutIdsDistinct(lines: seq<string>)
    ensures var es := Collect(lines, EducationRow);
      forall j, k :: 0 <= j < k < |es| ==> es[j].id != es[k].id
    ensures var cs := Collect(lines, CertificationRow);
      forall j, k :: 0 <= j < k < |cs| ==> cs[j].id != cs[k].id
    ensures var os := Collect(lines, CourseRow);
      forall j, k :: 0 <= j < k < |os| ==> os[j].id != os[k].id
  {
    CollectTagsDistinct(lines, EducationRow, (e: Education) => e.id, "edu-sheet-");
    CollectTagsDistinct(lines, CertificationRow, (c: Certification) => c.id, "cert-sheet-");
    CollectTagsDistinct(lines, CourseRow, (c: Course) => c.id, "course-sheet-");
  }

  /** Without separate combining marks, stripping accents maps each letter to its base. */
  lemma {:induction false} StripPrecomposed(s: string)
    requires forall k :: 0 <= k < |s| ==> !IsCombiningMark(s[k])
    ensures StripAccents(s) == seq(|s|, k requires 0 <= k < |s| => BaseLetter(s[k]))
  {
    if s != [] {
      StripPrecomposed(s[1..]);
    }
  }

  /** The plain spelling is recognised as well as the accented one. */
  lemma DiscriminatorPlain(cell: string)
    requires cell == "Formacao"
    ensures Discriminator(cell) == "formacao"
  {
    var t := ToLower(cell);
    assert t == "formacao";
    StripPrecomposed(t);
  }

  /**
   * A separate combining mark anywhere in the cell is ignored, so a spelling whose accents
   * are combining marks (`c` + U+0327 for `ç`) reads like the plain one.
   */
  lemma DiscriminatorIgnoresMark(x: string, m: char, y: string)
    requires IsCombiningMark(m)
    ensures Discriminator(x + [m] + y) == Discriminator(x + y)
  {
    ToLowerAppend(x + [m], y);
    ToLowerAppend(x, [m]);
    ToLowerAppend(x, y);
    assert ToLower([m]) == [m];
    StripAccentsAppend(ToLower(x) + [m], ToLower(y));
    StripAccentsAppend(ToLower(x), [m]);
    StripAccentsAppend(ToLower(x), ToLower(y));
    assert StripAccents([m]) == [];
    assert StripAccents(ToLower(x)) + [] == StripAccents(ToLower(x));
  }

  /** Case never matters: a cell and its lower-case form have the same discriminator. */
  lemma DiscriminatorIgnoresCase(cell: string)
    ensures Discriminator(ToLower(cell)) == Discriminator(cell)
  {
    ToLowerIdempotent(cell);
  }

  /** The discriminator ignores case and accents: “Formação” is a `formacao` row. */
  lemma DiscriminatorFoldsAccents(cell: string)
    requires cell == "Formação"
    ensures Discriminator(cell) == "formacao"
  {
    var t := ToLower(cell);
    assert t == "formação";
    StripPrecomposed(t);
  }

  // ---------------------------------------------------------------------------------------
  // projects sheet
  // ---------------------------------------------------------------------------------------

  /** The thumbnail of a project without any image. */
  const Placeholder := "https://placehold.co/600x400?text=No+Image"

  /** `title.toLowerCase().replace(':', '').trim() === 'title'`: the header row. */
  predicate IsTitleHeader(title: string)
    ensures IsTitleHeader(title) ==> |title| >= 5
    ensures ToLower(title) == "title" ==> IsTitleHeader(title)
  {
    var key := ToLower(title);
    if key == "title" then
      assert !Contains(key, ":");
      TrimTrimmed(key);
      Trim(ReplaceFirst(key, ":", "")) == "title"
    else
      Trim(ReplaceFirst(key, ":", "")) == "title"
  }

  /** Removing the first `:` of `t:u`, where `t` has none, gives `tu`. */
  lemma RemoveFirstColon(t: string, u: string)
    requires ':' !in t
    ensures ReplaceFirst(t + [':'] + u, ":", "") == t + u
  {
    var s := t + [':'] + u;
    assert s[|t|..|t| + 1] == ":";
    forall j | 0 <= j < |t| ensures !OccursAt(s, ":", j) {
      assert s[j..j + 1][0] == t[j];
    }
    FirstOccurrence(s, ":", |t|);
    assert s[..|t|] == t && s[|t| + 1..] == u;
  }

  /** Only the first `:` of a title is removed before it is compared with `title`. */
  lemma TitleHeaderColon(t: string, u: string)
    requires ':' !in ToLower(t)
    ensures IsTitleHeader(t + [':'] + u) <==> Trim(ToLower(t) + ToLower(u)) == "title"
  {
    ToLowerAppend(t + [':'], u);
    ToLowerAppend(t, [':']);
    assert ToLower([':']) == [':'];
    RemoveFirstColon(ToLower(t), ToLower(u));
  }

  /**
   * For a cell without `:` or edge whitespace: followed by one `:` it is the header row
   * exactly when it lower-cases to `title` (`Title:`), and followed by two it never is
   * (`Title::` is an ordinary project title).
   */
  lemma TitleHeaderColons(t: string)
    requires t != [] && ':' !in ToLower(t)
    requires !IsWhitespace(ToLower(t)[0]) && !IsWhitespace(ToLower(t)[|t| - 1])
    ensures IsTitleHeader(t + [':']) <==> ToLower(t) == "title"
    ensures !IsTitleHeader(t + [':', ':'])
  {
    var lt := ToLower(t);
    TitleHeaderColon(t, []);
    TitleHeaderColon(t, [':']);
    assert t + [':'] + [] == t + [':'];
    assert t + [':'] + [':'] == t + [':', ':'];
    assert ToLower([':']) == [':'];
    assert lt + [] == lt;
    TrimTrimmed(lt);
    TrimTrimmed(lt + [':']);
    assert (lt + [':'])[|lt|] == ':';
  }

  /** `t` is one of the comma-separated pieces of `cell`, cleaned. */
  predicate IsCleanedPiece(t: string, cell: string) {
    var pieces := Split(cell, CharSep(','));
    exists i :: 0 <= i < |pieces| && CleanString(pieces[i]) == t
  }

  /**
   * `cell ? cell.split(',').map(cleanString).filter(Boolean) : []`: the non-empty cleaned
   * pieces of the cell (`NonEmptyCounts` and `NonEmptyAppend` add that they keep their
   * order and multiplicity); none for an empty cell.
   */
  function Technologies(cell: string): (r: seq<string>)
    ensures cell == "" ==> r == []
    ensures forall t :: t in r <==> t != "" && cell != "" && IsCleanedPiece(t, cell)
    ensures forall t :: t in r ==> IsClean(t) && ',' !in t
  {
    if cell == "" then []
    else
      var pieces := Split(cell, CharSep(','));
      var cleaned := seq(|pieces|, i requires 0 <= i < |pieces| => CleanString(pieces[i]));
      assert forall t :: t in cleaned ==> IsClean(t) && ',' !in t by {
        forall i | 0 <= i < |pieces| ensures ',' !in cleaned[i] {
          SplitCharFree(cell, ',', i);
        }
      }
      assert forall t :: t in cleaned <==> IsCleanedPiece(t, cell) by {
        forall t | IsCleanedPiece(t, cell) ensures t in cleaned {
          var i :| 0 <= i < |pieces| && CleanString(pieces[i]) == t;
          assert cleaned[i] == t;
        }
      }
      NonEmpty(cleaned)
  }

  /**
   * Writing a list of clean, non-empty, comma-free technologies joined by commas into the
   * cell gives back exactly that list, in order.
   */
  lemma TechnologiesOfJoin(ts: seq<string>)
    requires |ts| >= 1 && forall t :: t in ts ==> t != "" && IsClean(t) && ',' !in t
    ensures Technologies(Join(ts, ',')) == ts
  {
    var cell := Join(ts, ',');
    SplitOfJoin(ts, ',');
    assert ts[0] in ts;
    assert cell != "";
    var cleaned := seq(|ts|, i requires 0 <= i < |ts| => CleanString(ts[i]));
    forall i | 0 <= i < |ts| ensures cleaned[i] == ts[i] {
      assert ts[i] in ts;
      CleanStringFixesClean(ts[i]);
    }
    assert cleaned == ts;
    NonEmptyKeepsAll(ts);
  }

  /** `[normalizeUrl(parts[5]), normalizeUrl(parts[6]), normalizeUrl(parts[7])].filter(Boolean)`. */
  function Images(parts: seq<string>): (r: seq<string>)
    ensures |r| <= 3
    ensures forall u :: u in r <==>
      (u != "" && (u == NormalizeUrl(Field(parts, 5)) || u == NormalizeUrl(Field(parts, 6)) || u == NormalizeUrl(Field(parts, 7))))
    ensures r == [] <==>
      NormalizeUrl(Field(parts, 5)) == "" && NormalizeUrl(Field(parts, 6)) == "" && NormalizeUrl(Field(parts, 7)) == ""
  {
    var urls := [NormalizeUrl(Field(parts, 5)), NormalizeUrl(Field(parts, 6)), NormalizeUrl(Field(parts, 7))];
    var r := NonEmpty(urls);
    assert r != [] ==> r[0] in r;
    assert urls[0] in urls && urls[1] in urls && urls[2] in urls;
    r
  }

  /**
   * The project one row describes, or None for a row with an empty first cell or for the
   * header row. Missing cells default: category "Geral", no technologies, empty
   * description, no link, and the placeholder as the one image.
   */
  function ProjectFromCells(parts: seq<string>, index: nat): (r: Option<Project>)
    ensures r.None? <==> Field(parts, 0) == "" || IsTitleHeader(Field(parts, 0))
    ensures r.Some? ==> var p := r.value;
      && p.id == "proj-sheet-" + NatToString(index)
      && p.title == Field(parts, 0)
      && p.category == (if Field(parts, 1) != "" then Field(parts, 1) else "Geral")
      && p.description == Field(parts, 3)
      && p.technologies == Technologies(Field(parts, 2))
      && p.link == (if Field(parts, 4) != "" then Some(Field(parts, 4)) else None)
      && 1 <= |p.images| <= 3 && p.images[0] == p.thumbnail
      && (forall u :: u in p.images ==> u != "")
  {
    var title := Field(parts, 0);
    if title == "" || IsTitleHeader(title) then None
    else
      var category := if Field(parts, 1) != "" then Field(parts, 1) else "Geral";
      var images := Images(parts);
      var thumbnail := if |images| > 0 then images[0] else Placeholder;
      Some(Project(
        "proj-sheet-" + NatToString(index),
        title,
        category,
        thumbnail,
        if |images| > 0 then images else [thumbnail],
        Field(parts, 3),
        Technologies(Field(parts, 2)),
        if Field(parts, 4) != "" then Some(Field(parts, 4)) else None))
  }

  /** The project of one line of the projects sheet; a blank line gives none. */
  function ProjectRow(line: string, index: nat): (r: Option<Project>)
    ensures Cells(line).None? ==> r.None?
    ensures Cells(line).Some? ==> r == ProjectFromCells(Cells(line).value, index)
    ensures r.Some? ==> r.value.id == "proj-sheet-" + NatToString(index)
  {
    match Cells(line)
    case None => None
    case Some(parts) => ProjectFromCells(parts, index)
  }

  /**
   * The images of a project: its non-empty normalised image cells in order, or the
   * placeholder alone when there are none; the thumbnail is the first image.
   */
  lemma ProjectImages(parts: seq<string>, index: nat)
    requires ProjectFromCells(parts, index).Some?
    ensures var p := ProjectFromCells(parts, index).value;
      && (Images(parts) != [] ==> p.images == Images(parts) && p.thumbnail == Images(parts)[0])
      && (Images(parts) == [] ==> p.images == [Placeholder] && p.thumbnail == Placeholder)
  {
  }

  /** A technologies cell without commas names one technology, cleaned. */
  lemma SingleTechnology(cell: string)
    requires ',' !in cell && CleanString(cell) != ""
    ensures Technologies(cell) == [CleanString(cell)]
  {
    SplitNoSeparator(cell, CharSep(','));
  }

  /** The projects sheet: one project per project row, in order. */
  function ProjectsOf(lines: seq<string>): (r: seq<Project>)
    ensures |r| <= |lines|
    ensures forall x :: x in r <==> exists i :: 0 <= i < |lines| && ProjectRow(lines[i], i) == Some(x)
    ensures forall j, k :: 0 <= j < k < |r| ==> r[j].id != r[k].id
  {
    var ps := Collect(lines, ProjectRow);
    CollectMembers(lines, ProjectRow);
    CollectedIdsDistinct(lines, ps);
    ps
  }

  /** Every project is tagged with its own line index, so the collected ids are distinct. */
  lemma CollectedIdsDistinct(lines: seq<string>, ps: seq<Project>)
    requires ps == Collect(lines, ProjectRow)
    ensures forall j, k :: 0 <= j < k < |ps| ==> ps[j].id != ps[k].id
  {
    CollectTagsDistinct(lines, ProjectRow, (p: Project) => p.id, "proj-sheet-");
  }
}
