# Portfolio sheet ingestion and view state, in Dafny

This project models the data layer of a single-page portfolio site and the small
state machine of its main view.

The site reads six spreadsheets, published as CSV: texts, profile, technologies,
about, contact and projects. `fetchPortfolioData` builds one portfolio record from
them:

- a profile, filled from three key/value sheets in a fixed order of precedence;
- a de-duplicated list of skills;
- education, certification and course entries;
- a list of projects.

The model takes the six response bodies as parameters (`None` stands for a failed
request) and follows the code line by line:

- **Text helpers** (`CsvText`): `cleanString`, the quote-aware `splitCSVLine`, and
  `normalizeUrl` with its Google Drive and OneDrive rewrites. All three are functions.
- **JavaScript built-ins** (`JsStrings`, `JsArrays`): `trim`, `toLowerCase`,
  `normalize("NFD")` with combining marks removed, `includes`, first-match `replace`,
  `split`, template-literal numbers, `filter(Boolean)`, `Array.from(new Set(…))` and
  the default `sort()`, each written out.
- **Reading a sheet** (`SheetRows`): lines, cells, keys, and the generic `Collect`.
  `Collect` keeps what a row function makes of each line, together with the line's
  raw index.
- **The three key/value sheets** (`SheetProfile`): each line becomes at most one
  field assignment, and a sheet is a fold of its assignments over the profile.
  Lemmas state the precedence rule for every profile field.
- **The list sheets** (`SheetLists`): skills, about rows and project rows.
- **`fetchPortfolioData`** (`Ingestion`): a method with a cache check, one `while`
  loop per sheet, and a method per `forEach` callback. Each is proved equal to the
  specification functions above.
- **`App`** (`AppView`):
  - `allTechnologies`, `filteredProjects` and `renderContent` are modelled as
    functions.
  - The five state hooks are a class. Its methods are `toggleTheme`, `handleNavigate`
    and the three setter call sites the view uses.

Details of the code that the model keeps exactly:

- Skipped lines still count in the line index. So ids are `proj-sheet-<raw index>`,
  not numbered over the kept rows only.
- The project header test removes only the first `:` (`replace(':', '')`). The key
  sheets remove every `:` (`replace(/:/g, '')`).
- The result uses the parsed collections as they are. Nothing falls back to demo
  data, and `experiences` is always empty.
- `normalizeUrl` is not idempotent in general. A OneDrive link with `redir=0` twice
  changes again on a second pass. It is idempotent on every link it rewrites to the
  Drive direct form.

## Model

| member | source | states |
|---|---|---|
| JsStrings.Trim | services/dataService.ts:21 | `trim`: the result starts and ends with a non-whitespace character, uses only characters of the input, and is no longer than it |
| JsStrings.TrimInfix | services/dataService.ts:21 | the trimmed string is one contiguous block of the input; everything before and after it is whitespace |
| JsStrings.TrimIdempotent | services/dataService.ts:21 | trimming twice is trimming once |
| JsStrings.TrimTrimmed | services/dataService.ts:21 | a string without whitespace at either end is left unchanged |
| JsStrings.ToLower | services/dataService.ts:104 | `toLowerCase` keeps the length, maps each upper-case letter 32 code points down, leaves every other character as it is, and leaves no upper-case letter |
| JsStrings.ToLowerFixesLower | services/dataService.ts:104 | a string without upper-case letters is unchanged |
| JsStrings.ToLowerAppend | services/dataService.ts:104 | lower-casing works character by character: it distributes over concatenation |
| JsStrings.ToLowerIdempotent | services/dataService.ts:104 | lower-casing twice is lower-casing once |
| JsStrings.StripChar | services/dataService.ts:156 | NFD plus mark removal on one character: a combining mark vanishes, any other character becomes its base letter, never upper case unless it was |
| JsStrings.StripAccents | services/dataService.ts:156 | after NFD and mark removal, no combining mark (U+0300 to U+036F) is left |
| JsStrings.StripAccentsAppend | services/dataService.ts:156 | accent stripping works character by character: it distributes over concatenation |
| JsStrings.RemoveAll | services/dataService.ts:104 | `replace(/:/g, '')`: exactly the characters other than `:` remain |
| JsStrings.RemoveAllCounts | services/dataService.ts:104 | every other character keeps its number of occurrences, and the removed one has none |
| JsStrings.RemoveAllAppend | services/dataService.ts:104 | removal keeps the order: it distributes over concatenation |
| JsStrings.RemoveAllAbsent | services/dataService.ts:104 | removing a character that does not occur changes nothing |
| JsStrings.IndexOf | services/dataService.ts:28-37 | `indexOf`/`includes`: the position found is an occurrence with none before it, and None means there is no occurrence |
| JsStrings.FirstOccurrence | services/dataService.ts:35 | the first occurrence is the one `indexOf` finds |
| JsStrings.ReplaceFirst | services/dataService.ts:35-37 | first-match `replace`: without a match the string is unchanged; with one, its first occurrence, and only that, is replaced by the replacement |
| JsStrings.ReplaceFirstChars | services/dataService.ts:35-37 | `replace` with a string pattern introduces no character that is in neither the input nor the replacement |
| JsStrings.Split | services/dataService.ts:43 | `split` yields one more piece than there are separator positions |
| JsStrings.SplitJoin | services/dataService.ts:99 | joining the pieces of a split with the separator restores the text |
| JsStrings.SplitOfJoin | services/dataService.ts:196 | splitting fields joined by a character that none contains gives the fields back |
| JsStrings.SplitAtSeparators | services/dataService.ts:43 | every boundary between two pieces is a separator position |
| JsStrings.SplitCharFree | services/dataService.ts:196 | no piece of a split on a character contains that character |
| JsStrings.SplitNoSplitPoint | services/dataService.ts:43 | a prefix without a split point is glued to the first piece of the rest |
| JsStrings.SepFreeNoSplitPoint | services/dataService.ts:43 | a prefix without the separator character contains no split point |
| JsStrings.QuoteFreeSplit | services/dataService.ts:43 | on a text without `"`, the quote-aware split is the plain split on `,` |
| JsStrings.SplitNoSeparator | services/dataService.ts:196 | a text without the separator splits into itself alone |
| JsStrings.NatToString | services/dataService.ts:162 | `${index}` is a non-empty string of decimal digits |
| JsStrings.NatToStringRoundTrip | services/dataService.ts:162 | reading the digits of `${n}` gives back `n` |
| JsStrings.NatToStringInjective | services/dataService.ts:203 | different indices give different digit strings |
| JsArrays.NonEmpty | services/dataService.ts:199 | `filter(Boolean)` keeps exactly the non-empty strings and never lengthens the list |
| JsArrays.NonEmptyCounts | services/dataService.ts:199 | every non-empty string keeps its number of occurrences, and `""` has none |
| JsArrays.NonEmptyAppend | services/dataService.ts:199 | the filter keeps the order: it distributes over concatenation |
| JsArrays.NonEmptyKeepsAll | services/dataService.ts:196 | a list without empty strings passes the filter unchanged |
| JsArrays.NonEmptyHead | services/dataService.ts:199-200 | the head of the filtered list is the first non-empty entry |
| JsArrays.Dedup | services/dataService.ts:219 | `Array.from(new Set(s))` has no duplicates and the same members as `s` |
| JsArrays.DedupKeepsFirstOccurrenceOrder | services/dataService.ts:219 | its elements stand in the order of their first occurrence in `s` |
| JsArrays.DedupSubsequence | services/dataService.ts:219 | it is a subsequence of `s` |
| JsArrays.DedupDistinct | services/dataService.ts:219 | on a list without repeats it is the identity |
| JsArrays.DedupExample | services/dataService.ts:219 | `[x, y, x]` with x ≠ y becomes `[x, y]`: a later repeat is dropped, the first occurrence stays |
| JsArrays.StrLessIrreflexive | App.tsx:80 | the string order of `sort()` is irreflexive |
| JsArrays.StrLessTransitive | App.tsx:80 | the string order is transitive |
| JsArrays.StrLessTotal | App.tsx:80 | any two distinct strings are ordered one way or the other |
| JsArrays.Insert | App.tsx:80 | inserting into a sorted list keeps it sorted and adds exactly that element |
| JsArrays.Sort | App.tsx:80 | `sort()` returns a sorted permutation of its input |
| JsArrays.SortDistinct | App.tsx:80 | sorting a list without repeats gives a strictly ascending list with the same members |
| CsvText.WithoutNoise | services/dataService.ts:18-20 | exactly the characters other than U+FEFF, U+FFFD and `\r` remain |
| CsvText.WithoutNoiseCounts | services/dataService.ts:18-20 | every other character keeps its number of occurrences; the three noise characters have none |
| CsvText.WithoutNoiseAppend | services/dataService.ts:18-20 | noise removal keeps the order: it distributes over concatenation |
| CsvText.CleanString | services/dataService.ts:15-22 | the result has no U+FEFF, U+FFFD or `\r`, no whitespace at either end, is no longer than the input and holds only characters of the input |
| CsvText.CleanStringFixesClean | services/dataService.ts:15-22 | an already clean string, `""` among them, is returned unchanged |
| CsvText.CleanStringIdempotent | services/dataService.ts:15-22 | cleaning twice is cleaning once |
| CsvText.CleanStringKeeps | services/dataService.ts:15-22 | every character that is neither noise nor whitespace survives |
| CsvText.StripWrappingQuotes | services/dataService.ts:44 | `replace(/^"|"$/g, '')`: a leading `"` and a trailing `"` are each removed when present, and a field without them is unchanged |
| CsvText.SplitCsvLine | services/dataService.ts:42-45 | the field count is the number of commas followed by an even number of `"` plus one, and every field is clean |
| CsvText.QuotedCommaInside | services/dataService.ts:43 | a comma inside a quoted field is not a split point |
| CsvText.CommaBeforeQuoted | services/dataService.ts:43 | the comma in front of a quoted field is a split point |
| CsvText.QuoteFreeLine | services/dataService.ts:43-44 | a line without `"` splits at every comma and its pieces are only cleaned |
| CsvText.QuotedNoSplitPoint | services/dataService.ts:43 | no comma inside a quoted field, one followed by an odd number of `"`, is a split point |
| CsvText.QuotedTail | services/dataService.ts:43 | a quoted field followed by `,` and a plain last field splits into those two pieces |
| CsvText.QuotedLinePieces | services/dataService.ts:43 | `x,"y",z` splits into `x`, the quoted `y` and `z`, whatever commas `y` holds |
| CsvText.CleanUnquoted | services/dataService.ts:44 | a clean field without `"`, bare or wrapped in quotes, comes out of the piece as the field itself |
| CsvText.ThreeFields | services/dataService.ts:42-45 | a line that splits into three pieces yields the three pieces unquoted and cleaned |
| CsvText.QuotedFieldLine | services/dataService.ts:42-45 | `x,"y",z` with clean, quote-free fields yields exactly `[x, y, z]`; the commas inside the quotes stay in `y` |
| CsvText.SplitCsvLineExample | services/dataService.ts:42-45 | `a,"b,c",d` yields `["a", "b,c", "d"]` |
| CsvText.FindSlashD | services/dataService.ts:29 | finds the first `/d/` followed by an id character, or reports that none exists |
| CsvText.FindIdParam | services/dataService.ts:30 | finds the first `?id=` or `&id=` followed by an id character, or reports that none exists |
| CsvText.IdRun | services/dataService.ts:29-30 | the id is the longest prefix made of `[A-Za-z0-9_-]` |
| CsvText.DriveFileId | services/dataService.ts:29-30 | the id found is non-empty and made of id characters; there is none exactly when neither pattern occurs anywhere |
| CsvText.DriveRewrite | services/dataService.ts:28-31 | only a URL containing `drive.google.com` is rewritten, and then with the id the two patterns find |
| CsvText.OneDriveLink | services/dataService.ts:34-38 | without `view.aspx` and `redir=0` the URL is unchanged; the `view.aspx` rewrite shortens it by one; it never grows |
| CsvText.Unquoted | services/dataService.ts:26 | after cleaning, no `"` and no `'` is left |
| CsvText.NormalizeUrl | services/dataService.ts:24-25 | an empty URL maps to `""` |
| CsvText.NormalizeUrlUnquoted | services/dataService.ts:26-39 | no result of `normalizeUrl` contains `"` or `'` |
| CsvText.NormalizeUrlOther | services/dataService.ts:39 | a URL naming neither host is returned cleaned and unquoted, otherwise unchanged |
| CsvText.NormalizeUrlDrivePath | services/dataService.ts:28-31 | a Drive URL with `/d/<id>` becomes the direct link for the id there, whatever `id=` parameter it has |
| CsvText.DriveFileIdQuery | services/dataService.ts:30 | without `/d/<id>`, the id comes from the first `id=` parameter |
| CsvText.NormalizeUrlDriveQuery | services/dataService.ts:28-31 | a Drive URL with only `?id=<id>` or `&id=<id>` becomes the direct link for that id |
| CsvText.NormalizeUrlDriveNoId | services/dataService.ts:28-39 | a Drive URL where neither pattern matches falls through unrewritten, to the OneDrive rules or unchanged |
| CsvText.OneDriveLinkCases | services/dataService.ts:35-37 | first `view.aspx` becomes `download`; else with `embed` unchanged; else first `redir=0` becomes `redir=1`; else unchanged |
| CsvText.NormalizeUrlOneDrive | services/dataService.ts:34-38 | a OneDrive URL that is not rewritten as a Drive link goes through those three rules |
| CsvText.DirectLinkFixedPoint | services/dataService.ts:31 | the direct link `https://lh3.googleusercontent.com/d/<id>` is a fixed point of `normalizeUrl` |
| CsvText.NormalizeUrlDriveIdempotent | services/dataService.ts:24-32 | normalising a rewritten Drive link again changes nothing |
| SheetRows.FetchSafe | services/dataService.ts:47-57 | a body is cleaned, and a failed request gives `""` |
| SheetRows.Lines | services/dataService.ts:98-99 | an empty text has no lines; no line contains `\n` |
| SheetRows.Cells | services/dataService.ts:100-102 | a line is skipped exactly when it cleans to `""`; otherwise it has at least one cell and every cell is clean |
| SheetRows.PlainLineCells | services/dataService.ts:100-102 | a clean line without `"` or `,` is one cell, the line itself |
| SheetRows.Field | services/dataService.ts:157-159 | the cell, or `""` past the end of the row |
| SheetRows.SheetKey | services/dataService.ts:104 | a sheet key has no `:`, no upper-case letter and no whitespace at either end |
| SheetRows.SheetKeyFixes | services/dataService.ts:104 | a key already in that form is its own sheet key |
| SheetRows.SheetKeyIgnoresCase | services/dataService.ts:104 | a cell and its lower-case form have the same key |
| SheetRows.SheetKeyIgnoresColons | services/dataService.ts:104 | a `:` anywhere in the cell does not change the key |
| SheetRows.SheetKeyExample | services/dataService.ts:104 | `Nome:` is read as `nome` |
| SheetRows.Collect | services/dataService.ts:137-148 | a sheet yields at most one entry per line |
| SheetRows.CollectMembers | services/dataService.ts:137-148 | an entry is collected exactly when the row function makes it from some line |
| SheetRows.CollectKeepsRows | services/dataService.ts:151-168 | entry k is what the row function made of line `ix[k]`; the indices ascend; every line the row function accepts is kept |
| SheetRows.TaggedDistinct | services/dataService.ts:162 | `<prefix>${m}` and `<prefix>${n}` differ when m and n do |
| SheetRows.CollectTagsDistinct | services/dataService.ts:162-166 | entries tagged with their line index have pairwise distinct tags |
| SheetProfile.Set | services/dataService.ts:108-133 | assigning a profile field changes that field and no other |
| SheetProfile.SlotOf | services/dataService.ts:108-183 | a key names only a field its own sheet may set; on the contact sheet a key names a field exactly when it contains `linkedin`, `github` or `email` |
| SheetProfile.KeyOf | services/dataService.ts:104 | the key has no upper-case letter; on the texts and profile sheets no `:` and no whitespace at either end; on the contact sheet (line 177) the cell only lower-cased, so of the same length |
| SheetProfile.LineAssignment | services/dataService.ts:100-106 | a skipped line, one with fewer than two cells or one with an empty value assigns nothing; otherwise the field its key names gets the second cell, and a key naming no field assigns nothing |
| SheetProfile.Assignments | services/dataService.ts:99-112 | one possible assignment per line, in line order |
| SheetProfile.AssignmentsWellFormed | services/dataService.ts:117-134 | every assignment of a sheet names a field of that sheet and carries a non-empty value |
| SheetProfile.Step | services/dataService.ts:108-133 | a line without an assignment changes nothing; one with an assignment changes no other field |
| SheetProfile.Fold | services/dataService.ts:98-134 | a field a sheet's lines change is assigned by some line of it |
| SheetProfile.LastValueIsLast | services/dataService.ts:108-111 | the last value is an assignment that no later line overrides; there is none exactly when no line assigns the field |
| SheetProfile.FirstValueIsFirst | services/dataService.ts:128-129 | the first value is an assignment with no earlier one to the field; there is none exactly when no line assigns the field |
| SheetProfile.FoldOutsideSheet | services/dataService.ts:108-111 | a sheet leaves every field it has no key for unchanged |
| SheetProfile.FoldLastWins | services/dataService.ts:108-111 | for a plainly assigned field the last line wins, else the field keeps its value |
| SheetProfile.FoldLastUrlWins | services/dataService.ts:126-127 | avatar and banner take the last value of the profile sheet, normalised |
| SheetProfile.FoldFirstFills | services/dataService.ts:128-133 | on the profile sheet, name, role and bio keep a non-empty value; otherwise the first line for them wins |
| SheetProfile.ContactKeyOrder | services/dataService.ts:181-183 | a contact key containing `linkedin` is a LinkedIn row, whatever else it contains |
| SheetProfile.ProfileOf | services/dataService.ts:79-185 | the whole profile: name, role, bio from the last texts line, else the first profile line; about text from texts only; avatar and banner from the last profile line, normalised; social links from the last contact line, else the last profile line |
| SheetProfile.Combined | services/dataService.ts:97-185 | a non-empty profile field is assigned by some line of the texts, profile or contact sheet |
| SheetProfile.CombinedPrecedence | services/dataService.ts:97-185 | the same rule, stated over the three assignment lists |
| SheetProfile.IdentityPrecedence | services/dataService.ts:108-129 | the precedence rule for name, role and bio |
| SheetProfile.AboutTextPrecedence | services/dataService.ts:109 | the about text comes from the last `sobre` line of the texts sheet only |
| SheetProfile.ImagePrecedence | services/dataService.ts:126-127 | the avatar and banner rule |
| SheetProfile.SocialPrecedence | services/dataService.ts:130-183 | the contact sheet overrides the profile sheet's social links |
| SheetLists.SkillRow | services/dataService.ts:139-146 | a line gives a skill exactly when it has a non-empty first cell whose lower-case form is not an ignored key; the skill is that clean cell |
| SheetLists.Skills | services/dataService.ts:219 | the skills have no duplicates and are exactly the skills collected from the lines |
| SheetLists.SkillsOfSheet | services/dataService.ts:137-148 | the skills have no duplicates; they are exactly the first cells kept from some line, none empty or ignored, in order of first occurrence |
| SheetLists.SkillsSubsequence | services/dataService.ts:219 | the skills are a subsequence of the kept first cells |
| SheetLists.PlainSkillRow | services/dataService.ts:143-145 | a plain word that is not an ignored key is pushed as a skill |
| SheetLists.IgnoredSkillRow | services/dataService.ts:144 | a plain word that is an ignored key, in any case, is not |
| SheetLists.CollectDedupExample | services/dataService.ts:219 | lines giving u, nothing, v, u collect and de-duplicate to `[u, v]` |
| SheetLists.SkillsExample | services/dataService.ts:137-148 | lines `x`, an ignored key, `y`, `x` give the skills `[x, y]` |
| SheetLists.Discriminator | services/dataService.ts:156 | the discriminator has no upper-case letter and no combining mark, and is no longer than the cell |
| SheetLists.DiscriminatorIgnoresMark | services/dataService.ts:156 | a combining mark anywhere in the cell does not change the discriminator |
| SheetLists.DiscriminatorIgnoresCase | services/dataService.ts:156 | a cell and its lower-case form have the same discriminator |
| SheetLists.StripPrecomposed | services/dataService.ts:156 | without separate marks, stripping accents maps each letter to its base letter |
| SheetLists.DiscriminatorFoldsAccents | services/dataService.ts:156 | `Formação` is read as `formacao` |
| SheetLists.DiscriminatorPlain | services/dataService.ts:156 | `Formacao` is read as `formacao` |
| SheetLists.EducationRow | services/dataService.ts:155-162 | a line gives an education entry exactly when it has at least two cells and its discriminator is `formacao`; the entry is `edu-sheet-<raw line index>` with cells 2 to 4, `""` when missing |
| SheetLists.CertificationRow | services/dataService.ts:155-164 | likewise for `certificacao`, with id `cert-sheet-<raw line index>` |
| SheetLists.CourseRow | services/dataService.ts:155-166 | likewise for `curso`, with id `course-sheet-<raw line index>` |
| SheetLists.IsAboutRow | services/dataService.ts:152-161 | a row of a kind is a non-blank line with at least two cells; the kind is lower-case and accent-free and no longer than the first cell |
| SheetLists.AboutRowKinds | services/dataService.ts:155-167 | no line goes to two lists; a row of at least two cells whose discriminator is none of the three goes nowhere |
| SheetLists.AboutIdsDistinct | services/dataService.ts:151-168 | within each about list, ids are pairwise distinct |
| SheetLists.RemoveFirstColon | services/dataService.ts:193 | `replace(':', '')` removes only the first `:` |
| SheetLists.IsTitleHeader | services/dataService.ts:193 | a header cell has at least five characters, and `title` in any case is a header |
| SheetLists.TitleHeaderColon | services/dataService.ts:193 | a title cell with one `:` is the header exactly when the rest, lower-cased and trimmed, is `title` |
| SheetLists.TitleHeaderColons | services/dataService.ts:193 | `Title:` is the header, while `Title::` is not, because only one `:` is removed |
| SheetLists.Technologies | services/dataService.ts:196 | an empty cell gives none; a technology is exactly a non-empty cleaned comma-separated piece of the cell; each is clean and free of commas |
| SheetLists.TechnologiesOfJoin | services/dataService.ts:196 | clean, non-empty, comma-free technologies joined by `,` are read back as they were, in order |
| SheetLists.SingleTechnology | services/dataService.ts:196 | a cell without commas names one technology, the cleaned cell |
| SheetLists.Images | services/dataService.ts:199 | at most three images; a string is among them exactly when it is a non-empty normalised image cell; there are none exactly when all three normalise to `""` |
| SheetLists.ProjectFromCells | services/dataService.ts:192-211 | a row is dropped exactly when its title is empty or is the header; a project has id `proj-sheet-<raw line index>`, the title, the second cell or `Geral` as category, the technologies of the third cell, the fourth cell as description, a link only when the fifth cell is non-empty, and 1 to 3 non-empty images starting with the thumbnail |
| SheetLists.ProjectImages | services/dataService.ts:199-210 | the images are the non-empty normalised image cells, or the placeholder alone; the thumbnail is the first |
| SheetLists.ProjectRow | services/dataService.ts:188-203 | a blank line gives no project; any other line gives exactly what its cells describe, with id `proj-sheet-<raw line index>` |
| SheetLists.ProjectsOf | services/dataService.ts:188-212 | no more projects than lines; a project is collected exactly when some line gives it; the ids are pairwise distinct |
| Ingestion.ServesCache | services/dataService.ts:60-66 | an entry is served only if one is cached and it is less than 60000 ms old |
| Ingestion.Portfolio | services/dataService.ts:215-223 | the profile follows the precedence rule over the three key/value sheets; `experiences` is empty; the skills have no duplicates; the project ids are pairwise distinct |
| Ingestion.FetchPortfolioData | services/dataService.ts:59-230 | a fresh cache entry is returned as it is and nothing is stored; otherwise the result is the portfolio the six texts describe, stored with its time |
| Ingestion.ReadTextsSheet | services/dataService.ts:97-113 | the texts loop leaves the profile as the fold of the texts sheet's assignments |
| Ingestion.TextsLine | services/dataService.ts:99-112 | one texts line applies its assignment |
| Ingestion.TextsAssign | services/dataService.ts:108-111 | the key chain of the texts sheet applies the assignment the key names |
| Ingestion.ReadProfileSheet | services/dataService.ts:115-135 | the profile loop leaves the fold of the profile sheet's assignments |
| Ingestion.ProfileLine | services/dataService.ts:117-134 | one profile line applies its assignment |
| Ingestion.ProfileAssign | services/dataService.ts:126-133 | the key chain of the profile sheet applies the assignment the key names; its own branches store `avatar` and `banner` normalised |
| Ingestion.ProfileAssignIdentity | services/dataService.ts:128-133 | once the image tests fail, the name and role tests and the rest of the chain apply the assignment the key names, filling name and role only while empty |
| Ingestion.ProfileAssignRest | services/dataService.ts:130-133 | once the image and identity tests fail, the social and bio tests that end the chain apply the assignment the key names |
| Ingestion.ReadTechsSheet | services/dataService.ts:137-148 | the pushed skills are the skill rows of the sheet, in order |
| Ingestion.TechsLine | services/dataService.ts:138-147 | one line pushes its skill, if it has one |
| Ingestion.ReadAboutSheet | services/dataService.ts:150-169 | the three pushed lists are the education, certification and course rows of the sheet |
| Ingestion.AboutLine | services/dataService.ts:151-168 | one line pushes onto the list its discriminator names |
| Ingestion.ReadContactSheet | services/dataService.ts:171-185 | the contact loop leaves the fold of the contact sheet's assignments |
| Ingestion.ContactLine | services/dataService.ts:172-184 | one contact line applies its assignment |
| Ingestion.ContactAssign | services/dataService.ts:181-183 | the substring chain of the contact sheet applies the assignment the key names |
| Ingestion.ReadProjectsSheet | services/dataService.ts:187-213 | the pushed projects are the project rows of the sheet |
| Ingestion.ProjectsLine | services/dataService.ts:188-212 | one line pushes its project, if it has one |
| Ingestion.StoredEntryLifetime | services/dataService.ts:60-66 | a stored entry is served exactly while less than 60000 ms old, and never when the cache is ignored |
| Ingestion.StaleStaysStale | services/dataService.ts:64 | an entry too old to serve stays too old later |
| Ingestion.CacheExpiryExample | services/dataService.ts:64 | an entry is still served 59999 ms after storing and no longer 61000 ms after |
| AppView.FlatTechnologies | App.tsx:80 | `flatMap` holds exactly the technologies of some project |
| AppView.AllTechnologies | App.tsx:79-82 | the filter list starts with `Todos` |
| AppView.AllTechnologiesSpec | App.tsx:79-82 | after `Todos`, the list is strictly ascending and holds exactly the technologies of some project |
| AppView.WithTechnology | App.tsx:87 | the filter keeps exactly the projects that list the technology |
| AppView.WithTechnologyInOrder | App.tsx:87 | the filtered projects are a subsequence of the projects, and every matching project is among them |
| AppView.FilteredProjects | App.tsx:84-88 | under `Todos` all projects, the list unchanged; under another filter exactly the projects that list it |
| AppView.FilteredProjectsInOrder | App.tsx:84-88 | the shown projects are the ones that pass the filter, in their original order |
| AppView.RenderContent | App.tsx:99-316 | a selected project's detail page is shown whatever the view; the home page lists the first min(3, n) projects |
| AppView.RenderFollowsView | App.tsx:104-316 | without a selection, the page shown is the current view's |
| AppView.Flip | App.tsx:70 | toggling always changes the theme |
| AppView.FlipTwice | App.tsx:69-71 | toggling twice restores the theme |
| AppView.AppState.constructor | App.tsx:12-34 | light theme, home view, no selection, filter `Todos`, empty data |
| AppView.AppState.Content | App.tsx:99-105 | with a selection, that project's detail page; without one, never a detail page, and the home page exactly in the home view |
| AppView.AppState.ToggleTheme | App.tsx:69-71 | the theme flips and nothing else changes |
| AppView.AppState.HandleNavigate | App.tsx:73-77 | view set, selection cleared, filter reset to `Todos`, theme and data unchanged; the projects page then shows every project |
| AppView.AppState.SelectProject | App.tsx:151 | selecting a project shows its detail page and changes nothing else |
| AppView.AppState.Back | App.tsx:101 | going back clears the selection only, so the current view shows again |
| AppView.AppState.SetTechFilter | App.tsx:255 | a filter button sets the filter and nothing else |
| AppView.AppState.SetData | App.tsx:47 | loading replaces the data and nothing else |

## Left out

- Network I/O (`fetch`, `response.ok`, `Promise.all`): each response body is a parameter, with `None` for a failed request. The six requests run concurrently in the source; the order does not matter to the result.
- `localStorage`, `JSON.parse`/`JSON.stringify` and `Date.now()`: the cached entry, the current time and the time of storing are parameters, and the entry to store is returned. A malformed cached value, which would throw, is not modelled.
- `App`'s `loadData` effect, the `isLoading` flag and its loading screen, the scroll and dark-class effects, and all JSX, Tailwind classes, icons and components: user-interface code. `App`'s `default: return null` branch cannot be reached with a `ViewState` value.
- `constants.ts` holds demo data that the ingestion code never reads. `types.ts` only supplies the record shapes.
- JsStrings.ToLower: exact on Latin-1 only (A–Z and U+00C0–U+00DE except U+00D7); other characters are unchanged. This is enough for the sheet keys and discriminators.
- JsStrings.StripAccents: NFD is modelled on the Latin-1 lower-case accented letters, which decompose to their base letter plus marks. Combining marks U+0300–U+036F are removed. Other decompositions are not modelled.
- JsStrings.RemoveAll: its own contract states which characters remain; how many and in what order is stated by JsStrings.RemoveAllCounts and JsStrings.RemoveAllAppend.
- JsArrays.NonEmpty: likewise, multiplicity and order are stated by JsArrays.NonEmptyCounts and JsArrays.NonEmptyAppend.
- CsvText.WithoutNoise: likewise, multiplicity and order are stated by CsvText.WithoutNoiseCounts and CsvText.WithoutNoiseAppend.
- CsvText.SplitCsvLine: its own contract gives the field count and cleanliness; the fields of a line with a quoted field are stated by CsvText.QuotedFieldLine for the shape `x,"y",z`, and those of a quote-free line by CsvText.QuoteFreeLine.
- JsArrays.StrLess: JavaScript's `sort()` compares UTF-16 code units, and the model compares code points. The two agree below U+10000.
- Ingestion.TextsAssign, Ingestion.ProfileAssign, Ingestion.ContactAssign: the if/else key chain of each callback is its own method, and the callback calls it. The chain of the profile sheet continues in Ingestion.ProfileAssignIdentity and then Ingestion.ProfileAssignRest. The order of the tests is kept.
- The loops iterate over the split lines with a `while`. The source uses `forEach`, whose callbacks cannot break out early, so the two behave the same.
