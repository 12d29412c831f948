/**
 * `fetchPortfolioData`: serve the cached portfolio while it is fresh, otherwise read the six
 * sheets, build the portfolio line by line, and store it with the time it was built.
 */
module Ingestion {
  import opened Wrappers
  import opened JsStrings
  import opened JsArrays
  import opened Types
  import opened CsvText
  import opened SheetRows
  import opened SheetProfile
  import opened SheetLists

  /** One minute, in milliseconds. */
  const CacheExpiration: int := 1000 * 60 * 1

  /** What the cache holds: the portfolio and when it was stored (milliseconds). */
  datatype CacheEntry = CacheEntry(data: PortfolioData, timestamp: int)

  /** The responses of the six sheet requests; None for a failed request. */
  datatype SheetResponses = SheetResponses(
    profile: Option<string>,
    techs: Option<string>,
    about: Option<string>,
    contact: Option<string>,
    projects: Option<string>,
    texts: Option<string>)

  /** A cache entry is served when the call allows the cache and the entry is under a minute old. */
  predicate ServesCache(ignoreCache: bool, cached: Option<CacheEntry>, now: int)
    ensures ServesCache(ignoreCache, cached, now) ==> cached.Some? && now < cached.value.timestamp + 60000
  {
    !ignoreCache && cached.Some? && now - cached.value.timestamp < CacheExpiration
  }

  /**
   * The portfolio the six responses describe: the profile decided sheet by sheet, no
   * experiences, and each skill once.
   */
  function Portfolio(r: SheetResponses): (d: PortfolioData)
    ensures Decides(d.profile, Assignments(TextsSheet, Lines(FetchSafe(r.texts))),
      Assignments(ProfileSheet, Lines(FetchSafe(r.profile))), Assignments(ContactSheet, Lines(FetchSafe(r.contact))))
    ensures d.experiences == [] && NoDuplicates(d.skills)
    ensures forall j, k :: 0 <= j < k < |d.projects| ==> d.projects[j].id != d.projects[k].id
  {
    var about := Lines(FetchSafe(r.about));
    PortfolioData(
      ProfileOf(Lines(FetchSafe(r.texts)), Lines(FetchSafe(r.profile)), Lines(FetchSafe(r.contact))),
      ProjectsOf(Lines(FetchSafe(r.projects))),
      [],
      Skills(Lines(FetchSafe(r.techs))),
      Collect(about, EducationRow),
      Collect(about, CertificationRow),
      Collect(about, CourseRow))
  }

  /**
   * `fetchPortfolioData(ignoreCache)`, with the cache, the clock and the network passed in:
   * `cached` is what the cache holds, `now` the time of the freshness check, `responses`
   * what the six requests return and `storedAt` the time the new entry is written. The
   * result is the cached portfolio when that one is fresh (and nothing is stored), else the
   * portfolio of the responses, which is also stored.
   */
  method FetchPortfolioData(ignoreCache: bool, cached: Option<CacheEntry>, now: int,
                            responses: SheetResponses, storedAt: int)
    returns (result: PortfolioData, stored: Option<CacheEntry>)
    ensures ServesCache(ignoreCache, cached, now) ==> result == cached.value.data && stored == None
    ensures !ServesCache(ignoreCache, cached, now) ==>
      result == Portfolio(responses) && stored == Some(CacheEntry(result, storedAt))
  {
    if !ignoreCache {
      if cached.Some? {
        var entry := cached.value;
        if now - entry.timestamp < CacheExpiration {
          return entry.data, None;
        }
      }
    }

    var profileText := FetchSafe(responses.profile);
    var techsText := FetchSafe(responses.techs);
    var aboutText := FetchSafe(responses.about);
    var contactText := FetchSafe(responses.contact);
    var projectsText := FetchSafe(responses.projects);
    var extraTexts := FetchSafe(responses.texts);

    var profile := EmptyProfile;
    var newEducation: seq<Education> := [];
    var newCertifications: seq<Certification> := [];
    var newCourses: seq<Course> := [];
    var newSkills: seq<string> := [];
    var newProjects: seq<Project> := [];

    profile := ReadTextsSheet(profile, extraTexts);
    profile := ReadProfileSheet(profile, profileText);
    newSkills := ReadTechsSheet(techsText);
    newEducation, newCertifications, newCourses := ReadAboutSheet(aboutText);
    profile := ReadContactSheet(profile, contactText);
    newProjects := ReadProjectsSheet(projectsText);

    result := PortfolioData(profile, newProjects, [], Dedup(newSkills), newEducation, newCertifications, newCourses);
    stored := Some(CacheEntry(result, storedAt));
  }

  /** The texts sheet: bio, about text, name and role, the last line for each winning. */
  method ReadTextsSheet(start: ProfileData, extraTexts: string) returns (profile: ProfileData)
    ensures profile == Fold(TextsSheet, start, Assignments(TextsSheet, Lines(extraTexts)))
  {
    profile := start;
    if extraTexts != "" {
      var lines := Split(extraTexts, CharSep('\n'));
      assert lines == Lines(extraTexts);
      var i := 0;
      while i < |lines|
        invariant 0 <= i <= |lines|
        invariant profile == Fold(TextsSheet, start, Assignments(TextsSheet, lines[..i]))
      {
        AssignmentsSnoc(TextsSheet, lines, i);
        FoldSnoc(TextsSheet, start, Assignments(TextsSheet, lines[..i]), LineAssignment(TextsSheet, lines[i]));
        profile := TextsLine(profile, lines[i]);
        i := i + 1;
      }
      assert lines[..|lines|] == lines;
    }
  }

  /** The callback of the texts sheet's `forEach`. */
  method TextsLine(before: ProfileData, line: string) returns (profile: ProfileData)
    ensures profile == Step(TextsSheet, before, LineAssignment(TextsSheet, line))
  {
    profile := before;
    var trimmedLine := CleanString(line);
    if trimmedLine == "" { return; }
    var parts := SplitCsvLine(trimmedLine);
    if |parts| < 2 { return; }
    var keyLower := SheetKey(parts[0]);
    var value := parts[1];
    if value == "" { return; }
    assert LineAssignment(TextsSheet, line) == match SlotOf(TextsSheet, keyLower) case None => None case Some(slot) => Some(Assignment(slot, value));
    profile := TextsAssign(profile, keyLower, value);
  }

  /** The `if … else if …` chain of the texts sheet's callback. */
  method TextsAssign(before: ProfileData, keyLower: string, value: string) returns (profile: ProfileData)
    ensures profile == Step(TextsSheet, before, match SlotOf(TextsSheet, keyLower) case None => None case Some(slot) => Some(Assignment(slot, value)))
  {
    profile := before;
    if keyLower == "bio" { profile := profile.(bio := value); }
    else if keyLower == "sobre" { profile := profile.(aboutText := value); }
    else if keyLower == "nome" || keyLower == "name" { profile := profile.(name := value); }
    else if keyLower == "cargo" || keyLower == "role" { profile := profile.(role := value); }
  }

  /**
   * The profile sheet: avatar and banner (normalised), social links, and name, role and bio
   * only where still empty.
   */
  method ReadProfileSheet(start: ProfileData, profileText: string) returns (profile: ProfileData)
    ensures profile == Fold(ProfileSheet, start, Assignments(ProfileSheet, Lines(profileText)))
  {
    profile := start;
    if profileText != "" {
      var lines := Split(profileText, CharSep('\n'));
      assert lines == Lines(profileText);
      var i := 0;
      while i < |lines|
        invariant 0 <= i <= |lines|
        invariant profile == Fold(ProfileSheet, start, Assignments(ProfileSheet, lines[..i]))
      {
        AssignmentsSnoc(ProfileSheet, lines, i);
        FoldSnoc(ProfileSheet, start, Assignments(ProfileSheet, lines[..i]), LineAssignment(ProfileSheet, lines[i]));
        profile := ProfileLine(profile, lines[i]);
        i := i + 1;
      }
      assert lines[..|lines|] == lines;
    }
  }

  /** The callback of the profile sheet's `forEach`. */
  method ProfileLine(before: ProfileData, line: string) returns (profile: ProfileData)
    ensures profile == Step(ProfileSheet, before, LineAssignment(ProfileSheet, line))
  {
    profile := before;
    var trimmedLine := CleanString(line);
    if trimmedLine == "" { return; }
    var parts := SplitCsvLine(trimmedLine);
    if |parts| < 2 { return; }
    var keyLower := SheetKey(parts[0]);
    var value := parts[1];
    if value == "" { return; }
    assert LineAssignment(ProfileSheet, line) == match SlotOf(ProfileSheet, keyLower) case None => None case Some(slot) => Some(Assignment(slot, value));
    profile := ProfileAssign(profile, keyLower, value);
  }

  /** The `if … else if …` chain of the profile sheet's callback. */
  method ProfileAssign(before: ProfileData, keyLower: string, value: string) returns (profile: ProfileData)
    ensures profile == Step(ProfileSheet, before, match SlotOf(ProfileSheet, keyLower) case None => None case Some(slot) => Some(Assignment(slot, value)))
  {
    profile := before;
    if keyLower == "avatar" {
      assert SlotOf(ProfileSheet, keyLower) == Some(Avatar);
      profile := profile.(avatar := NormalizeUrl(value));
    } else if keyLower == "banner" {
      assert SlotOf(ProfileSheet, keyLower) == Some(Banner);
      profile := profile.(banner := NormalizeUrl(value));
    } else {
      profile := ProfileAssignIdentity(before, keyLower, value);
    }
  }

  /** The middle of that chain: name and role, each only while still empty. */
  method ProfileAssignIdentity(before: ProfileData, keyLower: string, value: string) returns (profile: ProfileData)
    requires keyLower != "avatar" && keyLower != "banner"
    ensures profile == Step(ProfileSheet, before, match SlotOf(ProfileSheet, keyLower) case None => None case Some(slot) => Some(Assignment(slot, value)))
  {
    profile := before;
    if (keyLower == "name" || keyLower == "nome") && profile.name == "" {
      assert SlotOf(ProfileSheet, keyLower) == Some(Name);
      profile := profile.(name := value);
    } else if (keyLower == "role" || keyLower == "cargo") && profile.role == "" {
      assert SlotOf(ProfileSheet, keyLower) == Some(Role);
      profile := profile.(role := value);
    } else {
      profile := ProfileAssignRest(before, keyLower, value);
    }
  }

  /** The rest of that chain, reached when none of the image and identity tests matched. */
  method ProfileAssignRest(before: ProfileData, keyLower: string, value: string) returns (profile: ProfileData)
    requires keyLower != "avatar" && keyLower != "banner"
    requires !((keyLower == "name" || keyLower == "nome") && before.name == "")
    requires !((keyLower == "role" || keyLower == "cargo") && before.role == "")
    ensures profile == Step(ProfileSheet, before, match SlotOf(ProfileSheet, keyLower) case None => None case Some(slot) => Some(Assignment(slot, value)))
  {
    profile := before;
    if keyLower == "linkedin" { profile := profile.(social := profile.social.(linkedin := value)); }
    else if keyLower == "github" { profile := profile.(social := profile.social.(github := value)); }
    else if keyLower == "email" { profile := profile.(social := profile.social.(email := value)); }
    else if keyLower == "bio" && profile.bio == "" { profile := profile.(bio := value); }
  }

  /** The technologies sheet: the first cell of each line that is not an ignored word. */
  method ReadTechsSheet(techsText: string) returns (newSkills: seq<string>)
    ensures newSkills == Collect(Lines(techsText), SkillRow)
  {
    newSkills := [];
    if techsText != "" {
      var lines := Split(techsText, CharSep('\n'));
      assert lines == Lines(techsText);
      var i := 0;
      while i < |lines|
        invariant 0 <= i <= |lines|
        invariant newSkills == Collect(lines[..i], SkillRow)
      {
        CollectSnoc(lines, SkillRow, i);
        newSkills := TechsLine(newSkills, lines[i], i);
        i := i + 1;
      }
      assert lines[..|lines|] == lines;
    }
  }

  /** The callback of the technologies sheet's `forEach`. */
  method TechsLine(before: seq<string>, line: string, index: nat) returns (newSkills: seq<string>)
    ensures newSkills == before + match SkillRow(line, index) case Some(s) => [s] case None => []
  {
    newSkills := before;
    var trimmedLine := CleanString(line);
    if trimmedLine == "" { return; }
    var parts := SplitCsvLine(trimmedLine);
    var possibleSkill := parts[0];
    if possibleSkill != "" && ToLower(possibleSkill) !in IgnoredSkillKeys {
      newSkills := newSkills + [possibleSkill];
    }
  }

  /** The about sheet: `formacao`, `certificacao` and `curso` rows, each to its own list. */
  method ReadAboutSheet(aboutText: string)
    returns (newEducation: seq<Education>, newCertifications: seq<Certification>, newCourses: seq<Course>)
    ensures newEducation == Collect(Lines(aboutText), EducationRow)
    ensures newCertifications == Collect(Lines(aboutText), CertificationRow)
    ensures newCourses == Collect(Lines(aboutText), CourseRow)
  {
    newEducation, newCertifications, newCourses := [], [], [];
    if aboutText != "" {
      var lines := Split(aboutText, CharSep('\n'));
      assert lines == Lines(aboutText);
      var index := 0;
      while index < |lines|
        invariant 0 <= index <= |lines|
        invariant newEducation == Collect(lines[..index], EducationRow)
        invariant newCertifications == Collect(lines[..index], CertificationRow)
        invariant newCourses == Collect(lines[..index], CourseRow)
      {
        var education, certifications, courses := newEducation, newCertifications, newCourses;
        newEducation, newCertifications, newCourses :=
          AboutLine(education, certifications, courses, lines[index], index);
        AboutSnoc(lines, index, education, certifications, courses, newEducation, newCertifications, newCourses);
        index := index + 1;
      }
      assert lines[..|lines|] == lines;
    }
  }

  /** One more line of the about sheet extends each list by what that line makes. */
  lemma AboutSnoc(lines: seq<string>, index: nat,
                  education: seq<Education>, certifications: seq<Certification>, courses: seq<Course>,
                  newEducation: seq<Education>, newCertifications: seq<Certification>, newCourses: seq<Course>)
    requires index < |lines|
    requires education == Collect(lines[..index], EducationRow)
    requires certifications == Collect(lines[..index], CertificationRow)
    requires courses == Collect(lines[..index], CourseRow)
    requires newEducation == education + match EducationRow(lines[index], index) case Some(e) => [e] case None => []
    requires newCertifications == certifications + match CertificationRow(lines[index], index) case Some(c) => [c] case None => []
    requires newCourses == courses + match CourseRow(lines[index], index) case Some(c) => [c] case None => []
    ensures newEducation == Collect(lines[..index + 1], EducationRow)
    ensures newCertifications == Collect(lines[..index + 1], CertificationRow)
    ensures newCourses == Collect(lines[..index + 1], CourseRow)
  {
    CollectSnoc(lines, EducationRow, index);
    CollectSnoc(lines, CertificationRow, index);
    CollectSnoc(lines, CourseRow, index);
  }

  /** The callback of the about sheet's `forEach`. */
  method AboutLine(education: seq<Education>, certifications: seq<Certification>, courses: seq<Course>,
                   line: string, index: nat)
    returns (newEducation: seq<Education>, newCertifications: seq<Certification>, newCourses: seq<Course>)
    ensures newEducation == education + match EducationRow(line, index) case Some(e) => [e] case None => []
    ensures newCertifications == certifications + match CertificationRow(line, index) case Some(c) => [c] case None => []
    ensures newCourses == courses + match CourseRow(line, index) case Some(c) => [c] case None => []
  {
    newEducation, newCertifications, newCourses := education, certifications, courses;
    var trimmedLine := CleanString(line);
    if trimmedLine == "" { return; }
    var parts := SplitCsvLine(trimmedLine);
    if |parts| < 2 { return; }
    var kind := Discriminator(parts[0]);
    var colB := Field(parts, 1);
    var colC := Field(parts, 2);
    var colD := Field(parts, 3);

    if kind == "formacao" {
      newEducation := newEducation + [Education("edu-sheet-" + NatToString(index), colB, colC, colD)];
    } else if kind == "certificacao" {
      newCertifications := newCertifications + [Certification("cert-sheet-" + NatToString(index), colB, colC, colD)];
    } else if kind == "curso" {
      newCourses := newCourses + [Course("course-sheet-" + NatToString(index), colB, colC, colD)];
    }
  }

  /** The contact sheet: a key mentioning linkedin, github or email sets that link. */
  method ReadContactSheet(start: ProfileData, contactText: string) returns (profile: ProfileData)
    ensures profile == Fold(ContactSheet, start, Assignments(ContactSheet, Lines(contactText)))
  {
    profile := start;
    if contactText != "" {
      var lines := Split(contactText, CharSep('\n'));
      assert lines == Lines(contactText);
      var i := 0;
      while i < |lines|
        invariant 0 <= i <= |lines|
        invariant profile == Fold(ContactSheet, start, Assignments(ContactSheet, lines[..i]))
      {
        AssignmentsSnoc(ContactSheet, lines, i);
        FoldSnoc(ContactSheet, start, Assignments(ContactSheet, lines[..i]), LineAssignment(ContactSheet, lines[i]));
        profile := ContactLine(profile, lines[i]);
        i := i + 1;
      }
      assert lines[..|lines|] == lines;
    }
  }

  /** The callback of the contact sheet's `forEach`. */
  method ContactLine(before: ProfileData, line: string) returns (profile: ProfileData)
    ensures profile == Step(ContactSheet, before, LineAssignment(ContactSheet, line))
  {
    profile := before;
    var trimmedLine := CleanString(line);
    if trimmedLine == "" { return; }
    var parts := SplitCsvLine(trimmedLine);
    if |parts| < 2 { return; }
    var kind := ToLower(parts[0]);
    var value := parts[1];
    if value == "" { return; }
    assert LineAssignment(ContactSheet, line) == match SlotOf(ContactSheet, kind) case None => None case Some(slot) => Some(Assignment(slot, value));
    profile := ContactAssign(profile, kind, value);
  }

  /** The `if … else if …` chain of the contact sheet's callback. */
  method ContactAssign(before: ProfileData, kind: string, value: string) returns (profile: ProfileData)
    ensures profile == Step(ContactSheet, before, match SlotOf(ContactSheet, kind) case None => None case Some(slot) => Some(Assignment(slot, value)))
  {
    profile := before;
    if Contains(kind, "linkedin") { profile := profile.(social := profile.social.(linkedin := value)); }
    else if Contains(kind, "github") { profile := profile.(social := profile.social.(github := value)); }
    else if Contains(kind, "email") { profile := profile.(social := profile.social.(email := value)); }
  }

  /** The projects sheet: one project per line with a title other than the header's. */
  method ReadProjectsSheet(projectsText: string) returns (newProjects: seq<Project>)
    ensures newProjects == ProjectsOf(Lines(projectsText))
  {
    newProjects := [];
    if projectsText != "" {
      var lines := Split(projectsText, CharSep('\n'));
      assert lines == Lines(projectsText);
      var index := 0;
      while index < |lines|
        invariant 0 <= index <= |lines|
        invariant newProjects == Collect(lines[..index], ProjectRow)
      {
        CollectSnoc(lines, ProjectRow, index);
        newProjects := ProjectsLine(newProjects, lines[index], index);
        index := index + 1;
      }
      assert lines[..|lines|] == lines;
    }
  }

  /** The callback of the projects sheet's `forEach`. */
  method ProjectsLine(before: seq<Project>, line: string, index: nat) returns (newProjects: seq<Project>)
    ensures newProjects == before + match ProjectRow(line, index) case Some(p) => [p] case None => []
  {
    newProjects := before;
    var trimmedLine := CleanString(line);
    if trimmedLine == "" { return; }
    var parts := SplitCsvLine(trimmedLine);
    var title := Field(parts, 0);
    if title == "" || IsTitleHeader(title) { return; }

    var category := if Field(parts, 1) != "" then Field(parts, 1) else "Geral";
    var technologies := Technologies(Field(parts, 2));
    var description := Field(parts, 3);
    var link := Field(parts, 4);
    var images := Images(parts);
    var thumbnail := if |images| > 0 then images[0] else Placeholder;

    newProjects := newProjects + [Project(
      "proj-sheet-" + NatToString(index),
      title,
      category,
      thumbnail,
      if |images| > 0 then images else [thumbnail],
      description,
      technologies,
      if link != "" then Some(link) else None)];
  }

  // ---------------------------------------------------------------------------------------
  // the cache
  // ---------------------------------------------------------------------------------------

  /** A freshly stored entry is served until a minute has passed, and not after. */
  lemma StoredEntryLifetime(data: PortfolioData, storedAt: int, now: int)
    ensures ServesCache(false, Some(CacheEntry(data, storedAt)), now) <==> now < storedAt + 60000
    ensures !ServesCache(true, Some(CacheEntry(data, storedAt)), now)
  {
  }

  /** An entry stored at `t` is served 59999 ms later, and no longer 61000 ms later. */
  lemma CacheExpiryExample(data: PortfolioData, t: int)
    ensures ServesCache(false, Some(CacheEntry(data, t)), t + 59999)
    ensures !ServesCache(false, Some(CacheEntry(data, t)), t + 61000)
  {
  }

  /** Once stale, an entry stays stale. */
  lemma StaleStaysStale(ignoreCache: bool, cached: Option<CacheEntry>, now: int, later: int)
    requires now <= later && !ServesCache(ignoreCache, cached, now)
    ensures !ServesCache(ignoreCache, cached, later)
  {
  }
}
