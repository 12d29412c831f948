/**
 * The three key/value sheets that fill the profile: the texts sheet (bio, about text,
 * name, role), the profile sheet (avatar, banner, name, role, social links, bio) and the
 * contact sheet (social links). Each line `key,value` with a non-empty value and a key the
 * sheet recognises assigns one profile field; how it assigns differs per sheet and field.
 */
module SheetProfile {
  import opened Wrappers
  import opened JsStrings
  import opened Types
  import opened CsvText
  import opened SheetRows

  /** The profile fields a sheet can assign. */
  datatype Slot = Name | Role | Bio | AboutText | Avatar | Banner | LinkedIn | GitHub | Email

  datatype Sheet = TextsSheet | ProfileSheet | ContactSheet

  function Get(p: ProfileData, slot: Slot): string {
    match slot
    case Name => p.name
    case Role => p.role
    case Bio => p.bio
    case AboutText => p.aboutText
    case Avatar => p.avatar
    case Banner => p.banner
    case LinkedIn => p.social.linkedin
    case GitHub => p.social.github
    case Email => p.social.email
  }

  /** `profile.<slot> = v`: that one field changes. */
  function Set(p: ProfileData, slot: Slot, v: string): (r: ProfileData)
    ensures forall t :: Get(r, t) == if t == slot then v else Get(p, t)
  {
    match slot
    case Name => p.(name := v)
    case Role => p.(role := v)
    case Bio => p.(bio := v)
    case AboutText => p.(aboutText := v)
    case Avatar => p.(avatar := v)
    case Banner => p.(banner := v)
    case LinkedIn => p.(social := p.social.(linkedin := v))
    case GitHub => p.(social := p.social.(github := v))
    case Email => p.(social := p.social.(email := v))
  }

  /**
   * The field a key names on each sheet. The texts and profile sheets compare the whole
   * key (lower-cased, colons removed, trimmed); the contact sheet only lower-cases it and
   * looks for `linkedin`, then `github`, then `email` inside it.
   */
  function SlotOf(sheet: Sheet, key: string): (r: Option<Slot>)
    ensures r.Some? ==> r.value in SheetSlots(sheet)
    ensures sheet == ContactSheet ==>
      (r.Some? <==> Contains(key, "linkedin") || Contains(key, "github") || Contains(key, "email"))
  {
    match sheet
    case TextsSheet =>
      if key == "bio" then Some(Bio)
      else if key == "sobre" then Some(AboutText)
      else if key == "nome" || key == "name" then Some(Name)
      else if key == "cargo" || key == "role" then Some(Role)
      else None
    case ProfileSheet =>
      if key == "avatar" then Some(Avatar)
      else if key == "banner" then Some(Banner)
      else if key == "name" || key == "nome" then Some(Name)
      else if key == "role" || key == "cargo" then Some(Role)
      else if key == "linkedin" then Some(LinkedIn)
      else if key == "github" then Some(GitHub)
      else if key == "email" then Some(Email)
      else if key == "bio" then Some(Bio)
      else None
    case ContactSheet =>
      if Contains(key, "linkedin") then Some(LinkedIn)
      else if Contains(key, "github") then Some(GitHub)
      else if Contains(key, "email") then Some(Email)
      else None
  }

  /** The fields each sheet can assign. */
  function SheetSlots(sheet: Sheet): set<Slot> {
    match sheet
    case TextsSheet => {Name, Role, Bio, AboutText}
    case ProfileSheet => {Name, Role, Bio, Avatar, Banner, LinkedIn, GitHub, Email}
    case ContactSheet => {LinkedIn, GitHub, Email}
  }

  /** What the key of a row is, per sheet: the contact sheet does not remove colons or trim. */
  function KeyOf(sheet: Sheet, cell: string): (r: string)
    ensures forall c :: c in r ==> !IsUpper(c)
    ensures sheet != ContactSheet ==> ':' !in r && (r == [] || (!IsWhitespace(r[0]) && !IsWhitespace(r[|r| - 1])))
    ensures sheet == ContactSheet ==> |r| == |cell|
  {
    if sheet == ContactSheet then ToLower(cell) else SheetKey(cell)
  }

  datatype Assignment = Assignment(slot: Slot, value: string)

  /**
   * What one line of a key/value sheet says: nothing for a blank line, a line of one cell,
   * an empty value or an unknown key; otherwise the field its key names and its value.
   */
  function LineAssignment(sheet: Sheet, line: string): (r: Option<Assignment>)
    ensures r.Some? ==> r.value.value != "" && r.value.slot in SheetSlots(sheet)
    ensures Cells(line).None? ==> r.None?
    ensures Cells(line).Some? && (|Cells(line).value| < 2 || Cells(line).value[1] == "") ==> r.None?
    ensures Cells(line).Some? && |Cells(line).value| >= 2 && Cells(line).value[1] != "" ==>
      var parts := Cells(line).value;
      match SlotOf(sheet, KeyOf(sheet, parts[0]))
      case None => r.None?
      case Some(slot) => r == Some(Assignment(slot, parts[1]))
  {
    match Cells(line)
    case None => None
    case Some(parts) =>
      if |parts| < 2 || parts[1] == "" then None
      else
        var key := KeyOf(sheet, parts[0]);
        match SlotOf(sheet, key)
        case None => None
        case Some(slot) => Some(Assignment(slot, parts[1]))
  }

  /** The assignment of each line of a sheet, line by line. */
  function Assignments(sheet: Sheet, lines: seq<string>): (r: seq<Option<Assignment>>)
    ensures |r| == |lines|
    ensures forall i :: 0 <= i < |lines| ==> r[i] == LineAssignment(sheet, lines[i])
  {
    MapLines(lines, line => LineAssignment(sheet, line))
  }

  /** One more line adds its assignment at the end. */
  lemma AssignmentsSnoc(sheet: Sheet, lines: seq<string>, i: nat)
    requires i < |lines|
    ensures Assignments(sheet, lines[..i + 1]) == Assignments(sheet, lines[..i]) + [LineAssignment(sheet, lines[i])]
  {
    MapLinesSnoc(lines, line => LineAssignment(sheet, line), i);
  }

  /** Every assignment in `a` names a field of `sheet`. */
  predicate WithinSheet(sheet: Sheet, a: seq<Option<Assignment>>) {
    forall k :: 0 <= k < |a| && a[k].Some? ==> a[k].value.slot in SheetSlots(sheet)
  }

  /** Every assigned value in `a` is non-empty. */
  predicate NonEmptyValues(a: seq<Option<Assignment>>) {
    forall k :: 0 <= k < |a| && a[k].Some? ==> a[k].value.value != ""
  }

  /** A sheet's lines only assign its own fields, and only non-empty values. */
  lemma AssignmentsWellFormed(sheet: Sheet, lines: seq<string>)
    ensures WithinSheet(sheet, Assignments(sheet, lines))
    ensures NonEmptyValues(Assignments(sheet, lines))
  {
  }

  predicate Assigns(a: Option<Assignment>, slot: Slot) {
    a.Some? && a.value.slot == slot
  }

  /** Some line of `a` assigns `slot`. */
  predicate AssignedIn(a: seq<Option<Assignment>>, slot: Slot) {
    exists k :: 0 <= k < |a| && Assigns(a[k], slot)
  }

  /** The fields whose first assignment on a sheet sticks: the profile sheet's name, role and bio. */
  predicate FillsOnlyEmpty(sheet: Sheet, slot: Slot) {
    sheet == ProfileSheet && (slot == Name || slot == Role || slot == Bio)
  }

  /** The fields a sheet stores through `normalizeUrl`: the profile sheet's avatar and banner. */
  predicate StoresUrl(sheet: Sheet, slot: Slot) {
    sheet == ProfileSheet && (slot == Avatar || slot == Banner)
  }

  /** The effect of one line's assignment on the profile, the body of the sheet's `forEach`. */
  function Step(sheet: Sheet, p: ProfileData, a: Option<Assignment>): (r: ProfileData)
    ensures a.None? ==> r == p
    ensures a.Some? ==> forall t :: t != a.value.slot ==> Get(r, t) == Get(p, t)
  {
    match a
    case None => p
    case Some(Assignment(slot, value)) =>
      if StoresUrl(sheet, slot) then Set(p, slot, NormalizeUrl(value))
      else if FillsOnlyEmpty(sheet, slot) && Get(p, slot) != "" then p
      else Set(p, slot, value)
  }

  /**
   * The profile after a sheet's assignments, in line order, starting from `p`;
   * a field changes only when some line assigns it.
   */
  function Fold(sheet: Sheet, p: ProfileData, a: seq<Option<Assignment>>): (r: ProfileData)
    ensures forall slot {:trigger AssignedIn(a, slot)} :: Get(r, slot) != Get(p, slot) ==> AssignedIn(a, slot)
  {
    if a == [] then p
    else
      var n := |a| - 1;
      var before := Fold(sheet, p, a[..n]);
      assert forall slot :: AssignedIn(a[..n], slot) ==> AssignedIn(a, slot) by {
        assert forall k :: 0 <= k < n ==> a[..n][k] == a[k];
      }
      Step(sheet, before, a[n])
  }

  /** One more assignment is one more step. */
  lemma FoldSnoc(sheet: Sheet, p: ProfileData, a: seq<Option<Assignment>>, x: Option<Assignment>)
    ensures Fold(sheet, p, a + [x]) == Step(sheet, Fold(sheet, p, a), x)
  {
    assert (a + [x])[..|a|] == a;
  }

  // ---------------------------------------------------------------------------------------
  // which line decides a field
  // ---------------------------------------------------------------------------------------

  /** The value of the last assignment to `slot`. */
  function LastValue(a: seq<Option<Assignment>>, slot: Slot): Option<string> {
    if a == [] then None
    else if Assigns(a[|a| - 1], slot) then Some(a[|a| - 1].value.value)
    else LastValue(a[..|a| - 1], slot)
  }

  /** The value of the first assignment to `slot`. */
  function FirstValue(a: seq<Option<Assignment>>, slot: Slot): Option<string> {
    if a == [] then None
    else
      var earlier := FirstValue(a[..|a| - 1], slot);
      if earlier.Some? then earlier
      else if Assigns(a[|a| - 1], slot) then Some(a[|a| - 1].value.value)
      else None
  }

  /** `LastValue` is the value of an assignment that no later assignment overrides. */
  lemma {:induction false} LastValueIsLast(a: seq<Option<Assignment>>, slot: Slot)
    ensures LastValue(a, slot).None? <==> forall i :: 0 <= i < |a| ==> !Assigns(a[i], slot)
    ensures LastValue(a, slot).Some? ==>
      exists i :: 0 <= i < |a| && a[i] == Some(Assignment(slot, LastValue(a, slot).value))
        && (forall j :: i < j < |a| ==> !Assigns(a[j], slot))
  {
    if a != [] {
      var n := |a| - 1;
      var p := a[..n];
      LastValueIsLast(p, slot);
      assert forall i :: 0 <= i < n ==> a[i] == p[i];
      if Assigns(a[n], slot) {
        assert a[n] == Some(Assignment(slot, LastValue(a, slot).value));
      } else if LastValue(p, slot).Some? {
        var i :| 0 <= i < |p| && p[i] == Some(Assignment(slot, LastValue(p, slot).value))
          && (forall j :: i < j < |p| ==> !Assigns(p[j], slot));
        assert a[i] == Some(Assignment(slot, LastValue(a, slot).value));
      }
    }
  }

  /** `FirstValue` is the value of an assignment with no assignment to the field before it. */
  lemma {:induction false} FirstValueIsFirst(a: seq<Option<Assignment>>, slot: Slot)
    ensures FirstValue(a, slot).None? <==> forall i :: 0 <= i < |a| ==> !Assigns(a[i], slot)
    ensures FirstValue(a, slot).Some? ==>
      exists i :: 0 <= i < |a| && a[i] == Some(Assignment(slot, FirstValue(a, slot).value))
        && (forall j :: 0 <= j < i ==> !Assigns(a[j], slot))
  {
    if a != [] {
      var n := |a| - 1;
      var p := a[..n];
      FirstValueIsFirst(p, slot);
      assert forall i :: 0 <= i < n ==> a[i] == p[i];
      if FirstValue(p, slot).Some? {
        var i :| 0 <= i < |p| && p[i] == Some(Assignment(slot, FirstValue(p, slot).value))
          && (forall j :: 0 <= j < i ==> !Assigns(p[j], slot));
        assert a[i] == Some(Assignment(slot, FirstValue(a, slot).value));
      } else if Assigns(a[n], slot) {
        assert a[n] == Some(Assignment(slot, FirstValue(a, slot).value));
      }
    }
  }

  /** A sheet never touches a field it has no key for. */
  lemma {:induction false} FoldOutsideSheet(sheet: Sheet, p: ProfileData, a: seq<Option<Assignment>>, slot: Slot)
    requires WithinSheet(sheet, a) && slot !in SheetSlots(sheet)
    ensures Get(Fold(sheet, p, a), slot) == Get(p, slot)
  {
    if a != [] {
      assert WithinSheet(sheet, a[..|a| - 1]);
      FoldOutsideSheet(sheet, p, a[..|a| - 1], slot);
    }
  }

  /** Plain fields: the last line that assigns the field wins; with none, it keeps its value. */
  lemma {:induction false} FoldLastWins(sheet: Sheet, p: ProfileData, a: seq<Option<Assignment>>, slot: Slot)
    requires !StoresUrl(sheet, slot) && !FillsOnlyEmpty(sheet, slot)
    ensures Get(Fold(sheet, p, a), slot) == LastValue(a, slot).GetOr(Get(p, slot))
  {
    if a != [] {
      FoldLastWins(sheet, p, a[..|a| - 1], slot);
    }
  }

  /** Avatar and banner on the profile sheet: the last assigned URL wins, normalised. */
  lemma {:induction false} FoldLastUrlWins(p: ProfileData, a: seq<Option<Assignment>>, slot: Slot)
    requires StoresUrl(ProfileSheet, slot)
    ensures Get(Fold(ProfileSheet, p, a), slot) ==
      match LastValue(a, slot)
      case Some(v) => NormalizeUrl(v)
      case None => Get(p, slot)
  {
    if a != [] {
      FoldLastUrlWins(p, a[..|a| - 1], slot);
    }
  }

  /**
   * Name, role and bio on the profile sheet only fill an empty field: a value already
   * there stays, otherwise the first assignment with a non-empty value wins.
   */
  lemma {:induction false} FoldFirstFills(p: ProfileData, a: seq<Option<Assignment>>, slot: Slot)
    requires FillsOnlyEmpty(ProfileSheet, slot) && NonEmptyValues(a)
    ensures Get(Fold(ProfileSheet, p, a), slot) ==
      if Get(p, slot) != "" then Get(p, slot) else FirstValue(a, slot).GetOr("")
  {
    if a != [] {
      var n := |a| - 1;
      assert forall k :: 0 <= k < n ==> a[..n][k] == a[k];
      FoldFirstFills(p, a[..n], slot);
      FirstValueIsFirst(a[..n], slot);
    }
  }

  /** The contact sheet looks for `linkedin` first: a key naming both services sets LinkedIn. */
  lemma ContactKeyOrder(key: string)
    requires Contains(key, "linkedin")
    ensures SlotOf(ContactSheet, key) == Some(LinkedIn)
  {
  }

  // ---------------------------------------------------------------------------------------
  // the three sheets together
  // ---------------------------------------------------------------------------------------

  /** The profile after the texts sheet, then the profile sheet, then the contact sheet. */
  function ProfileOf(texts: seq<string>, profile: seq<string>, contact: seq<string>): (r: ProfileData)
    ensures Decides(r, Assignments(TextsSheet, texts), Assignments(ProfileSheet, profile), Assignments(ContactSheet, contact))
  {
    var t, p, c := Assignments(TextsSheet, texts), Assignments(ProfileSheet, profile), Assignments(ContactSheet, contact);
    AssignmentsWellFormed(TextsSheet, texts);
    AssignmentsWellFormed(ProfileSheet, profile);
    AssignmentsWellFormed(ContactSheet, contact);
    CombinedPrecedence(t, p, c);
    Combined(t, p, c)
  }

  /** The same, from the assignments of the three sheets. */
  function Combined(t: seq<Option<Assignment>>, p: seq<Option<Assignment>>, c: seq<Option<Assignment>>): (r: ProfileData)
    ensures forall slot {:trigger AssignedIn(t, slot)} :: Get(r, slot) != "" ==> AssignedIn(t, slot) || AssignedIn(p, slot) || AssignedIn(c, slot)
  {
    Fold(ContactSheet, Fold(ProfileSheet, Fold(TextsSheet, EmptyProfile, t), p), c)
  }

  /**
   * Which sheet decides each profile field:
   * - name, role and bio: the texts sheet's last value, else the profile sheet's first;
   * - about text: the texts sheet's last value;
   * - avatar and banner: the profile sheet's last value, normalised;
   * - social links: the contact sheet's last value, else the profile sheet's last.
   */
  predicate Decides(r: ProfileData, t: seq<Option<Assignment>>, p: seq<Option<Assignment>>, c: seq<Option<Assignment>>) {
    && r.name == LastValue(t, Name).GetOr(FirstValue(p, Name).GetOr(""))
    && r.role == LastValue(t, Role).GetOr(FirstValue(p, Role).GetOr(""))
    && r.bio == LastValue(t, Bio).GetOr(FirstValue(p, Bio).GetOr(""))
    && r.aboutText == LastValue(t, AboutText).GetOr("")
    && r.avatar == (match LastValue(p, Avatar) case Some(v) => NormalizeUrl(v) case None => "")
    && r.banner == (match LastValue(p, Banner) case Some(v) => NormalizeUrl(v) case None => "")
    && r.social.linkedin == LastValue(c, LinkedIn).GetOr(LastValue(p, LinkedIn).GetOr(""))
    && r.social.github == LastValue(c, GitHub).GetOr(LastValue(p, GitHub).GetOr(""))
    && r.social.email == LastValue(c, Email).GetOr(LastValue(p, Email).GetOr(""))
  }

  lemma CombinedPrecedence(t: seq<Option<Assignment>>, p: seq<Option<Assignment>>, c: seq<Option<Assignment>>)
    requires WithinSheet(TextsSheet, t) && WithinSheet(ProfileSheet, p) && WithinSheet(ContactSheet, c)
    requires NonEmptyValues(t) && NonEmptyValues(p)
    ensures Decides(Combined(t, p, c), t, p, c)
  {
    IdentityPrecedence(t, p, c, Name);
    IdentityPrecedence(t, p, c, Role);
    IdentityPrecedence(t, p, c, Bio);
    AboutTextPrecedence(t, p, c);
    ImagePrecedence(t, p, c, Avatar);
    ImagePrecedence(t, p, c, Banner);
    SocialPrecedence(t, p, c, LinkedIn);
    SocialPrecedence(t, p, c, GitHub);
    SocialPrecedence(t, p, c, Email);
  }

  /** Name, role and bio: the texts sheet's last value, else the profile sheet's first. */
  lemma IdentityPrecedence(t: seq<Option<Assignment>>, p: seq<Option<Assignment>>, c: seq<Option<Assignment>>, slot: Slot)
    requires slot == Name || slot == Role || slot == Bio
    requires NonEmptyValues(t) && NonEmptyValues(p) && WithinSheet(ContactSheet, c)
    ensures Get(Combined(t, p, c), slot) == LastValue(t, slot).GetOr(FirstValue(p, slot).GetOr(""))
  {
    var p1 := Fold(TextsSheet, EmptyProfile, t);
    FoldLastWins(TextsSheet, EmptyProfile, t, slot);
    LastValueIsLast(t, slot);
    FoldFirstFills(p1, p, slot);
    FoldOutsideSheet(ContactSheet, Fold(ProfileSheet, p1, p), c, slot);
  }

  /** The about text comes from the texts sheet alone. */
  lemma AboutTextPrecedence(t: seq<Option<Assignment>>, p: seq<Option<Assignment>>, c: seq<Option<Assignment>>)
    requires WithinSheet(ProfileSheet, p) && WithinSheet(ContactSheet, c)
    ensures Combined(t, p, c).aboutText == LastValue(t, AboutText).GetOr("")
  {
    var p1 := Fold(TextsSheet, EmptyProfile, t);
    FoldLastWins(TextsSheet, EmptyProfile, t, AboutText);
    FoldOutsideSheet(ProfileSheet, p1, p, AboutText);
    FoldOutsideSheet(ContactSheet, Fold(ProfileSheet, p1, p), c, AboutText);
  }

  /** Avatar and banner: the profile sheet's last value, normalised, or empty. */
  lemma ImagePrecedence(t: seq<Option<Assignment>>, p: seq<Option<Assignment>>, c: seq<Option<Assignment>>, slot: Slot)
    requires slot == Avatar || slot == Banner
    requires WithinSheet(TextsSheet, t) && WithinSheet(ContactSheet, c)
    ensures Get(Combined(t, p, c), slot) ==
      match LastValue(p, slot) case Some(v) => NormalizeUrl(v) case None => ""
  {
    var p1 := Fold(TextsSheet, EmptyProfile, t);
    FoldOutsideSheet(TextsSheet, EmptyProfile, t, slot);
    FoldLastUrlWins(p1, p, slot);
    FoldOutsideSheet(ContactSheet, Fold(ProfileSheet, p1, p), c, slot);
  }

  /** Social links: the contact sheet's last value, else the profile sheet's last. */
  lemma SocialPrecedence(t: seq<Option<Assignment>>, p: seq<Option<Assignment>>, c: seq<Option<Assignment>>, slot: Slot)
    requires slot == LinkedIn || slot == GitHub || slot == Email
    requires WithinSheet(TextsSheet, t)
    ensures Get(Combined(t, p, c), slot) == LastValue(c, slot).GetOr(LastValue(p, slot).GetOr(""))
  {
    var p1 := Fold(TextsSheet, EmptyProfile, t);
    FoldOutsideSheet(TextsSheet, EmptyProfile, t, slot);
    FoldLastWins(ProfileSheet, p1, p, slot);
    FoldLastWins(ContactSheet, Fold(ProfileSheet, p1, p), c, slot);
  }
}
