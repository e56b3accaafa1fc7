/** Normalising a theme (commands/connection_preferences.rs).

    Every colour becomes a valid upper-case colour, a fallback is taken from the
    palette of the theme's family and variant. Three colours are special: two are
    migrated away from a legacy pair, and their fallbacks and the one for FTP are
    stored as they are written in the palette, in lower case. */
module ThemeNormal {
  import opened Wrappers
  import opened Text

  /** The colours that are all treated alike: accent, ink, three surfaces, eight
      semantic colours, six terminal colours, sixteen ANSI colours, six search
      colours. */
  const COLOR_COUNT := 41

  type Colors = cs: seq<string> | |cs| == COLOR_COUNT witness seq(COLOR_COUNT, _ => "")

  datatype Theme = Theme(
    schemaVersion: string,
    codeThemeId: string,
    baseThemeId: Option<string>,
    variant: string,
    contrast: nat,
    codeFont: Option<string>,
    uiFont: Option<string>,
    opaqueWindows: bool,
    colors: Colors,
    skill: string,
    sftp: string,
    ftp: string,
    success: string,
    overrides: map<string, string>)

  /** The colours of the four built-in themes, and the characters that count as
      letters or digits in a font name. */
  datatype Palettes = Palettes(
    letters: set<char>, codexDark: Colors, codexLight: Colors, fileTermDark: Colors, fileTermLight: Colors)

  function FallbackColors(p: Palettes, codex: bool, light: bool): Colors {
    if codex then if light then p.codexLight else p.codexDark
    else if light then p.fileTermLight else p.fileTermDark
  }

  function FallbackSkill(codex: bool, light: bool): string {
    if !light then "#b06dff" else if codex then "#924ff7" else "#7c3aed"
  }

  function FallbackSftp(light: bool): string {
    if light then "#0284c7" else "#38bdf8"
  }

  function FallbackFtp(codex: bool, light: bool): string {
    if codex then if light then "#924ff7" else "#b06dff"
    else if light then "#9333ea" else "#c084fc"
  }

  function FallbackSuccess(codex: bool, light: bool): string {
    if !light then "#34d399" else if codex then "#059669" else "#168a53"
  }

  const LEGACY_SFTP := "#0169cc"
  const LEGACY_SUCCESS := "#00a240"

  predicate IsHexDigit(c: char) {
    '0' <= c <= '9' || 'a' <= c <= 'f' || 'A' <= c <= 'F'
  }

  predicate IsHexColor(s: string) {
    |s| in {4, 5, 7, 9} && s[0] == '#' && forall k :: 1 <= k < |s| ==> IsHexDigit(s[k])
  }

  /** A colour as normalisation leaves it. */
  predicate IsUpperHex(s: string) {
    IsHexColor(s) && Upper(s) == s
  }

  predicate ValidPalettes(p: Palettes) {
    forall codex, light :: forall k :: 0 <= k < COLOR_COUNT ==> IsHexColor(FallbackColors(p, codex, light)[k])
  }

  // ----- the pieces

  function NormalColor(value: string, fallback: string): string {
    if IsHexColor(Trim(value)) then Upper(Trim(value)) else Upper(fallback)
  }

  function NormalColors(values: Colors, fallbacks: Colors): (normal: Colors)
    ensures forall k :: 0 <= k < COLOR_COUNT ==> normal[k] == NormalColor(values[k], fallbacks[k])
  {
    seq(COLOR_COUNT, k requires 0 <= k < COLOR_COUNT => NormalColor(values[k], fallbacks[k]))
  }

  predicate KeepsOverride(key: string, value: string) {
    Trim(key) != "" && Utf8Length(key) <= 128 && IsHexColor(Trim(value))
  }

  function NormalOverrides(m: map<string, string>): map<string, string> {
    map k | k in m && KeepsOverride(k, m[k]) :: Upper(Trim(m[k]))
  }

  predicate IsThemeFont(letters: set<char>, s: string) {
    s != "" && Utf8Length(s) <= 128
    && forall k :: 0 <= k < |s| ==> s[k] in letters || IsWhitespace(s[k]) || s[k] in "_.'-"
  }

  function NormalFont(letters: set<char>, font: Option<string>): Option<string> {
    if font.None? then None
    else if IsThemeFont(letters, Trim(font.value)) then Some(Trim(font.value)) else None
  }

  predicate IsCodexId(trimmed: string) {
    trimmed == "codex" || "codex-" <= trimmed
  }

  predicate IsFileTermId(trimmed: string) {
    trimmed == "fileterm" || trimmed == "fileterm-dark" || trimmed == "fileterm-light"
  }

  predicate InCodexFamily(id: string, baseThemeId: Option<string>) {
    IsCodexId(Trim(id)) || (!IsFileTermId(Trim(id)) && baseThemeId == Some("codex"))
  }

  predicate IsCodex(c: Theme) {
    InCodexFamily(c.codeThemeId, c.baseThemeId)
  }

  function FamilyId(codex: bool): string {
    if codex then "codex" else "fileterm"
  }

  function NormalIdOf(id: string, codex: bool): string {
    if Trim(id) == "" || Utf8Length(id) > 256 then FamilyId(codex)
    else if IsFileTermId(Trim(id)) then "fileterm"
    else if Trim(id) == "codex-dark" || Trim(id) == "codex-light" then "codex"
    else Trim(id)
  }

  function NormalId(c: Theme): string {
    NormalIdOf(c.codeThemeId, IsCodex(c))
  }

  predicate HasLegacyStatus(c: Theme) {
    SameIgnoringCase(Trim(c.sftp), LEGACY_SFTP) && SameIgnoringCase(Trim(c.success), LEGACY_SUCCESS)
  }

  /** The saved colours are those of the first Codex themes and nothing else was
      customised. */
  predicate Migrates(c: Theme) {
    IsCodex(c) && c.overrides == map[] && HasLegacyStatus(c)
  }

  function NormalSftp(c: Theme, light: bool): string {
    if Migrates(c) then FallbackSftp(light) else NormalColor(c.sftp, FallbackSftp(light))
  }

  function NormalSuccess(c: Theme, light: bool): string {
    if Migrates(c) then FallbackSuccess(IsCodex(c), light)
    else NormalColor(c.success, FallbackSuccess(IsCodex(c), light))
  }

  function NormalSkill(c: Theme, light: bool): string {
    NormalColor(c.skill, FallbackSkill(IsCodex(c), light))
  }

  /** A theme from before FTP had a colour of its own takes the one of skills. */
  function NormalFtp(c: Theme, light: bool): string {
    if IsHexColor(Trim(c.ftp)) then Upper(Trim(c.ftp))
    else if !IsFileTermId(Trim(c.codeThemeId)) && IsHexColor(Trim(NormalSkill(c, light)))
    then Upper(Trim(NormalSkill(c, light)))
    else FallbackFtp(IsCodex(c), light)
  }

  function Normal(p: Palettes, c: Theme, light: bool): Theme {
    Theme(
      "codex-theme-v1",
      NormalId(c),
      Some(FamilyId(IsCodex(c))),
      if light then "light" else "dark",
      if c.contrast < 100 then c.contrast else 100,
      NormalFont(p.letters, c.codeFont),
      NormalFont(p.letters, c.uiFont),
      c.opaqueWindows,
      NormalColors(c.colors, FallbackColors(p, IsCodex(c), light)),
      NormalSkill(c, light),
      NormalSftp(c, light),
      NormalFtp(c, light),
      NormalSuccess(c, light),
      NormalOverrides(c.overrides))
  }

  // ----- colours settle in one pass

  lemma HexHasNoSpace(s: string)
    requires IsHexColor(s)
    ensures IsTrimmed(s) && Trim(s) == s
  {
  }

  lemma UpperIsHex(s: string)
    requires IsHexColor(s)
    ensures IsUpperHex(Upper(s))
  {
  }

  lemma NormalColorIsHex(value: string, fallback: string)
    requires IsHexColor(fallback)
    ensures IsUpperHex(NormalColor(value, fallback))
  {
    UpperIsHex(if IsHexColor(Trim(value)) then Trim(value) else fallback);
  }

  lemma UpperHexIsNormal(s: string, fallback: string)
    requires IsUpperHex(s)
    ensures NormalColor(s, fallback) == s
  {
  }

  lemma FallbacksAreHex(codex: bool, light: bool)
    ensures IsHexColor(FallbackSkill(codex, light)) && IsHexColor(FallbackSftp(light))
    ensures IsHexColor(FallbackFtp(codex, light)) && IsHexColor(FallbackSuccess(codex, light))
  {
  }

  lemma ColorsSettle(p: Palettes, values: Colors, codex: bool, light: bool)
    requires ValidPalettes(p)
    ensures var normal := NormalColors(values, FallbackColors(p, codex, light));
            && (forall k :: 0 <= k < COLOR_COUNT ==> IsUpperHex(normal[k]))
            && NormalColors(normal, FallbackColors(p, codex, light)) == normal
  {
    var fallbacks := FallbackColors(p, codex, light);
    var normal := NormalColors(values, fallbacks);
    forall k | 0 <= k < COLOR_COUNT
      ensures IsUpperHex(normal[k]) && NormalColor(normal[k], fallbacks[k]) == normal[k]
    {
      NormalColorIsHex(values[k], fallbacks[k]);
      UpperHexIsNormal(normal[k], fallbacks[k]);
    }
  }

  lemma OverridesSettle(m: map<string, string>)
    ensures NormalOverrides(NormalOverrides(m)) == NormalOverrides(m)
    ensures forall k :: k in NormalOverrides(m) ==>
              k in m && Trim(k) != "" && Utf8Length(k) <= 128 && IsUpperHex(NormalOverrides(m)[k])
  {
    var normal := NormalOverrides(m);
    forall k | k in normal ensures KeepsOverride(k, normal[k]) && Upper(Trim(normal[k])) == normal[k] && IsUpperHex(normal[k]) {
      UpperIsHex(Trim(m[k]));
      HexHasNoSpace(normal[k]);
    }
  }

  lemma FontSettles(letters: set<char>, font: Option<string>)
    ensures NormalFont(letters, NormalFont(letters, font)) == NormalFont(letters, font)
    ensures NormalFont(letters, font).Some? ==> IsThemeFont(letters, NormalFont(letters, font).value)
  {
  }

  // ----- the family of a theme settles in one pass

  lemma FamilyIdSettles(codex: bool)
    ensures Trim(FamilyId(codex)) == FamilyId(codex) && Utf8Length(FamilyId(codex)) <= 256
    ensures InCodexFamily(FamilyId(codex), Some(FamilyId(codex))) == codex
    ensures NormalIdOf(FamilyId(codex), codex) == FamilyId(codex)
  {
    TrimIsTrimmed(FamilyId(codex));
    WidthsAddUp(FamilyId(codex));
    assert "fileterm"[0] != "codex-"[0];
  }

  lemma OtherIdSettles(id: string, codex: bool, t: string)
    requires t == Trim(id) && t != "" && Utf8Length(id) <= 256 && !IsFileTermId(t)
    requires IsCodexId(t) ==> codex
    ensures Trim(t) == t && Utf8Length(t) <= 256
    ensures InCodexFamily(t, Some(FamilyId(codex))) == codex
  {
    TrimIsTrimmed(id);
    TrimIsShorter(id);
    assert "fileterm" != "codex";
  }

  lemma IdSettles(id: string, baseThemeId: Option<string>)
    ensures var codex := InCodexFamily(id, baseThemeId);
            var n := NormalIdOf(id, codex);
            InCodexFamily(n, Some(FamilyId(codex))) == codex && NormalIdOf(n, codex) == n
  {
    var codex := InCodexFamily(id, baseThemeId);
    FamilyIdSettles(codex);
    if Trim(id) != "" && Utf8Length(id) <= 256 && !IsFileTermId(Trim(id)) {
      OtherIdSettles(id, codex, Trim(id));
    }
  }

  lemma {:induction false} WidthsAddUp(s: string)
    ensures Utf8Length(s) <= 4 * |s|
  {
    if s != [] {
      WidthsAddUp(s[..|s| - 1]);
    }
  }

  // ----- what one pass achieves

  /** Every colour is a colour, every override and font is valid. */
  predicate AllValid(p: Palettes, t: Theme) {
    && (forall k :: 0 <= k < COLOR_COUNT ==> IsUpperHex(t.colors[k]))
    && IsUpperHex(t.skill) && IsHexColor(t.sftp) && IsHexColor(t.ftp) && IsHexColor(t.success)
    && (forall k :: k in t.overrides ==> Trim(k) != "" && Utf8Length(k) <= 128 && IsUpperHex(t.overrides[k]))
    && (t.codeFont.Some? ==> IsThemeFont(p.letters, t.codeFont.value))
    && (t.uiFont.Some? ==> IsThemeFont(p.letters, t.uiFont.value))
    && t.contrast <= 100
  }

  lemma SpecialColorsAreHex(c: Theme, light: bool)
    ensures IsUpperHex(NormalSkill(c, light)) && IsHexColor(NormalSftp(c, light))
    ensures IsHexColor(NormalFtp(c, light)) && IsHexColor(NormalSuccess(c, light))
  {
    FallbacksAreHex(IsCodex(c), light);
    NormalColorIsHex(c.skill, FallbackSkill(IsCodex(c), light));
    NormalColorIsHex(c.sftp, FallbackSftp(light));
    NormalColorIsHex(c.success, FallbackSuccess(IsCodex(c), light));
    if IsHexColor(Trim(c.ftp)) {
      UpperIsHex(Trim(c.ftp));
    }
    if IsHexColor(Trim(NormalSkill(c, light))) {
      UpperIsHex(Trim(NormalSkill(c, light)));
    }
  }

  /** One pass leaves only valid colours, overrides and fonts, whatever it gets. */
  lemma OnePassIsValid(p: Palettes, c: Theme, light: bool)
    requires ValidPalettes(p)
    ensures AllValid(p, Normal(p, c, light))
  {
    ColorsSettle(p, c.colors, IsCodex(c), light);
    SpecialColorsAreHex(c, light);
    OverridesSettle(c.overrides);
    FontSettles(p.letters, c.codeFont);
    FontSettles(p.letters, c.uiFont);
  }

  // ----- the second pass

  /** Everything but the three special colours has settled after one pass. */
  lemma SecondPass(p: Palettes, c: Theme, light: bool)
    requires ValidPalettes(p)
    ensures var n := Normal(p, c, light);
            && IsCodex(n) == IsCodex(c)
            && Normal(p, n, light)
               == n.(sftp := NormalSftp(n, light), ftp := Upper(n.ftp), success := NormalSuccess(n, light))
  {
    var n := Normal(p, c, light);
    IdSettles(c.codeThemeId, c.baseThemeId);
    assert IsCodex(n) == IsCodex(c);
    ColorsSettle(p, c.colors, IsCodex(c), light);
    OverridesSettle(c.overrides);
    FontSettles(p.letters, c.codeFont);
    FontSettles(p.letters, c.uiFont);
    SpecialColorsAreHex(c, light);
    UpperHexIsNormal(n.skill, FallbackSkill(IsCodex(n), light));
    HexHasNoSpace(n.ftp);
  }

  /** The legacy pair is recognised after a pass exactly when it was before and
      has not been migrated by that pass. */
  lemma LegacyAfterAPass(p: Palettes, c: Theme, light: bool)
    ensures HasLegacyStatus(Normal(p, c, light)) <==> HasLegacyStatus(c) && !Migrates(c)
  {
    LegacyOfNormal(p, c, light);
    if Migrates(c) {
      MigratedIsNotLegacy(c, light);
    } else {
      SftpAfterAPass(c, light);
      SuccessAfterAPass(c, light);
    }
  }

  lemma MigratedIsNotLegacy(c: Theme, light: bool)
    requires Migrates(c)
    ensures !SameIgnoringCase(NormalSftp(c, light), LEGACY_SFTP)
  {
  }

  lemma SftpAfterAPass(c: Theme, light: bool)
    requires !Migrates(c)
    ensures SameIgnoringCase(NormalSftp(c, light), LEGACY_SFTP) <==> SameIgnoringCase(Trim(c.sftp), LEGACY_SFTP)
  {
    FallbackIsNotLegacy(light);
    LegacyColorAfterAPass(c.sftp, FallbackSftp(light), LEGACY_SFTP);
  }

  lemma LegacyOfNormal(p: Palettes, c: Theme, light: bool)
    ensures HasLegacyStatus(Normal(p, c, light))
            <==> SameIgnoringCase(NormalSftp(c, light), LEGACY_SFTP)
                 && SameIgnoringCase(NormalSuccess(c, light), LEGACY_SUCCESS)
  {
    SpecialColorsAreHex(c, light);
    HexHasNoSpace(NormalSftp(c, light));
    HexHasNoSpace(NormalSuccess(c, light));
  }

  lemma FallbackIsNotLegacy(light: bool)
    ensures !SameIgnoringCase(FallbackSftp(light), LEGACY_SFTP)
    ensures !SameIgnoringCase(Upper(FallbackSftp(light)), LEGACY_SFTP)
    ensures forall codex :: !SameIgnoringCase(FallbackSuccess(codex, light), LEGACY_SUCCESS)
    ensures forall codex :: !SameIgnoringCase(Upper(FallbackSuccess(codex, light)), LEGACY_SUCCESS)
  {
    assert Upper(FallbackSftp(light))[2] != Upper(LEGACY_SFTP)[2];
    assert Upper(Upper(FallbackSftp(light)))[2] != Upper(LEGACY_SFTP)[2];
    forall codex
      ensures !SameIgnoringCase(FallbackSuccess(codex, light), LEGACY_SUCCESS)
      ensures !SameIgnoringCase(Upper(FallbackSuccess(codex, light)), LEGACY_SUCCESS)
    {
      var s := FallbackSuccess(codex, light);
      assert Upper(s)[3] != Upper(LEGACY_SUCCESS)[3] || Upper(s)[1] != Upper(LEGACY_SUCCESS)[1];
      assert Upper(Upper(s))[3] != Upper(LEGACY_SUCCESS)[3] || Upper(Upper(s))[1] != Upper(LEGACY_SUCCESS)[1];
    }
  }

  lemma LegacyColorAfterAPass(value: string, fallback: string, legacy: string)
    requires IsHexColor(legacy) && !SameIgnoringCase(Upper(fallback), legacy)
    ensures SameIgnoringCase(NormalColor(value, fallback), legacy) <==> SameIgnoringCase(Trim(value), legacy)
  {
    var t := Trim(value);
    if SameIgnoringCase(t, legacy) {
      SameCaseIsHex(t, legacy);
    }
    UpperTwice(t);
  }

  lemma SameCaseIsHex(s: string, hex: string)
    requires IsHexColor(hex) && SameIgnoringCase(s, hex)
    ensures IsHexColor(s)
  {
  }

  lemma UpperTwice(s: string)
    ensures Upper(Upper(s)) == Upper(s)
  {
  }

  lemma SuccessAfterAPass(c: Theme, light: bool)
    requires !Migrates(c)
    ensures SameIgnoringCase(NormalSuccess(c, light), LEGACY_SUCCESS) <==> SameIgnoringCase(Trim(c.success), LEGACY_SUCCESS)
  {
    FallbackIsNotLegacy(light);
    LegacyColorAfterAPass(c.success, FallbackSuccess(IsCodex(c), light), LEGACY_SUCCESS);
  }

  /** The second pass migrates the legacy pair when only overrides that the first
      one threw out had kept it from doing so. */
  predicate MigratesLate(c: Theme) {
    IsCodex(c) && HasLegacyStatus(c) && c.overrides != map[] && NormalOverrides(c.overrides) == map[]
  }

  lemma SecondPassMigratesIff(p: Palettes, c: Theme, light: bool)
    requires ValidPalettes(p)
    ensures Migrates(Normal(p, c, light)) <==> MigratesLate(c)
  {
    SecondPass(p, c, light);
    LegacyAfterAPass(p, c, light);
    assert c.overrides == map[] ==> NormalOverrides(c.overrides) == map[];
  }

  // ----- how many passes it takes

  lemma NoLateMigrationTwice(p: Palettes, c: Theme, light: bool)
    requires ValidPalettes(p)
    ensures !MigratesLate(Normal(p, c, light)) && !Migrates(Normal(p, Normal(p, c, light), light))
  {
    var n := Normal(p, c, light);
    OverridesSettle(c.overrides);
    assert NormalOverrides(n.overrides) == n.overrides;
    SecondPassMigratesIff(p, n, light);
  }

  /** After two passes only case can still change, and only if the second pass
      migrated. */
  lemma ThirdPass(p: Palettes, c: Theme, light: bool)
    requires ValidPalettes(p)
    ensures var n2 := Normal(p, Normal(p, c, light), light);
            Normal(p, n2, light) == n2.(sftp := Upper(n2.sftp), success := Upper(n2.success))
            && Upper(n2.ftp) == n2.ftp
  {
    var n := Normal(p, c, light);
    var n2 := Normal(p, n, light);
    SecondPass(p, c, light);
    SecondPass(p, n, light);
    NoLateMigrationTwice(p, c, light);
    SpecialColorsAreHex(n, light);
    HexHasNoSpace(n2.sftp);
    HexHasNoSpace(n2.success);
    UpperTwice(n.ftp);
  }

  /** Three passes always reach a fixpoint, which no further pass leaves. */
  lemma ThreePassesAreEnough(p: Palettes, c: Theme, light: bool)
    requires ValidPalettes(p)
    ensures var n3 := Normal(p, Normal(p, Normal(p, c, light), light), light);
            Normal(p, n3, light) == n3
  {
    var n2 := Normal(p, Normal(p, c, light), light);
    ThirdPass(p, c, light);
    ThirdPass(p, Normal(p, c, light), light);
    UpperTwice(n2.sftp);
    UpperTwice(n2.success);
  }

  lemma FallbackHasLowerCase(codex: bool, light: bool)
    ensures Upper(FallbackSftp(light)) != FallbackSftp(light)
    ensures Upper(FallbackFtp(codex, light)) != FallbackFtp(codex, light)
  {
    assert exists k :: 0 <= k < 7 && UpperChar(FallbackSftp(light)[k]) != FallbackSftp(light)[k] by {
      if light {
        assert UpperChar(FallbackSftp(light)[5]) != FallbackSftp(light)[5];
      } else {
        assert UpperChar(FallbackSftp(light)[4]) != FallbackSftp(light)[4];
      }
    }
    assert exists k :: 0 <= k < 7 && UpperChar(FallbackFtp(codex, light)[k]) != FallbackFtp(codex, light)[k] by {
      var s := FallbackFtp(codex, light);
      assert UpperChar(s[1]) != s[1] || UpperChar(s[4]) != s[4] || UpperChar(s[5]) != s[5];
    }
  }

  /** Two passes are enough exactly when the second one has nothing to migrate. */
  lemma TwoPassesAreEnoughIff(p: Palettes, c: Theme, light: bool)
    requires ValidPalettes(p)
    ensures var n2 := Normal(p, Normal(p, c, light), light);
            Normal(p, n2, light) == n2 <==> !MigratesLate(c)
  {
    var n := Normal(p, c, light);
    var n2 := Normal(p, n, light);
    ThirdPass(p, c, light);
    SecondPass(p, c, light);
    SecondPassMigratesIff(p, c, light);
    SpecialColorsAreHex(c, light);
    FallbackHasLowerCase(IsCodex(c), light);
    HexHasNoSpace(n.sftp);
    HexHasNoSpace(n.success);
    UpperTwice(n.sftp);
    UpperTwice(n.success);
  }

  /** A Codex theme in its first colours with one override that is not a colour. */
  function LegacyTheme(colors: Colors): Theme {
    Theme("", "codex", None, "dark", 60, None, None, false, colors, "#b06dff", LEGACY_SFTP, "#b06dff", LEGACY_SUCCESS,
          map["surface" := "none"])
  }

  lemma NoOverrideIsKept()
    ensures NormalOverrides(map["surface" := "none"]) == map[]
  {
    TrimIsTrimmed("none");
    assert !IsHexColor("none");
  }

  lemma LegacyThemeMigratesLate(colors: Colors)
    ensures MigratesLate(LegacyTheme(colors))
  {
    TrimIsTrimmed("codex");
    TrimIsTrimmed(LEGACY_SFTP);
    TrimIsTrimmed(LEGACY_SUCCESS);
    NoOverrideIsKept();
    assert "surface" in LegacyTheme(colors).overrides;
  }

  /** Such a theme does need a third pass. */
  lemma ThreePassesAreNeeded(p: Palettes, colors: Colors, light: bool)
    requires ValidPalettes(p)
    ensures var n2 := Normal(p, Normal(p, LegacyTheme(colors), light), light); Normal(p, n2, light) != n2
  {
    LegacyThemeMigratesLate(colors);
    TwoPassesAreEnoughIff(p, LegacyTheme(colors), light);
  }

  /** The colour for FTP comes from the palette as it is written there. */
  predicate FtpFallsBack(c: Theme) {
    !IsHexColor(Trim(c.ftp)) && IsFileTermId(Trim(c.codeThemeId))
  }

  lemma FtpAfterAPass(c: Theme, light: bool)
    ensures Upper(NormalFtp(c, light)) == NormalFtp(c, light) <==> !FtpFallsBack(c)
  {
    SpecialColorsAreHex(c, light);
    HexHasNoSpace(NormalSkill(c, light));
    FallbackHasLowerCase(IsCodex(c), light);
    UpperTwice(Trim(c.ftp));
    UpperTwice(Trim(NormalSkill(c, light)));
  }

  /** One pass is enough exactly when nothing is migrated, now or in the next pass,
      and the FTP colour does not come from the palette. */
  lemma OnePassIsEnoughIff(p: Palettes, c: Theme, light: bool)
    requires ValidPalettes(p)
    ensures var n := Normal(p, c, light);
            Normal(p, n, light) == n <==> !Migrates(c) && !MigratesLate(c) && !FtpFallsBack(c)
  {
    var n := Normal(p, c, light);
    SecondPass(p, c, light);
    SecondPassMigratesIff(p, c, light);
    FtpAfterAPass(c, light);
    SpecialColorsAreHex(c, light);
    FallbackHasLowerCase(IsCodex(c), light);
    SftpAfterTwoPasses(n, c, light);
  }

  lemma SftpAfterTwoPasses(n: Theme, c: Theme, light: bool)
    requires n.sftp == NormalSftp(c, light) && n.success == NormalSuccess(c, light)
    requires IsCodex(n) == IsCodex(c)
    ensures !Migrates(c) && !Migrates(n) ==> NormalSftp(n, light) == n.sftp && NormalSuccess(n, light) == n.success
    ensures Migrates(c) && !Migrates(n) ==> NormalSftp(n, light) != n.sftp
    ensures !Migrates(c) && Migrates(n) ==> NormalSftp(n, light) != n.sftp
  {
    FallbacksAreHex(IsCodex(c), light);
    FallbackHasLowerCase(IsCodex(c), light);
    HexHasNoSpace(FallbackSftp(light));
    if !Migrates(c) {
      NormalColorIsHex(c.sftp, FallbackSftp(light));
      NormalColorIsHex(c.success, FallbackSuccess(IsCodex(c), light));
      UpperHexIsNormal(n.sftp, FallbackSftp(light));
      UpperHexIsNormal(n.success, FallbackSuccess(IsCodex(c), light));
    }
  }

  // ----- field by field

  method NormalizeColors(values: Colors, fallbacks: Colors) returns (normal: Colors)
    ensures normal == NormalColors(values, fallbacks)
  {
    normal := values;
    var k := 0;
    while k < COLOR_COUNT
      invariant 0 <= k <= COLOR_COUNT
      invariant forall m :: 0 <= m < k ==> normal[m] == NormalColor(values[m], fallbacks[m])
      invariant forall m :: k <= m < COLOR_COUNT ==> normal[m] == values[m]
    {
      normal := normal[k := NormalColor(values[k], fallbacks[k])];
      k := k + 1;
    }
  }

  /** `retain`, with the kept values rewritten. */
  method RetainOverrides(overrides: map<string, string>) returns (kept: map<string, string>)
    ensures kept == NormalOverrides(overrides)
  {
    kept := map[];
    var todo := overrides.Keys;
    while todo != {}
      invariant todo <= overrides.Keys
      invariant kept == map k | k in overrides && k !in todo && KeepsOverride(k, overrides[k]) :: Upper(Trim(overrides[k]))
      decreases |todo|
    {
      var key :| key in todo;
      if KeepsOverride(key, overrides[key]) {
        kept := kept[key := Upper(Trim(overrides[key]))];
      }
      todo := todo - {key};
    }
  }

  /** The three colours with rules of their own, and the one FTP may copy. */
  method NormalizeSpecialColors(config: Theme, light: bool) returns (result: Theme)
    ensures result == config.(skill := NormalSkill(config, light), sftp := NormalSftp(config, light),
                              ftp := NormalFtp(config, light), success := NormalSuccess(config, light))
  {
    var codex, migrate := IsCodex(config), Migrates(config);
    result := config.(skill := NormalColor(config.skill, FallbackSkill(codex, light)));
    if migrate {
      result := result.(sftp := FallbackSftp(light));
    } else {
      result := result.(sftp := NormalColor(result.sftp, FallbackSftp(light)));
    }
    if IsHexColor(Trim(result.ftp)) {
      result := result.(ftp := Upper(Trim(result.ftp)));
    } else if !IsFileTermId(Trim(config.codeThemeId)) && IsHexColor(Trim(result.skill)) {
      result := result.(ftp := Upper(Trim(result.skill)));
    } else {
      result := result.(ftp := FallbackFtp(codex, light));
    }
    if migrate {
      result := result.(success := FallbackSuccess(codex, light));
    } else {
      result := result.(success := NormalColor(result.success, FallbackSuccess(codex, light)));
    }
  }

  /** The whole configuration; the migration is decided before any field changes. */
  method NormalizeThemeConfig(p: Palettes, config: Theme, variant: string) returns (result: Theme)
    ensures result == Normal(p, config, variant == "light")
  {
    var light := variant == "light";
    result := NormalizeSpecialColors(config, light);
    var colors := NormalizeColors(config.colors, FallbackColors(p, IsCodex(config), light));
    var overrides := RetainOverrides(config.overrides);
    result := result.(colors := colors, overrides := overrides);
    result := result.(codeFont := NormalFont(p.letters, config.codeFont), uiFont := NormalFont(p.letters, config.uiFont));
    result := result.(contrast := if config.contrast < 100 then config.contrast else 100);
    result := result.(schemaVersion := "codex-theme-v1", variant := if light then "light" else "dark");
    result := result.(baseThemeId := Some(FamilyId(IsCodex(config))), codeThemeId := NormalId(config));
  }
}
