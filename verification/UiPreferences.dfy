/** Normalising the user-interface preferences (commands/ui_preferences.rs). */
module UiPreferences {
  import opened Wrappers
  import opened Sequences
  import opened Text
  import opened ThemeNormal

  const MAX_PROFILE_IDS := 256
  const MAX_SAVED_THEMES := 64
  const OVERVIEW_SECTIONS := ["stats", "recent", "allConnections", "quickActions"]
  const METRICS := ["load", "cpu", "memory", "swap", "disk", "gpu", "gpuMemory", "gpuTemperature", "gpuPower",
                    "processes", "network"]

  // ----- lists without repetition

  /** The first appearance of each element, in order. */
  function Firsts(xs: seq<string>): seq<string> {
    if xs == [] then []
    else
      var before, last := Firsts(xs[..|xs| - 1]), xs[|xs| - 1];
      if last in before then before else before + [last]
  }

  function Capped<T>(xs: seq<T>, cap: nat): (ys: seq<T>)
    ensures |ys| <= cap && ys <= xs
  {
    if |xs| <= cap then xs else xs[..cap]
  }

  lemma {:induction false} FirstsMembers(xs: seq<string>)
    ensures Distinct(Firsts(xs))
    ensures forall x :: x in Firsts(xs) <==> x in xs
    ensures |Firsts(xs)| <= |xs|
  {
    if xs != [] {
      var front := xs[..|xs| - 1];
      FirstsMembers(front);
      assert xs == front + [xs[|xs| - 1]];
    }
  }

  lemma {:induction false} FirstsOfDistinct(xs: seq<string>)
    requires Distinct(xs)
    ensures Firsts(xs) == xs
  {
    if xs != [] {
      FirstsOfDistinct(xs[..|xs| - 1]);
    }
  }

  lemma {:induction false} FirstsGrows(xs: seq<string>, ys: seq<string>)
    ensures Firsts(xs) <= Firsts(xs + ys)
    decreases |ys|
  {
    if ys == [] {
      assert xs + ys == xs;
    } else {
      FirstsGrows(xs, ys[..|ys| - 1]);
      assert (xs + ys)[..|xs + ys| - 1] == xs + ys[..|ys| - 1];
    }
  }

  lemma CappedIsDistinct<T>(xs: seq<T>, cap: nat)
    requires Distinct(xs)
    ensures Distinct(Capped(xs, cap))
  {
  }

  // ----- the allow list

  predicate IsProfileId(trimmed: string) {
    trimmed != "" && Utf8Length(trimmed) <= 256
  }

  function ProfileIds(ids: seq<string>): seq<string> {
    if ids == [] then []
    else
      var last := Trim(ids[|ids| - 1]);
      ProfileIds(ids[..|ids| - 1]) + if IsProfileId(last) then [last] else []
  }

  function AllowedIds(ids: seq<string>): seq<string> {
    Capped(Firsts(ProfileIds(ids)), MAX_PROFILE_IDS)
  }

  predicate TrimsTo(ids: seq<string>, x: string) {
    exists k :: 0 <= k < |ids| && Trim(ids[k]) == x
  }

  lemma TrimsToGrows(front: seq<string>, last: string, x: string)
    ensures TrimsTo(front + [last], x) <==> TrimsTo(front, x) || Trim(last) == x
  {
    var ids := front + [last];
    if k :| 0 <= k < |front| && Trim(front[k]) == x {
      assert Trim(ids[k]) == x;
    }
    assert ids[|front|] == last;
  }

  lemma {:induction false} ProfileIdIsValid(ids: seq<string>, x: string)
    ensures x in ProfileIds(ids) <==> IsProfileId(x) && TrimsTo(ids, x)
  {
    if ids != [] {
      var front, last := ids[..|ids| - 1], ids[|ids| - 1];
      assert ids == front + [last];
      ProfileIdIsValid(front, x);
      TrimsToGrows(front, last, x);
    }
  }

  /** The list is trimmed, valid, without repetition and within its cap; below the
      cap it holds every valid id that came in. */
  lemma AllowedIdsAreValid(ids: seq<string>)
    ensures var allowed := AllowedIds(ids);
            && Distinct(allowed) && |allowed| <= MAX_PROFILE_IDS
            && (forall x :: x in allowed ==> IsProfileId(x) && Trim(x) == x)
            && (|allowed| < MAX_PROFILE_IDS ==>
                  forall k :: 0 <= k < |ids| && IsProfileId(Trim(ids[k])) ==> Trim(ids[k]) in allowed)
  {
    var all := Firsts(ProfileIds(ids));
    FirstsMembers(ProfileIds(ids));
    CappedIsDistinct(all, MAX_PROFILE_IDS);
    forall x | x in AllowedIds(ids) ensures IsProfileId(x) && Trim(x) == x {
      assert x in all;
      ProfileIdIsValid(ids, x);
      var k :| 0 <= k < |ids| && Trim(ids[k]) == x;
      TrimIsTrimmed(ids[k]);
    }
    if |AllowedIds(ids)| < MAX_PROFILE_IDS {
      forall k | 0 <= k < |ids| && IsProfileId(Trim(ids[k])) ensures Trim(ids[k]) in AllowedIds(ids) {
        ProfileIdIsValid(ids, Trim(ids[k]));
      }
    }
  }

  lemma {:induction false} ProfileIdsStay(ids: seq<string>)
    requires forall k :: 0 <= k < |ids| ==> IsProfileId(ids[k]) && Trim(ids[k]) == ids[k]
    ensures ProfileIds(ids) == ids
  {
    if ids != [] {
      var front, last := ids[..|ids| - 1], ids[|ids| - 1];
      ProfileIdsStay(front);
      assert IsProfileId(last) && Trim(last) == last;
      assert ProfileIds(ids) == front + [last];
    }
  }

  lemma AllowedIdsSettle(ids: seq<string>)
    ensures AllowedIds(AllowedIds(ids)) == AllowedIds(ids)
  {
    var allowed := AllowedIds(ids);
    AllowedIdsAreValid(ids);
    ProfileIdsStay(allowed);
    FirstsOfDistinct(allowed);
  }

  lemma {:induction false} ProfileIdsOfSum(ids: seq<string>, more: seq<string>)
    ensures ProfileIds(ids + more) == ProfileIds(ids) + ProfileIds(more)
    decreases |more|
  {
    if more == [] {
      assert ids + more == ids;
    } else {
      ProfileIdsOfSum(ids, more[..|more| - 1]);
      assert (ids + more)[..|ids + more| - 1] == ids + more[..|more| - 1];
    }
  }

  lemma FullListStays(ids: seq<string>, k: nat)
    requires k <= |ids| && |AllowedIds(ids[..k])| >= MAX_PROFILE_IDS
    ensures AllowedIds(ids) == AllowedIds(ids[..k])
  {
    assert ids == ids[..k] + ids[k..];
    ProfileIdsOfSum(ids[..k], ids[k..]);
    FirstsGrows(ProfileIds(ids[..k]), ProfileIds(ids[k..]));
  }

  /** Stops reading as soon as the list is full. */
  method NormalizeAllowedProfileIds(ids: seq<string>) returns (normalized: seq<string>)
    ensures normalized == AllowedIds(ids)
  {
    normalized := [];
    var k := 0;
    while k < |ids|
      invariant k <= |ids|
      invariant normalized == AllowedIds(ids[..k]) == Firsts(ProfileIds(ids[..k]))
      invariant |normalized| < MAX_PROFILE_IDS
    {
      var id := Trim(ids[k]);
      assert ids[..k + 1][..k] == ids[..k] && ids[..k + 1][k] == ids[k];
      k := k + 1;
      if id == "" || Utf8Length(id) > 256 {
        assert ProfileIds(ids[..k]) == ProfileIds(ids[..k - 1]);
        continue;
      }
      ghost var before := ProfileIds(ids[..k - 1]);
      assert ProfileIds(ids[..k]) == before + [id];
      assert (before + [id])[..|before|] == before;
      if id !in normalized {
        normalized := normalized + [id];
      }
      if |normalized| >= MAX_PROFILE_IDS {
        FullListStays(ids, k);
        return;
      }
    }
    assert ids[..k] == ids;
  }

  // ----- orders

  function Known(xs: seq<string>, valid: seq<string>): seq<string> {
    if xs == [] then []
    else
      var last := xs[|xs| - 1];
      Known(xs[..|xs| - 1], valid) + if last in valid then [last] else []
  }

  /** The known entries in the saved order, then the missing ones in the default
      order. */
  function FullOrder(order: seq<string>, defaults: seq<string>): seq<string> {
    Firsts(Known(order, defaults) + defaults)
  }

  lemma {:induction false} KnownMembers(xs: seq<string>, valid: seq<string>)
    ensures forall x :: x in Known(xs, valid) <==> x in xs && x in valid
  {
    if xs != [] {
      KnownMembers(xs[..|xs| - 1], valid);
      assert xs == xs[..|xs| - 1] + [xs[|xs| - 1]];
    }
  }

  lemma {:induction false} CountOfDistinct(xs: seq<string>, x: string)
    requires Distinct(xs)
    ensures multiset(xs)[x] == if x in xs then 1 else 0
  {
    if xs != [] {
      var front := xs[..|xs| - 1];
      assert xs == front + [xs[|xs| - 1]];
      CountOfDistinct(front, x);
    }
  }

  /** Whatever order was saved, the result is a permutation of the defaults, starts
      with what was known of the saved order, and does not change again. */
  lemma FullOrderIsAPermutation(order: seq<string>, defaults: seq<string>)
    requires Distinct(defaults)
    ensures multiset(FullOrder(order, defaults)) == multiset(defaults)
    ensures Firsts(Known(order, defaults)) <= FullOrder(order, defaults)
    ensures FullOrder(FullOrder(order, defaults), defaults) == FullOrder(order, defaults)
  {
    var full := FullOrder(order, defaults);
    var all := Known(order, defaults) + defaults;
    FirstsMembers(all);
    KnownMembers(order, defaults);
    forall x ensures multiset(full)[x] == multiset(defaults)[x] {
      CountOfDistinct(full, x);
      CountOfDistinct(defaults, x);
    }
    FirstsGrows(Known(order, defaults), defaults);
    FullOrderSettles(full, defaults);
  }

  lemma FullOrderSettles(full: seq<string>, defaults: seq<string>)
    requires Distinct(full) && forall x :: x in full <==> x in defaults
    ensures FullOrder(full, defaults) == full
  {
    KnownStays(full, defaults);
    FirstsOfDistinct(full);
    NothingMissing(full, defaults);
  }

  lemma {:induction false} KnownStays(xs: seq<string>, valid: seq<string>)
    requires forall x :: x in xs ==> x in valid
    ensures Known(xs, valid) == xs
  {
    if xs != [] {
      var front, last := xs[..|xs| - 1], xs[|xs| - 1];
      forall x | x in front ensures x in valid {
        assert x in xs;
      }
      KnownStays(front, valid);
      assert last in valid && xs == front + [last];
    }
  }

  lemma {:induction false} NothingMissing(full: seq<string>, more: seq<string>)
    requires forall x :: x in more ==> x in full
    ensures Firsts(full + more) == Firsts(full)
    decreases |more|
  {
    FirstsMembers(full);
    if more == [] {
      assert full + more == full;
    } else {
      NothingMissing(full, more[..|more| - 1]);
      assert (full + more)[..|full + more| - 1] == full + more[..|more| - 1];
    }
  }

  method NormalizeOrder(order: seq<string>, defaults: seq<string>) returns (normalized: seq<string>)
    ensures normalized == FullOrder(order, defaults)
  {
    normalized := NormalizeMetrics(order, defaults);
    ghost var known := Known(order, defaults);
    var k := 0;
    assert known + defaults[..0] == known;
    while k < |defaults|
      invariant k <= |defaults|
      invariant normalized == Firsts(known + defaults[..k])
    {
      assert (known + defaults[..k + 1])[..|known| + k] == known + defaults[..k];
      if defaults[k] !in normalized {
        normalized := normalized + [defaults[k]];
      }
      k := k + 1;
    }
    assert defaults[..k] == defaults;
  }

  method NormalizeMetrics(metrics: seq<string>, valid: seq<string>) returns (normalized: seq<string>)
    ensures normalized == Firsts(Known(metrics, valid))
  {
    normalized := [];
    var k := 0;
    while k < |metrics|
      invariant k <= |metrics|
      invariant normalized == Firsts(Known(metrics[..k], valid))
    {
      assert metrics[..k + 1][..k] == metrics[..k];
      ghost var before := Known(metrics[..k], valid);
      if metrics[k] in valid {
        assert Known(metrics[..k + 1], valid) == before + [metrics[k]];
        assert (before + [metrics[k]])[..|before|] == before;
        if metrics[k] !in normalized {
          normalized := normalized + [metrics[k]];
        }
      } else {
        assert Known(metrics[..k + 1], valid) == before;
      }
      k := k + 1;
    }
    assert metrics[..k] == metrics;
  }

  lemma MetricsSettle(metrics: seq<string>, valid: seq<string>)
    ensures var kept := Firsts(Known(metrics, valid));
            && Distinct(kept) && (forall x :: x in kept <==> x in metrics && x in valid)
            && Firsts(Known(kept, valid)) == kept
  {
    FirstsMembers(Known(metrics, valid));
    KnownMembers(metrics, valid);
    var kept := Firsts(Known(metrics, valid));
    KnownStays(kept, valid);
    FirstsOfDistinct(kept);
  }

  // ----- saved themes

  datatype SavedTheme = SavedTheme(id: string, name: string, config: Theme, variants: map<string, Theme>)

  predicate KeepsTheme(s: SavedTheme) {
    && Trim(s.id) != "" && Utf8Length(Trim(s.id)) <= 128
    && Trim(s.name) != "" && Utf8Length(Trim(s.name)) <= 128
  }

  predicate IsVariant(v: string) {
    v == "dark" || v == "light"
  }

  function NormalVariants(p: Palettes, variants: map<string, Theme>): map<string, Theme> {
    map v | v in variants && IsVariant(v) :: Normal(p, variants[v], v == "light")
  }

  function NormalSaved(p: Palettes, s: SavedTheme): SavedTheme {
    SavedTheme(Trim(s.id), Trim(s.name), Normal(p, s.config, s.config.variant == "light"),
               NormalVariants(p, s.variants))
  }

  predicate HasTheme(themes: seq<SavedTheme>, id: string) {
    exists k :: 0 <= k < |themes| && themes[k].id == id
  }

  function AddTheme(p: Palettes, before: seq<SavedTheme>, s: SavedTheme): seq<SavedTheme> {
    if |before| < MAX_SAVED_THEMES && KeepsTheme(s) && !HasTheme(before, Trim(s.id))
    then before + [NormalSaved(p, s)] else before
  }

  function NormalThemes(p: Palettes, themes: seq<SavedTheme>): seq<SavedTheme> {
    if themes == [] then [] else AddTheme(p, NormalThemes(p, themes[..|themes| - 1]), themes[|themes| - 1])
  }

  /** Trimmed, named, without a repeated id, and within the cap. */
  ghost predicate ThemesAreClean(themes: seq<SavedTheme>) {
    && |themes| <= MAX_SAVED_THEMES
    && (forall i, j :: 0 <= i < j < |themes| ==> themes[i].id != themes[j].id)
    && (forall k :: 0 <= k < |themes| ==> ThemeIsClean(themes[k]))
  }

  predicate ThemeIsClean(s: SavedTheme) {
    KeepsTheme(s) && Trim(s.id) == s.id && Trim(s.name) == s.name
  }

  lemma SavedIsClean(p: Palettes, s: SavedTheme)
    requires KeepsTheme(s)
    ensures NormalSaved(p, s).id == Trim(s.id) && ThemeIsClean(NormalSaved(p, s))
  {
    TrimIsTrimmed(s.id);
    TrimIsTrimmed(s.name);
  }

  lemma PushClean(before: seq<SavedTheme>, s: SavedTheme)
    requires ThemesAreClean(before) && |before| < MAX_SAVED_THEMES && ThemeIsClean(s) && !HasTheme(before, s.id)
    ensures ThemesAreClean(before + [s])
  {
  }

  lemma AddThemeKeepsClean(p: Palettes, before: seq<SavedTheme>, s: SavedTheme)
    requires ThemesAreClean(before)
    ensures ThemesAreClean(AddTheme(p, before, s))
  {
    if |before| < MAX_SAVED_THEMES && KeepsTheme(s) && !HasTheme(before, Trim(s.id)) {
      SavedIsClean(p, s);
      PushClean(before, NormalSaved(p, s));
    }
  }

  lemma {:induction false} NormalThemesAreClean(p: Palettes, themes: seq<SavedTheme>)
    ensures ThemesAreClean(NormalThemes(p, themes))
  {
    if themes != [] {
      NormalThemesAreClean(p, themes[..|themes| - 1]);
      AddThemeKeepsClean(p, NormalThemes(p, themes[..|themes| - 1]), themes[|themes| - 1]);
    }
  }

  /** `next` holds the normal forms of `themes`, entry by entry. */
  ghost predicate Renormalised(p: Palettes, themes: seq<SavedTheme>, next: seq<SavedTheme>) {
    |next| == |themes|
    && forall k :: 0 <= k < |themes| ==> next[k] == NormalSaved(p, themes[k]) && next[k].id == themes[k].id
  }

  lemma AddRenormalised(p: Palettes, themes: seq<SavedTheme>, before: seq<SavedTheme>, s: SavedTheme)
    requires ThemesAreClean(themes + [s]) && Renormalised(p, themes, before)
    ensures Renormalised(p, themes + [s], AddTheme(p, before, s))
  {
    var all := themes + [s];
    assert ThemeIsClean(all[|themes|]);
    SavedIsClean(p, s);
    forall k | 0 <= k < |before| ensures before[k].id != s.id {
      assert all[k].id != all[|themes|].id;
    }
  }

  /** A clean list keeps its entries: only their themes are normalised again. */
  lemma {:induction false} CleanThemesStay(p: Palettes, themes: seq<SavedTheme>)
    requires ThemesAreClean(themes)
    ensures Renormalised(p, themes, NormalThemes(p, themes))
  {
    if themes != [] {
      var front := themes[..|themes| - 1];
      assert themes == front + [themes[|themes| - 1]];
      CleanPrefix(themes);
      CleanThemesStay(p, front);
      AddRenormalised(p, front, NormalThemes(p, front), themes[|themes| - 1]);
    }
  }

  lemma CleanPrefix(themes: seq<SavedTheme>)
    requires themes != [] && ThemesAreClean(themes)
    ensures ThemesAreClean(themes[..|themes| - 1])
  {
  }

  lemma SavedThemeSettles(p: Palettes, s: SavedTheme)
    requires ValidPalettes(p)
    ensures var s3 := NormalSaved(p, NormalSaved(p, NormalSaved(p, s))); NormalSaved(p, s3) == s3
  {
    TrimIsTrimmed(s.id);
    TrimIsTrimmed(s.name);
    ThreePassesAreEnough(p, s.config, s.config.variant == "light");
    assert "light" != "dark";
    VariantsSettle(p, s.variants);
  }

  lemma VariantAfterAPass(p: Palettes, m: map<string, Theme>, v: string)
    ensures v in NormalVariants(p, m) <==> v in m && IsVariant(v)
    ensures v in NormalVariants(p, m) ==> NormalVariants(p, m)[v] == Normal(p, m[v], v == "light")
  {
  }

  lemma VariantsSettle(p: Palettes, m: map<string, Theme>)
    requires ValidPalettes(p)
    ensures var m3 := NormalVariants(p, NormalVariants(p, NormalVariants(p, m))); NormalVariants(p, m3) == m3
  {
    var m1 := NormalVariants(p, m);
    var m2 := NormalVariants(p, m1);
    var m3 := NormalVariants(p, m2);
    var m4 := NormalVariants(p, m3);
    forall v ensures (v in m4 <==> v in m3) && (v in m4 ==> m4[v] == m3[v]) {
      VariantAfterAPass(p, m, v);
      VariantAfterAPass(p, m1, v);
      VariantAfterAPass(p, m2, v);
      VariantAfterAPass(p, m3, v);
      if v in m1 {
        ThreePassesAreEnough(p, m[v], v == "light");
      }
    }
    SameMaps(m4, m3);
  }

  lemma SameMaps<V>(a: map<string, V>, b: map<string, V>)
    requires forall k :: k in a <==> k in b
    requires forall k :: k in a ==> a[k] == b[k]
    ensures a == b
  {
  }

  /** The whole list reaches its fixpoint within three passes. */
  lemma SavedThemesSettle(p: Palettes, themes: seq<SavedTheme>)
    requires ValidPalettes(p)
    ensures var t3 := NormalThemes(p, NormalThemes(p, NormalThemes(p, themes))); NormalThemes(p, t3) == t3
  {
    var t1 := NormalThemes(p, themes);
    var t2 := NormalThemes(p, t1);
    var t3 := NormalThemes(p, t2);
    NormalThemesAreClean(p, themes);
    NormalThemesAreClean(p, t1);
    NormalThemesAreClean(p, t2);
    CleanThemesStay(p, t1);
    CleanThemesStay(p, t2);
    CleanThemesStay(p, t3);
    forall k | 0 <= k < |t1| ensures NormalSaved(p, t3[k]) == t3[k] {
      var source := NormalizedFrom(p, themes, k);
      EntrySettles(p, source, t1[k], t2[k], t3[k]);
    }
  }

  lemma EntrySettles(p: Palettes, s: SavedTheme, s1: SavedTheme, s2: SavedTheme, s3: SavedTheme)
    requires ValidPalettes(p)
    requires s1 == NormalSaved(p, s) && s2 == NormalSaved(p, s1) && s3 == NormalSaved(p, s2)
    ensures NormalSaved(p, s3) == s3
  {
    SavedThemeSettles(p, s);
  }

  /** Each entry of the result is the normal form of an entry that came in. */
  lemma {:induction false} NormalizedFrom(p: Palettes, themes: seq<SavedTheme>, k: nat) returns (source: SavedTheme)
    requires k < |NormalThemes(p, themes)|
    ensures source in themes && NormalThemes(p, themes)[k] == NormalSaved(p, source)
  {
    var n := |themes| - 1;
    if k < |NormalThemes(p, themes[..n])| {
      source := NormalizedFrom(p, themes[..n], k);
      assert source in themes[..n];
    } else {
      source := themes[n];
    }
  }

  /** The colours, overrides and fonts of a saved theme and of its variants. */
  ghost predicate SavedIsValid(p: Palettes, s: SavedTheme) {
    AllValid(p, s.config) && forall v :: v in s.variants ==> IsVariant(v) && AllValid(p, s.variants[v])
  }

  lemma NormalSavedIsValid(p: Palettes, s: SavedTheme)
    requires ValidPalettes(p)
    ensures SavedIsValid(p, NormalSaved(p, s))
  {
    OnePassIsValid(p, s.config, s.config.variant == "light");
    forall v | v in NormalVariants(p, s.variants) ensures AllValid(p, NormalVariants(p, s.variants)[v]) {
      OnePassIsValid(p, s.variants[v], v == "light");
    }
  }

  /** One pass leaves every saved theme valid, its variants included. */
  lemma NormalThemesAreValid(p: Palettes, themes: seq<SavedTheme>)
    requires ValidPalettes(p)
    ensures forall k :: 0 <= k < |NormalThemes(p, themes)| ==> SavedIsValid(p, NormalThemes(p, themes)[k])
  {
    forall k | 0 <= k < |NormalThemes(p, themes)| ensures SavedIsValid(p, NormalThemes(p, themes)[k]) {
      var source := NormalizedFrom(p, themes, k);
      NormalSavedIsValid(p, source);
    }
  }

  lemma {:induction false} FullThemesStay(p: Palettes, themes: seq<SavedTheme>, k: nat)
    requires k <= |themes| && |NormalThemes(p, themes[..k])| >= MAX_SAVED_THEMES
    ensures NormalThemes(p, themes) == NormalThemes(p, themes[..k])
    decreases |themes|
  {
    if k == |themes| {
      assert themes[..k] == themes;
    } else {
      assert themes[..|themes| - 1][..k] == themes[..k];
      FullThemesStay(p, themes[..|themes| - 1], k);
    }
  }

  /** Stops reading as soon as the list is full. */
  method NormalizeSavedThemes(p: Palettes, themes: seq<SavedTheme>) returns (normalized: seq<SavedTheme>)
    ensures normalized == NormalThemes(p, themes)
  {
    normalized := [];
    var k := 0;
    while k < |themes|
      invariant k <= |themes|
      invariant normalized == NormalThemes(p, themes[..k])
      invariant |normalized| < MAX_SAVED_THEMES
    {
      assert themes[..k + 1][..k] == themes[..k];
      var saved := themes[k];
      k := k + 1;
      assert NormalThemes(p, themes[..k]) == AddTheme(p, normalized, saved);
      if !KeepsTheme(saved) || HasTheme(normalized, Trim(saved.id)) {
        continue;
      }
      normalized := normalized + [NormalSaved(p, saved)];
      if |normalized| >= MAX_SAVED_THEMES {
        FullThemesStay(p, themes, k);
        return;
      }
    }
    assert themes[..k] == themes;
  }

  // ----- the preferences

  datatype McpAgent = McpAgent(
    connectionScope: string, legacyDefaultProfileId: Option<string>, operationPolicy: string,
    allowedProfileIds: seq<string>)

  datatype Shells = Shells(win32: string, darwin: string, linux: string)

  /** The fields that hold one choice each. */
  datatype Choices = Choices(
    legacyFileListFontSize: Option<int>,
    uiZoomPercent: int,
    theme: string,
    locale: string,
    updateChannel: string,
    monitoringIntervalSeconds: nat,
    reconnectMode: string)

  datatype Lists = Lists(overviewSectionOrder: seq<string>, metrics: seq<string>, metricOrder: seq<string>)

  datatype Preferences = Preferences(
    choices: Choices,
    mcpAgent: McpAgent,
    lists: Lists,
    shells: Shells,
    themeConfig: Theme,
    customThemes: seq<SavedTheme>)

  /** What the machine decides: palettes, default shells and system language. */
  datatype System = System(palettes: Palettes, shells: Shells, chinese: bool)

  function Clamp(x: int, low: int, high: int): int
    requires low <= high
  {
    if x < low then low else if x > high then high else x
  }

  /** The older font size is converted unless the zoom was changed already. */
  function NormalZoom(legacy: Option<int>, zoom: int): (percent: int)
    ensures 80 <= percent <= 200
  {
    var migrated :=
      if legacy.Some? && zoom == 100
      then ((Clamp(legacy.value, 9, 24) * 100 + 5) / 11 + 5) / 10 * 10
      else zoom;
    Clamp(migrated, 80, 200)
  }

  function OneOf(value: string, valid: seq<string>, fallback: string): string {
    if value in valid then value else fallback
  }

  const THEMES := ["fileterm-dark", "fileterm-light", "codex-dark", "codex-light", "default-dark", "default-light"]

  const LOCALES := ["zhCN", "enUS"]
  const CHANNELS := ["stable", "beta"]
  const RECONNECT_MODES := ["none", "enter", "auto"]
  const INTERVALS := {1, 5, 15, 30, 60}

  predicate IsLight(theme: string) {
    theme in ["fileterm-light", "codex-light", "default-light"]
  }

  function NormalPolicy(policy: string): string {
    if policy == "read-only" || policy == "full-access" then policy else "basic-safe-operations"
  }

  function NormalScope(scope: string): string {
    if scope == "all-saved-connections" then scope else "selected-connections"
  }

  /** The ids the older scopes leave: none for an active session, the saved default
      as well for a default connection. */
  function MigratedIds(m: McpAgent): seq<string> {
    if m.connectionScope == "active-session" then []
    else if m.connectionScope == "default-connection" && m.legacyDefaultProfileId.Some?
            && IsProfileId(Trim(m.legacyDefaultProfileId.value))
    then m.allowedProfileIds + [Trim(m.legacyDefaultProfileId.value)]
    else m.allowedProfileIds
  }

  function NormalMcp(m: McpAgent): McpAgent {
    McpAgent(NormalScope(m.connectionScope), None, NormalPolicy(m.operationPolicy), AllowedIds(MigratedIds(m)))
  }

  function NormalShell(value: string, fallback: string): string {
    if Trim(value) == "" then fallback else Trim(value)
  }

  function NormalShells(s: Shells, defaults: Shells): Shells {
    Shells(NormalShell(s.win32, defaults.win32), NormalShell(s.darwin, defaults.darwin),
           NormalShell(s.linux, defaults.linux))
  }

  function NormalChoices(c: Choices, chinese: bool): Choices {
    Choices(
      None,
      NormalZoom(c.legacyFileListFontSize, c.uiZoomPercent),
      OneOf(c.theme, THEMES, "fileterm-dark"),
      OneOf(c.locale, LOCALES, if chinese then "zhCN" else "enUS"),
      OneOf(c.updateChannel, CHANNELS, "stable"),
      if c.monitoringIntervalSeconds in INTERVALS then c.monitoringIntervalSeconds else 1,
      OneOf(c.reconnectMode, RECONNECT_MODES, "none"))
  }

  function NormalLists(l: Lists): Lists {
    Lists(FullOrder(l.overviewSectionOrder, OVERVIEW_SECTIONS), Firsts(Known(l.metrics, METRICS)),
          FullOrder(l.metricOrder, METRICS))
  }

  function NormalPreferences(y: System, x: Preferences): Preferences {
    var choices := NormalChoices(x.choices, y.chinese);
    Preferences(
      choices,
      NormalMcp(x.mcpAgent),
      NormalLists(x.lists),
      NormalShells(x.shells, y.shells),
      Normal(y.palettes, x.themeConfig, IsLight(choices.theme)),
      NormalThemes(y.palettes, x.customThemes))
  }

  lemma DefaultsAreDistinct()
    ensures Distinct(OVERVIEW_SECTIONS) && Distinct(METRICS)
  {
  }

  lemma McpSettles(m: McpAgent)
    ensures NormalMcp(NormalMcp(m)) == NormalMcp(m)
  {
    AllowedIdsSettle(MigratedIds(m));
  }

  /** A default shell that is not trimmed takes a second pass. */
  lemma ShellSettles(value: string, fallback: string)
    ensures var v2 := NormalShell(NormalShell(value, fallback), fallback); NormalShell(v2, fallback) == v2
  {
  }

  lemma ShellsSettle(s: Shells, defaults: Shells)
    ensures var s2 := NormalShells(NormalShells(s, defaults), defaults); NormalShells(s2, defaults) == s2
  {
    ShellSettles(s.win32, defaults.win32);
    ShellSettles(s.darwin, defaults.darwin);
    ShellSettles(s.linux, defaults.linux);
  }

  /** What one pass guarantees of the choices. */
  predicate ChoicesAreValid(c: Choices) {
    && c.legacyFileListFontSize.None? && 80 <= c.uiZoomPercent <= 200
    && c.theme in THEMES && c.locale in LOCALES && c.updateChannel in CHANNELS
    && c.monitoringIntervalSeconds in INTERVALS && c.reconnectMode in RECONNECT_MODES
  }

  lemma ChoicesSettle(c: Choices, chinese: bool)
    ensures ChoicesAreValid(NormalChoices(c, chinese))
    ensures NormalChoices(NormalChoices(c, chinese), chinese) == NormalChoices(c, chinese)
  {
  }

  /** What one pass guarantees of the lists: permutations of the defaults, and
      known metrics without repetition. */
  ghost predicate ListsAreValid(l: Lists) {
    && multiset(l.overviewSectionOrder) == multiset(OVERVIEW_SECTIONS)
    && Distinct(l.metrics) && (forall m :: m in l.metrics ==> m in METRICS)
    && multiset(l.metricOrder) == multiset(METRICS)
  }

  lemma ListsSettle(l: Lists)
    ensures ListsAreValid(NormalLists(l)) && NormalLists(NormalLists(l)) == NormalLists(l)
  {
    DefaultsAreDistinct();
    FullOrderIsAPermutation(l.overviewSectionOrder, OVERVIEW_SECTIONS);
    FullOrderIsAPermutation(l.metricOrder, METRICS);
    MetricsSettle(l.metrics, METRICS);
  }

  /** The two scopes, the three policies, and saved ids that are trimmed, valid and
      distinct within the cap. */
  ghost predicate McpIsValid(m: McpAgent) {
    && (m.connectionScope == "all-saved-connections" || m.connectionScope == "selected-connections")
    && (m.operationPolicy == "read-only" || m.operationPolicy == "basic-safe-operations" || m.operationPolicy == "full-access")
    && Distinct(m.allowedProfileIds) && |m.allowedProfileIds| <= MAX_PROFILE_IDS
    && forall x :: x in m.allowedProfileIds ==> IsProfileId(x) && Trim(x) == x
  }

  lemma McpBecomesValid(m: McpAgent)
    ensures McpIsValid(NormalMcp(m))
  {
    AllowedIdsAreValid(MigratedIds(m));
  }

  lemma OnePassIsValidEverywhere(y: System, x: Preferences)
    requires ValidPalettes(y.palettes)
    ensures var n := NormalPreferences(y, x);
            && ChoicesAreValid(n.choices) && ListsAreValid(n.lists)
            && McpIsValid(n.mcpAgent)
            && ThemesAreClean(n.customThemes)
            && (forall k :: 0 <= k < |n.customThemes| ==> SavedIsValid(y.palettes, n.customThemes[k]))
            && AllValid(y.palettes, n.themeConfig)
  {
    ChoicesSettle(x.choices, y.chinese);
    ListsSettle(x.lists);
    McpBecomesValid(x.mcpAgent);
    NormalThemesAreClean(y.palettes, x.customThemes);
    NormalThemesAreValid(y.palettes, x.customThemes);
    OnePassIsValid(y.palettes, x.themeConfig, IsLight(NormalChoices(x.choices, y.chinese).theme));
  }

  /** A further pass touches only the shells and the themes. */
  lemma TheRestSettles(y: System, x: Preferences)
    ensures var n := NormalPreferences(y, x);
            NormalPreferences(y, n)
            == n.(shells := NormalShells(n.shells, y.shells),
                  themeConfig := Normal(y.palettes, n.themeConfig, IsLight(n.choices.theme)),
                  customThemes := NormalThemes(y.palettes, n.customThemes))
  {
    ChoicesSettle(x.choices, y.chinese);
    McpSettles(x.mcpAgent);
    ListsSettle(x.lists);
  }

  /** Whatever was stored, three passes reach preferences that no further pass
      changes. */
  lemma PreferencesSettle(y: System, x: Preferences)
    requires ValidPalettes(y.palettes)
    ensures var x3 := NormalPreferences(y, NormalPreferences(y, NormalPreferences(y, x)));
            NormalPreferences(y, x3) == x3
  {
    var x1 := NormalPreferences(y, x);
    var x2 := NormalPreferences(y, x1);
    TheRestSettles(y, x);
    TheRestSettles(y, x1);
    TheRestSettles(y, x2);
    ShellsSettle(x.shells, y.shells);
    ThreePassesAreEnough(y.palettes, x.themeConfig, IsLight(x1.choices.theme));
    SavedThemesSettle(y.palettes, x.customThemes);
  }

  /** With trimmed default shells, nothing but the themes needs a second pass. */
  lemma OnePassButForThemes(y: System, x: Preferences)
    requires IsTrimmed(y.shells.win32) && IsTrimmed(y.shells.darwin) && IsTrimmed(y.shells.linux)
    ensures var n := NormalPreferences(y, x);
            NormalPreferences(y, n)
            == n.(themeConfig := Normal(y.palettes, n.themeConfig, IsLight(n.choices.theme)),
                  customThemes := NormalThemes(y.palettes, n.customThemes))
  {
    TheRestSettles(y, x);
    TrimIsTrimmed(x.shells.win32);
    TrimIsTrimmed(x.shells.darwin);
    TrimIsTrimmed(x.shells.linux);
    TrimIsTrimmed(y.shells.win32);
    TrimIsTrimmed(y.shells.darwin);
    TrimIsTrimmed(y.shells.linux);
  }

  /** The whole normalisation, with its loops. */
  method NormalizeUiPreferences(y: System, preferences: Preferences) returns (result: Preferences)
    ensures result == NormalPreferences(y, preferences)
  {
    var choices := NormalChoices(preferences.choices, y.chinese);
    var mcp := preferences.mcpAgent;
    var allowed := NormalizeAllowedProfileIds(MigratedIds(mcp));
    var sections := NormalizeOrder(preferences.lists.overviewSectionOrder, OVERVIEW_SECTIONS);
    var metrics := NormalizeMetrics(preferences.lists.metrics, METRICS);
    var metricOrder := NormalizeOrder(preferences.lists.metricOrder, METRICS);
    var config := NormalizeThemeConfig(y.palettes, preferences.themeConfig, if IsLight(choices.theme) then "light" else "dark");
    var themes := NormalizeSavedThemes(y.palettes, preferences.customThemes);
    assert "dark" != "light";
    result := Preferences(
      choices,
      McpAgent(NormalScope(mcp.connectionScope), None, NormalPolicy(mcp.operationPolicy), allowed),
      Lists(sections, metrics, metricOrder),
      NormalShells(preferences.shells, y.shells),
      config,
      themes);
  }
}
