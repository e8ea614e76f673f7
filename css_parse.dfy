/** `parseCSS`: the declarations of the three blocks are dispatched by prefix
    into a copy of the default theme. The `.g-root` block feeds typography and
    border radii; the light and dark blocks feed private and utility colours,
    with utility declarations that point at another utility variable set aside
    until the end of their block. Utility references are then resolved and the
    base colours restored from their anchor shades. */
module CssParse {
  import opened Common
  import opened Dicts
  import opened Shades
  import opened Roles
  import opened Variables
  import opened References
  import opened Themes
  import opened Resolver
  import opened Edits
  import opened Typography
  import opened Borders
  import CssTokens

  /** A declaration: the variable and its value. */
  type Entry = (string, string)

  // ---------------------------------------------------------------------------
  // Private colours

  /** `applyPrivateColorVariable`: a variable that does not parse is logged and
      skipped; otherwise a token without entries gets an empty base colour and
      empty shade maps, and the shade of this variant becomes `{value}`. */
  function ApplyPrivate(th: Theme, v: Variant, name: string, value: string): (r: Theme)
    ensures th.Valid() ==> r.Valid()
    ensures r.utilityColors == th.utilityColors && r.typography == th.typography && r.borders == th.borders
  {
    match PrivateVarSpec(name)
    case Err(_) => th
    case Ok(t) =>
      var base := if t.main in th.baseColors.items then th.baseColors else th.baseColors.Put(t.main, EMPTY_BASE);
      var entry := if t.main in th.privateColors.items then th.privateColors.items[t.main] else EMPTY_PRIVATE;
      th.(baseColors := base,
          privateColors := th.privateColors.Put(t.main, entry.Set(v, entry.Get(v)[t.shade := Plain(value)])))
  }

  // ---------------------------------------------------------------------------
  // Utility colours

  /** The variable a value's `var()` names, or `''` (`parseCssReferenceVariable(value) || ''`). */
  function ReferenceOrEmpty(value: string): string {
    match ParseCssReference(value)
    case Some(x) => x
    case None => ""
  }

  /** A utility declaration that is set aside until the end of its block. */
  predicate RefersToUtility(value: string) {
    IsUtilityVar(ReferenceOrEmpty(value))
  }

  /** The option a utility declaration stores: a `var()` to a private variable
      becomes the internal private reference (and throws when the variable does
      not parse), a `var()` to a utility variable the internal utility
      reference, both with `ref` the variable; anything else is kept verbatim
      with `ref` present but undefined. An empty `var()` fails both tests, as
      the truthiness test on it does. */
  function UtilityValue(value: string): Result<ColorOptions> {
    match ParseCssReference(value)
    case None => Ok(ColorOptions(value, UndefinedRef))
    case Some(x) =>
      if IsPrivateVar(x) then
        match PrivateVarSpec(x)
        case Err(e) => Err(e)
        case Ok(t) => Ok(ColorOptions(PrivateRef(t.main, t.shade.Name()), RefTo(x)))
      else
        match UtilityTypeOf(x)
        case Some(role) => Ok(ColorOptions(UtilityRef(role), RefTo(x)))
        case None => Ok(ColorOptions(value, UndefinedRef))
  }

  /** `applyUtilityColorVariable`: an unknown role is logged and skipped; the
      converted value replaces this variant of the role's slot, which must
      exist. */
  function ApplyUtility(th: Theme, v: Variant, name: string, value: string): (r: Result<Theme>)
    ensures th.Valid() && r.Ok? ==> r.value.Valid()
    ensures r.Ok? ==> r.value == th.(utilityColors := r.value.utilityColors)
  {
    match UtilityTypeOf(name)
    case None => Ok(th)
    case Some(role) =>
      match UtilityValue(value)
      case Err(e) => Err(e)
      case Ok(o) =>
        if role !in th.utilityColors.items then Err(UndefinedSlot(role))
        else Ok(th.(utilityColors := th.utilityColors.Put(role, th.utilityColors.items[role].Set(v, o))))
  }

  // ---------------------------------------------------------------------------
  // Typography and border radii

  /** `applyFontVariable`: a value with no font name is logged and skipped;
      otherwise the family of the variable's key becomes the parsed font. */
  function ApplyFont(th: Theme, name: string, value: string): (r: Theme)
    ensures th.Valid() ==> r.Valid()
    ensures SameColors(r, th) && r.borders == th.borders
  {
    match FontFamilySpec(value)
    case None => th
    case Some(f) =>
      th.(typography := th.typography.(fontFamilies := th.typography.fontFamilies.Put(FontKeyOf(name), f)))
  }

  /** What a text-group property stores: a `font-family` given as a non-empty
      `var()` must name a font variable (otherwise the parse throws) and stores
      its key; anything else is stored as written. */
  function GroupValue(property: string, value: string): Result<string> {
    if property != "font-family" then Ok(value)
    else match ParseCssReference(value)
      case None => Ok(value)
      case Some(x) =>
        if x == "" then Ok(value)
        else if !IsFontVar(x) then Err(FontFamilyReference(x))
        else Ok(FontKeyOf(x))
  }

  /** `applyTextVariable`: an unknown variable is logged and skipped; a variant
      property or a group property is written into its existing entry. */
  function ApplyText(th: Theme, name: string, value: string): (r: Result<Theme>)
    ensures th.Valid() && r.Ok? ==> r.value.Valid()
    ensures r.Ok? ==> SameColors(r.value, th) && r.value.borders == th.borders
  {
    var ty := th.typography;
    match ParseTextVar(name)
    case None => Ok(th)
    case Some(VariantKey(_, w, p)) =>
      if w !in ty.variants.items then Err(UndefinedSlot(w))
      else Ok(th.(typography := ty.(variants := ty.variants.Put(w, SetVariantProperty(ty.variants.items[w], p, value)))))
    case Some(GroupKey(g, p)) =>
      match GroupValue(p, value)
      case Err(e) => Err(e)
      case Ok(s) =>
        if g !in ty.groups.items then Err(UndefinedSlot(g))
        else Ok(th.(typography := ty.(groups := ty.groups.Put(g, SetGroupProperty(ty.groups.items[g], p, s)))))
  }

  /** `applyBorderRadiusVariable`: an unknown size is logged and skipped. */
  function ApplyBorder(th: Theme, name: string, value: string): (r: Theme)
    ensures th.Valid() ==> r.Valid()
    ensures SameColors(r, th)
  {
    match SizeOf(name)
    case None => th
    case Some(size) => th.(borders := th.borders.Put(size, value))
  }

  // ---------------------------------------------------------------------------
  // The `.g-root` block

  /** The colour parts of two themes agree. */
  predicate SameColors(a: Theme, b: Theme) {
    a.baseColors == b.baseColors && a.privateColors == b.privateColors && a.utilityColors == b.utilityColors
  }

  /** One root declaration: font, text or border-radius variable, else skipped. */
  function RootStep(th: Theme, name: string, value: string): (r: Result<Theme>)
    ensures th.Valid() && r.Ok? ==> r.value.Valid()
    ensures r.Ok? ==> SameColors(r.value, th)
  {
    if IsFontVar(name) then Ok(ApplyFont(th, name, value))
    else if IsTextVar(name) then ApplyText(th, name, value)
    else if IsBorderRadiusVar(name) then Ok(ApplyBorder(th, name, value))
    else Ok(th)
  }

  /** The root declarations from the `i`-th on, in order, stopping at the first throw. */
  function RootFrom(th: Theme, d: Dict<string>, i: nat): (r: Result<Theme>)
    requires d.Valid() && i <= |d.keys|
    ensures th.Valid() && r.Ok? ==> r.value.Valid()
    decreases |d.keys| - i
  {
    if i == |d.keys| then Ok(th)
    else
      match RootStep(th, d.keys[i], d.items[d.keys[i]])
      case Err(e) => Err(e)
      case Ok(th1) => RootFrom(th1, d, i + 1)
  }

  /** The loop over the root bucket. */
  method ApplyRoot(th0: Theme, d: Dict<string>) returns (r: Result<Theme>)
    requires d.Valid()
    ensures r == RootFrom(th0, d, 0)
  {
    var th := th0;
    for i := 0 to |d.keys|
      invariant RootFrom(th, d, i) == RootFrom(th0, d, 0)
    {
      var name := d.keys[i];
      var value := d.items[name];
      if IsFontVar(name) {
        th := ApplyFont(th, name, value);
      } else if IsTextVar(name) {
        var res := ApplyText(th, name, value);
        if res.Err? {
          return Err(res.error);
        }
        th := res.value;
      } else if IsBorderRadiusVar(name) {
        th := ApplyBorder(th, name, value);
      }
    }
    return Ok(th);
  }

  // ---------------------------------------------------------------------------
  // The light and dark blocks

  /** Every entry of `list` is in `later` or is a declaration of `d` whose
      value refers to a utility colour. */
  ghost predicate DrawnFrom(list: seq<Entry>, later: seq<Entry>, d: Dict<string>) {
    forall e | e in list :: e in later || (e.0 in d.items && d.items[e.0] == e.1 && RefersToUtility(e.1))
  }

  /** The block's declarations from the `i`-th on: deferred ones are appended
      to `later`, the others applied. */
  function SchemeFrom(th: Theme, v: Variant, d: Dict<string>, i: nat, later: seq<Entry>): (r: Result<(Theme, seq<Entry>)>)
    requires d.Valid() && i <= |d.keys|
    ensures th.Valid() && r.Ok? ==> r.value.0.Valid()
    ensures r.Ok? ==> DrawnFrom(r.value.1, later, d)
    decreases |d.keys| - i
  {
    if i == |d.keys| then Ok((th, later))
    else
      var name := d.keys[i];
      var value := d.items[name];
      if IsColorVar(name) && IsPrivateVar(name) then SchemeFrom(ApplyPrivate(th, v, name, value), v, d, i + 1, later)
      else if IsColorVar(name) && IsUtilityVar(name) then
        if RefersToUtility(value) then SchemeFrom(th, v, d, i + 1, later + [(name, value)])
        else match ApplyUtility(th, v, name, value)
          case Err(e) => Err(e)
          case Ok(th1) => SchemeFrom(th1, v, d, i + 1, later)
      else SchemeFrom(th, v, d, i + 1, later)
  }

  /** The deferred declarations from the `j`-th on, applied to variant `v`. */
  function ReplayFrom(th: Theme, v: Variant, later: seq<Entry>, j: nat): (r: Result<Theme>)
    requires j <= |later|
    ensures th.Valid() && r.Ok? ==> r.value.Valid()
    decreases |later| - j
  {
    if j == |later| then Ok(th)
    else
      match ApplyUtility(th, v, later[j].0, later[j].1)
      case Err(e) => Err(e)
      case Ok(th1) => ReplayFrom(th1, v, later, j + 1)
  }

  /** One block: its declarations, then every deferred declaration in `later`
      and the block's own; the list is returned with the theme. */
  function SchemePass(th: Theme, v: Variant, d: Dict<string>, later: seq<Entry>): (r: Result<(Theme, seq<Entry>)>)
    requires d.Valid()
    ensures th.Valid() && r.Ok? ==> r.value.0.Valid()
    ensures r.Ok? ==> DrawnFrom(r.value.1, later, d)
  {
    match SchemeFrom(th, v, d, 0, later)
    case Err(e) => Err(e)
    case Ok((th1, all)) =>
      match ReplayFrom(th1, v, all, 0)
      case Err(e) => Err(e)
      case Ok(th2) => Ok((th2, all))
  }

  /** The loop over one block. */
  method ScanScheme(th0: Theme, v: Variant, d: Dict<string>, later0: seq<Entry>) returns (r: Result<(Theme, seq<Entry>)>)
    requires d.Valid()
    ensures r == SchemeFrom(th0, v, d, 0, later0)
  {
    var th := th0;
    var later := later0;
    for i := 0 to |d.keys|
      invariant SchemeFrom(th, v, d, i, later) == SchemeFrom(th0, v, d, 0, later0)
    {
      var name := d.keys[i];
      var value := d.items[name];
      if IsColorVar(name) {
        if IsPrivateVar(name) {
          th := ApplyPrivate(th, v, name, value);
        } else if IsUtilityVar(name) {
          if RefersToUtility(value) {
            later := later + [(name, value)];
          } else {
            var res := ApplyUtility(th, v, name, value);
            if res.Err? {
              return Err(res.error);
            }
            th := res.value;
          }
        }
      }
    }
    return Ok((th, later));
  }

  /** The loop over the deferred list. */
  method Replay(th0: Theme, v: Variant, later: seq<Entry>) returns (r: Result<Theme>)
    ensures r == ReplayFrom(th0, v, later, 0)
  {
    var th := th0;
    for j := 0 to |later|
      invariant ReplayFrom(th, v, later, j) == ReplayFrom(th0, v, later, 0)
    {
      var res := ApplyUtility(th, v, later[j].0, later[j].1);
      if res.Err? {
        return Err(res.error);
      }
      th := res.value;
    }
    return Ok(th);
  }

  /** One block, then the deferred list. */
  method ApplyScheme(th0: Theme, v: Variant, d: Dict<string>, later0: seq<Entry>) returns (r: Result<(Theme, seq<Entry>)>)
    requires d.Valid()
    ensures r == SchemePass(th0, v, d, later0)
  {
    var scan := ScanScheme(th0, v, d, later0);
    if scan.Err? {
      return Err(scan.error);
    }
    var th := Replay(scan.value.0, v, scan.value.1);
    if th.Err? {
      return Err(th.error);
    }
    return Ok((th.value, scan.value.1));
  }

  /** The light block, then the dark block, each with a deferred list of its own. */
  function SchemesFrom(th: Theme, t: CssTokens.Tokens, n: nat): (r: Result<Theme>)
    requires t.Valid() && n <= |VARIANTS|
    ensures th.Valid() && r.Ok? ==> r.value.Valid()
    decreases |VARIANTS| - n
  {
    if n == |VARIANTS| then Ok(th)
    else
      match SchemePass(th, VARIANTS[n], t.Bucket(CssTokens.Scheme(VARIANTS[n])), [])
      case Err(e) => Err(e)
      case Ok((th1, _)) => SchemesFrom(th1, t, n + 1)
  }

  /** The two blocks with one deferred list shared by both blocks, as
      `parseCSS` keeps it: the dark block replays the light block's deferred
      declarations too. */
  function SchemesAsWritten(th: Theme, t: CssTokens.Tokens, n: nat, later: seq<Entry>): (r: Result<Theme>)
    requires t.Valid() && n <= |VARIANTS|
    ensures th.Valid() && r.Ok? ==> r.value.Valid()
    decreases |VARIANTS| - n
  {
    if n == |VARIANTS| then Ok(th)
    else
      match SchemePass(th, VARIANTS[n], t.Bucket(CssTokens.Scheme(VARIANTS[n])), later)
      case Err(e) => Err(e)
      case Ok((th1, later1)) => SchemesAsWritten(th1, t, n + 1, later1)
  }

  // ---------------------------------------------------------------------------
  // parseCSS

  /** Utility references resolved against the private colours, then the base
      colours restored from the anchor shades. */
  function Finish(th: Theme): (r: Result<Theme>)
    requires th.Valid()
  {
    match ResolveSpec(th.utilityColors, th.privateColors)
    case Err(e) => Err(e)
    case Ok(u) => Ok(th.(utilityColors := u, baseColors := RestoreSpec(th.baseColors, th.privateColors)))
  }

  /** `parseCSS` on the default theme `dflt`, with a deferred list per block. */
  function ParseCssSpec(s: string, dflt: Theme): Result<Theme>
    requires dflt.Valid()
  {
    var t := CssTokens.TokensSpec(s);
    match RootFrom(dflt, t.root, 0)
    case Err(e) => Err(e)
    case Ok(th1) =>
      match SchemesFrom(th1, t, 0)
      case Err(e) => Err(e)
      case Ok(th2) => Finish(th2)
  }

  /** `parseCSS` as written, with the one deferred list. */
  function ParseCssAsWritten(s: string, dflt: Theme): Result<Theme>
    requires dflt.Valid()
  {
    var t := CssTokens.TokensSpec(s);
    match RootFrom(dflt, t.root, 0)
    case Err(e) => Err(e)
    case Ok(th1) =>
      match SchemesAsWritten(th1, t, 0, [])
      case Err(e) => Err(e)
      case Ok(th2) => Finish(th2)
  }

  /** The loop over the two blocks, with `variablesWithUtilityRefs` declared
      once before it. */
  method ApplySchemes(th0: Theme, t: CssTokens.Tokens) returns (r: Result<Theme>)
    requires th0.Valid() && t.Valid()
    ensures r == SchemesAsWritten(th0, t, 0, [])
  {
    var th := th0;
    var later: seq<Entry> := [];
    for n := 0 to |VARIANTS|
      invariant th.Valid()
      invariant SchemesAsWritten(th, t, n, later) == SchemesAsWritten(th0, t, 0, [])
    {
      var v := VARIANTS[n];
      var pass := ApplyScheme(th, v, t.Bucket(CssTokens.Scheme(v)), later);
      if pass.Err? {
        return Err(pass.error);
      }
      th, later := pass.value.0, pass.value.1;
    }
    return Ok(th);
  }

  /** Resolution, then restoration. */
  method FinishTheme(th: Theme) returns (r: Result<Theme>)
    requires th.Valid()
    ensures r == Finish(th)
  {
    var u := ResolveReferences(th.utilityColors, th.privateColors);
    if u.Err? {
      return Err(u.error);
    }
    var base := Restore(th.baseColors, th.privateColors);
    return Ok(th.(utilityColors := u.value, baseColors := base));
  }

  /** `parseCSS`: tokens, the root block, the light and dark blocks, then
      resolution and restoration. */
  method ParseCss(s: string, dflt: Theme) returns (r: Result<Theme>)
    requires dflt.Valid()
    ensures r == ParseCssAsWritten(s, dflt)
  {
    var tokens := CssTokens.ParseThemeTokens(s);
    var root := ApplyRoot(dflt, tokens.root);
    if root.Err? {
      return Err(root.error);
    }
    var th := ApplySchemes(root.value, tokens);
    if th.Err? {
      return Err(th.error);
    }
    r := FinishTheme(th.value);
  }

  // ---------------------------------------------------------------------------
  // What one declaration does

  /** A private declaration that parses to `main` and shade `t` sets exactly
      that shade of that variant; the token gets a base entry, and its other
      variant keeps its shades (none, for a new token). */
  lemma ApplyPrivateSetsShade(th: Theme, v: Variant, w: Variant, name: string, main: string, t: Shade, value: string)
    requires PrivateVarSpec(name) == Ok(PrivateTarget(main, t)) && w != v
    ensures var r := ApplyPrivate(th, v, name, value);
      main in r.baseColors.items && main in r.privateColors.items && t in r.privateColors.items[main].Get(v) &&
      r.privateColors.items[main].Get(v)[t] == Plain(value) &&
      r.privateColors.items[main].Get(w) == (if main in th.privateColors.items then th.privateColors.items[main].Get(w) else map[]) &&
      r.utilityColors == th.utilityColors && r.typography == th.typography && r.borders == th.borders
  {
  }

  /** The same for the variable built from a token and a known shade, outside
      the `opaque`/`150` clash. */
  lemma ApplyPrivateRoundTrip(th: Theme, v: Variant, name: string, main: string, t: Shade, value: string)
    requires t in ALL_PRIVATE && name == PrivateVar(main, t.Name())
    requires !OpaqueClash(main, t)
    ensures var r := ApplyPrivate(th, v, name, value);
      main in r.privateColors.items && t in r.privateColors.items[main].Get(v) &&
      r.privateColors.items[main].Get(v)[t] == Plain(value)
  {
    assert PrivateVarSpec(name) == Ok(PrivateTarget(main, t)) by {
      PrivateVarRoundTrip(main, t);
    }
    ApplyPrivateSetsShade(th, v, if v == Light then Dark else Light, name, main, t, value);
  }

  /** A private declaration whose last piece is digits but no known shade
      (`red-123`) is skipped. */
  lemma ApplyPrivateSkipsUnknown(th: Theme, v: Variant, main: string, d: string, value: string)
    requires |d| > 0 && AllDigits(d) && !IsShadeName(d)
    ensures ApplyPrivate(th, v, PrivateVar(main, d), value) == th
  {
    PrivateVarUnknownStep(main, d);
  }

  /** `var(--g-color-private-…)` ends up, after resolution, with the internal
      private reference as its `ref`, not the variable it was written with. */
  lemma PrivateReferenceResolved(value: string, v: Variant, priv: Privates)
    requires ParseCssReference(value).Some? && PrivateVarSpec(ParseCssReference(value).value).Ok?
    requires '.' !in PrivateVarSpec(ParseCssReference(value).value).value.main
    ensures var t := PrivateVarSpec(ParseCssReference(value).value).value;
      UtilityValue(value).Ok? &&
      ResolvePrivate(UtilityValue(value).value, v, priv) == ColorOptions(ShadeLookup(priv, v, t), RefTo(PrivateRef(t.main, t.shade.Name())))
  {
    var x := ParseCssReference(value).value;
    var t := PrivateVarSpec(x).value;
    PrivateVarSound(x);
    ParsePrivateRefRoundTrip(t.main, t.shade);
    ParsePrivateRefSound(PrivateRef(t.main, t.shade.Name()));
  }

  /** `var(--g-color-<role>)` becomes the internal utility reference to that
      role, which the resolver reads back as the role. */
  lemma UtilityReferenceStored(value: string, role: string)
    requires IsRole(role) && ParseCssReference(value) == Some(UtilityVar(role))
    ensures UtilityValue(value) == Ok(ColorOptions(UtilityRef(role), RefTo(UtilityVar(role))))
    ensures RefersToUtility(value) && ParseUtilityRef(UtilityValue(value).value.value) == Some(role)
  {
    UtilityTypeRoundTrip(role, UtilityVar(role));
    UtilityVarNotPrivate(UtilityVar(role));
    ParseUtilityRefRoundTrip(role);
  }

  /** A value without `var()` is stored verbatim, with `ref` present but undefined. */
  lemma PlainUtilityValue(th: Theme, v: Variant, role: string, value: string)
    requires IsRole(role) && role in th.utilityColors.items && ParseCssReference(value).None?
    ensures ApplyUtility(th, v, UtilityVar(role), value) ==
      Ok(th.(utilityColors := th.utilityColors.Put(role, th.utilityColors.items[role].Set(v, ColorOptions(value, UndefinedRef)))))
  {
    UtilityTypeRoundTrip(role, UtilityVar(role));
  }

  /** A utility declaration for a role the theme has no slot for throws. */
  lemma UtilityWithoutSlot(th: Theme, v: Variant, role: string, value: string)
    requires IsRole(role) && role !in th.utilityColors.items && UtilityValue(value).Ok?
    ensures ApplyUtility(th, v, UtilityVar(role), value) == Err(UndefinedSlot(role))
  {
    UtilityTypeRoundTrip(role, UtilityVar(role));
  }

  /** A text-group `font-family` written as `var(--g-font-family-<key>)` stores the key. */
  lemma GroupFontFamilyKey(th: Theme, g: string, key: string)
    requires KnownKey(GroupKey(g, "font-family")) && g in th.typography.groups.items
    requires forall i | 0 <= i < |FontVar(key)| :: !IsLineTerminator(FontVar(key)[i])
    ensures var r := ApplyText(th, TextVar(GroupKey(g, "font-family")), "var(" + FontVar(key) + ")");
      r.Ok? && g in r.value.typography.groups.items && r.value.typography.groups.items[g].fontFamily == key &&
      r.value.typography.groups.items[g].fontWeight == th.typography.groups.items[g].fontWeight
  {
    TextRoundTrip(GroupKey(g, "font-family"));
    ParseCssReferenceOfVar(FontVar(key));
    FontKeyRoundTrip(key);
  }

  /** A text-group `font-family` whose `var()` names anything but a font variable throws. */
  lemma GroupFontFamilyThrows(th: Theme, g: string, value: string)
    requires KnownKey(GroupKey(g, "font-family"))
    requires ParseCssReference(value).Some? && ParseCssReference(value).value != ""
    requires !IsFontVar(ParseCssReference(value).value)
    ensures ApplyText(th, TextVar(GroupKey(g, "font-family")), value) == Err(FontFamilyReference(ParseCssReference(value).value))
  {
    TextRoundTrip(GroupKey(g, "font-family"));
  }

  /** A variant property written with its variable lands in that variant only. */
  lemma VariantPropertySet(th: Theme, g: string, w: string, p: string, value: string)
    requires KnownKey(VariantKey(g, w, p)) && w in th.typography.variants.items
    ensures var r := ApplyText(th, TextVar(VariantKey(g, w, p)), value);
      r.Ok? && w in r.value.typography.variants.items &&
      r.value.typography.variants.items[w] == SetVariantProperty(th.typography.variants.items[w], p, value) &&
      forall x | x in th.typography.variants.items && x != w ::
        x in r.value.typography.variants.items && r.value.typography.variants.items[x] == th.typography.variants.items[x]
  {
    TextRoundTrip(VariantKey(g, w, p));
  }

  /** A root font declaration of a generated family stores that family under the variable's key. */
  lemma RootFontRoundTrip(th: Theme, key: string, f: Font)
    requires Writable(f.mainFont) && forall i | 0 <= i < |f.fallbackFonts| :: Writable(f.fallbackFonts[i])
    ensures RootStep(th, FontVar(key), GenerateFontFamily(f)) ==
      Ok(th.(typography := th.typography.(fontFamilies := th.typography.fontFamilies.Put(key, f))))
  {
    FontFamilyRoundTrip(f);
    FontKeyRoundTrip(key);
  }

  /** A root border-radius declaration of a known size stores the value under that size. */
  lemma RootBorderRoundTrip(th: Theme, size: string, value: string)
    requires size in BORDER_SIZES
    ensures RootStep(th, BorderRadiusVar(size), value) == Ok(th.(borders := th.borders.Put(size, value)))
  {
    SizeOfIff(BorderRadiusVar(size), size);
    PrefixesDisjoint(BorderRadiusVar(size));
  }

  // ---------------------------------------------------------------------------
  // Which block feeds what

  /** The root block never touches a colour. */
  lemma {:induction false} RootKeepsColors(th: Theme, d: Dict<string>, i: nat)
    requires d.Valid() && i <= |d.keys|
    ensures var r := RootFrom(th, d, i);
      r.Ok? ==> SameColors(r.value, th)
    decreases |d.keys| - i
  {
    if i < |d.keys| {
      match RootStep(th, d.keys[i], d.items[d.keys[i]])
      case Err(_) =>
      case Ok(th1) => RootKeepsColors(th1, d, i + 1);
    }
  }

  /** A root declaration of another variable keeps a border size's value. */
  lemma RootStepKeepsBorder(th: Theme, name: string, value: string, size: string)
    requires size in th.borders.items && name != BorderRadiusVar(size)
    ensures var r := RootStep(th, name, value);
      r.Ok? ==> size in r.value.borders.items && r.value.borders.items[size] == th.borders.items[size]
  {
    if SizeOf(name).Some? {
      SizeOfIff(name, SizeOf(name).value);
    }
  }

  /** A border size no root declaration names keeps its value. */
  lemma {:induction false} RootKeepsUndeclaredBorder(th: Theme, d: Dict<string>, i: nat, size: string)
    requires d.Valid() && i <= |d.keys| && size in th.borders.items
    requires forall j | i <= j < |d.keys| :: d.keys[j] != BorderRadiusVar(size)
    ensures var r := RootFrom(th, d, i);
      r.Ok? ==> size in r.value.borders.items && r.value.borders.items[size] == th.borders.items[size]
    decreases |d.keys| - i
  {
    if i < |d.keys| {
      var name := d.keys[i];
      RootStepKeepsBorder(th, name, d.items[name], size);
      match RootStep(th, name, d.items[name])
      case Err(_) =>
      case Ok(th1) => RootKeepsUndeclaredBorder(th1, d, i + 1, size);
    }
  }

  /** A declared border size ends with its declared value. */
  lemma {:induction false} RootDeclaredBorder(th: Theme, d: Dict<string>, i: nat, size: string)
    requires d.Valid() && i <= |d.keys| && size in BORDER_SIZES
    requires BorderRadiusVar(size) in d.keys[i..]
    ensures var r := RootFrom(th, d, i);
      r.Ok? ==> size in r.value.borders.items && r.value.borders.items[size] == d.items[BorderRadiusVar(size)]
    decreases |d.keys| - i
  {
    var name := d.keys[i];
    match RootStep(th, name, d.items[name])
    case Err(_) =>
    case Ok(th1) =>
      if name == BorderRadiusVar(size) {
        RootBorderRoundTrip(th, size, d.items[name]);
        forall j | i + 1 <= j < |d.keys| ensures d.keys[j] != BorderRadiusVar(size) {
          assert d.keys[j] != d.keys[i];
        }
        RootKeepsUndeclaredBorder(th1, d, i + 1, size);
      } else {
        assert d.keys[i..] == [name] + d.keys[i + 1..];
        RootDeclaredBorder(th1, d, i + 1, size);
      }
  }

  // ---------------------------------------------------------------------------
  // A variant keeps what its block does not declare

  /** A utility declaration of another variable, or one applied to the other
      variant, leaves a role's slot as it was. */
  lemma ApplyUtilityKeepsSlot(th: Theme, v: Variant, name: string, value: string, r: string, w: Variant)
    requires r in th.utilityColors.items && (w != v || name != UtilityVar(r))
    ensures var res := ApplyUtility(th, v, name, value);
      res.Ok? ==> r in res.value.utilityColors.items && res.value.utilityColors.items[r].Get(w) == th.utilityColors.items[r].Get(w)
  {
    UtilityTypeRoundTrip(r, name);
  }

  /** A block leaves the slot of a role it does not declare, in its own
      variant, and every slot of the other variant, as they were. */
  lemma {:induction false} SchemeFromKeepsSlot(th: Theme, v: Variant, d: Dict<string>, i: nat, later: seq<Entry>, r: string, w: Variant)
    requires d.Valid() && i <= |d.keys| && r in th.utilityColors.items
    requires w != v || forall j | i <= j < |d.keys| :: d.keys[j] != UtilityVar(r)
    ensures var res := SchemeFrom(th, v, d, i, later);
      res.Ok? ==> r in res.value.0.utilityColors.items && res.value.0.utilityColors.items[r].Get(w) == th.utilityColors.items[r].Get(w)
    decreases |d.keys| - i
  {
    if i < |d.keys| {
      var name := d.keys[i];
      var value := d.items[name];
      if IsColorVar(name) && IsPrivateVar(name) {
        SchemeFromKeepsSlot(ApplyPrivate(th, v, name, value), v, d, i + 1, later, r, w);
      } else if IsColorVar(name) && IsUtilityVar(name) {
        if RefersToUtility(value) {
          SchemeFromKeepsSlot(th, v, d, i + 1, later + [(name, value)], r, w);
        } else {
          ApplyUtilityKeepsSlot(th, v, name, value, r, w);
          match ApplyUtility(th, v, name, value)
          case Err(_) =>
          case Ok(th1) => SchemeFromKeepsSlot(th1, v, d, i + 1, later, r, w);
        }
      } else {
        SchemeFromKeepsSlot(th, v, d, i + 1, later, r, w);
      }
    }
  }

  /** Replaying a list that does not name a role, or replaying into the other
      variant, leaves the role's slot as it was. */
  lemma {:induction false} ReplayKeepsSlot(th: Theme, v: Variant, later: seq<Entry>, j: nat, r: string, w: Variant)
    requires j <= |later| && r in th.utilityColors.items
    requires w != v || forall e | e in later :: e.0 != UtilityVar(r)
    ensures var res := ReplayFrom(th, v, later, j);
      res.Ok? ==> r in res.value.utilityColors.items && res.value.utilityColors.items[r].Get(w) == th.utilityColors.items[r].Get(w)
    decreases |later| - j
  {
    if j < |later| {
      ApplyUtilityKeepsSlot(th, v, later[j].0, later[j].1, r, w);
      match ApplyUtility(th, v, later[j].0, later[j].1)
      case Err(_) =>
      case Ok(th1) => ReplayKeepsSlot(th1, v, later, j + 1, r, w);
    }
  }

  /** One block, deferred list included. */
  lemma SchemePassKeepsSlot(th: Theme, v: Variant, d: Dict<string>, later: seq<Entry>, r: string, w: Variant)
    requires d.Valid() && r in th.utilityColors.items
    requires w != v || (UtilityVar(r) !in d.items && forall e | e in later :: e.0 != UtilityVar(r))
    ensures var res := SchemePass(th, v, d, later);
      res.Ok? ==> r in res.value.0.utilityColors.items && res.value.0.utilityColors.items[r].Get(w) == th.utilityColors.items[r].Get(w)
  {
    assert w != v || forall j | 0 <= j < |d.keys| :: d.keys[j] != UtilityVar(r) by {
      if w == v {
        forall j | 0 <= j < |d.keys| ensures d.keys[j] != UtilityVar(r) {
          assert d.keys[j] in d.items;
        }
      }
    }
    SchemeFromKeepsSlot(th, v, d, 0, later, r, w);
    match SchemeFrom(th, v, d, 0, later)
    case Err(_) =>
    case Ok((th1, all)) => ReplayKeepsSlot(th1, v, all, 0, r, w);
  }

  /** With a deferred list per block, a role that a variant's block does not
      declare keeps, in that variant, the value it had before the blocks. */
  lemma {:induction false} SchemesKeepUndeclared(th: Theme, t: CssTokens.Tokens, n: nat, r: string, w: Variant)
    requires t.Valid() && n <= |VARIANTS| && r in th.utilityColors.items
    requires UtilityVar(r) !in t.Bucket(CssTokens.Scheme(w)).items
    ensures var res := SchemesFrom(th, t, n);
      res.Ok? ==> r in res.value.utilityColors.items && res.value.utilityColors.items[r].Get(w) == th.utilityColors.items[r].Get(w)
    decreases |VARIANTS| - n
  {
    if n < |VARIANTS| {
      var v := VARIANTS[n];
      SchemePassKeepsSlot(th, v, t.Bucket(CssTokens.Scheme(v)), [], r, w);
      match SchemePass(th, v, t.Bucket(CssTokens.Scheme(v)), [])
      case Err(_) =>
      case Ok((th1, _)) => SchemesKeepUndeclared(th1, t, n + 1, r, w);
    }
  }

  /** Replaying one utility declaration for a role with a slot. */
  lemma ReplayOne(th: Theme, v: Variant, name: string, value: string, r: string, o: ColorOptions)
    requires IsRole(r) && name == UtilityVar(r) && r in th.utilityColors.items && UtilityValue(value) == Ok(o)
    ensures ReplayFrom(th, v, [(name, value)], 0) ==
      Ok(th.(utilityColors := th.utilityColors.Put(r, th.utilityColors.items[r].Set(v, o))))
  {
    UtilityTypeRoundTrip(r, name);
    var th1 := th.(utilityColors := th.utilityColors.Put(r, th.utilityColors.items[r].Set(v, o)));
    assert ApplyUtility(th, v, name, value) == Ok(th1);
    assert ReplayFrom(th1, v, [(name, value)], 1) == Ok(th1);
  }

  /** A block holding one deferred declaration applies it after the block. */
  lemma DeferredOnly(th: Theme, v: Variant, name: string, value: string, r: string, o: ColorOptions)
    requires IsRole(r) && name == UtilityVar(r) && r in th.utilityColors.items
    requires RefersToUtility(value) && UtilityValue(value) == Ok(o)
    ensures SchemePass(th, v, Dict([name], map[name := value]), []) ==
      Ok((th.(utilityColors := th.utilityColors.Put(r, th.utilityColors.items[r].Set(v, o))), [(name, value)]))
  {
    var d := Dict([name], map[name := value]);
    UtilityTypeRoundTrip(r, name);
    UtilityVarNotPrivate(name);
    assert d.keys[0] == name && d.items[name] == value;
    assert [] + [(name, value)] == [(name, value)];
    assert SchemeFrom(th, v, d, 1, [(name, value)]) == Ok((th, [(name, value)]));
    assert SchemeFrom(th, v, d, 0, []) == Ok((th, [(name, value)]));
    ReplayOne(th, v, name, value, r, o);
  }

  /** An empty block replays the list it is given. */
  lemma EmptyBlock(th: Theme, v: Variant, name: string, value: string, r: string, o: ColorOptions)
    requires IsRole(r) && name == UtilityVar(r) && r in th.utilityColors.items && UtilityValue(value) == Ok(o)
    ensures SchemePass(th, v, Dict([], map[]), [(name, value)]) ==
      Ok((th.(utilityColors := th.utilityColors.Put(r, th.utilityColors.items[r].Set(v, o))), [(name, value)]))
    ensures SchemePass(th, v, Dict([], map[]), []) == Ok((th, []))
  {
    ReplayOne(th, v, name, value, r, o);
  }

  /** As written, the one deferred list carries a light-block declaration
      `--g-color-<r>: var(--g-color-<r2>)` into the dark variant although the
      dark block is empty; with a list per block the dark variant keeps its
      value. */
  lemma AsWrittenLeaksLightDeferral(th: Theme, t: CssTokens.Tokens, r: string, r2: string, value: string)
    requires t.Valid() && IsRole(r) && IsRole(r2) && r in th.utilityColors.items
    requires t.light == Dict([UtilityVar(r)], map[UtilityVar(r) := value]) && t.dark == Dict([], map[])
    requires ParseCssReference(value) == Some(UtilityVar(r2))
    requires th.utilityColors.items[r].dark != ColorOptions(UtilityRef(r2), RefTo(UtilityVar(r2)))
    ensures SchemesAsWritten(th, t, 0, []).Ok? && SchemesFrom(th, t, 0).Ok?
    ensures var leaked := SchemesAsWritten(th, t, 0, []).value.utilityColors;
      r in leaked.items && leaked.items[r].dark == ColorOptions(UtilityRef(r2), RefTo(UtilityVar(r2)))
    ensures var kept := SchemesFrom(th, t, 0).value.utilityColors;
      r in kept.items && kept.items[r].dark == th.utilityColors.items[r].dark
  {
    var name := UtilityVar(r);
    var o := ColorOptions(UtilityRef(r2), RefTo(UtilityVar(r2)));
    UtilityReferenceStored(value, r2);
    DeferredOnly(th, Light, name, value, r, o);
    var th1 := th.(utilityColors := th.utilityColors.Put(r, th.utilityColors.items[r].Set(Light, o)));
    EmptyBlock(th1, Dark, name, value, r, o);
    var th2 := th1.(utilityColors := th1.utilityColors.Put(r, th1.utilityColors.items[r].Set(Dark, o)));
    assert SchemesAsWritten(th, t, 0, []) == SchemesAsWritten(th1, t, 1, [(name, value)]);
    assert SchemesAsWritten(th1, t, 1, [(name, value)]) == Ok(th2);
    assert SchemesFrom(th, t, 0) == SchemesFrom(th1, t, 1);
    assert SchemesFrom(th1, t, 1) == Ok(th1);
  }

  /** The light block defers a declaration of role `r`'s variable. */
  ghost predicate LightDefers(t: CssTokens.Tokens, r: string) {
    var light := t.Bucket(CssTokens.Scheme(Light));
    UtilityVar(r) in light.items && RefersToUtility(light.items[UtilityVar(r)])
  }

  /** As written, a role that a variant's block does not declare keeps, in
      that variant, the value it had before the blocks, except that the dark
      variant takes a deferred declaration of the role from the light block. */
  lemma AsWrittenKeepsUndeclared(th: Theme, t: CssTokens.Tokens, r: string, w: Variant)
    requires t.Valid() && r in th.utilityColors.items
    requires UtilityVar(r) !in t.Bucket(CssTokens.Scheme(w)).items
    requires w == Dark ==> !LightDefers(t, r)
    ensures var res := SchemesAsWritten(th, t, 0, []);
      res.Ok? ==> r in res.value.utilityColors.items && res.value.utilityColors.items[r].Get(w) == th.utilityColors.items[r].Get(w)
  {
    var light, dark := t.Bucket(CssTokens.Scheme(Light)), t.Bucket(CssTokens.Scheme(Dark));
    assert VARIANTS[0] == Light && VARIANTS[1] == Dark;
    SchemePassKeepsSlot(th, Light, light, [], r, w);
    match SchemePass(th, Light, light, [])
    case Err(_) =>
    case Ok((th1, later)) =>
      assert SchemesAsWritten(th, t, 0, []) == SchemesAsWritten(th1, t, 1, later);
      assert w == Dark ==> forall e | e in later :: e.0 != UtilityVar(r);
      SchemePassKeepsSlot(th1, Dark, dark, later, r, w);
      match SchemePass(th1, Dark, dark, later)
      case Err(_) =>
      case Ok((th2, _)) =>
        assert SchemesAsWritten(th1, t, 1, later) == Ok(th2);
  }
}
