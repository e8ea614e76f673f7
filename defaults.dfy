/** The default theme: nine base colours, their generated private colours, a
    table of thirteen utility roles resolved against them, and the border radii.
    The typography defaults and the colour algebra come in as parameters. */
module Defaults {
  import opened Common
  import opened Dicts
  import opened Shades
  import opened Roles
  import opened References
  import opened Themes
  import opened PrivateColors
  import opened Resolver
  import opened Edits
  import opened Borders

  /** `DEFAULT_BACKGROUND`. */
  const LIGHT_BACKGROUND: string := "rgb(255,255,255)"
  const DARK_BACKGROUND: string := "rgb(34,29,34)"

  // ---------------------------------------------------------------------------
  // Base colours

  /** The keys of `DEFAULT_BASE_COLORS`, in declaration order. */
  const BASE_TOKENS: seq<string> := ["white", "black", "orange", "green", "yellow", "red", "blue", "cool-grey", "purple"]

  function Same(value: string): Themized<ColorOptions> {
    Themized(Plain(value), Plain(value))
  }

  /** The value of each default base colour, light and dark. */
  function BaseValue(token: string): Themized<ColorOptions> {
    if token == "white" then Same("rgb(255, 255, 255)")
    else if token == "black" then Same("rgb(0, 0, 0)")
    else if token == "orange" then Themized(Plain("rgb(255, 119, 0)"), Plain("rgb(200, 99, 12)"))
    else if token == "green" then Themized(Plain("rgb(50, 186, 118)"), Plain("rgb(77, 176, 155)"))
    else if token == "yellow" then Same("rgb(255, 190, 92)")
    else if token == "red" then Themized(Plain("rgb(255, 0, 61)"), Plain("rgb(229, 50, 93)"))
    else if token == "blue" then Same("rgb(54, 151, 241)")
    else if token == "cool-grey" then Themized(Plain("rgb(107, 132, 153)"), Plain("rgb(96, 128, 156)"))
    else Same("rgb(143, 82, 204)")
  }

  /** `DEFAULT_BASE_COLORS`. */
  const DEFAULT_BASE: Slots := FromKeys(BASE_TOKENS, BaseValue)

  /** `DEFAULT_PRIVATE_COLORS`: the ramps of the default base colours over the default backgrounds. */
  function DefaultPrivates(alg: ColorAlgebra): (r: Result<Privates>)
    ensures r.Ok? <==> AllRampsOk(alg, DEFAULT_BASE, LIGHT_BACKGROUND, DARK_BACKGROUND)
    ensures r.Ok? ==> r.value.Valid() && r.value.keys == BASE_TOKENS
    ensures r.Ok? ==> forall k :: k in r.value.items <==> k in BASE_TOKENS
  {
    GenerateForBaseSpec(alg, DEFAULT_BASE, LIGHT_BACKGROUND, DARK_BACKGROUND)
  }

  // ---------------------------------------------------------------------------
  // Utility colours

  /** What a default utility slot is written as: a reference to a private shade
      (`createInternalPrivateColorReference`) or a colour literal. */
  datatype Seed = PrivateSeed(main: string, shade: Shade) | LiteralSeed(literal: string)
  {
    function Value(): string {
      match this
      case PrivateSeed(main, shade) => PrivateRef(main, shade.Name())
      case LiteralSeed(literal) => literal
    }
  }

  /** The roles of `DEFAULT_UTILITY_COLORS`, in declaration order. */
  const DEFAULT_ROLES: seq<string> := [
    "base-brand", "base-background", "base-brand-hover", "base-selection", "base-selection-hover",
    "line-brand", "text-brand", "text-brand-heavy", "text-brand-contrast", "text-link",
    "text-link-hover", "text-link-visited", "text-link-visited-hover"
  ]

  /** The slot of each default role in each variant. */
  function SeedOf(role: string, v: Variant): Seed {
    var light := v == Light;
    if role == "base-brand" then PrivateSeed("yellow", Solid(S550))
    else if role == "base-background" then
      (if light then PrivateSeed("white", Solid(S1000)) else LiteralSeed(DARK_BACKGROUND))
    else if role == "base-brand-hover" then PrivateSeed("yellow", if light then Solid(S600) else Solid(S650))
    else if role == "base-selection" then PrivateSeed("yellow", if light then Alpha(S200) else Alpha(S150))
    else if role == "base-selection-hover" then PrivateSeed("yellow", if light then Alpha(S300) else Alpha(S200))
    else if role == "line-brand" then PrivateSeed("yellow", Solid(S600))
    else if role == "text-brand" then PrivateSeed("yellow", if light then Solid(S700) else Solid(S600))
    else if role == "text-brand-heavy" then PrivateSeed(if light then "orange" else "yellow", Solid(S700))
    else if role == "text-brand-contrast" then
      LiteralSeed(if light then "rgba(0, 0, 0, 0.85)" else "rgba(0, 0, 0, 0.9)")
    else if role == "text-link" then PrivateSeed("yellow", if light then Solid(S650) else Solid(S550))
    else if role == "text-link-hover" then PrivateSeed("orange", if light then Solid(S650) else Solid(S550))
    else if role == "text-link-visited" then PrivateSeed("purple", if light then Solid(S550) else Solid(S600))
    else PrivateSeed("purple", if light then Solid(S800) else Solid(S750))
  }

  function SeedSlot(role: string): Themized<ColorOptions> {
    Themized(Plain(SeedOf(role, Light).Value()), Plain(SeedOf(role, Dark).Value()))
  }

  /** `DEFAULT_UTILITY_COLORS`, before resolution. */
  const DEFAULT_UTILITY: Slots := FromKeys(DEFAULT_ROLES, SeedSlot)

  // ---------------------------------------------------------------------------
  // Borders and the assembled theme

  function DefaultRadius(size: string): string {
    if size == "xs" then "3px"
    else if size == "s" then "5px"
    else if size == "m" then "6px"
    else if size == "l" then "8px"
    else "10px"
  }

  /** `DEFAULT_BORDERS`. */
  const DEFAULT_BORDERS: Dict<string> := FromKeys(BORDER_SIZES, DefaultRadius)

  /** `DEFAULT_THEME`: the default base colours, their private colours, the
      default utility table resolved against them, the given typography and the
      default borders. */
  function DefaultTheme(alg: ColorAlgebra, typography: Typography): (r: Result<Theme>)
    ensures r.Ok? ==> DefaultPrivates(alg).Ok? && r.value.privateColors == DefaultPrivates(alg).value
    ensures r.Ok? ==> r.value.baseColors == DEFAULT_BASE && r.value.typography == typography
    ensures r.Ok? ==> r.value.borders == DEFAULT_BORDERS && r.value.utilityColors.keys == DEFAULT_ROLES
  {
    match DefaultPrivates(alg)
    case Err(e) => Err(e)
    case Ok(p) =>
      match ResolveSpec(DEFAULT_UTILITY, p)
      case Err(e) => Err(e)
      case Ok(u) => Ok(Theme(DEFAULT_BASE, p, u, typography, DEFAULT_BORDERS))
  }

  // ---------------------------------------------------------------------------
  // Properties

  /** The default table has slots for thirteen distinct roles, all of them known
      utility roles, and for no other role. */
  lemma DefaultRoles()
    ensures |DEFAULT_ROLES| == 13 && Distinct(DEFAULT_ROLES)
    ensures forall r | r in DEFAULT_ROLES :: IsRole(r)
    ensures forall r :: r in DEFAULT_UTILITY.items <==> r in DEFAULT_ROLES
  {
    forall r | r in DEFAULT_ROLES ensures IsRole(r) {
      if r in BASE_BRAND {
        KnownBaseBrand(r);
      } else if r == "base-background" {
        KnownBaseGeneric(r);
      } else if r == "line-brand" {
        KnownLine(r);
      } else {
        assert r in TEXT_BRAND;
        KnownTextBrand(r);
      }
    }
  }

  lemma KnownBaseBrand(r: string)
    requires r in BASE_BRAND
    ensures IsRole(r)
  {
    assert r in BASE_ROLES;
    IsRoleIff(r);
  }

  lemma KnownBaseGeneric(r: string)
    requires r in BASE_GENERIC
    ensures IsRole(r)
  {
    assert r in BASE_ROLES;
    IsRoleIff(r);
  }

  lemma KnownLine(r: string)
    requires r in LINE_ROLES
    ensures IsRole(r)
  {
    IsRoleIff(r);
  }

  lemma KnownTextBrand(r: string)
    requires r in TEXT_BRAND
    ensures IsRole(r)
  {
    assert r in TEXT_ROLES;
    IsRoleIff(r);
  }

  /** Each private seed names a dot-free base token and a known shade the
      generator writes for that token in that variant; each literal is a colour
      function (it starts with `r`). */
  lemma SeedFacts(r: string, v: Variant)
    requires r in DEFAULT_ROLES
    ensures var s := SeedOf(r, v);
      s.PrivateSeed? ==> s.main in BASE_TOKENS && '.' !in s.main && s.shade in ALL_PRIVATE
    ensures var s := SeedOf(r, v);
      s.PrivateSeed? ==> Written(Request(v, s.main, DEFAULT_BASE.items[s.main].Get(v).value, LIGHT_BACKGROUND, DARK_BACKGROUND), s.shade)
    ensures var s := SeedOf(r, v);
      s.LiteralSeed? ==> |s.literal| > 0 && s.literal[0] == 'r'
  {
    var s := SeedOf(r, v);
    SeedShape(r, v);
    if s.PrivateSeed? {
      SeedShadeKnown(s.main, s.shade);
      SeedShadeWritten(Request(v, s.main, DEFAULT_BASE.items[s.main].Get(v).value, LIGHT_BACKGROUND, DARK_BACKGROUND), s.shade);
    }
  }

  /** The shades the default table refers to: white's anchor shade, or a base
      shade of yellow, orange or purple. */
  predicate SeedShade(main: string, t: Shade) {
    (main == "white" && t == Solid(S1000)) ||
    ((main == "yellow" || main == "orange" || main == "purple") && (t in BASE_SOLID || t in BASE_PLAIN))
  }

  /** The tokens and shades the default table refers to exist. */
  lemma SeedShadeKnown(main: string, t: Shade)
    requires SeedShade(main, t)
    ensures main in BASE_TOKENS && '.' !in main && t in ALL_PRIVATE
  {
    if t in BASE_SOLID {
      BaseSolidKnown(t);
    } else if t in BASE_PLAIN {
      BasePlainKnown(t);
    }
  }

  lemma BaseSolidKnown(t: Shade)
    requires t in BASE_SOLID
    ensures t in ALL_PRIVATE
  {
  }

  lemma BasePlainKnown(t: Shade)
    requires t in BASE_PLAIN
    ensures t in ALL_PRIVATE
  {
  }

  /** White's anchor shade, and every base shade of a colour other than white
      and black, is written by the generator, whatever the colour and backgrounds. */
  lemma SeedShadeWritten(q: Request, t: Shade)
    requires SeedShade(q.token, t)
    ensures Written(q, t)
  {
    if q.token == "white" {
      assert t == AnchorShade(q.token);
    } else {
      assert AnchorOf(q.token).None?;
    }
  }

  /** Where each seed points, and what each literal starts with. */
  lemma SeedShape(r: string, v: Variant)
    requires r in DEFAULT_ROLES
    ensures var s := SeedOf(r, v);
      s.PrivateSeed? ==> SeedShade(s.main, s.shade)
    ensures var s := SeedOf(r, v);
      s.LiteralSeed? ==> |s.literal| > 0 && s.literal[0] == 'r'
  {
  }

  /** A colour literal starting with `r` (`rgb(...)`, `rgba(...)`) is neither kind of reference. */
  lemma LiteralNotReference(s: string)
    requires |s| > 0 && s[0] == 'r'
    ensures !IsUtilityRef(s) && !IsPrivateRef(s)
  {
    var head := Split(s, '.')[0];
    assert |head| > 0 && head[0] == 'r';
  }

  /** No default utility value is a utility reference. */
  lemma DefaultNoUtilityRefs()
    ensures forall r, v | r in DEFAULT_UTILITY.items :: !IsUtilityRef(DEFAULT_UTILITY.items[r].Get(v).value)
  {
    forall r, v | r in DEFAULT_UTILITY.items ensures !IsUtilityRef(DEFAULT_UTILITY.items[r].Get(v).value) {
      var s := SeedOf(r, v);
      assert DEFAULT_UTILITY.items[r].Get(v).value == s.Value();
      SeedFacts(r, v);
      match s
      case PrivateSeed(main, t) =>
        ParsePrivateRefRoundTrip(main, t);
        ParsePrivateRefSound(s.Value());
        RefKindsExclusive(s.Value());
      case LiteralSeed(lit) =>
        LiteralNotReference(lit);
    }
  }

  /** Provided the generated shades are not themselves utility references, the
      default theme exists exactly when every default ramp can be generated:
      resolving the default table never reports a circular reference. */
  lemma DefaultThemeExists(alg: ColorAlgebra, typography: Typography)
    requires DefaultPrivates(alg).Ok? ==> NoUtilityShades(DefaultPrivates(alg).value)
    ensures DefaultTheme(alg, typography).Ok? <==> AllRampsOk(alg, DEFAULT_BASE, LIGHT_BACKGROUND, DARK_BACKGROUND)
    ensures DefaultTheme(alg, typography).Err? ==> DefaultTheme(alg, typography).error == InvalidColor
  {
    if DefaultPrivates(alg).Ok? {
      DefaultNoUtilityRefs();
      ResolveWithoutUtilityRefs(DEFAULT_UTILITY, DefaultPrivates(alg).value);
    }
  }

  /** Every default slot resolves as written: a private seed to the value the
      generator emitted for that shade, with the reference kept (never the `''`
      fallback), and a literal to itself. */
  lemma DefaultSeedResolves(alg: ColorAlgebra, typography: Typography, r: string, v: Variant)
    requires DefaultTheme(alg, typography).Ok? && NoUtilityShades(DefaultPrivates(alg).value)
    requires r in DEFAULT_ROLES
    ensures var th := DefaultTheme(alg, typography).value;
      r in th.utilityColors.items &&
      match SeedOf(r, v)
      case PrivateSeed(main, t) =>
        main in th.privateColors.items && t in th.privateColors.items[main].Get(v) &&
        th.utilityColors.items[r].Get(v) ==
          ColorOptions(th.privateColors.items[main].Get(v)[t].value, RefTo(PrivateRef(main, t.Name())))
      case LiteralSeed(lit) => th.utilityColors.items[r].Get(v) == Plain(lit)
  {
    var p := DefaultPrivates(alg).value;
    var s := SeedOf(r, v);
    assert DEFAULT_UTILITY.items[r].Get(v) == Plain(s.Value());
    SeedFacts(r, v);
    match s
    case PrivateSeed(main, t) =>
      GeneratedShades(alg, DEFAULT_BASE, LIGHT_BACKGROUND, DARK_BACKGROUND, main, v, t);
      assert !IsUtilityRef(p.items[main].Get(v)[t].value);
      PrivateRefResolved(DEFAULT_UTILITY, p, r, v, main, t);
    case LiteralSeed(lit) =>
      LiteralNotReference(lit);
      UnreferencedUntouched(DEFAULT_UTILITY, p, r, v);
  }
}
