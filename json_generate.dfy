/** `generateJSON`: the theme flattened into one JSON object keyed by CSS
    variable, section by section (font families, group properties, variant
    properties, private shades, utility roles, border radii). Nothing is
    compared with the default theme and nothing is resolved. */
module JsonGenerate {
  import opened Common
  import opened Dicts
  import opened Shades
  import opened Roles
  import opened Variables
  import opened References
  import opened Themes
  import opened Typography
  import opened Borders
  import opened JsonParse
  import CssCommon

  // ---------------------------------------------------------------------------
  // Values as JSON

  /** A colour option as the object it is: `value`, and `ref` when the option
      has that key (holding `undefined` when the option's `ref` is undefined). */
  function ColorJson(c: ColorOptions): Json {
    match c.ref
    case NoRef => JObj(map["value" := JStr(c.value)])
    case UndefinedRef => JObj(map["value" := JStr(c.value), "ref" := JUndefined])
    case RefTo(s) => JObj(map["value" := JStr(c.value), "ref" := JStr(s)])
  }

  /** A themized colour as `{light, dark}`. */
  function ThemizedJson(x: Themized<ColorOptions>): Json {
    JObj(map["light" := ColorJson(x.light), "dark" := ColorJson(x.dark)])
  }

  /** A colour option written as JSON passes `isValueWithReference` and reads
      back as the same option, `ref` state included. */
  lemma ColorJsonRoundTrip(c: ColorOptions)
    ensures IsColorOptions(ColorJson(c)) && ToColorOptions(ColorJson(c)) == c
  {
  }

  /** A themized colour written as JSON passes `isThemizedValueWithReference`
      and reads back as the same pair. */
  lemma ThemizedJsonRoundTrip(x: Themized<ColorOptions>)
    ensures IsThemized(ThemizedJson(x)) && ToThemized(ThemizedJson(x)) == x
  {
    ColorJsonRoundTrip(x.light);
    ColorJsonRoundTrip(x.dark);
  }

  /** `{value}`. */
  function ValueJson(s: string): (j: Json)
    ensures IsColorOptions(j) && ValueOf(j) == s && "ref" !in j.fields
  {
    JObj(map["value" := JStr(s)])
  }

  /** The field of a `{light, dark}` object that holds a variant. */
  function VariantField(v: Variant): string {
    match v
    case Light => "light"
    case Dark => "dark"
  }

  /** `entry[theme] = value`: an object gets the field; a primitive, which the
      generator never stores under a private variable, takes no field. */
  function SetVariant(j: Json, v: Variant, c: ColorOptions): Json {
    match j
    case JObj(f) => JObj(f[VariantField(v) := ColorJson(c)])
    case _ => j
  }

  /** JavaScript truthiness of a stored entry (`!result[cssVariable]` is its negation). */
  predicate Truthy(j: Json) {
    match j
    case JUndefined => false
    case JNull => false
    case JBool(b) => b
    case JNum(n) => n != 0
    case JStr(s) => s != ""
    case _ => true
  }

  // ---------------------------------------------------------------------------
  // The sections, each a walk over its part of the theme

  /** Font families: `{value: generateCssFontFamily(font)}` under the font's variable. */
  function FontEntries(r: JsonTheme, fonts: Dict<Font>, n: nat): JsonTheme
    requires fonts.Listed() && n <= |fonts.keys|
  {
    if n == 0 then r
    else
      var key := fonts.keys[n - 1];
      FontEntries(r, fonts, n - 1).Put(FontVar(key), ValueJson(GenerateFontFamily(fonts.items[key])))
  }

  /** A group property's entry: `font-family` carries, as `value`, what the
      font entry it names holds when there is one (else the raw value) and, as
      `ref`, that font's variable; any other property is `{value}`. */
  function GroupEntry(r: JsonTheme, o: GroupOptions, p: string): Json {
    if p == "font-family" then
      var refVar := FontVar(o.fontFamily);
      var clear := if refVar in r.items && IsColorOptions(r.items[refVar]) then ValueOf(r.items[refVar]) else o.fontFamily;
      JObj(map["value" := JStr(clear), "ref" := JStr(refVar)])
    else ValueJson(CssCommon.GroupProperty(o, p))
  }

  /** The first `j` of `props` for group `g`. */
  function GroupPropEntries(r: JsonTheme, g: string, o: GroupOptions, props: seq<string>, j: nat): JsonTheme
    requires j <= |props|
  {
    if j == 0 then r
    else
      var before := GroupPropEntries(r, g, o, props, j - 1);
      before.Put(TextVar(GroupKey(g, props[j - 1])), GroupEntry(before, o, props[j - 1]))
  }

  /** Group properties, group by group. */
  function GroupEntries(r: JsonTheme, groups: Dict<GroupOptions>, props: seq<string>, n: nat): JsonTheme
    requires groups.Listed() && n <= |groups.keys|
  {
    if n == 0 then r
    else
      var g := groups.keys[n - 1];
      GroupPropEntries(GroupEntries(r, groups, props, n - 1), g, groups.items[g], props, |props|)
  }

  /** The writes the first `j` of `props` make for variant `w` walked under
      group `g`, in order: `{value}` under the text variable of each. */
  function PropWrites(g: string, w: string, o: VariantOptions, props: seq<string>, j: nat): seq<(string, Json)>
    requires j <= |props|
  {
    if j == 0 then []
    else PropWrites(g, w, o, props, j - 1) + [(TextVar(VariantKey(g, w, props[j - 1])), ValueJson(CssCommon.VariantProperty(o, props[j - 1])))]
  }

  /** The first `j` of `props` for variant `w`, walked under group `g`. */
  function VariantPropEntries(r: JsonTheme, g: string, w: string, o: VariantOptions, props: seq<string>, j: nat): JsonTheme
    requires j <= |props|
  {
    PutAll(r, PropWrites(g, w, o, props, j))
  }

  /** Every variant of the theme, walked under group `g`. */
  function VariantsOfGroup(r: JsonTheme, g: string, variants: Dict<VariantOptions>, props: seq<string>, n: nat): JsonTheme
    requires variants.Listed() && n <= |variants.keys|
  {
    if n == 0 then r
    else
      var w := variants.keys[n - 1];
      VariantPropEntries(VariantsOfGroup(r, g, variants, props, n - 1), g, w, variants.items[w], props, |props|)
  }

  /** The first `m` of `groups`, each walking every variant of the theme. */
  function VariantEntries(r: JsonTheme, groups: seq<string>, variants: Dict<VariantOptions>, props: seq<string>, m: nat): JsonTheme
    requires variants.Listed() && m <= |groups|
  {
    if m == 0 then r
    else VariantsOfGroup(VariantEntries(r, groups, variants, props, m - 1), groups[m - 1], variants, props, |variants.keys|)
  }

  /** What a shade's entry is before its variant is set: the stored entry when
      it is truthy, else a new `{light: {value: ''}, dark: {value: ''}}`. */
  function Current(r: JsonTheme, name: string): (j: Json)
    ensures Truthy(j)
  {
    if name in r.items && Truthy(r.items[name]) then r.items[name] else ThemizedJson(EMPTY_BASE)
  }

  /** One shade of one variant. */
  function ShadeEntry(r: JsonTheme, token: string, v: Variant, t: Shade, c: ColorOptions): JsonTheme
  {
    var name := PrivateVar(token, t.Name());
    r.Put(name, SetVariant(Current(r, name), v, c))
  }

  /** The first `j` shades of `order` that `shades` has, for one token and variant. */
  function ShadeEntries(r: JsonTheme, token: string, v: Variant, shades: PrivateShades, order: seq<Shade>, j: nat): JsonTheme
    requires j <= |order|
  {
    if j == 0 then r
    else
      var before := ShadeEntries(r, token, v, shades, order, j - 1);
      var t := order[j - 1];
      if t in shades then ShadeEntry(before, token, v, t, shades[t]) else before
  }

  /** A token's shades: all of its light ones, then all of its dark ones. */
  function TokenEntries(r: JsonTheme, token: string, x: Themized<PrivateShades>, order: seq<Shade>): JsonTheme
  {
    var light := ShadeEntries(r, token, Light, x.light, order, |order|);
    ShadeEntries(light, token, Dark, x.dark, order, |order|)
  }

  /** Private shades, token by token. */
  function PrivateEntries(r: JsonTheme, privs: Dict<Themized<PrivateShades>>, order: seq<Shade>, n: nat): JsonTheme
    requires privs.Listed() && n <= |privs.keys|
  {
    if n == 0 then r
    else
      var token := privs.keys[n - 1];
      TokenEntries(PrivateEntries(r, privs, order, n - 1), token, privs.items[token], order)
  }

  /** Utility roles: the themized colour under the role's variable. */
  function UtilityEntries(r: JsonTheme, utils: Dict<Themized<ColorOptions>>, n: nat): JsonTheme
    requires utils.Listed() && n <= |utils.keys|
  {
    if n == 0 then r
    else
      var role := utils.keys[n - 1];
      UtilityEntries(r, utils, n - 1).Put(UtilityVar(role), ThemizedJson(utils.items[role]))
  }

  /** Border radii: `{value}` under the size's variable. */
  function BorderEntries(r: JsonTheme, borders: Dict<string>, n: nat): JsonTheme
    requires borders.Listed() && n <= |borders.keys|
  {
    if n == 0 then r
    else
      var size := borders.keys[n - 1];
      BorderEntries(r, borders, n - 1).Put(BorderRadiusVar(size), ValueJson(borders.items[size]))
  }

  /** `generateJSON`, with the shades of a token walked in `order`. */
  function GenerateJsonSpec(th: Theme, order: seq<Shade>): (e: JsonTheme)
    requires th.Valid()
    ensures e.Valid()
  {
    var ty := th.typography;
    var fonts := FontEntries(Empty(), ty.fontFamilies, |ty.fontFamilies.keys|);
    var groups := GroupEntries(fonts, ty.groups, GROUP_PROPERTIES, |ty.groups.keys|);
    var variants := VariantEntries(groups, TEXT_GROUPS, ty.variants, VARIANT_PROPERTIES, |TEXT_GROUPS|);
    var privs := PrivateEntries(variants, th.privateColors, order, |th.privateColors.keys|);
    var utils := UtilityEntries(privs, th.utilityColors, |th.utilityColors.keys|);
    FontEntriesValid(Empty(), ty.fontFamilies, |ty.fontFamilies.keys|);
    GroupEntriesValid(fonts, ty.groups, GROUP_PROPERTIES, |ty.groups.keys|);
    VariantEntriesValid(groups, TEXT_GROUPS, ty.variants, VARIANT_PROPERTIES, |TEXT_GROUPS|);
    PrivateEntriesValid(variants, th.privateColors, order, |th.privateColors.keys|);
    UtilityEntriesValid(privs, th.utilityColors, |th.utilityColors.keys|);
    BorderEntriesValid(utils, th.borders, |th.borders.keys|);
    BorderEntries(utils, th.borders, |th.borders.keys|)
  }

  // ---------------------------------------------------------------------------
  // generateJSON, loop by loop

  method AddFonts(r0: JsonTheme, fonts: Dict<Font>) returns (r: JsonTheme)
    requires fonts.Listed()
    ensures r == FontEntries(r0, fonts, |fonts.keys|)
  {
    r := r0;
    for i := 0 to |fonts.keys|
      invariant r == FontEntries(r0, fonts, i)
    {
      var key := fonts.keys[i];
      r := r.Put(FontVar(key), ValueJson(GenerateFontFamily(fonts.items[key])));
    }
  }

  /** The inner loop of the group section: the group's properties in order. */
  method AddGroupProperties(r0: JsonTheme, group: string, value: GroupOptions, props: seq<string>) returns (r: JsonTheme)
    ensures r == GroupPropEntries(r0, group, value, props, |props|)
  {
    r := r0;
    for j := 0 to |props|
      invariant r == GroupPropEntries(r0, group, value, props, j)
    {
      var property := props[j];
      var cssVariable := TextVar(GroupKey(group, property));
      if property == "font-family" {
        var val := value.fontFamily;
        var refCssVariable := FontVar(val);
        var clearValue := if refCssVariable in r.items && IsColorOptions(r.items[refCssVariable]) then ValueOf(r.items[refCssVariable]) else val;
        r := r.Put(cssVariable, JObj(map["value" := JStr(clearValue), "ref" := JStr(refCssVariable)]));
      } else {
        r := r.Put(cssVariable, ValueJson(CssCommon.GroupProperty(value, property)));
      }
    }
  }

  method AddGroups(r0: JsonTheme, groups: Dict<GroupOptions>, props: seq<string>) returns (r: JsonTheme)
    requires groups.Listed()
    ensures r == GroupEntries(r0, groups, props, |groups.keys|)
  {
    r := r0;
    for i := 0 to |groups.keys|
      invariant r == GroupEntries(r0, groups, props, i)
    {
      var group := groups.keys[i];
      GroupEntriesStep(r0, groups, props, i);
      r := AddGroupProperties(r, group, groups.items[group], props);
    }
  }

  lemma GroupEntriesStep(r0: JsonTheme, groups: Dict<GroupOptions>, props: seq<string>, i: nat)
    requires groups.Listed() && i < |groups.keys|
    ensures GroupEntries(r0, groups, props, i + 1)
      == GroupPropEntries(GroupEntries(r0, groups, props, i), groups.keys[i], groups.items[groups.keys[i]], props, |props|)
  {
  }

  /** The innermost loop of the variant section: one variant's properties in order. */
  method AddVariantProperties(r0: JsonTheme, group: string, variant: string, value: VariantOptions, props: seq<string>) returns (r: JsonTheme)
    ensures r == VariantPropEntries(r0, group, variant, value, props, |props|)
  {
    r := r0;
    for j := 0 to |props|
      invariant r == VariantPropEntries(r0, group, variant, value, props, j)
    {
      var property := props[j];
      var key, entry := TextVar(VariantKey(group, variant, property)), ValueJson(CssCommon.VariantProperty(value, property));
      assert r.Put(key, entry) == VariantPropEntries(r0, group, variant, value, props, j + 1) by {
        VariantPropEntriesStep(r0, group, variant, value, props, j + 1);
      }
      r := r.Put(key, entry);
    }
  }

  /** The middle loop of the variant section: every variant under one group. */
  method AddVariantsOfGroup(r0: JsonTheme, group: string, variants: Dict<VariantOptions>, props: seq<string>) returns (r: JsonTheme)
    requires variants.Listed()
    ensures r == VariantsOfGroup(r0, group, variants, props, |variants.keys|)
  {
    r := r0;
    for i := 0 to |variants.keys|
      invariant r == VariantsOfGroup(r0, group, variants, props, i)
    {
      var variant := variants.keys[i];
      r := AddVariantProperties(r, group, variant, variants.items[variant], props);
    }
  }

  /** The outer loop of the variant section: every group of `groups`. */
  method AddVariants(r0: JsonTheme, groups: seq<string>, variants: Dict<VariantOptions>, props: seq<string>) returns (r: JsonTheme)
    requires variants.Listed()
    ensures r == VariantEntries(r0, groups, variants, props, |groups|)
  {
    r := r0;
    for m := 0 to |groups|
      invariant r == VariantEntries(r0, groups, variants, props, m)
    {
      r := AddVariantsOfGroup(r, groups[m], variants, props);
    }
  }

  /** The body of the shade loop. */
  method AddShade(r0: JsonTheme, token: string, v: Variant, t: Shade, value: ColorOptions) returns (r: JsonTheme)
    ensures r == ShadeEntry(r0, token, v, t, value)
  {
    r := r0;
    var cssVariable := PrivateVar(token, t.Name());
    if !(cssVariable in r.items && Truthy(r.items[cssVariable])) {
      r := r.Put(cssVariable, ThemizedJson(EMPTY_BASE));
    }
    r := r.Put(cssVariable, SetVariant(r.items[cssVariable], v, value));
  }

  method AddShades(r0: JsonTheme, token: string, v: Variant, shades: PrivateShades, order: seq<Shade>) returns (r: JsonTheme)
    ensures r == ShadeEntries(r0, token, v, shades, order, |order|)
  {
    r := r0;
    for j := 0 to |order|
      invariant r == ShadeEntries(r0, token, v, shades, order, j)
    {
      var t := order[j];
      if t in shades {
        r := AddShade(r, token, v, t, shades[t]);
      }
    }
  }

  method AddPrivate(r0: JsonTheme, privs: Dict<Themized<PrivateShades>>, order: seq<Shade>) returns (r: JsonTheme)
    requires privs.Listed()
    ensures r == PrivateEntries(r0, privs, order, |privs.keys|)
  {
    r := r0;
    for i := 0 to |privs.keys|
      invariant r == PrivateEntries(r0, privs, order, i)
    {
      var colorToken := privs.keys[i];
      var themized := privs.items[colorToken];
      r := AddShades(r, colorToken, Light, themized.light, order);
      r := AddShades(r, colorToken, Dark, themized.dark, order);
    }
  }

  method AddUtility(r0: JsonTheme, utils: Dict<Themized<ColorOptions>>) returns (r: JsonTheme)
    requires utils.Listed()
    ensures r == UtilityEntries(r0, utils, |utils.keys|)
  {
    r := r0;
    for i := 0 to |utils.keys|
      invariant r == UtilityEntries(r0, utils, i)
    {
      var role := utils.keys[i];
      r := r.Put(UtilityVar(role), ThemizedJson(utils.items[role]));
    }
  }

  method AddBorders(r0: JsonTheme, borders: Dict<string>) returns (r: JsonTheme)
    requires borders.Listed()
    ensures r == BorderEntries(r0, borders, |borders.keys|)
  {
    r := r0;
    for i := 0 to |borders.keys|
      invariant r == BorderEntries(r0, borders, i)
    {
      var size := borders.keys[i];
      r := r.Put(BorderRadiusVar(size), ValueJson(borders.items[size]));
    }
  }

  /** `generateJSON`. */
  method GenerateJson(th: Theme, order: seq<Shade>) returns (r: JsonTheme)
    requires th.Valid()
    ensures r == GenerateJsonSpec(th, order)
  {
    r := AddFonts(Empty(), th.typography.fontFamilies);
    r := AddGroups(r, th.typography.groups, GROUP_PROPERTIES);
    r := AddVariants(r, TEXT_GROUPS, th.typography.variants, VARIANT_PROPERTIES);
    r := AddPrivate(r, th.privateColors, order);
    r := AddUtility(r, th.utilityColors);
    r := AddBorders(r, th.borders);
  }

  // ---------------------------------------------------------------------------
  // Where each section writes

  /** `b` holds at `k` what `a` holds there, or lacks `k` as `a` does. */
  ghost predicate SameAt(a: JsonTheme, b: JsonTheme, k: string) {
    (k in b.items <==> k in a.items) && (k in a.items ==> b.items[k] == a.items[k])
  }

  /** `e` holds `j` at `k`. */
  ghost predicate Holds(e: JsonTheme, k: string, j: Json) {
    k in e.items && e.items[k] == j
  }

  /** A section that writes only under `prefix`: a variable `k` outside it is
      as it was, and a well-formed dictionary stays well formed. */
  ghost predicate Confined(a: JsonTheme, b: JsonTheme, prefix: string, k: string) {
    !StartsWith(k, prefix) ==> SameAt(a, b, k)
  }

  lemma {:induction false} FontEntriesConfined(r: JsonTheme, fonts: Dict<Font>, n: nat, k: string)
    requires fonts.Listed() && n <= |fonts.keys|
    ensures Confined(r, FontEntries(r, fonts, n), FONT_PREFIX, k)
  {
    if n > 0 {
      FontEntriesConfined(r, fonts, n - 1, k);
    }
  }

  /** One more write under `prefix` keeps a walk confined to it. */
  lemma PutConfined(r: JsonTheme, before: JsonTheme, key: string, x: Json, after: JsonTheme, prefix: string, k: string)
    requires Confined(r, before, prefix, k) && StartsWith(key, prefix) && after == before.Put(key, x)
    ensures Confined(r, after, prefix, k)
  {
  }

  lemma PutTextConfined(r: JsonTheme, before: JsonTheme, key: TextKey, x: Json, after: JsonTheme, k: string)
    requires Confined(r, before, TEXT_PREFIX, k) && after == before.Put(TextVar(key), x)
    ensures Confined(r, after, TEXT_PREFIX, k)
  {
    PutConfined(r, before, TextVar(key), x, after, TEXT_PREFIX, k);
  }

  lemma GroupPropEntriesStep(r: JsonTheme, g: string, o: GroupOptions, props: seq<string>, j: nat)
    requires 0 < j <= |props|
    ensures GroupPropEntries(r, g, o, props, j) ==
      var before := GroupPropEntries(r, g, o, props, j - 1);
      before.Put(TextVar(GroupKey(g, props[j - 1])), GroupEntry(before, o, props[j - 1]))
  {
  }

  lemma ConfinedChain(a: JsonTheme, b: JsonTheme, c: JsonTheme, prefix: string, k: string)
    requires Confined(a, b, prefix, k) && Confined(b, c, prefix, k)
    ensures Confined(a, c, prefix, k)
  {
  }

  lemma {:induction false} GroupPropEntriesConfined(r: JsonTheme, g: string, o: GroupOptions, props: seq<string>, j: nat, k: string)
    requires j <= |props|
    ensures Confined(r, GroupPropEntries(r, g, o, props, j), TEXT_PREFIX, k)
  {
    if j > 0 {
      var before := GroupPropEntries(r, g, o, props, j - 1);
      GroupPropEntriesConfined(r, g, o, props, j - 1, k);
      GroupPropEntriesStep(r, g, o, props, j);
      PutTextConfined(r, before, GroupKey(g, props[j - 1]), GroupEntry(before, o, props[j - 1]), GroupPropEntries(r, g, o, props, j), k);
    }
  }

  lemma {:induction false} GroupEntriesConfined(r: JsonTheme, groups: Dict<GroupOptions>, props: seq<string>, n: nat, k: string)
    requires groups.Listed() && n <= |groups.keys|
    ensures Confined(r, GroupEntries(r, groups, props, n), TEXT_PREFIX, k)
  {
    if n > 0 {
      GroupEntriesConfined(r, groups, props, n - 1, k);
      var g := groups.keys[n - 1];
      GroupPropEntriesConfined(GroupEntries(r, groups, props, n - 1), g, groups.items[g], props, |props|, k);
      ConfinedChain(r, GroupEntries(r, groups, props, n - 1), GroupEntries(r, groups, props, n), TEXT_PREFIX, k);
    }
  }

  lemma VariantPropEntriesStep(r: JsonTheme, g: string, w: string, o: VariantOptions, props: seq<string>, j: nat)
    requires 0 < j <= |props|
    ensures VariantPropEntries(r, g, w, o, props, j) ==
      VariantPropEntries(r, g, w, o, props, j - 1).Put(TextVar(VariantKey(g, w, props[j - 1])), ValueJson(CssCommon.VariantProperty(o, props[j - 1])))
  {
    var key := TextVar(VariantKey(g, w, props[j - 1]));
    var value := ValueJson(CssCommon.VariantProperty(o, props[j - 1]));
    PutAllSnoc(r, PropWrites(g, w, o, props, j - 1), key, value, PropWrites(g, w, o, props, j));
  }

  lemma {:induction false} VariantPropEntriesConfined(r: JsonTheme, g: string, w: string, o: VariantOptions, props: seq<string>, j: nat, k: string)
    requires j <= |props|
    ensures Confined(r, VariantPropEntries(r, g, w, o, props, j), TEXT_PREFIX, k)
  {
    if j > 0 {
      var before := VariantPropEntries(r, g, w, o, props, j - 1);
      VariantPropEntriesConfined(r, g, w, o, props, j - 1, k);
      VariantPropEntriesStep(r, g, w, o, props, j);
      PutTextConfined(r, before, VariantKey(g, w, props[j - 1]), ValueJson(CssCommon.VariantProperty(o, props[j - 1])), VariantPropEntries(r, g, w, o, props, j), k);
    }
  }

  lemma {:induction false} VariantsOfGroupConfined(r: JsonTheme, g: string, variants: Dict<VariantOptions>, props: seq<string>, n: nat, k: string)
    requires variants.Listed() && n <= |variants.keys|
    ensures Confined(r, VariantsOfGroup(r, g, variants, props, n), TEXT_PREFIX, k)
  {
    if n > 0 {
      VariantsOfGroupConfined(r, g, variants, props, n - 1, k);
      var w := variants.keys[n - 1];
      VariantPropEntriesConfined(VariantsOfGroup(r, g, variants, props, n - 1), g, w, variants.items[w], props, |props|, k);
    }
  }

  lemma {:induction false} VariantEntriesConfined(r: JsonTheme, groups: seq<string>, variants: Dict<VariantOptions>, props: seq<string>, m: nat, k: string)
    requires variants.Listed() && m <= |groups|
    ensures Confined(r, VariantEntries(r, groups, variants, props, m), TEXT_PREFIX, k)
  {
    if m > 0 {
      VariantEntriesConfined(r, groups, variants, props, m - 1, k);
      VariantsOfGroupConfined(VariantEntries(r, groups, variants, props, m - 1), groups[m - 1], variants, props, |variants.keys|, k);
    }
  }

  lemma {:induction false} ShadeEntriesConfined(r: JsonTheme, token: string, v: Variant, shades: PrivateShades, order: seq<Shade>, j: nat, k: string)
    requires j <= |order|
    ensures Confined(r, ShadeEntries(r, token, v, shades, order, j), PRIVATE_COLOR_PREFIX, k)
  {
    if j > 0 {
      ShadeEntriesConfined(r, token, v, shades, order, j - 1, k);
    }
  }

  lemma {:induction false} PrivateEntriesConfined(r: JsonTheme, privs: Dict<Themized<PrivateShades>>, order: seq<Shade>, n: nat, k: string)
    requires privs.Listed() && n <= |privs.keys|
    ensures Confined(r, PrivateEntries(r, privs, order, n), PRIVATE_COLOR_PREFIX, k)
  {
    if n > 0 {
      PrivateEntriesConfined(r, privs, order, n - 1, k);
      var before, token := PrivateEntries(r, privs, order, n - 1), privs.keys[n - 1];
      var x := privs.items[token];
      ShadeEntriesConfined(before, token, Light, x.light, order, |order|, k);
      ShadeEntriesConfined(ShadeEntries(before, token, Light, x.light, order, |order|), token, Dark, x.dark, order, |order|, k);
    }
  }

  lemma {:induction false} UtilityEntriesConfined(r: JsonTheme, utils: Dict<Themized<ColorOptions>>, n: nat, k: string)
    requires utils.Listed() && n <= |utils.keys|
    ensures Confined(r, UtilityEntries(r, utils, n), COLOR_PREFIX, k)
  {
    if n > 0 {
      UtilityEntriesConfined(r, utils, n - 1, k);
    }
  }

  lemma {:induction false} BorderEntriesConfined(r: JsonTheme, borders: Dict<string>, n: nat, k: string)
    requires borders.Listed() && n <= |borders.keys|
    ensures Confined(r, BorderEntries(r, borders, n), BORDER_RADIUS_PREFIX, k)
  {
    if n > 0 {
      BorderEntriesConfined(r, borders, n - 1, k);
    }
  }

  // ---------------------------------------------------------------------------
  // What each section leaves

  /** A builder puts one dash between its prefix and the key, so different keys
      give different variables. */
  lemma UnderInjective(prefix: string, a: string, b: string)
    requires Under(prefix, a) == Under(prefix, b)
    ensures a == b
  {
    assert a == Under(prefix, a)[|prefix| + 1..];
  }

  /** Every walked font family `key` is under `--g-font-family-<key>` as
      `{value: generateCssFontFamily(font)}`. */
  lemma {:induction false} FontEntriesHold(r: JsonTheme, fonts: Dict<Font>, n: nat, key: string)
    requires fonts.Listed() && n <= |fonts.keys| && key in fonts.items && key in fonts.keys[..n]
    ensures Holds(FontEntries(r, fonts, n), FontVar(key), ValueJson(GenerateFontFamily(fonts.items[key])))
  {
    var last := fonts.keys[n - 1];
    if last != key {
      assert fonts.keys[..n] == fonts.keys[..n - 1] + [last];
      FontEntriesHold(r, fonts, n - 1, key);
      if FontVar(last) == FontVar(key) {
        UnderInjective(FONT_PREFIX, last, key);
      }
    }
  }

  /** Every walked role is under its utility variable with its `{light, dark}`
      colour as the theme holds it, `ref` included. */
  lemma {:induction false} UtilityEntriesHold(r: JsonTheme, utils: Dict<Themized<ColorOptions>>, n: nat, role: string)
    requires utils.Listed() && n <= |utils.keys| && role in utils.items && role in utils.keys[..n]
    ensures Holds(UtilityEntries(r, utils, n), UtilityVar(role), ThemizedJson(utils.items[role]))
  {
    var last := utils.keys[n - 1];
    if last != role {
      assert utils.keys[..n] == utils.keys[..n - 1] + [last];
      UtilityEntriesHold(r, utils, n - 1, role);
      if UtilityVar(last) == UtilityVar(role) {
        UnderInjective(COLOR_PREFIX, last, role);
      }
    }
  }

  /** Every walked border size is under its border-radius variable as `{value}`. */
  lemma {:induction false} BorderEntriesHold(r: JsonTheme, borders: Dict<string>, n: nat, size: string)
    requires borders.Listed() && n <= |borders.keys| && size in borders.items && size in borders.keys[..n]
    ensures Holds(BorderEntries(r, borders, n), BorderRadiusVar(size), ValueJson(borders.items[size]))
  {
    var last := borders.keys[n - 1];
    if last != size {
      assert borders.keys[..n] == borders.keys[..n - 1] + [last];
      BorderEntriesHold(r, borders, n - 1, size);
      if BorderRadiusVar(last) == BorderRadiusVar(size) {
        UnderInjective(BORDER_RADIUS_PREFIX, last, size);
      }
    }
  }

  /** A key of a well-formed dictionary is among its listed keys. */
  lemma ListedKey<V>(d: Dict<V>, k: string)
    requires d.Valid() && k in d.items
    ensures k in d.keys[..|d.keys|]
  {
    assert d.keys[..|d.keys|] == d.keys;
  }

  // ---------------------------------------------------------------------------
  // generateJSON as a whole: nothing is suppressed

  /** Every font family of the theme is emitted as `{value: generateCssFontFamily(font)}`,
      whatever the default theme holds. */
  lemma GenerateJsonFont(th: Theme, order: seq<Shade>, key: string)
    requires th.Valid() && key in th.typography.fontFamilies.items
    ensures Holds(GenerateJsonSpec(th, order), FontVar(key), ValueJson(GenerateFontFamily(th.typography.fontFamilies.items[key])))
  {
    var ty, k := th.typography, FontVar(key);
    var fonts := FontEntries(Empty(), ty.fontFamilies, |ty.fontFamilies.keys|);
    var groups := GroupEntries(fonts, ty.groups, GROUP_PROPERTIES, |ty.groups.keys|);
    var variants := VariantEntries(groups, TEXT_GROUPS, ty.variants, VARIANT_PROPERTIES, |TEXT_GROUPS|);
    var privs := PrivateEntries(variants, th.privateColors, order, |th.privateColors.keys|);
    var utils := UtilityEntries(privs, th.utilityColors, |th.utilityColors.keys|);
    ListedKey(ty.fontFamilies, key);
    FontEntriesHold(Empty(), ty.fontFamilies, |ty.fontFamilies.keys|, key);
    PrefixesDisjoint(k);
    PrivateIsColor(k);
    GroupEntriesConfined(fonts, ty.groups, GROUP_PROPERTIES, |ty.groups.keys|, k);
    VariantEntriesConfined(groups, TEXT_GROUPS, ty.variants, VARIANT_PROPERTIES, |TEXT_GROUPS|, k);
    PrivateEntriesConfined(variants, th.privateColors, order, |th.privateColors.keys|, k);
    UtilityEntriesConfined(privs, th.utilityColors, |th.utilityColors.keys|, k);
    BorderEntriesConfined(utils, th.borders, |th.borders.keys|, k);
  }

  /** Every role of the theme is emitted with its colour exactly as the theme
      holds it: no reference is resolved and no default compared. */
  lemma GenerateJsonUtility(th: Theme, order: seq<Shade>, role: string)
    requires th.Valid() && role in th.utilityColors.items
    ensures Holds(GenerateJsonSpec(th, order), UtilityVar(role), ThemizedJson(th.utilityColors.items[role]))
  {
    var ty, k := th.typography, UtilityVar(role);
    var fonts := FontEntries(Empty(), ty.fontFamilies, |ty.fontFamilies.keys|);
    var groups := GroupEntries(fonts, ty.groups, GROUP_PROPERTIES, |ty.groups.keys|);
    var variants := VariantEntries(groups, TEXT_GROUPS, ty.variants, VARIANT_PROPERTIES, |TEXT_GROUPS|);
    var privs := PrivateEntries(variants, th.privateColors, order, |th.privateColors.keys|);
    var utils := UtilityEntries(privs, th.utilityColors, |th.utilityColors.keys|);
    ListedKey(th.utilityColors, role);
    UtilityEntriesHold(privs, th.utilityColors, |th.utilityColors.keys|, role);
    PrefixesDisjoint(k);
    BorderEntriesConfined(utils, th.borders, |th.borders.keys|, k);
  }

  /** Every border size of the theme is emitted as `{value}`. */
  lemma GenerateJsonBorder(th: Theme, order: seq<Shade>, size: string)
    requires th.Valid() && size in th.borders.items
    ensures Holds(GenerateJsonSpec(th, order), BorderRadiusVar(size), ValueJson(th.borders.items[size]))
  {
    var ty := th.typography;
    var fonts := FontEntries(Empty(), ty.fontFamilies, |ty.fontFamilies.keys|);
    var groups := GroupEntries(fonts, ty.groups, GROUP_PROPERTIES, |ty.groups.keys|);
    var variants := VariantEntries(groups, TEXT_GROUPS, ty.variants, VARIANT_PROPERTIES, |TEXT_GROUPS|);
    var privs := PrivateEntries(variants, th.privateColors, order, |th.privateColors.keys|);
    var utils := UtilityEntries(privs, th.utilityColors, |th.utilityColors.keys|);
    ListedKey(th.borders, size);
    BorderEntriesHold(utils, th.borders, |th.borders.keys|, size);
  }

  // ---------------------------------------------------------------------------
  // Private shades: one `{light, dark}` entry per shade

  /** Setting a variant twice is setting it once, and an object stays an object. */
  lemma SetVariantAgain(j: Json, v: Variant, c: ColorOptions)
    ensures SetVariant(SetVariant(j, v, c), v, c) == SetVariant(j, v, c)
    ensures Truthy(j) ==> Truthy(SetVariant(j, v, c))
  {
    if j.JObj? {
      assert j.fields[VariantField(v) := ColorJson(c)][VariantField(v) := ColorJson(c)] == j.fields[VariantField(v) := ColorJson(c)];
    }
  }

  /** Setting a variant of a `{light, dark}` object replaces that variant's option. */
  lemma SetVariantThemized(x: Themized<ColorOptions>, v: Variant, c: ColorOptions)
    ensures SetVariant(ThemizedJson(x), v, c) == ThemizedJson(x.Set(v, c))
  {
    var f := map["light" := ColorJson(x.light), "dark" := ColorJson(x.dark)];
    match v
    case Light => assert f["light" := ColorJson(c)] == map["light" := ColorJson(c), "dark" := ColorJson(x.dark)];
    case Dark => assert f["dark" := ColorJson(c)] == map["light" := ColorJson(x.light), "dark" := ColorJson(c)];
  }

  /** One variant's walk over `order`: the entry of shade `t` is the entry it
      started with, with that variant set, when `t` was walked and the token
      has it; otherwise the walk left it alone. */
  lemma {:induction false} ShadeEntriesAt(r: JsonTheme, token: string, v: Variant, shades: PrivateShades, order: seq<Shade>, j: nat, t: Shade)
    requires j <= |order|
    ensures var k, e := PrivateVar(token, t.Name()), ShadeEntries(r, token, v, shades, order, j);
      if t in order[..j] && t in shades then Holds(e, k, SetVariant(Current(r, k), v, shades[t])) else SameAt(r, e, k)
  {
    if j > 0 {
      var k, u := PrivateVar(token, t.Name()), order[j - 1];
      var before := ShadeEntries(r, token, v, shades, order, j - 1);
      var e := ShadeEntries(r, token, v, shades, order, j);
      ShadeEntriesAt(r, token, v, shades, order, j - 1, t);
      assert t in order[..j] <==> t in order[..j - 1] || t == u by {
        assert order[..j] == order[..j - 1] + [u];
      }
      if u !in shades {
        assert e == before;
      } else if u == t {
        assert e == before.Put(k, SetVariant(Current(before, k), v, shades[t]));
        SetVariantAgain(Current(r, k), v, shades[t]);
      } else {
        var ku := PrivateVar(token, u.Name());
        assert e == before.Put(ku, SetVariant(Current(before, ku), v, shades[u]));
        assert ku != k by {
          if ku == k {
            UnderInjective(PRIVATE_COLOR_PREFIX, token + "-" + u.Name(), token + "-" + t.Name());
            assert u.Name() == (token + "-" + u.Name())[|token| + 1..];
            NameInjective(u, t);
          }
        }
      }
    }
  }

  /** `generateJSON`'s private section for one token, on a result with no entry
      yet for shade `t`: a shade the token has in either variant gets one
      `{light, dark}` entry holding the token's option in each variant that has
      it and `{value: ''}` in a variant that lacks it; any other shade gets no entry. */
  lemma TokenEntriesShape(r: JsonTheme, token: string, x: Themized<PrivateShades>, order: seq<Shade>, t: Shade)
    requires t in order && PrivateVar(token, t.Name()) !in r.items
    ensures var k, e := PrivateVar(token, t.Name()), TokenEntries(r, token, x, order);
      if t in x.light || t in x.dark then
        Holds(e, k, ThemizedJson(Themized(if t in x.light then x.light[t] else Plain(""), if t in x.dark then x.dark[t] else Plain(""))))
      else k !in e.items
  {
    var k, n := PrivateVar(token, t.Name()), |order|;
    assert order[..n] == order;
    var light := ShadeEntries(r, token, Light, x.light, order, n);
    ShadeEntriesAt(r, token, Light, x.light, order, n, t);
    ShadeEntriesAt(light, token, Dark, x.dark, order, n, t);
    var half := if t in x.light then EMPTY_BASE.Set(Light, x.light[t]) else EMPTY_BASE;
    if t in x.light {
      SetVariantThemized(EMPTY_BASE, Light, x.light[t]);
    }
    if t in x.dark {
      assert Current(light, k) == ThemizedJson(half);
      SetVariantThemized(half, Dark, x.dark[t]);
    }
  }

  // ---------------------------------------------------------------------------
  // Variant properties: the outer group loop only rewrites

  /** The writes the walk over every variant makes under group `g`, in order. */
  function GroupWrites(g: string, variants: Dict<VariantOptions>, props: seq<string>, n: nat): seq<(string, Json)>
    requires variants.Listed() && n <= |variants.keys|
  {
    if n == 0 then []
    else
      var w := variants.keys[n - 1];
      GroupWrites(g, variants, props, n - 1) + PropWrites(g, w, variants.items[w], props, |props|)
  }

  lemma {:induction false} GroupWritesMade(r: JsonTheme, g: string, variants: Dict<VariantOptions>, props: seq<string>, n: nat)
    requires variants.Listed() && n <= |variants.keys|
    ensures VariantsOfGroup(r, g, variants, props, n) == PutAll(r, GroupWrites(g, variants, props, n))
  {
    if n > 0 {
      GroupWritesMade(r, g, variants, props, n - 1);
      var w := variants.keys[n - 1];
      PutAllAppend(r, GroupWrites(g, variants, props, n - 1), PropWrites(g, w, variants.items[w], props, |props|));
    }
  }

  /** A variant with a name writes `--g-text-<variant>-<property>` whatever the group. */
  lemma {:induction false} PropWritesAnyGroup(g: string, h: string, w: string, o: VariantOptions, props: seq<string>, j: nat)
    requires j <= |props| && w != ""
    ensures PropWrites(g, w, o, props, j) == PropWrites(h, w, o, props, j)
  {
    if j > 0 {
      PropWritesAnyGroup(g, h, w, o, props, j - 1);
    }
  }

  lemma {:induction false} GroupWritesAnyGroup(g: string, h: string, variants: Dict<VariantOptions>, props: seq<string>, n: nat)
    requires variants.Listed() && n <= |variants.keys|
    requires forall i | 0 <= i < |variants.keys| :: variants.keys[i] != ""
    ensures GroupWrites(g, variants, props, n) == GroupWrites(h, variants, props, n)
  {
    if n > 0 {
      GroupWritesAnyGroup(g, h, variants, props, n - 1);
      var w := variants.keys[n - 1];
      PropWritesAnyGroup(g, h, w, variants.items[w], props, |props|);
    }
  }

  /** When every variant has a name, the walks under the second and later groups
      write the same keys with the same values as the walk under the first: the
      variant section leaves what one walk leaves. */
  lemma {:induction false} VariantEntriesOneWalk(r: JsonTheme, groups: seq<string>, variants: Dict<VariantOptions>, props: seq<string>, m: nat)
    requires variants.Listed() && 0 < m <= |groups|
    requires forall i | 0 <= i < |variants.keys| :: variants.keys[i] != ""
    ensures VariantEntries(r, groups, variants, props, m) == VariantsOfGroup(r, groups[0], variants, props, |variants.keys|)
  {
    var n := |variants.keys|;
    var ws := GroupWrites(groups[0], variants, props, n);
    GroupWritesMade(r, groups[0], variants, props, n);
    if m > 1 {
      var before := VariantEntries(r, groups, variants, props, m - 1);
      VariantEntriesOneWalk(r, groups, variants, props, m - 1);
      GroupWritesMade(before, groups[m - 1], variants, props, n);
      GroupWritesAnyGroup(groups[m - 1], groups[0], variants, props, n);
      PutAllTwice(r, ws);
    }
  }

  /** Text variables of one owner tell their properties apart. */
  lemma TextVarInjective(a: TextKey, b: TextKey)
    requires Owner(a) == Owner(b) && TextVar(a) == TextVar(b)
    ensures a.property == b.property
  {
    UnderInjective(TEXT_PREFIX, KeyText(a), KeyText(b));
    assert a.property == KeyText(a)[|Owner(a)| + 1..];
  }

  /** One variant's walk leaves each walked property under
      `--g-text-<variant>-<property>` as `{value}`. */
  lemma {:induction false} VariantPropEntriesHold(r: JsonTheme, g: string, w: string, o: VariantOptions, props: seq<string>, j: nat, p: string)
    requires j <= |props| && p in props[..j]
    ensures Holds(VariantPropEntries(r, g, w, o, props, j), TextVar(VariantKey(g, w, p)), ValueJson(CssCommon.VariantProperty(o, p)))
  {
    var last := props[j - 1];
    if last != p {
      assert props[..j] == props[..j - 1] + [last];
      VariantPropEntriesHold(r, g, w, o, props, j - 1, p);
      VariantPropEntriesStep(r, g, w, o, props, j);
      if TextVar(VariantKey(g, w, last)) == TextVar(VariantKey(g, w, p)) {
        TextVarInjective(VariantKey(g, w, last), VariantKey(g, w, p));
      }
    }
  }

  // ---------------------------------------------------------------------------
  // Group properties: `font-family` refers to the font entry

  /** Two dash-free names followed by a dash and anything are the same name. */
  lemma DashFreeHeads(a: string, b: string, x: string, y: string)
    requires '-' !in a && '-' !in b && a + "-" + x == b + "-" + y
    ensures a == b
  {
    assert "-" == ['-'];
    SplitConcat(a, '-', x);
    SplitWithout(a, '-');
    SplitConcat(b, '-', y);
    SplitWithout(b, '-');
    assert Split(a + "-" + x, '-')[0] == a && Split(b + "-" + y, '-')[0] == b;
  }

  /** A dash-free group's walk does not touch the variables of another dash-free group. */
  lemma {:induction false} GroupPropEntriesElsewhere(r: JsonTheme, g: string, o: GroupOptions, props: seq<string>, j: nat, h: string, q: string)
    requires j <= |props| && '-' !in g && '-' !in h && g != h
    ensures SameAt(r, GroupPropEntries(r, g, o, props, j), TextVar(GroupKey(h, q)))
  {
    if j > 0 {
      GroupPropEntriesElsewhere(r, g, o, props, j - 1, h, q);
      GroupPropEntriesStep(r, g, o, props, j);
      if TextVar(GroupKey(g, props[j - 1])) == TextVar(GroupKey(h, q)) {
        UnderInjective(TEXT_PREFIX, g + "-" + props[j - 1], h + "-" + q);
        DashFreeHeads(g, h, props[j - 1], q);
      }
    }
  }

  /** The `font-family` entry depends on the result only through the font entry it names. */
  lemma GroupEntrySameFont(a: JsonTheme, b: JsonTheme, o: GroupOptions)
    requires SameAt(a, b, FontVar(o.fontFamily))
    ensures GroupEntry(a, o, "font-family") == GroupEntry(b, o, "font-family")
  {
  }

  /** A group's walk writes, under `--g-text-<group>-font-family`, the font
      variable as `ref` and, as `value`, what the font entry held when the walk
      began (else the raw font key). */
  lemma {:induction false} GroupFontFamilyAt(r: JsonTheme, g: string, o: GroupOptions, props: seq<string>, j: nat)
    requires j <= |props| && "font-family" in props[..j]
    ensures Holds(GroupPropEntries(r, g, o, props, j), TextVar(GroupKey(g, "font-family")), GroupEntry(r, o, "font-family"))
  {
    if props[j - 1] == "font-family" {
      GroupFontFamilyLast(r, g, o, props, j);
    } else {
      assert props[..j] == props[..j - 1] + [props[j - 1]];
      GroupFontFamilyAt(r, g, o, props, j - 1);
      GroupFontFamilyKept(r, g, o, props, j, GroupEntry(r, o, "font-family"));
    }
  }

  lemma GroupFontFamilyLast(r: JsonTheme, g: string, o: GroupOptions, props: seq<string>, j: nat)
    requires 0 < j <= |props| && props[j - 1] == "font-family"
    ensures Holds(GroupPropEntries(r, g, o, props, j), TextVar(GroupKey(g, "font-family")), GroupEntry(r, o, "font-family"))
  {
    var fv := FontVar(o.fontFamily);
    var before := GroupPropEntries(r, g, o, props, j - 1);
    GroupPropEntriesStep(r, g, o, props, j);
    assert SameAt(r, before, fv) by {
      GroupPropEntriesConfined(r, g, o, props, j - 1, fv);
      PrefixesDisjoint(fv);
    }
    GroupEntrySameFont(before, r, o);
  }

  /** Another property of the same group leaves the `font-family` entry alone. */
  lemma GroupFontFamilyKept(r: JsonTheme, g: string, o: GroupOptions, props: seq<string>, j: nat, x: Json)
    requires 0 < j <= |props| && props[j - 1] != "font-family"
    requires Holds(GroupPropEntries(r, g, o, props, j - 1), TextVar(GroupKey(g, "font-family")), x)
    ensures Holds(GroupPropEntries(r, g, o, props, j), TextVar(GroupKey(g, "font-family")), x)
  {
    GroupPropEntriesStep(r, g, o, props, j);
    if TextVar(GroupKey(g, props[j - 1])) == TextVar(GroupKey(g, "font-family")) {
      TextVarInjective(GroupKey(g, props[j - 1]), GroupKey(g, "font-family"));
    }
  }

  /** After the group section, each dash-free group's `font-family` entry is the
      one its own walk wrote, from the font entries the section began with. */
  lemma {:induction false} GroupEntriesFontFamily(r: JsonTheme, groups: Dict<GroupOptions>, props: seq<string>, n: nat, g: string)
    requires groups.Listed() && n <= |groups.keys| && g in groups.items && g in groups.keys[..n] && "font-family" in props
    requires forall i | 0 <= i < |groups.keys| :: '-' !in groups.keys[i]
    ensures Holds(GroupEntries(r, groups, props, n), TextVar(GroupKey(g, "font-family")), GroupEntry(r, groups.items[g], "font-family"))
  {
    var last := groups.keys[n - 1];
    if last == g {
      GroupEntriesFontFamilyLast(r, groups, props, n, g);
    } else {
      assert groups.keys[..n] == groups.keys[..n - 1] + [last];
      GroupEntriesFontFamily(r, groups, props, n - 1, g);
      GroupEntriesKept(r, groups, props, n, g, GroupEntry(r, groups.items[g], "font-family"));
    }
  }

  lemma GroupEntriesFontFamilyLast(r: JsonTheme, groups: Dict<GroupOptions>, props: seq<string>, n: nat, g: string)
    requires groups.Listed() && 0 < n <= |groups.keys| && groups.keys[n - 1] == g && "font-family" in props
    ensures Holds(GroupEntries(r, groups, props, n), TextVar(GroupKey(g, "font-family")), GroupEntry(r, groups.items[g], "font-family"))
  {
    var o, before := groups.items[g], GroupEntries(r, groups, props, n - 1);
    assert SameAt(r, before, FontVar(o.fontFamily)) by {
      GroupEntriesConfined(r, groups, props, n - 1, FontVar(o.fontFamily));
      PrefixesDisjoint(FontVar(o.fontFamily));
    }
    GroupWalkFontFamily(r, before, g, o, props);
  }

  /** A group's whole walk, begun where the font entry is as in `r`. */
  lemma GroupWalkFontFamily(r: JsonTheme, before: JsonTheme, g: string, o: GroupOptions, props: seq<string>)
    requires "font-family" in props && SameAt(r, before, FontVar(o.fontFamily))
    ensures Holds(GroupPropEntries(before, g, o, props, |props|), TextVar(GroupKey(g, "font-family")), GroupEntry(r, o, "font-family"))
  {
    assert props[..|props|] == props;
    GroupFontFamilyAt(before, g, o, props, |props|);
    GroupEntrySameFont(before, r, o);
  }

  /** Another dash-free group's walk leaves the `font-family` entry of `g` alone. */
  lemma GroupEntriesKept(r: JsonTheme, groups: Dict<GroupOptions>, props: seq<string>, n: nat, g: string, x: Json)
    requires groups.Listed() && 0 < n <= |groups.keys| && groups.keys[n - 1] != g && '-' !in g
    requires forall i | 0 <= i < |groups.keys| :: '-' !in groups.keys[i]
    requires Holds(GroupEntries(r, groups, props, n - 1), TextVar(GroupKey(g, "font-family")), x)
    ensures Holds(GroupEntries(r, groups, props, n), TextVar(GroupKey(g, "font-family")), x)
  {
    var before, last := GroupEntries(r, groups, props, n - 1), groups.keys[n - 1];
    GroupPropEntriesElsewhere(before, last, groups.items[last], props, |props|, g, "font-family");
  }

  /** Only the walked font families have entries after the font section. */
  lemma {:induction false} FontEntriesOnly(fonts: Dict<Font>, n: nat, key: string)
    requires fonts.Listed() && n <= |fonts.keys| && FontVar(key) in FontEntries(Empty(), fonts, n).items
    ensures key in fonts.keys[..n]
  {
    var last := fonts.keys[n - 1];
    assert fonts.keys[..n] == fonts.keys[..n - 1] + [last];
    if FontVar(last) == FontVar(key) {
      UnderInjective(FONT_PREFIX, last, key);
    } else {
      FontEntriesOnly(fonts, n - 1, key);
    }
  }

  /** `generateJSON`'s group section: a group's `font-family` entry has the font
      variable as `ref` and, as `value`, the generated font family when the theme
      has that font, else the raw font key. */
  lemma GroupSectionFontFamily(th: Theme, g: string)
    requires th.Valid() && g in th.typography.groups.items
    requires forall i | 0 <= i < |th.typography.groups.keys| :: '-' !in th.typography.groups.keys[i]
    ensures var ty := th.typography; var ff := ty.groups.items[g].fontFamily;
      var fonts := FontEntries(Empty(), ty.fontFamilies, |ty.fontFamilies.keys|);
      Holds(GroupEntries(fonts, ty.groups, GROUP_PROPERTIES, |ty.groups.keys|), TextVar(GroupKey(g, "font-family")),
        JObj(map["value" := JStr(if ff in ty.fontFamilies.items then GenerateFontFamily(ty.fontFamilies.items[ff]) else ff),
                 "ref" := JStr(FontVar(ff))]))
  {
    var ty := th.typography;
    var ff, fonts := ty.groups.items[g].fontFamily, ty.fontFamilies;
    var r := FontEntries(Empty(), fonts, |fonts.keys|);
    ListedKey(ty.groups, g);
    var props := GROUP_PROPERTIES;
    assert "font-family" in props;
    GroupEntriesFontFamily(r, ty.groups, props, |ty.groups.keys|, g);
    if ff in fonts.items {
      ListedKey(fonts, ff);
      FontEntriesHold(Empty(), fonts, |fonts.keys|, ff);
    } else {
      assert fonts.keys[..|fonts.keys|] == fonts.keys;
      if FontVar(ff) in r.items {
        FontEntriesOnly(fonts, |fonts.keys|, ff);
      }
    }
  }

  // ---------------------------------------------------------------------------
  // Round trip

  /** Each section keeps the result a well-formed dictionary. */
  lemma {:induction false} FontEntriesValid(r: JsonTheme, fonts: Dict<Font>, n: nat)
    requires r.Valid() && fonts.Listed() && n <= |fonts.keys|
    ensures FontEntries(r, fonts, n).Valid()
  {
    if n > 0 {
      FontEntriesValid(r, fonts, n - 1);
    }
  }

  lemma {:induction false} GroupPropEntriesValid(r: JsonTheme, g: string, o: GroupOptions, props: seq<string>, j: nat)
    requires r.Valid() && j <= |props|
    ensures GroupPropEntries(r, g, o, props, j).Valid()
  {
    if j > 0 {
      GroupPropEntriesValid(r, g, o, props, j - 1);
      GroupPropEntriesStep(r, g, o, props, j);
    }
  }

  lemma {:induction false} GroupEntriesValid(r: JsonTheme, groups: Dict<GroupOptions>, props: seq<string>, n: nat)
    requires r.Valid() && groups.Listed() && n <= |groups.keys|
    ensures GroupEntries(r, groups, props, n).Valid()
  {
    if n > 0 {
      var before := GroupEntries(r, groups, props, n - 1);
      var g := groups.keys[n - 1];
      assert before.Valid() by {
        GroupEntriesValid(r, groups, props, n - 1);
      }
      GroupPropEntriesValid(before, g, groups.items[g], props, |props|);
    }
  }

  lemma {:induction false} PutAllValid(d: JsonTheme, ws: seq<(string, Json)>)
    requires d.Valid()
    ensures PutAll(d, ws).Valid()
  {
    if |ws| > 0 {
      PutAllValid(d, ws[..|ws| - 1]);
    }
  }

  lemma {:induction false} VariantEntriesValid(r: JsonTheme, groups: seq<string>, variants: Dict<VariantOptions>, props: seq<string>, m: nat)
    requires r.Valid() && variants.Listed() && m <= |groups|
    ensures VariantEntries(r, groups, variants, props, m).Valid()
  {
    if m > 0 {
      var before := VariantEntries(r, groups, variants, props, m - 1);
      VariantEntriesValid(r, groups, variants, props, m - 1);
      GroupWritesMade(before, groups[m - 1], variants, props, |variants.keys|);
      PutAllValid(before, GroupWrites(groups[m - 1], variants, props, |variants.keys|));
    }
  }

  lemma {:induction false} ShadeEntriesValid(r: JsonTheme, token: string, v: Variant, shades: PrivateShades, order: seq<Shade>, j: nat)
    requires r.Valid() && j <= |order|
    ensures ShadeEntries(r, token, v, shades, order, j).Valid()
  {
    if j > 0 {
      ShadeEntriesValid(r, token, v, shades, order, j - 1);
    }
  }

  lemma {:induction false} PrivateEntriesValid(r: JsonTheme, privs: Dict<Themized<PrivateShades>>, order: seq<Shade>, n: nat)
    requires r.Valid() && privs.Listed() && n <= |privs.keys|
    ensures PrivateEntries(r, privs, order, n).Valid()
  {
    if n > 0 {
      var before, token := PrivateEntries(r, privs, order, n - 1), privs.keys[n - 1];
      var x := privs.items[token];
      PrivateEntriesValid(r, privs, order, n - 1);
      ShadeEntriesValid(before, token, Light, x.light, order, |order|);
      ShadeEntriesValid(ShadeEntries(before, token, Light, x.light, order, |order|), token, Dark, x.dark, order, |order|);
    }
  }

  lemma {:induction false} UtilityEntriesValid(r: JsonTheme, utils: Dict<Themized<ColorOptions>>, n: nat)
    requires r.Valid() && utils.Listed() && n <= |utils.keys|
    ensures UtilityEntries(r, utils, n).Valid()
  {
    if n > 0 {
      UtilityEntriesValid(r, utils, n - 1);
    }
  }

  lemma {:induction false} BorderEntriesValid(r: JsonTheme, borders: Dict<string>, n: nat)
    requires r.Valid() && borders.Listed() && n <= |borders.keys|
    ensures BorderEntries(r, borders, n).Valid()
  {
    if n > 0 {
      BorderEntriesValid(r, borders, n - 1);
    }
  }

  /** Parsing what `generateJSON` wrote gives every role of the default theme
      back the colour the theme held, `ref` included, whenever the parse
      succeeds: utility colours survive the JSON round trip unresolved. */
  lemma JsonUtilityRoundTrip(th: Theme, order: seq<Shade>, input: JsonTheme, dflt: Theme, role: string)
    requires th.Valid() && input == GenerateJsonSpec(th, order)
    requires dflt.Valid() && IsRole(role)
    requires role in th.utilityColors.items && role in dflt.utilityColors.items
    requires ParseJsonSpec(input, dflt).Ok?
    ensures var r := ParseJsonSpec(input, dflt).value;
      role in r.utilityColors.items && r.utilityColors.items[role] == th.utilityColors.items[role]
  {
    GenerateJsonUtility(th, order, role);
    ThemizedJsonRoundTrip(th.utilityColors.items[role]);
    ParseJsonUtility(input, dflt, role);
  }
}
