/** The `.g-root` block of `generateCSS`: border radii, then font families,
    text groups and text variants (`prepareCommonVariables`). */
module CssCommon {
  import opened Common
  import opened Dicts
  import opened Themes
  import opened Typography
  import opened Borders
  import opened CssGenerate

  // ---------------------------------------------------------------------------
  // prepateBordersVariables

  /** `isEqual(DEFAULT_THEME.borders[size], x)`: the default has the size with the same value. */
  predicate BorderIsDefault(dflt: Dict<string>, size: string, x: string) {
    size in dflt.items && dflt.items[size] == x
  }

  /** The border sizes among the first `n`, without those suppression skips. */
  function BorderLines(borders: Dict<string>, dflt: Dict<string>, ignore: bool, n: nat): seq<Line>
    requires borders.Listed() && n <= |borders.keys|
  {
    if n == 0 then []
    else
      var init := BorderLines(borders, dflt, ignore, n - 1);
      var size := borders.keys[n - 1];
      var x := borders.items[size];
      if ignore && BorderIsDefault(dflt, size, x) then init else init + [RadiusDecl(size, x)]
  }

  /** The text of one more size considered by `BorderLines`. */
  lemma BorderLinesStep(borders: Dict<string>, dflt: Dict<string>, ignore: bool, i: nat, forPreview: bool)
    requires borders.Listed() && i < |borders.keys|
    ensures var size, before := borders.keys[i], RenderAll(BorderLines(borders, dflt, ignore, i), forPreview);
      size in borders.items &&
      RenderAll(BorderLines(borders, dflt, ignore, i + 1), forPreview) ==
        if ignore && BorderIsDefault(dflt, size, borders.items[size]) then before
        else before + (Declaration(BorderRadiusVar(size), borders.items[size], forPreview) + "\n")
  {
    var size := borders.keys[i];
    assert size in borders.items;
    RenderPush(BorderLines(borders, dflt, ignore, i), RadiusDecl(size, borders.items[size]), forPreview);
  }

  /** `prepateBordersVariables()` over `theme.borders`, with the default's
      borders for suppression: one radius declaration per size, not trimmed. */
  method BordersVariables(borders: Dict<string>, dflt: Dict<string>, o: Options) returns (css: string)
    requires borders.Listed()
    ensures css == RenderAll(BorderLines(borders, dflt, o.ignoreDefaults, |borders.keys|), o.forPreview)
  {
    css := "";
    for i := 0 to |borders.keys|
      invariant css == RenderAll(BorderLines(borders, dflt, o.ignoreDefaults, i), o.forPreview)
    {
      BorderLinesStep(borders, dflt, o.ignoreDefaults, i, o.forPreview);
      var size := borders.keys[i];
      var value := borders.items[size];
      if o.ignoreDefaults && size in dflt.items && dflt.items[size] == value {
        continue;
      }
      var entry := Declaration(BorderRadiusVar(size), value, o.forPreview);
      css := css + (entry + "\n");
    }
  }

  // ---------------------------------------------------------------------------
  // prepareTypographyVariables

  /** `isEqual(DEFAULT_THEME.typography.fontFamilies[key], value)`. */
  predicate FontIsDefault(dflt: Dict<Font>, key: string, f: Font) {
    key in dflt.items && dflt.items[key] == f
  }

  /** The font families among the first `n`, without those equal to the default's under suppression. */
  function FontLines(fonts: Dict<Font>, dflt: Dict<Font>, ignore: bool, n: nat): seq<Line>
    requires fonts.Listed() && n <= |fonts.keys|
  {
    if n == 0 then []
    else
      var init := FontLines(fonts, dflt, ignore, n - 1);
      var key := fonts.keys[n - 1];
      var f := fonts.items[key];
      if ignore && FontIsDefault(dflt, key, f) then init else init + [FontDecl(key, f)]
  }

  /** The text of one more font family considered by `FontLines`. */
  lemma FontLinesStep(fonts: Dict<Font>, dflt: Dict<Font>, ignore: bool, i: nat, forPreview: bool)
    requires fonts.Listed() && i < |fonts.keys|
    ensures var key, before := fonts.keys[i], RenderAll(FontLines(fonts, dflt, ignore, i), forPreview);
      key in fonts.items &&
      RenderAll(FontLines(fonts, dflt, ignore, i + 1), forPreview) ==
        if ignore && FontIsDefault(dflt, key, fonts.items[key]) then before
        else before + (Declaration(FontVar(key), GenerateFontFamily(fonts.items[key]), forPreview) + "\n")
  {
    var key := fonts.keys[i];
    assert key in fonts.items;
    RenderPush(FontLines(fonts, dflt, ignore, i), FontDecl(key, fonts.items[key]), forPreview);
  }

  /** The loop over `theme.typography.fontFamilies`. */
  method FontVariables(fonts: Dict<Font>, dflt: Dict<Font>, o: Options) returns (css: string)
    requires fonts.Listed()
    ensures css == RenderAll(FontLines(fonts, dflt, o.ignoreDefaults, |fonts.keys|), o.forPreview)
  {
    css := "";
    for i := 0 to |fonts.keys|
      invariant css == RenderAll(FontLines(fonts, dflt, o.ignoreDefaults, i), o.forPreview)
    {
      FontLinesStep(fonts, dflt, o.ignoreDefaults, i, o.forPreview);
      var key := fonts.keys[i];
      var value := fonts.items[key];
      if o.ignoreDefaults && key in dflt.items && dflt.items[key] == value {
        continue;
      }
      var entry := Declaration(FontVar(key), GenerateFontFamily(value), o.forPreview);
      css := css + (entry + "\n");
    }
  }

  /** `value[property]` of a text group, as text. */
  function GroupProperty(o: GroupOptions, p: string): string {
    if p == "font-family" then o.fontFamily else o.fontWeight.Text()
  }

  /** `isEqual(a[property], b[property])` for a text group: a number and a
      string are never equal, whatever they read as. */
  predicate SameGroupProperty(a: GroupOptions, b: GroupOptions, p: string) {
    if p == "font-family" then a.fontFamily == b.fontFamily else a.fontWeight == b.fontWeight
  }

  /** `value[property]` of a text variant. */
  function VariantProperty(o: VariantOptions, p: string): string {
    if p == "font-size" then o.fontSize else o.lineHeight
  }

  /** The entry of a dictionary, if it has the key. */
  function Lookup<V>(d: Dict<V>, k: string): Option<V> {
    if k in d.items then Some(d.items[k]) else None
  }

  /** The lines of a result as text, or its error. */
  function RenderLines(r: Result<seq<Line>>, forPreview: bool): Result<string> {
    match r
    case Err(e) => Err(e)
    case Ok(ls) => Ok(RenderAll(ls, forPreview))
  }

  /** The properties of `props` for group `g` with options `o`, without those
      equal to the default's entry `d` under suppression. */
  function GroupPropertyLines(g: string, o: GroupOptions, d: Option<GroupOptions>, ignore: bool, props: seq<string>)
    : seq<Line>
  {
    if props == [] then []
    else
      var init := GroupPropertyLines(g, o, d, ignore, props[..|props| - 1]);
      var p := props[|props| - 1];
      if ignore && d.Some? && SameGroupProperty(d.value, o, p) then init
      else init + [GroupDecl(g, p, GroupProperty(o, p))]
  }

  /** The lines of one group. Under suppression a group the default lacks
      fails at its first property (`DEFAULT_THEME.typography.groups[group]` is
      undefined, and reading `[property]` from it throws). */
  function GroupEntry(g: string, o: GroupOptions, d: Option<GroupOptions>, ignore: bool, props: seq<string>): Result<seq<Line>> {
    if ignore && d.None? && |props| > 0 then Err(UndefinedSlot(g))
    else Ok(GroupPropertyLines(g, o, d, ignore, props))
  }

  /** The text of one more property considered by `GroupPropertyLines`. */
  lemma GroupPropertyLinesStep(g: string, o: GroupOptions, d: Option<GroupOptions>, ignore: bool, props: seq<string>, j: nat, forPreview: bool)
    requires j < |props|
    ensures var p, before := props[j], RenderAll(GroupPropertyLines(g, o, d, ignore, props[..j]), forPreview);
      RenderAll(GroupPropertyLines(g, o, d, ignore, props[..j + 1]), forPreview) ==
        if ignore && d.Some? && SameGroupProperty(d.value, o, p) then before
        else before + (Declaration(TextVar(GroupKey(g, p)), GroupValue(p, GroupProperty(o, p)), forPreview) + "\n")
  {
    var p := props[j];
    assert props[..j + 1][..j] == props[..j];
    RenderPush(GroupPropertyLines(g, o, d, ignore, props[..j]), GroupDecl(g, p, GroupProperty(o, p)), forPreview);
  }

  /** The loop over `TEXT_GROUP_PROPERTIES` for one group; the failing lookup
      of a missing default group is made before the first property. */
  method GroupPropertyVariables(g: string, value: GroupOptions, d: Option<GroupOptions>, o: Options, props: seq<string>)
    returns (r: Result<string>)
    ensures r == RenderLines(GroupEntry(g, value, d, o.ignoreDefaults, props), o.forPreview)
  {
    if o.ignoreDefaults && d.None? && |props| > 0 {
      return Err(UndefinedSlot(g));
    }
    var css := "";
    for j := 0 to |props|
      invariant css == RenderAll(GroupPropertyLines(g, value, d, o.ignoreDefaults, props[..j]), o.forPreview)
    {
      GroupPropertyLinesStep(g, value, d, o.ignoreDefaults, props, j, o.forPreview);
      var property := props[j];
      var cssVariable := TextVar(GroupKey(g, property));
      if o.ignoreDefaults && SameGroupProperty(d.value, value, property) {
        continue;
      }
      var entry;
      if property == "font-family" {
        var refCssVariable := FontVar(value.fontFamily);
        entry := Declaration(cssVariable, "var(" + refCssVariable + ")", o.forPreview);
      } else {
        entry := Declaration(cssVariable, GroupProperty(value, property), o.forPreview);
      }
      css := css + (entry + "\n");
    }
    assert props[..|props|] == props;
    r := Ok(css);
  }

  /** The groups among the first `n`, each with its properties in the order of `props`. */
  function GroupLines(groups: Dict<GroupOptions>, dflt: Dict<GroupOptions>, ignore: bool, props: seq<string>, n: nat)
    : Result<seq<Line>>
    requires groups.Listed() && n <= |groups.keys|
  {
    if n == 0 then Ok([])
    else
      var r := GroupLines(groups, dflt, ignore, props, n - 1);
      var g := groups.keys[n - 1];
      if r.Err? then r
      else
        var s := GroupEntry(g, groups.items[g], Lookup(dflt, g), ignore, props);
        if s.Err? then s else Ok(r.value + s.value)
  }

  /** The text of one more group considered by `GroupLines`. */
  lemma GroupLinesStep(groups: Dict<GroupOptions>, dflt: Dict<GroupOptions>, ignore: bool, props: seq<string>, i: nat, forPreview: bool)
    requires groups.Listed() && i < |groups.keys|
    requires GroupLines(groups, dflt, ignore, props, i).Ok?
    ensures var g, before := groups.keys[i], RenderAll(GroupLines(groups, dflt, ignore, props, i).value, forPreview);
      g in groups.items &&
      RenderLines(GroupLines(groups, dflt, ignore, props, i + 1), forPreview) ==
        match RenderLines(GroupEntry(g, groups.items[g], Lookup(dflt, g), ignore, props), forPreview)
        case Err(e) => Err(e)
        case Ok(text) => Ok(before + text)
  {
    var g := groups.keys[i];
    assert g in groups.items;
    var s := GroupEntry(g, groups.items[g], Lookup(dflt, g), ignore, props);
    if s.Ok? {
      RenderAppend(GroupLines(groups, dflt, ignore, props, i).value, s.value, forPreview);
    }
  }

  lemma {:induction false} GroupErrPersists(groups: Dict<GroupOptions>, dflt: Dict<GroupOptions>, ignore: bool, props: seq<string>, i: nat, n: nat)
    requires groups.Listed() && i <= n <= |groups.keys|
    requires GroupLines(groups, dflt, ignore, props, i).Err?
    ensures GroupLines(groups, dflt, ignore, props, n) == GroupLines(groups, dflt, ignore, props, i)
    decreases n - i
  {
    if i < n {
      GroupErrPersists(groups, dflt, ignore, props, i, n - 1);
    }
  }

  /** The loop over `theme.typography.groups`. */
  method GroupVariables(groups: Dict<GroupOptions>, dflt: Dict<GroupOptions>, o: Options, props: seq<string>) returns (r: Result<string>)
    requires groups.Listed()
    ensures r == RenderLines(GroupLines(groups, dflt, o.ignoreDefaults, props, |groups.keys|), o.forPreview)
  {
    var css := "";
    for i := 0 to |groups.keys|
      invariant RenderLines(GroupLines(groups, dflt, o.ignoreDefaults, props, i), o.forPreview) == Ok(css)
    {
      GroupLinesStep(groups, dflt, o.ignoreDefaults, props, i, o.forPreview);
      var g := groups.keys[i];
      var part := GroupPropertyVariables(g, groups.items[g], Lookup(dflt, g), o, props);
      if part.Err? {
        GroupErrPersists(groups, dflt, o.ignoreDefaults, props, i + 1, |groups.keys|);
        return Err(part.error);
      }
      css := css + part.value;
    }
    r := Ok(css);
  }

  /** The properties of `props` for variant `w`, as `GroupPropertyLines` for a group. */
  function VariantPropertyLines(w: string, o: VariantOptions, d: Option<VariantOptions>, ignore: bool, props: seq<string>)
    : seq<Line>
  {
    if props == [] then []
    else
      var init := VariantPropertyLines(w, o, d, ignore, props[..|props| - 1]);
      var p := props[|props| - 1];
      if ignore && d.Some? && VariantProperty(d.value, p) == VariantProperty(o, p) then init
      else init + [VariantDecl(w, p, VariantProperty(o, p))]
  }

  /** The lines of one variant, failing as `GroupEntry` does for a group. */
  function VariantEntry(w: string, o: VariantOptions, d: Option<VariantOptions>, ignore: bool, props: seq<string>): Result<seq<Line>> {
    if ignore && d.None? && |props| > 0 then Err(UndefinedSlot(w))
    else Ok(VariantPropertyLines(w, o, d, ignore, props))
  }

  /** The text of one more property considered by `VariantPropertyLines`. */
  lemma VariantPropertyLinesStep(w: string, o: VariantOptions, d: Option<VariantOptions>, ignore: bool, props: seq<string>, j: nat, forPreview: bool)
    requires j < |props|
    ensures var p, before := props[j], RenderAll(VariantPropertyLines(w, o, d, ignore, props[..j]), forPreview);
      RenderAll(VariantPropertyLines(w, o, d, ignore, props[..j + 1]), forPreview) ==
        if ignore && d.Some? && VariantProperty(d.value, p) == VariantProperty(o, p) then before
        else before + (Declaration(TextVar(VariantKey(NO_GROUP, w, p)), VariantProperty(o, p), forPreview) + "\n")
  {
    var p := props[j];
    assert props[..j + 1][..j] == props[..j];
    RenderPush(VariantPropertyLines(w, o, d, ignore, props[..j]), VariantDecl(w, p, VariantProperty(o, p)), forPreview);
  }

  /** The loop over `TEXT_VARIANT_PROPERTIES` for one variant. */
  method VariantPropertyVariables(w: string, value: VariantOptions, d: Option<VariantOptions>, o: Options, props: seq<string>)
    returns (r: Result<string>)
    ensures r == RenderLines(VariantEntry(w, value, d, o.ignoreDefaults, props), o.forPreview)
  {
    if o.ignoreDefaults && d.None? && |props| > 0 {
      return Err(UndefinedSlot(w));
    }
    var css := "";
    for j := 0 to |props|
      invariant css == RenderAll(VariantPropertyLines(w, value, d, o.ignoreDefaults, props[..j]), o.forPreview)
    {
      VariantPropertyLinesStep(w, value, d, o.ignoreDefaults, props, j, o.forPreview);
      var property := props[j];
      if o.ignoreDefaults && VariantProperty(d.value, property) == VariantProperty(value, property) {
        continue;
      }
      var cssVariable := TextVar(VariantKey(NO_GROUP, w, property));
      var entry := Declaration(cssVariable, VariantProperty(value, property), o.forPreview);
      css := css + (entry + "\n");
    }
    assert props[..|props|] == props;
    r := Ok(css);
  }

  /** The variants among the first `n`, each with its properties in the order of `props`. */
  function VariantLines(variants: Dict<VariantOptions>, dflt: Dict<VariantOptions>, ignore: bool, props: seq<string>, n: nat)
    : Result<seq<Line>>
    requires variants.Listed() && n <= |variants.keys|
  {
    if n == 0 then Ok([])
    else
      var r := VariantLines(variants, dflt, ignore, props, n - 1);
      var w := variants.keys[n - 1];
      if r.Err? then r
      else
        var s := VariantEntry(w, variants.items[w], Lookup(dflt, w), ignore, props);
        if s.Err? then s else Ok(r.value + s.value)
  }

  /** The text of one more variant considered by `VariantLines`. */
  lemma VariantLinesStep(variants: Dict<VariantOptions>, dflt: Dict<VariantOptions>, ignore: bool, props: seq<string>, i: nat, forPreview: bool)
    requires variants.Listed() && i < |variants.keys|
    requires VariantLines(variants, dflt, ignore, props, i).Ok?
    ensures var w, before := variants.keys[i], RenderAll(VariantLines(variants, dflt, ignore, props, i).value, forPreview);
      w in variants.items &&
      RenderLines(VariantLines(variants, dflt, ignore, props, i + 1), forPreview) ==
        match RenderLines(VariantEntry(w, variants.items[w], Lookup(dflt, w), ignore, props), forPreview)
        case Err(e) => Err(e)
        case Ok(text) => Ok(before + text)
  {
    var w := variants.keys[i];
    assert w in variants.items;
    var s := VariantEntry(w, variants.items[w], Lookup(dflt, w), ignore, props);
    if s.Ok? {
      RenderAppend(VariantLines(variants, dflt, ignore, props, i).value, s.value, forPreview);
    }
  }

  lemma {:induction false} VariantErrPersists(variants: Dict<VariantOptions>, dflt: Dict<VariantOptions>, ignore: bool, props: seq<string>, i: nat, n: nat)
    requires variants.Listed() && i <= n <= |variants.keys|
    requires VariantLines(variants, dflt, ignore, props, i).Err?
    ensures VariantLines(variants, dflt, ignore, props, n) == VariantLines(variants, dflt, ignore, props, i)
    decreases n - i
  {
    if i < n {
      VariantErrPersists(variants, dflt, ignore, props, i, n - 1);
    }
  }

  /** The loop over `theme.typography.variants`. */
  method VariantVariables(variants: Dict<VariantOptions>, dflt: Dict<VariantOptions>, o: Options, props: seq<string>)
    returns (r: Result<string>)
    requires variants.Listed()
    ensures r == RenderLines(VariantLines(variants, dflt, o.ignoreDefaults, props, |variants.keys|), o.forPreview)
  {
    var css := "";
    for i := 0 to |variants.keys|
      invariant RenderLines(VariantLines(variants, dflt, o.ignoreDefaults, props, i), o.forPreview) == Ok(css)
    {
      VariantLinesStep(variants, dflt, o.ignoreDefaults, props, i, o.forPreview);
      var w := variants.keys[i];
      var part := VariantPropertyVariables(w, variants.items[w], Lookup(dflt, w), o, props);
      if part.Err? {
        VariantErrPersists(variants, dflt, o.ignoreDefaults, props, i + 1, |variants.keys|);
        return Err(part.error);
      }
      css := css + part.value;
    }
    r := Ok(css);
  }

  /** `prepareTypographyVariables()`: font families, then groups, then variants,
      trimmed; `gprops` and `vprops` are `TEXT_GROUP_PROPERTIES` and
      `TEXT_VARIANT_PROPERTIES`. A group's error comes before a variant's. */
  function TypographyVariables(t: Themes.Typography, dflt: Themes.Typography, o: Options, gprops: seq<string>, vprops: seq<string>): Result<string>
    requires t.fontFamilies.Listed() && t.groups.Listed() && t.variants.Listed()
  {
    var fonts := RenderAll(FontLines(t.fontFamilies, dflt.fontFamilies, o.ignoreDefaults, |t.fontFamilies.keys|), o.forPreview);
    var groups := RenderLines(GroupLines(t.groups, dflt.groups, o.ignoreDefaults, gprops, |t.groups.keys|), o.forPreview);
    var variants := RenderLines(VariantLines(t.variants, dflt.variants, o.ignoreDefaults, vprops, |t.variants.keys|), o.forPreview);
    if groups.Err? then Err(groups.error)
    else if variants.Err? then Err(variants.error)
    else Ok(Trim(fonts + groups.value + variants.value))
  }

  /** `prepareTypographyVariables()`. */
  method PrepareTypographyVariables(t: Themes.Typography, dflt: Themes.Typography, o: Options, gprops: seq<string>, vprops: seq<string>)
    returns (r: Result<string>)
    requires t.fontFamilies.Listed() && t.groups.Listed() && t.variants.Listed()
    ensures r == TypographyVariables(t, dflt, o, gprops, vprops)
  {
    var fonts := FontVariables(t.fontFamilies, dflt.fontFamilies, o);
    var groups := GroupVariables(t.groups, dflt.groups, o, gprops);
    if groups.Err? {
      return Err(groups.error);
    }
    var variants := VariantVariables(t.variants, dflt.variants, o, vprops);
    if variants.Err? {
      return Err(variants.error);
    }
    r := Ok(Trim(fonts + groups.value + variants.value));
  }

  // ---------------------------------------------------------------------------
  // prepareCommonVariables

  /** `prepareCommonVariables()`: the borders and the typography joined by a newline, trimmed. */
  function CommonVariables(th: Theme, dflt: Theme, o: Options): Result<string>
    requires th.Valid()
  {
    var borders := RenderAll(BorderLines(th.borders, dflt.borders, o.ignoreDefaults, |th.borders.keys|), o.forPreview);
    var typography := TypographyVariables(th.typography, dflt.typography, o, GROUP_PROPERTIES, VARIANT_PROPERTIES);
    if typography.Err? then Err(typography.error)
    else Ok(Trim(Join([borders, typography.value], "\n")))
  }

  method PrepareCommonVariables(th: Theme, dflt: Theme, o: Options) returns (r: Result<string>)
    requires th.Valid()
    ensures r == CommonVariables(th, dflt, o)
  {
    var borders := BordersVariables(th.borders, dflt.borders, o);
    var typography := PrepareTypographyVariables(th.typography, dflt.typography, o, GROUP_PROPERTIES, VARIANT_PROPERTIES);
    if typography.Err? {
      return Err(typography.error);
    }
    r := Ok(Trim(Join([borders, typography.value], "\n")));
  }
}
