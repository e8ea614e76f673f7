/** `parseJSON`: the entries of a flat JSON theme, keyed by CSS variable, are
    dispatched by prefix into a copy of the default theme. Colour entries must
    have the `{light, dark}` shape and the others the `{value}` shape; an entry
    of the wrong shape or of an unknown kind is logged and skipped. Nothing is
    resolved: references are stored as they come. The base colours are then
    restored from the anchor shades. */
module JsonParse {
  import opened Common
  import opened Dicts
  import opened Shades
  import opened Roles
  import opened Variables
  import opened References
  import opened Themes
  import opened Edits
  import opened Typography
  import opened Borders
  import CssParse

  /** `JsonTheme`: each CSS variable with its `{value, ref?}` or `{light, dark}`
      object, in insertion order. */
  type JsonTheme = Dict<Json>

  /** A guarded `{light, dark}` object as themized colour options. */
  function ToThemized(j: Json): Themized<ColorOptions>
    requires IsThemized(j)
  {
    Themized(ToColorOptions(j.fields["light"]), ToColorOptions(j.fields["dark"]))
  }

  /** The `value` of a guarded `{value}` object. */
  function ValueOf(j: Json): string
    requires IsColorOptions(j)
  {
    StringField(j.fields, "value")
  }

  /** The `value` of a guarded `{value}` object as a `font-weight`: a number
      stays a number, anything else is read as `ValueOf` reads it. */
  function WeightOf(j: Json): Weight
    requires IsColorOptions(j)
  {
    match j.fields["value"]
    case JNum(n) => WeightNumber(n)
    case _ => WeightString(ValueOf(j))
  }

  /** `group[property] = parameters.value`. */
  function SetGroupValue(o: GroupOptions, property: string, j: Json): GroupOptions
    requires IsColorOptions(j)
  {
    if property == "font-family" then o.(fontFamily := ValueOf(j)) else o.(fontWeight := WeightOf(j))
  }

  // ---------------------------------------------------------------------------
  // What one entry does

  /** `applyPrivateColorVariable`: a variable that does not parse is logged and
      skipped; otherwise a token without entries gets an empty base colour and
      empty shade maps, and the shade becomes the given options in both variants. */
  function ApplyPrivate(th: Theme, name: string, x: Themized<ColorOptions>): (r: Theme)
    ensures th.Valid() ==> r.Valid()
    ensures r.utilityColors == th.utilityColors && r.typography == th.typography && r.borders == th.borders
  {
    match PrivateVarSpec(name)
    case Err(_) => th
    case Ok(t) =>
      var base := if t.main in th.baseColors.items then th.baseColors else th.baseColors.Put(t.main, EMPTY_BASE);
      var entry := if t.main in th.privateColors.items then th.privateColors.items[t.main] else EMPTY_PRIVATE;
      th.(baseColors := base,
          privateColors := th.privateColors.Put(t.main, Themized(entry.light[t.shade := x.light], entry.dark[t.shade := x.dark])))
  }

  /** `applyUtilityColorVariable`: a variable that names no role is skipped;
      otherwise both variants of the role's slot, which must exist, become the
      given options. */
  function ApplyUtility(th: Theme, name: string, x: Themized<ColorOptions>): (r: Result<Theme>)
    ensures th.Valid() && r.Ok? ==> r.value.Valid()
    ensures r.Ok? ==> r.value == th.(utilityColors := r.value.utilityColors)
  {
    match UtilityTypeOf(name)
    case None => Ok(th)
    case Some(role) =>
      if role !in th.utilityColors.items then Err(UndefinedSlot(role))
      else Ok(th.(utilityColors := th.utilityColors.Put(role, x)))
  }

  /** `applyTextVariable`: an unknown variable is logged and skipped; a variant
      property or a group property is written, as given, into its existing
      entry (a group `font-family` is not read as a reference). */
  function ApplyText(th: Theme, name: string, j: Json): (r: Result<Theme>)
    requires IsColorOptions(j)
    ensures th.Valid() && r.Ok? ==> r.value.Valid()
    ensures r.Ok? ==> CssParse.SameColors(r.value, th) && r.value.borders == th.borders
  {
    var ty := th.typography;
    match ParseTextVar(name)
    case None => Ok(th)
    case Some(VariantKey(_, w, p)) =>
      if w !in ty.variants.items then Err(UndefinedSlot(w))
      else Ok(th.(typography := ty.(variants := ty.variants.Put(w, SetVariantProperty(ty.variants.items[w], p, ValueOf(j))))))
    case Some(GroupKey(g, p)) =>
      if g !in ty.groups.items then Err(UndefinedSlot(g))
      else Ok(th.(typography := ty.(groups := ty.groups.Put(g, SetGroupValue(ty.groups.items[g], p, j)))))
  }

  /** A colour entry: without the `{light, dark}` shape it is logged and
      skipped; a colour variable that is neither private nor a role's is
      skipped too. */
  function ColorStep(th: Theme, name: string, j: Json): (r: Result<Theme>)
    ensures th.Valid() && r.Ok? ==> r.value.Valid()
    ensures r.Ok? ==> r.value.typography == th.typography && r.value.borders == th.borders
  {
    if !IsThemized(j) then Ok(th)
    else if IsPrivateVar(name) then Ok(ApplyPrivate(th, name, ToThemized(j)))
    else ApplyUtility(th, name, ToThemized(j))
  }

  /** Any other entry: a font, text or border-radius entry without a `value`
      is logged and skipped, as is any other variable. Fonts and border radii
      are applied as the CSS parser applies them. */
  function OtherStep(th: Theme, name: string, j: Json): (r: Result<Theme>)
    ensures th.Valid() && r.Ok? ==> r.value.Valid()
    ensures r.Ok? ==> CssParse.SameColors(r.value, th)
  {
    if IsFontVar(name) then
      if IsColorOptions(j) then Ok(CssParse.ApplyFont(th, name, ValueOf(j))) else Ok(th)
    else if IsTextVar(name) then
      if IsColorOptions(j) then ApplyText(th, name, j) else Ok(th)
    else if IsBorderRadiusVar(name) then
      if IsColorOptions(j) then Ok(CssParse.ApplyBorder(th, name, ValueOf(j))) else Ok(th)
    else Ok(th)
  }

  /** One entry of the loop in `parseJSON`, dispatched on its variable's prefix. */
  function Step(th: Theme, name: string, j: Json): (r: Result<Theme>)
    ensures th.Valid() && r.Ok? ==> r.value.Valid()
  {
    if IsColorVar(name) then ColorStep(th, name, j) else OtherStep(th, name, j)
  }

  // ---------------------------------------------------------------------------
  // parseJSON

  /** The first `n` entries, in order, from `th`, stopping at the first throw. */
  function Fold(th: Theme, input: JsonTheme, n: nat): (r: Result<Theme>)
    requires input.Listed() && n <= |input.keys|
    ensures th.Valid() && r.Ok? ==> r.value.Valid()
  {
    if n == 0 then Ok(th)
    else match Fold(th, input, n - 1)
      case Err(e) => Err(e)
      case Ok(t) => Step(t, input.keys[n - 1], input.items[input.keys[n - 1]])
  }

  /** `parseJSON` on the default theme `dflt`. */
  function ParseJsonSpec(input: JsonTheme, dflt: Theme): Result<Theme>
    requires input.Listed() && dflt.Valid()
  {
    match Fold(dflt, input, |input.keys|)
    case Err(e) => Err(e)
    case Ok(th) => Ok(th.(baseColors := RestoreSpec(th.baseColors, th.privateColors)))
  }

  /** A throw ends the walk: the later entries are not looked at. */
  lemma {:induction false} FoldErr(th: Theme, input: JsonTheme, n: nat)
    requires input.Listed() && n <= |input.keys| && Fold(th, input, n).Err?
    ensures Fold(th, input, |input.keys|) == Fold(th, input, n)
    decreases |input.keys| - n
  {
    if n < |input.keys| {
      FoldErr(th, input, n + 1);
    }
  }

  /** The body of the loop in `parseJSON`, for one entry. */
  method ApplyEntry(theme: Theme, variable: string, parameters: Json) returns (r: Result<Theme>)
    ensures r == Step(theme, variable, parameters)
  {
    if IsColorVar(variable) {
      if !IsThemized(parameters) {
        return Ok(theme);
      }
      if IsPrivateVar(variable) {
        return Ok(ApplyPrivate(theme, variable, ToThemized(parameters)));
      }
      r := ApplyUtility(theme, variable, ToThemized(parameters));
    } else if IsFontVar(variable) {
      if !IsColorOptions(parameters) {
        return Ok(theme);
      }
      return Ok(CssParse.ApplyFont(theme, variable, ValueOf(parameters)));
    } else if IsTextVar(variable) {
      if !IsColorOptions(parameters) {
        return Ok(theme);
      }
      r := ApplyText(theme, variable, parameters);
    } else if IsBorderRadiusVar(variable) {
      if !IsColorOptions(parameters) {
        return Ok(theme);
      }
      return Ok(CssParse.ApplyBorder(theme, variable, ValueOf(parameters)));
    } else {
      return Ok(theme);
    }
  }

  /** The loop of `parseJSON` over the entries, from `dflt`. */
  method ApplyEntries(input: JsonTheme, dflt: Theme) returns (r: Result<Theme>)
    requires input.Listed()
    ensures r == Fold(dflt, input, |input.keys|)
  {
    var theme := dflt;
    for i := 0 to |input.keys|
      invariant Fold(dflt, input, i) == Ok(theme)
    {
      var variable := input.keys[i];
      var res := ApplyEntry(theme, variable, input.items[variable]);
      if res.Err? {
        FoldErr(dflt, input, i + 1);
        return Err(res.error);
      }
      theme := res.value;
    }
    return Ok(theme);
  }

  /** `parseJSON`: the entries, then the base colours restored. */
  method ParseJson(input: JsonTheme, dflt: Theme) returns (r: Result<Theme>)
    requires input.Listed() && dflt.Valid()
    ensures r == ParseJsonSpec(input, dflt)
  {
    var theme := ApplyEntries(input, dflt);
    if theme.Err? {
      return Err(theme.error);
    }
    var base := Restore(theme.value.baseColors, theme.value.privateColors);
    return Ok(theme.value.(baseColors := base));
  }

  // ---------------------------------------------------------------------------
  // Utility colours: stored as given, or the default's

  /** The slot the first `n` entries leave a role with: what the last of them
      that is the role's variable with the `{light, dark}` shape holds, else
      the slot the walk started from. */
  function SlotAfter(input: JsonTheme, n: nat, role: string, start: Themized<ColorOptions>): Themized<ColorOptions>
    requires input.Listed() && n <= |input.keys|
  {
    if n == 0 then start
    else
      var name := input.keys[n - 1];
      if name == UtilityVar(role) && IsThemized(input.items[name]) then ToThemized(input.items[name])
      else SlotAfter(input, n - 1, role, start)
  }

  /** A colour entry changes a role's slot only when it is the role's variable
      with the `{light, dark}` shape, and then to exactly what it holds. */
  lemma ColorStepUtility(th: Theme, name: string, j: Json, role: string)
    requires role in th.utilityColors.items && ColorStep(th, name, j).Ok?
    requires UtilityTypeOf(UtilityVar(role)) == Some(role)
    ensures var r := ColorStep(th, name, j).value;
      role in r.utilityColors.items &&
      r.utilityColors.items[role] ==
        if name == UtilityVar(role) && IsThemized(j) then ToThemized(j) else th.utilityColors.items[role]
  {
    UtilityTypeRoundTrip(role, name);
    if name == UtilityVar(role) {
      UtilityVarNotPrivate(name);
    }
  }

  /** Any entry changes a role's slot only when it is the role's variable with
      the `{light, dark}` shape, and then to exactly what it holds. */
  lemma StepUtility(th: Theme, name: string, j: Json, role: string)
    requires role in th.utilityColors.items && Step(th, name, j).Ok?
    requires UtilityTypeOf(UtilityVar(role)) == Some(role)
    ensures var r := Step(th, name, j).value;
      role in r.utilityColors.items &&
      r.utilityColors.items[role] ==
        if name == UtilityVar(role) && IsThemized(j) then ToThemized(j) else th.utilityColors.items[role]
  {
    if IsColorVar(name) {
      ColorStepUtility(th, name, j, role);
    } else if name == UtilityVar(role) {
      UtilityVarNotPrivate(name);
    }
  }

  lemma {:induction false} FoldUtility(th: Theme, input: JsonTheme, n: nat, role: string)
    requires input.Listed() && n <= |input.keys| && Fold(th, input, n).Ok?
    requires role in th.utilityColors.items && UtilityTypeOf(UtilityVar(role)) == Some(role)
    ensures var r := Fold(th, input, n).value;
      role in r.utilityColors.items && r.utilityColors.items[role] == SlotAfter(input, n, role, th.utilityColors.items[role])
  {
    if n > 0 {
      FoldUtility(th, input, n - 1, role);
      var name := input.keys[n - 1];
      var prev := Fold(th, input, n - 1).value;
      assert Fold(th, input, n) == Step(prev, name, input.items[name]);
      StepUtility(prev, name, input.items[name], role);
    }
  }

  /** With each key listed once, the last entry for a role's variable is its only one. */
  lemma {:induction false} SlotAfterOnly(input: JsonTheme, n: nat, role: string, start: Themized<ColorOptions>)
    requires input.Listed() && Distinct(input.keys) && n <= |input.keys|
    ensures var v := UtilityVar(role);
      SlotAfter(input, n, role, start) ==
        if v in input.keys[..n] && IsThemized(input.items[v]) then ToThemized(input.items[v]) else start
  {
    if n > 0 {
      SlotAfterOnly(input, n - 1, role, start);
      var v, name := UtilityVar(role), input.keys[n - 1];
      assert input.keys[..n] == input.keys[..n - 1] + [name];
      if name == v {
        assert v !in input.keys[..n - 1] by {
          forall k | 0 <= k < n - 1 ensures input.keys[k] != name {}
        }
      }
    }
  }

  /** `parseJSON` starts from a copy of the default theme and resolves nothing:
      a role's slot is what its entry holds, references included, or the
      default's when there is no entry of the right shape. */
  lemma ParseJsonUtility(input: JsonTheme, dflt: Theme, role: string)
    requires input.Valid() && dflt.Valid() && IsRole(role) && role in dflt.utilityColors.items
    requires ParseJsonSpec(input, dflt).Ok?
    ensures var r := ParseJsonSpec(input, dflt).value; var v := UtilityVar(role);
      role in r.utilityColors.items &&
      r.utilityColors.items[role] ==
        if v in input.items && IsThemized(input.items[v]) then ToThemized(input.items[v]) else dflt.utilityColors.items[role]
  {
    UtilityTypeRoundTrip(role, "");
    FoldUtility(dflt, input, |input.keys|, role);
    SlotAfterOnly(input, |input.keys|, role, dflt.utilityColors.items[role]);
    assert input.keys[..|input.keys|] == input.keys;
  }

  // ---------------------------------------------------------------------------
  // Private colours: the last entry for a shade wins

  /** Shade `t` of token `m` in variant `v`, if the theme has it. */
  function ShadeOf(th: Theme, m: string, v: Variant, t: Shade): Option<ColorOptions> {
    if m in th.privateColors.items && t in th.privateColors.items[m].Get(v) then Some(th.privateColors.items[m].Get(v)[t]) else None
  }

  /** An entry that sets `target`: a private variable that parses to it, with the `{light, dark}` shape. */
  predicate SetsShade(name: string, j: Json, target: PrivateTarget) {
    IsThemized(j) && PrivateVarSpec(name) == Ok(target)
  }

  /** Which of the first `n` entries set `target`, in order. */
  function Setters(input: JsonTheme, n: nat, target: PrivateTarget): (r: seq<bool>)
    requires input.Listed() && n <= |input.keys|
    ensures |r| == n
    ensures forall i | 0 <= i < n :: r[i] ==> IsThemized(input.items[input.keys[i]])
  {
    seq(n, i requires 0 <= i < n => SetsShade(input.keys[i], input.items[input.keys[i]], target))
  }

  /** The index of the last `true` flag. */
  function LastTrue(flags: seq<bool>): (r: Option<nat>)
    ensures r.Some? ==> r.value < |flags| && flags[r.value]
  {
    if |flags| == 0 then None
    else if flags[|flags| - 1] then Some(|flags| - 1)
    else LastTrue(flags[..|flags| - 1])
  }

  /** No flag after the last `true` one is `true`. */
  lemma {:induction false} LastTrueIsLast(flags: seq<bool>, i: nat)
    requires i < |flags| && (LastTrue(flags).None? || LastTrue(flags).value < i)
    ensures !flags[i]
  {
    if i < |flags| - 1 {
      LastTrueIsLast(flags[..|flags| - 1], i);
    }
  }

  /** The index of the last of the first `n` entries that sets `target`. */
  function LastSetting(input: JsonTheme, n: nat, target: PrivateTarget): (r: Option<nat>)
    requires input.Listed() && n <= |input.keys|
    ensures r.Some? ==> r.value < n && IsThemized(input.items[input.keys[r.value]])
  {
    LastTrue(Setters(input, n, target))
  }

  /** The entry `LastSetting` finds sets `target`. */
  lemma LastSettingSets(input: JsonTheme, n: nat, target: PrivateTarget)
    requires input.Listed() && n <= |input.keys|
    ensures var r := LastSetting(input, n, target);
      r.Some? ==> SetsShade(input.keys[r.value], input.items[input.keys[r.value]], target)
  {
  }

  /** No entry after the last one setting `target` sets it. */
  lemma LastSettingIsLast(input: JsonTheme, n: nat, target: PrivateTarget, i: nat)
    requires input.Listed() && i < n <= |input.keys|
    requires var r := LastSetting(input, n, target); r.None? || r.value < i
    ensures !SetsShade(input.keys[i], input.items[input.keys[i]], target)
  {
    LastTrueIsLast(Setters(input, n, target), i);
  }

  /** The walk's last setter: the new entry when it sets `target`, else the earlier one. */
  lemma LastSettingStep(input: JsonTheme, n: nat, target: PrivateTarget)
    requires input.Listed() && 0 < n <= |input.keys|
    ensures LastSetting(input, n, target) ==
      if SetsShade(input.keys[n - 1], input.items[input.keys[n - 1]], target) then Some(n - 1)
      else LastSetting(input, n - 1, target)
  {
    var f := Setters(input, n, target);
    assert f[..n - 1] == Setters(input, n - 1, target);
  }

  /** `ApplyPrivate` sets the shade its variable parses to, in each variant, and no other. */
  lemma ApplyPrivateShade(th: Theme, name: string, x: Themized<ColorOptions>, target: PrivateTarget, v: Variant)
    ensures ShadeOf(ApplyPrivate(th, name, x), target.main, v, target.shade) ==
      if PrivateVarSpec(name) == Ok(target) then Some(x.Get(v)) else ShadeOf(th, target.main, v, target.shade)
  {
  }

  /** A colour entry changes a shade only when it sets it, and then to what it holds. */
  lemma ColorStepShade(th: Theme, name: string, j: Json, target: PrivateTarget, v: Variant)
    requires ColorStep(th, name, j).Ok?
    ensures ShadeOf(ColorStep(th, name, j).value, target.main, v, target.shade) ==
      if SetsShade(name, j, target) then Some(ToThemized(j).Get(v)) else ShadeOf(th, target.main, v, target.shade)
  {
    if IsThemized(j) && IsPrivateVar(name) {
      ApplyPrivateShade(th, name, ToThemized(j), target, v);
    }
  }

  /** Any entry changes a shade only when it sets it, and then to what it holds. */
  lemma StepShade(th: Theme, name: string, j: Json, target: PrivateTarget, v: Variant)
    requires Step(th, name, j).Ok?
    ensures ShadeOf(Step(th, name, j).value, target.main, v, target.shade) ==
      if SetsShade(name, j, target) then Some(ToThemized(j).Get(v)) else ShadeOf(th, target.main, v, target.shade)
  {
    if IsColorVar(name) {
      ColorStepShade(th, name, j, target, v);
    } else {
      PrivateIsColor(name);
      if PrivateVarSpec(name).Ok? {
        PrivateVarSound(name);
      }
    }
  }

  lemma {:induction false} FoldShade(th: Theme, input: JsonTheme, n: nat, target: PrivateTarget, v: Variant)
    requires input.Listed() && n <= |input.keys| && Fold(th, input, n).Ok?
    ensures ShadeOf(Fold(th, input, n).value, target.main, v, target.shade) ==
      match LastSetting(input, n, target)
      case Some(i) => Some(ToThemized(input.items[input.keys[i]]).Get(v))
      case None => ShadeOf(th, target.main, v, target.shade)
  {
    if n > 0 {
      FoldShade(th, input, n - 1, target, v);
      LastSettingStep(input, n, target);
      var name := input.keys[n - 1];
      StepShade(Fold(th, input, n - 1).value, name, input.items[name], target, v);
    }
  }

  /** A shade after `parseJSON` is the one the last entry setting it holds, in
      each variant, or the default's when no entry sets it. */
  lemma ParseJsonShade(input: JsonTheme, dflt: Theme, target: PrivateTarget, v: Variant)
    requires input.Listed() && dflt.Valid() && ParseJsonSpec(input, dflt).Ok?
    ensures ShadeOf(ParseJsonSpec(input, dflt).value, target.main, v, target.shade) ==
      match LastSetting(input, |input.keys|, target)
      case Some(i) => Some(ToThemized(input.items[input.keys[i]]).Get(v))
      case None => ShadeOf(dflt, target.main, v, target.shade)
  {
    FoldShade(dflt, input, |input.keys|, target, v);
  }

  // ---------------------------------------------------------------------------
  // Base colours restored at the end

  /** After `parseJSON`, every token with shades has the base colour its anchor
      shades give, without `ref`; every other base colour is as the entries
      left it. */
  lemma ParseJsonRestoresBase(input: JsonTheme, dflt: Theme, token: string)
    requires input.Listed() && dflt.Valid() && ParseJsonSpec(input, dflt).Ok?
    ensures var r := ParseJsonSpec(input, dflt).value; var th := Fold(dflt, input, |input.keys|).value;
      (token in r.privateColors.items ==>
        token in r.baseColors.items && r.baseColors.items[token] == RestoredEntry(r.privateColors.items[token], token)) &&
      (token !in r.privateColors.items && token in th.baseColors.items ==>
        token in r.baseColors.items && r.baseColors.items[token] == th.baseColors.items[token])
  {
    var th := Fold(dflt, input, |input.keys|).value;
    RestoreEntries(th.baseColors, th.privateColors.keys, th.privateColors);
  }

  // ---------------------------------------------------------------------------
  // Entries of the wrong shape

  /** Two entry lists that agree on their first `n` entries walk alike. */
  lemma {:induction false} FoldSamePrefix(th: Theme, a: JsonTheme, b: JsonTheme, n: nat)
    requires a.Listed() && b.Listed() && n <= |a.keys| && n <= |b.keys|
    requires a.keys[..n] == b.keys[..n] && forall k | k in a.keys[..n] :: a.items[k] == b.items[k]
    ensures Fold(th, a, n) == Fold(th, b, n)
  {
    if n > 0 {
      assert a.keys[..n - 1] == a.keys[..n][..n - 1] && b.keys[..n - 1] == b.keys[..n][..n - 1];
      assert a.keys[n - 1] == a.keys[..n][n - 1];
      FoldSamePrefix(th, a, b, n - 1);
    }
  }

  /** An entry of the wrong shape for its kind of variable. */
  predicate Malformed(name: string, j: Json) {
    if IsColorVar(name) then !IsThemized(j) else !IsColorOptions(j)
  }

  /** An entry of the wrong shape is skipped. */
  lemma StepMalformed(th: Theme, name: string, j: Json)
    requires Malformed(name, j)
    ensures Step(th, name, j) == Ok(th)
  {
  }

  /** A last entry of the wrong shape leaves the walk where it was. */
  lemma FoldMalformedLast(th: Theme, input: JsonTheme, n: nat)
    requires input.Listed() && 0 < n <= |input.keys|
    requires Malformed(input.keys[n - 1], input.items[input.keys[n - 1]])
    ensures Fold(th, input, n) == Fold(th, input, n - 1)
  {
    if Fold(th, input, n - 1).Ok? {
      StepMalformed(Fold(th, input, n - 1).value, input.keys[n - 1], input.items[input.keys[n - 1]]);
    }
  }

  /** A colour entry without the `{light, dark}` shape, or another entry
      without a `value`, changes nothing: adding one leaves the result as it was. */
  lemma MalformedIgnored(input: JsonTheme, dflt: Theme, name: string, j: Json)
    requires input.Listed() && dflt.Valid() && name !in input.keys && Malformed(name, j)
    ensures ParseJsonSpec(input.Put(name, j), dflt) == ParseJsonSpec(input, dflt)
  {
    var b := input.Put(name, j);
    var n := |input.keys|;
    assert b.keys[..n] == input.keys[..n];
    FoldSamePrefix(dflt, input, b, n);
    assert b.keys[n] == name;
    FoldMalformedLast(dflt, b, n + 1);
  }

  // ---------------------------------------------------------------------------
  // Font, text and border-radius entries

  /** A `{value}` entry for a font variable replaces that font family wholesale
      by the parsed font; a value with no font name in it is skipped. */
  lemma StepFont(th: Theme, key: string, j: Json)
    requires IsColorOptions(j)
    ensures Step(th, FontVar(key), j) ==
      match FontFamilySpec(ValueOf(j))
      case Some(f) => Ok(th.(typography := th.typography.(fontFamilies := th.typography.fontFamilies.Put(key, f))))
      case None => Ok(th)
  {
    PrefixesDisjoint(FontVar(key));
    FontKeyRoundTrip(key);
  }

  /** A `{value}` entry for a property of a known group stores the value as
      written, `font-family` included (no `var()` is read), and throws when the
      theme has no entry for the group. */
  lemma StepGroupProperty(th: Theme, g: string, p: string, j: Json)
    requires g in TEXT_VARIANTS && p in GROUP_PROPERTIES && IsColorOptions(j)
    ensures var groups := th.typography.groups;
      Step(th, TextVar(GroupKey(g, p)), j) ==
        if g !in groups.items then Err(UndefinedSlot(g))
        else Ok(th.(typography := th.typography.(groups := groups.Put(g, SetGroupValue(groups.items[g], p, j)))))
  {
    GroupRoundTrip(g, p);
    PrefixesDisjoint(TextVar(GroupKey(g, p)));
  }

  /** A `{value}` entry for a property of a known variant stores the value as
      written, and throws when the theme has no entry for the variant. */
  lemma StepVariantProperty(th: Theme, g: string, w: string, p: string, j: Json)
    requires g in TEXT_VARIANTS && w in TEXT_VARIANTS[g] && p in VARIANT_PROPERTIES && IsColorOptions(j)
    ensures var variants := th.typography.variants;
      Step(th, TextVar(VariantKey(g, w, p)), j) ==
        if w !in variants.items then Err(UndefinedSlot(w))
        else Ok(th.(typography := th.typography.(variants := variants.Put(w, SetVariantProperty(variants.items[w], p, ValueOf(j))))))
  {
    VariantRoundTrip(g, w, p);
    PrefixesDisjoint(TextVar(VariantKey(g, w, p)));
  }

  /** A `{value}` entry for a border size sets that size to the value. */
  lemma StepBorder(th: Theme, size: string, j: Json)
    requires size in BORDER_SIZES && IsColorOptions(j)
    ensures Step(th, BorderRadiusVar(size), j) == Ok(th.(borders := th.borders.Put(size, ValueOf(j))))
  {
    SizeRoundTrip(size);
    PrefixesDisjoint(BorderRadiusVar(size));
  }

  /** A text variable that names no known group, variant and property, or a
      border-radius variable with an unknown size, is logged and skipped. */
  lemma StepUnknownSkipped(th: Theme, name: string, j: Json)
    requires (IsTextVar(name) && ParseTextVar(name).None?) || (IsBorderRadiusVar(name) && SizeOf(name).None?)
    ensures Step(th, name, j) == Ok(th)
  {
    PrefixesDisjoint(name);
  }
}
