/** The theme record (`GravityTheme`): base colours, their private shade ramps,
    utility colour roles, typography and border radii; and the two type guards
    for colour options. */
module Themes {
  import opened Common
  import opened Dicts
  import opened Shades

  /** The optional `ref` of a colour option. Absent and present-but-undefined are
      different to a structural comparison (`isEqual`), so both are kept. */
  datatype Ref = NoRef | UndefinedRef | RefTo(name: string)

  /** `ColorOptions`: a colour value and the reference it came from, if any. */
  datatype ColorOptions = ColorOptions(value: string, ref: Ref)

  /** `{value}`: an option without a `ref` key. */
  function Plain(value: string): (c: ColorOptions)
    ensures c.value == value && c.ref == NoRef
  {
    ColorOptions(value, NoRef)
  }

  /** A value per variant (`Record<Theme, T>`). */
  datatype Themized<T> = Themized(light: T, dark: T)
  {
    function Get(v: Variant): T {
      match v
      case Light => light
      case Dark => dark
    }

    /** `obj[v] = x`. */
    function Set(v: Variant, x: T): (r: Themized<T>)
      ensures r.Get(v) == x
      ensures forall w :: w != v ==> r.Get(w) == Get(w)
    {
      match v
      case Light => Themized(x, dark)
      case Dark => Themized(light, x)
    }
  }

  /** The shades of one base colour in one variant (`PrivateColorOptions`). */
  type PrivateShades = map<Shade, ColorOptions>

  /** `FontOptions`. */
  datatype Font = Font(mainFont: string, fallbackFonts: seq<string>)

  /** A `font-weight`: `number | string` (numbers are integers, as in `Json`). */
  datatype Weight = WeightNumber(n: int) | WeightString(s: string)
  {
    /** The weight as text (a template literal, or `toString()`). */
    function Text(): string {
      match this
      case WeightNumber(n) => if n < 0 then "-" + NatToString(-n) else NatToString(n)
      case WeightString(s) => s
    }
  }

  /** `TextGroupOptions`. */
  datatype GroupOptions = GroupOptions(fontFamily: string, fontWeight: Weight)

  /** `group[property] = value` with a string value for the two group
      properties (`font-family`, otherwise `font-weight`, which keeps the string). */
  function SetGroupProperty(o: GroupOptions, property: string, value: string): GroupOptions {
    if property == "font-family" then o.(fontFamily := value) else o.(fontWeight := WeightString(value))
  }

  /** `TextVariantOptions`. */
  datatype VariantOptions = VariantOptions(fontSize: string, lineHeight: string)

  /** `variant[property] = value` for the two variant properties (`font-size`, otherwise `line-height`). */
  function SetVariantProperty(o: VariantOptions, property: string, value: string): VariantOptions {
    if property == "font-size" then o.(fontSize := value) else o.(lineHeight := value)
  }

  /** `TypographyOptions`. */
  datatype Typography = Typography(
    fontImports: seq<string>,
    fontFamilies: Dict<Font>,
    groups: Dict<GroupOptions>,
    variants: Dict<VariantOptions>)

  /** `GravityTheme`. */
  datatype Theme = Theme(
    baseColors: Dict<Themized<ColorOptions>>,
    privateColors: Dict<Themized<PrivateShades>>,
    utilityColors: Dict<Themized<ColorOptions>>,
    typography: Typography,
    borders: Dict<string>)
  {
    ghost predicate Valid() {
      baseColors.Valid() && privateColors.Valid() && utilityColors.Valid() &&
      typography.fontFamilies.Valid() && typography.groups.Valid() && typography.variants.Valid() &&
      borders.Valid()
    }
  }

  /** A new base colour starts as `{light: {value: ''}, dark: {value: ''}}`. */
  const EMPTY_BASE: Themized<ColorOptions> := Themized(Plain(""), Plain(""))

  /** A new private entry starts as `{light: {}, dark: {}}`. */
  const EMPTY_PRIVATE: Themized<PrivateShades> := Themized(map[], map[])

  // ---------------------------------------------------------------------------
  // Untyped values and the type guards

  /** A JavaScript value as the type guards see it (`undefined` included: a
      key can be present and hold it). */
  datatype Json =
    | JUndefined
    | JNull
    | JBool(b: bool)
    | JNum(n: int)
    | JStr(s: string)
    | JArr(items: seq<Json>)
    | JObj(fields: map<string, Json>)

  /** `isColorOptions` (and `isValueWithReference`): a non-null object with a `value` key. */
  predicate IsColorOptions(j: Json) {
    j.JObj? && "value" in j.fields
  }

  /** `isThemizedColorOptions` (and `isThemizedValueWithReference`): `light` and `dark` both colour options. */
  predicate IsThemized(j: Json) {
    j.JObj? && "light" in j.fields && IsColorOptions(j.fields["light"]) &&
    "dark" in j.fields && IsColorOptions(j.fields["dark"])
  }

  /** The guards test only the keys: any object with a `value` key passes, and
      nothing that is not an object does. */
  lemma IsColorOptionsIff(j: Json)
    ensures IsColorOptions(j) <==> exists fields :: j == JObj(fields) && "value" in fields
    ensures j == JUndefined || j == JNull || j.JStr? || j.JNum? || j.JBool? || j.JArr? ==> !IsColorOptions(j)
  {
    if IsColorOptions(j) {
      assert j == JObj(j.fields);
    }
  }

  /** A themized object with no `value` key of its own is not itself a colour option. */
  lemma ThemizedIsNotColor(j: Json)
    requires IsThemized(j) && "value" !in j.fields
    ensures !IsColorOptions(j)
    ensures IsColorOptions(j.fields["light"]) && IsColorOptions(j.fields["dark"])
  {
  }

  /** The string in a JSON field, or `''` (non-string fields are outside the model). */
  function StringField(fields: map<string, Json>, key: string): (s: string)
    ensures key in fields && fields[key].JStr? ==> s == fields[key].s
  {
    if key in fields && fields[key].JStr? then fields[key].s else ""
  }

  /** A guarded JSON object as colour options: `value`, and `ref` when it is present. */
  function ToColorOptions(j: Json): (c: ColorOptions)
    requires IsColorOptions(j)
    ensures c.value == StringField(j.fields, "value")
    ensures "ref" !in j.fields ==> c.ref == NoRef
    ensures "ref" in j.fields && j.fields["ref"].JStr? ==> c.ref == RefTo(j.fields["ref"].s)
  {
    var r :=
      if "ref" !in j.fields then NoRef
      else if j.fields["ref"].JStr? then RefTo(j.fields["ref"].s)
      else UndefinedRef;
    ColorOptions(StringField(j.fields, "value"), r)
  }
}
