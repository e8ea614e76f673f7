/** The theme edits of `src/utils.ts`: regenerating every private ramp,
    restoring base colours from the ramps, and the three copy-on-write updates
    (`updateBaseColor`, `removeBaseColor`, `updateUtilityColor`). Each update
    works on a clone, so here it takes a theme value and returns a new one. */
module Edits {
  import opened Common
  import opened Dicts
  import opened Shades
  import opened Themes
  import opened PrivateColors
  import opened Resolver

  /** The utility role whose two values are the mixing backgrounds. */
  const BACKGROUND: string := "base-background"

  // ---------------------------------------------------------------------------
  // One ramp

  /** The `reduce` that turns generated strings into `{value}` options. */
  function Wrap(m: map<Shade, string>): (w: PrivateShades)
    ensures w.Keys == m.Keys
    ensures forall t | t in w :: w[t] == Plain(m[t])
  {
    map t | t in m :: Plain(m[t])
  }

  /** `generatePrivateColors` for one token and variant, then that `reduce`. */
  function Ramp(alg: ColorAlgebra, v: Variant, token: string, color: string, lightBg: string, darkBg: string): Result<PrivateShades> {
    match GenerateSpec(alg, Request(v, token, color, lightBg, darkBg))
    case Ok(m) => Ok(Wrap(m))
    case Err(e) => Err(e)
  }

  method GenerateRamp(alg: ColorAlgebra, v: Variant, token: string, color: string, lightBg: string, darkBg: string)
      returns (r: Result<PrivateShades>)
    ensures r == Ramp(alg, v, token, color, lightBg, darkBg)
  {
    var g := Generate(alg, Request(v, token, color, lightBg, darkBg));
    if g.Err? {
      return Err(g.error);
    }
    return Ok(Wrap(g.value));
  }

  /** Both variants of one base entry; a failure in either is `InvalidColor`. */
  function BaseRamps(alg: ColorAlgebra, x: Themized<ColorOptions>, token: string, lightBg: string, darkBg: string)
      : Result<Themized<PrivateShades>>
  {
    var l := Ramp(alg, Light, token, x.light.value, lightBg, darkBg);
    var d := Ramp(alg, Dark, token, x.dark.value, lightBg, darkBg);
    if l.Ok? && d.Ok? then Ok(Themized(l.value, d.value)) else Err(InvalidColor)
  }

  /** The only error a ramp reports is `InvalidColor`. */
  lemma RampError(alg: ColorAlgebra, v: Variant, token: string, color: string, lightBg: string, darkBg: string)
    ensures var r := Ramp(alg, v, token, color, lightBg, darkBg);
      r.Err? <==> !alg.valid(color) || !AllRowsMix(alg, Request(v, token, color, lightBg, darkBg), TableFor(v, token))
    ensures Ramp(alg, v, token, color, lightBg, darkBg).Err? ==> Ramp(alg, v, token, color, lightBg, darkBg).error == InvalidColor
  {
  }

  /** `''` when the ramp has no anchor shade: `restore`'s `?.value || ''`. */
  function AnchorValue(shades: PrivateShades, token: string): string {
    var a := AnchorShade(token);
    if a in shades then shades[a].value else ""
  }

  /** What `restore` reads back from a freshly generated ramp: the colour
      mixed with weight 0 toward a background for an ordinary token and for
      dark white, the colour's own CSS form for black and light white. */
  lemma {:induction false} RampAnchor(alg: ColorAlgebra, v: Variant, token: string, color: string, lightBg: string, darkBg: string)
    requires Ramp(alg, v, token, color, lightBg, darkBg).Ok?
    ensures var s := Ramp(alg, v, token, color, lightBg, darkBg).value;
      AnchorShade(token) in s && s[AnchorShade(token)].ref == NoRef
    ensures var s := Ramp(alg, v, token, color, lightBg, darkBg).value;
      var m := alg.mix(color, Target(v, 1, lightBg, darkBg), 0.0);
      AnchorOf(token).None? ==> m.Some? && AnchorValue(s, token) == alg.css(m.value)
    ensures var s := Ramp(alg, v, token, color, lightBg, darkBg).value;
      var m := alg.mix(color, darkBg, 0.0);
      token == "white" && v == Dark ==> m.Some? && AnchorValue(s, token) == alg.css(m.value)
    ensures var s := Ramp(alg, v, token, color, lightBg, darkBg).value;
      token == "black" || (token == "white" && v == Light) ==> AnchorValue(s, token) == alg.css(color)
  {
    var q := Request(v, token, color, lightBg, darkBg);
    if AnchorOf(token).None? {
      AnchorOverwritten(alg, q);
    } else if token == "white" && v == Dark {
      DarkWhiteAnchor(alg, q);
    } else {
      AnchorKept(alg, q);
    }
  }

  // ---------------------------------------------------------------------------
  // generatePrivateColorsForBaseColors

  predicate AllRampsOk(alg: ColorAlgebra, base: Slots, lightBg: string, darkBg: string) {
    forall k | k in base.items :: BaseRamps(alg, base.items[k], k, lightBg, darkBg).Ok?
  }

  /** Every base colour's two ramps, keyed and ordered as the base colours. */
  function GenerateForBaseSpec(alg: ColorAlgebra, base: Slots, lightBg: string, darkBg: string): (r: Result<Privates>)
    requires base.Valid()
    ensures r.Ok? ==> r.value.Valid() && r.value.keys == base.keys
  {
    if AllRampsOk(alg, base, lightBg, darkBg) then
      Ok(Dict(base.keys, map k | k in base.items :: BaseRamps(alg, base.items[k], k, lightBg, darkBg).value))
    else Err(InvalidColor)
  }

  /** The two ramps of one base colour, variant by variant. */
  method GenerateEntry(alg: ColorAlgebra, x: Themized<ColorOptions>, k: string, lightBg: string, darkBg: string)
      returns (r: Result<Themized<PrivateShades>>)
    ensures r == BaseRamps(alg, x, k, lightBg, darkBg)
  {
    var entry := EMPTY_PRIVATE;
    for j := 0 to |SLOT_ORDER|
      invariant forall w | w in SLOT_ORDER[..j] :: Ramp(alg, w, k, x.Get(w).value, lightBg, darkBg) == Ok(entry.Get(w))
    {
      var v := SLOT_ORDER[j];
      var g := GenerateRamp(alg, v, k, x.Get(v).value, lightBg, darkBg);
      if g.Err? {
        assert v == Light || v == Dark;
        return Err(InvalidColor);
      }
      entry := entry.Set(v, g.value);
    }
    assert SLOT_ORDER[..2] == [Dark, Light];
    assert entry == Themized(entry.Get(Light), entry.Get(Dark));
    return Ok(entry);
  }

  /** `generatePrivateColorsForBaseColors`: base colours in record order; the
      first ramp that fails aborts. Keys of a valid record are distinct, so
      every entry is new. */
  method GenerateForBase(alg: ColorAlgebra, base: Slots, lightBg: string, darkBg: string) returns (r: Result<Privates>)
    requires base.Valid()
    ensures r == GenerateForBaseSpec(alg, base, lightBg, darkBg)
  {
    var privates: Privates := Empty();
    for i := 0 to |base.keys|
      invariant GeneratedPrefix(alg, base, privates, i, lightBg, darkBg)
    {
      var k := base.keys[i];
      var entry := GenerateEntry(alg, base.items[k], k, lightBg, darkBg);
      if entry.Err? {
        return Err(InvalidColor);
      }
      GeneratedStep(alg, base, privates, i, lightBg, darkBg);
      privates := privates.Put(k, entry.value);
    }
    GeneratedAll(alg, base, privates, lightBg, darkBg);
    return Ok(privates);
  }

  /** The loop invariant of `GenerateForBase`: the first `i` base colours have their ramps. */
  ghost predicate GeneratedPrefix(alg: ColorAlgebra, base: Slots, privates: Privates, i: nat, lightBg: string, darkBg: string) {
    base.Valid() && i <= |base.keys| && privates.Valid() && privates.keys == base.keys[..i] &&
    forall k | k in privates.items :: k in base.items && BaseRamps(alg, base.items[k], k, lightBg, darkBg) == Ok(privates.items[k])
  }

  lemma GeneratedStep(alg: ColorAlgebra, base: Slots, privates: Privates, i: nat, lightBg: string, darkBg: string)
    requires GeneratedPrefix(alg, base, privates, i, lightBg, darkBg) && i < |base.keys|
    requires BaseRamps(alg, base.items[base.keys[i]], base.keys[i], lightBg, darkBg).Ok?
    ensures var k := base.keys[i];
      GeneratedPrefix(alg, base, privates.Put(k, BaseRamps(alg, base.items[k], k, lightBg, darkBg).value), i + 1, lightBg, darkBg)
  {
    UnprocessedKey(base.keys, i);
    assert base.keys[..i + 1] == base.keys[..i] + [base.keys[i]];
  }

  lemma GeneratedAll(alg: ColorAlgebra, base: Slots, privates: Privates, lightBg: string, darkBg: string)
    requires GeneratedPrefix(alg, base, privates, |base.keys|, lightBg, darkBg)
    ensures GenerateForBaseSpec(alg, base, lightBg, darkBg) == Ok(privates)
  {
    assert base.keys[..|base.keys|] == base.keys;
    var ramps := map k | k in base.items :: BaseRamps(alg, base.items[k], k, lightBg, darkBg).value;
    assert privates.items.Keys == ramps.Keys;
    SameMap(privates.items, ramps);
  }

  // ---------------------------------------------------------------------------
  // restoreBaseColorsFromPrivateColors

  /** The base entry `restore` writes for a token: each variant's anchor value, without `ref`. */
  function RestoredEntry(x: Themized<PrivateShades>, token: string): Themized<ColorOptions> {
    Themized(Plain(AnchorValue(x.light, token)), Plain(AnchorValue(x.dark, token)))
  }

  /** Keys of `ks` not in `known`, in their order in `ks`. */
  function NewKeys(ks: seq<string>, known: set<string>): (r: seq<string>)
    ensures forall k :: k in r <==> k in ks && k !in known
    decreases |ks|
  {
    if |ks| == 0 then []
    else
      var last := ks[|ks| - 1];
      NewKeys(ks[..|ks| - 1], known) + (if last in known then [] else [last])
  }

  /** `restore` over the private tokens `ks`, in order. */
  function RestoreFold(initial: Slots, ks: seq<string>, priv: Privates): Slots
    requires forall k | k in ks :: k in priv.items
    decreases |ks|
  {
    if |ks| == 0 then initial
    else
      var last := ks[|ks| - 1];
      RestoreFold(initial, ks[..|ks| - 1], priv).Put(last, RestoredEntry(priv.items[last], last))
  }

  /** `restoreBaseColorsFromPrivateColors` as a function of its inputs. */
  function RestoreSpec(initial: Slots, priv: Privates): Slots
    requires priv.Valid()
  {
    RestoreFold(initial, priv.keys, priv)
  }

  /** One token of `restore`: a missing entry starts as `EMPTY_BASE`, then each
      variant gets the anchor value. */
  method RestoreToken(base: Slots, k: string, x: Themized<PrivateShades>) returns (r: Slots)
    ensures r == base.Put(k, RestoredEntry(x, k))
  {
    var entry := if k in base.items then base.items[k] else EMPTY_BASE;
    for j := 0 to |VARIANTS|
      invariant forall w | w in VARIANTS[..j] :: entry.Get(w) == Plain(AnchorValue(x.Get(w), k))
    {
      var v := VARIANTS[j];
      entry := entry.Set(v, Plain(AnchorValue(x.Get(v), k)));
    }
    assert VARIANTS[..2] == [Light, Dark];
    assert entry == Themized(entry.Get(Light), entry.Get(Dark));
    r := base.Put(k, entry);
  }

  /** `restoreBaseColorsFromPrivateColors`. */
  method Restore(initial: Slots, priv: Privates) returns (base: Slots)
    requires priv.Valid()
    ensures base == RestoreSpec(initial, priv)
  {
    base := initial;
    for i := 0 to |priv.keys|
      invariant base == RestoreFold(initial, priv.keys[..i], priv)
    {
      var k := priv.keys[i];
      RestoreFoldStep(initial, priv, i);
      base := RestoreToken(base, k, priv.items[k]);
    }
    assert priv.keys[..|priv.keys|] == priv.keys;
  }

  lemma RestoreFoldStep(initial: Slots, priv: Privates, i: nat)
    requires priv.Valid() && i < |priv.keys|
    ensures var k := priv.keys[i];
      RestoreFold(initial, priv.keys[..i + 1], priv) == RestoreFold(initial, priv.keys[..i], priv).Put(k, RestoredEntry(priv.items[k], k))
  {
    assert priv.keys[..i + 1][..i] == priv.keys[..i];
  }

  /** `r` is what `restore` over the tokens `ks` makes of `initial`: every token
      of `ks` gets its anchor values, without `ref`; every other base colour
      keeps its entry; tokens new to the base go last, in the order of `ks`. */
  ghost predicate RestoredAs(initial: Slots, ks: seq<string>, priv: Privates, r: Slots)
    requires forall k | k in ks :: k in priv.items
  {
    r.Valid() && r.keys == initial.keys + NewKeys(ks, initial.items.Keys) &&
    (forall k :: k in r.items <==> k in initial.items || k in ks) &&
    (forall k | k in r.items :: r.items[k] == if k in ks then RestoredEntry(priv.items[k], k) else initial.items[k])
  }

  /** What `restore` produces. */
  lemma {:induction false} RestoreEntries(initial: Slots, ks: seq<string>, priv: Privates)
    requires initial.Valid() && Distinct(ks)
    requires forall k | k in ks :: k in priv.items
    ensures RestoredAs(initial, ks, priv, RestoreFold(initial, ks, priv))
    decreases |ks|
  {
    if |ks| > 0 {
      var last := ks[|ks| - 1];
      var front := ks[..|ks| - 1];
      assert ks == front + [last];
      assert Distinct(front) && last !in front;
      RestoreEntries(initial, front, priv);
      RestoreOneMore(initial, front, last, priv, RestoreFold(initial, front, priv));
    }
  }

  /** One more token of `restore`. */
  lemma RestoreOneMore(initial: Slots, front: seq<string>, last: string, priv: Privates, r: Slots)
    requires initial.Valid() && last !in front && last in priv.items
    requires forall k | k in front :: k in priv.items
    requires RestoredAs(initial, front, priv, r)
    ensures RestoredAs(initial, front + [last], priv, r.Put(last, RestoredEntry(priv.items[last], last)))
  {
    var known := initial.items.Keys;
    assert last in r.keys <==> last in known;
    RestoreKeysMore(initial.keys, front, last, known, r.keys);
    var ks := front + [last];
    var x := RestoredEntry(priv.items[last], last);
    var r' := r.Put(last, x);
    forall k ensures k in r'.items <==> k in initial.items || k in ks {
      assert k in ks <==> k in front || k == last;
    }
    forall k | k in r'.items ensures r'.items[k] == if k in ks then RestoredEntry(priv.items[k], k) else initial.items[k] {
      assert k in ks <==> k in front || k == last;
      if k != last {
        assert r'.items[k] == r.items[k];
      }
    }
  }

  /** The key order after one more token of `restore`. */
  lemma RestoreKeysMore(ik: seq<string>, front: seq<string>, last: string, known: set<string>, rk: seq<string>)
    requires rk == ik + NewKeys(front, known)
    requires last in rk <==> last in known
    ensures (if last in rk then rk else rk + [last]) == ik + NewKeys(front + [last], known)
  {
    var ks := front + [last];
    assert ks[..|ks| - 1] == front;
    var n := NewKeys(front, known);
    if last !in known {
      assert (ik + n) + [last] == ik + (n + [last]);
    } else {
      assert n + [] == n;
    }
  }

  lemma {:induction false} NoNewKeys(ks: seq<string>, known: set<string>)
    requires forall k | k in ks :: k in known
    ensures NewKeys(ks, known) == []
    decreases |ks|
  {
    if |ks| > 0 {
      NoNewKeys(ks[..|ks| - 1], known);
    }
  }

  /** Restoring from generated ramps keeps the base colours' keys and order,
      and reads back, for each colour and variant, the anchor value of its ramp. */
  lemma RestoreAfterGenerate(alg: ColorAlgebra, base: Slots, lightBg: string, darkBg: string, k: string, v: Variant)
    requires base.Valid() && GenerateForBaseSpec(alg, base, lightBg, darkBg).Ok?
    requires k in base.items
    ensures GenerateForBaseSpec(alg, base, lightBg, darkBg).value.Valid()
    ensures var r := RestoreSpec(base, GenerateForBaseSpec(alg, base, lightBg, darkBg).value);
      var color := base.items[k].Get(v).value;
      var s := Ramp(alg, v, k, color, lightBg, darkBg);
      r.keys == base.keys && k in r.items && s.Ok? &&
      r.items[k].Get(v) == Plain(AnchorValue(s.value, k))
  {
    var p := GenerateForBaseSpec(alg, base, lightBg, darkBg).value;
    RestoreEntries(base, p.keys, p);
    NoNewKeys(p.keys, base.items.Keys);
    assert base.keys + [] == base.keys;
    assert BaseRamps(alg, base.items[k], k, lightBg, darkBg).Ok?;
  }

  /** The generated private colours of a base colour hold, per variant, exactly the
      shades the generator writes for it, each with the generated value. */
  lemma GeneratedShades(alg: ColorAlgebra, base: Slots, lightBg: string, darkBg: string, k: string, v: Variant, t: Shade)
    requires base.Valid() && GenerateForBaseSpec(alg, base, lightBg, darkBg).Ok?
    requires k in base.items
    ensures var p := GenerateForBaseSpec(alg, base, lightBg, darkBg).value;
      var q := Request(v, k, base.items[k].Get(v).value, lightBg, darkBg);
      k in p.items && GenerateSpec(alg, q).Ok? &&
      (t in p.items[k].Get(v) <==> Written(q, t)) &&
      (t in p.items[k].Get(v) ==> p.items[k].Get(v)[t] == Plain(GenerateSpec(alg, q).value[t]))
  {
    var x := base.items[k];
    assert BaseRamps(alg, x, k, lightBg, darkBg).Ok?;
    var q := Request(v, k, x.Get(v).value, lightBg, darkBg);
    assert GenerateForBaseSpec(alg, base, lightBg, darkBg).value.items[k].Get(v) == Ramp(alg, v, k, x.Get(v).value, lightBg, darkBg).value;
  }

  // ---------------------------------------------------------------------------
  // updateBaseColor

  /** The value written: one variant, or both at once. */
  datatype BaseValue = OneVariant(v: Variant, value: string) | BothVariants(light: string, dark: string)

  /** The base entry after the write (a missing entry starts as `EMPTY_BASE`). */
  function NewBaseEntry(base: Slots, token: string, u: BaseValue): Themized<ColorOptions> {
    match u
    case OneVariant(v, value) =>
      (if token in base.items then base.items[token] else EMPTY_BASE).Set(v, Plain(value))
    case BothVariants(l, d) => Themized(Plain(l), Plain(d))
  }

  /** The private entry after the regeneration: the written variant(s) get
      fresh ramps mixed toward the current `base-background` values. */
  function NewPrivateEntry(alg: ColorAlgebra, priv: Privates, token: string, u: BaseValue, bg: Themized<ColorOptions>)
      : Result<Themized<PrivateShades>>
  {
    match u
    case OneVariant(v, value) =>
      var prev := if token in priv.items then priv.items[token] else EMPTY_PRIVATE;
      (match Ramp(alg, v, token, value, bg.light.value, bg.dark.value)
       case Ok(s) => Ok(prev.Set(v, s))
       case Err(e) => Err(e))
    case BothVariants(l, d) => BaseRamps(alg, Themized(Plain(l), Plain(d)), token, bg.light.value, bg.dark.value)
  }

  /** `updateBaseColor`. Reading the background of a theme without a
      `base-background` role fails as the property read on `undefined` does. */
  function UpdateBaseSpec(alg: ColorAlgebra, theme: Theme, token: string, u: BaseValue): Result<Theme> {
    if BACKGROUND !in theme.utilityColors.items then Err(UndefinedSlot(BACKGROUND))
    else match NewPrivateEntry(alg, theme.privateColors, token, u, theme.utilityColors.items[BACKGROUND])
      case Err(e) => Err(e)
      case Ok(x) => Ok(theme.(
        baseColors := theme.baseColors.Put(token, NewBaseEntry(theme.baseColors, token, u)),
        privateColors := theme.privateColors.Put(token, x)))
  }

  /** The base-colour writes of `updateBaseColor`. */
  method WriteBase(base0: Slots, token: string, u: BaseValue) returns (base: Slots)
    ensures base == base0.Put(token, NewBaseEntry(base0, token, u))
  {
    base := base0;
    if token !in base.items {
      base := base.Put(token, EMPTY_BASE);
    }
    match u {
      case OneVariant(v, value) =>
        base := base.Put(token, base.items[token].Set(v, Plain(value)));
      case BothVariants(l, d) =>
        base := base.Put(token, Themized(Plain(l), Plain(d)));
    }
  }

  /** The private-colour writes of `updateBaseColor`. */
  method WritePrivate(alg: ColorAlgebra, priv0: Privates, token: string, u: BaseValue, bg: Themized<ColorOptions>)
      returns (r: Result<Privates>)
    ensures var x := NewPrivateEntry(alg, priv0, token, u, bg);
      r == if x.Err? then Err(x.error) else Ok(priv0.Put(token, x.value))
  {
    var entry := if token in priv0.items then priv0.items[token] else EMPTY_PRIVATE;
    match u {
      case OneVariant(v, value) =>
        var g := GenerateRamp(alg, v, token, value, bg.light.value, bg.dark.value);
        if g.Err? {
          return Err(g.error);
        }
        entry := entry.Set(v, g.value);
      case BothVariants(l, d) =>
        var gl := GenerateRamp(alg, Light, token, l, bg.light.value, bg.dark.value);
        if gl.Err? {
          return Err(gl.error);
        }
        var gd := GenerateRamp(alg, Dark, token, d, bg.light.value, bg.dark.value);
        if gd.Err? {
          return Err(gd.error);
        }
        entry := Themized(gl.value, gd.value);
    }
    return Ok(priv0.Put(token, entry));
  }

  method UpdateBaseColor(alg: ColorAlgebra, theme: Theme, token: string, u: BaseValue) returns (r: Result<Theme>)
    ensures r == UpdateBaseSpec(alg, theme, token, u)
  {
    var t := theme;
    var base := WriteBase(t.baseColors, token, u);
    t := t.(baseColors := base);
    if BACKGROUND !in t.utilityColors.items {
      return Err(UndefinedSlot(BACKGROUND));
    }
    var priv := WritePrivate(alg, t.privateColors, token, u, t.utilityColors.items[BACKGROUND]);
    if priv.Err? {
      return Err(priv.error);
    }
    t := t.(privateColors := priv.value);
    return Ok(t);
  }

  /** An update fails exactly when the background role is missing or a ramp
      it needs fails, and changes nothing but the token's two entries. */
  lemma UpdateBaseFrame(alg: ColorAlgebra, theme: Theme, token: string, u: BaseValue)
    ensures var r := UpdateBaseSpec(alg, theme, token, u);
      BACKGROUND !in theme.utilityColors.items ==> r == Err(UndefinedSlot(BACKGROUND))
    ensures var r := UpdateBaseSpec(alg, theme, token, u);
      BACKGROUND in theme.utilityColors.items ==>
        var bg := theme.utilityColors.items[BACKGROUND];
        (r.Err? <==> match u
          case OneVariant(v, value) => Ramp(alg, v, token, value, bg.light.value, bg.dark.value).Err?
          case BothVariants(l, d) =>
            Ramp(alg, Light, token, l, bg.light.value, bg.dark.value).Err? ||
            Ramp(alg, Dark, token, d, bg.light.value, bg.dark.value).Err?) &&
        (r.Err? ==> r.error == InvalidColor)
    ensures var r := UpdateBaseSpec(alg, theme, token, u);
      r.Ok? ==>
        var t := r.value;
        t.utilityColors == theme.utilityColors && t.typography == theme.typography && t.borders == theme.borders &&
        token in t.baseColors.items && token in t.privateColors.items &&
        (forall k | k != token :: (k in t.baseColors.items <==> k in theme.baseColors.items) &&
          (k in t.privateColors.items <==> k in theme.privateColors.items)) &&
        (forall k | k != token && k in t.baseColors.items :: t.baseColors.items[k] == theme.baseColors.items[k]) &&
        (forall k | k != token && k in t.privateColors.items :: t.privateColors.items[k] == theme.privateColors.items[k]) &&
        (theme.Valid() ==> t.Valid())
  {
    if BACKGROUND in theme.utilityColors.items {
      var bg := theme.utilityColors.items[BACKGROUND];
      match u {
        case OneVariant(v, value) =>
          RampError(alg, v, token, value, bg.light.value, bg.dark.value);
        case BothVariants(l, d) =>
      }
    }
  }

  /** A one-variant update writes `{value}` to that variant and its fresh ramp
      to that variant's shades; the other variant keeps its base value and
      shades (empty ones for a new token). */
  lemma UpdateOneVariant(alg: ColorAlgebra, theme: Theme, token: string, v: Variant, value: string, other: Variant)
    requires UpdateBaseSpec(alg, theme, token, OneVariant(v, value)).Ok? && other != v
    ensures var t := UpdateBaseSpec(alg, theme, token, OneVariant(v, value)).value;
      var bg := theme.utilityColors.items[BACKGROUND];
      var s := Ramp(alg, v, token, value, bg.light.value, bg.dark.value);
      t.baseColors.items[token].Get(v) == Plain(value) &&
      s.Ok? && t.privateColors.items[token].Get(v) == s.value &&
      t.baseColors.items[token].Get(other) ==
        (if token in theme.baseColors.items then theme.baseColors.items[token].Get(other) else Plain("")) &&
      t.privateColors.items[token].Get(other) ==
        (if token in theme.privateColors.items then theme.privateColors.items[token].Get(other) else map[])
  {
  }

  /** A two-variant update writes both values and both fresh ramps. */
  lemma UpdateBothVariants(alg: ColorAlgebra, theme: Theme, token: string, l: string, d: string)
    requires UpdateBaseSpec(alg, theme, token, BothVariants(l, d)).Ok?
    ensures var t := UpdateBaseSpec(alg, theme, token, BothVariants(l, d)).value;
      var bg := theme.utilityColors.items[BACKGROUND];
      var sl := Ramp(alg, Light, token, l, bg.light.value, bg.dark.value);
      var sd := Ramp(alg, Dark, token, d, bg.light.value, bg.dark.value);
      t.baseColors.items[token] == Themized(Plain(l), Plain(d)) &&
      sl.Ok? && sd.Ok? && t.privateColors.items[token] == Themized(sl.value, sd.value)
  {
  }

  // ---------------------------------------------------------------------------
  // removeBaseColor

  function RemoveSpec(theme: Theme, token: string): Theme {
    theme.(baseColors := theme.baseColors.Remove(token), privateColors := theme.privateColors.Remove(token))
  }

  /** `removeBaseColor`: delete the base entry and the private entry. */
  method RemoveBaseColor(theme: Theme, token: string) returns (t: Theme)
    ensures t == RemoveSpec(theme, token)
  {
    t := theme;
    t := t.(baseColors := t.baseColors.Remove(token));
    t := t.(privateColors := t.privateColors.Remove(token));
  }

  /** Removal drops exactly the token's two entries; utility colours are left
      as they are, even those that still refer to the token's shades. */
  lemma RemoveFrame(theme: Theme, token: string)
    ensures var t := RemoveSpec(theme, token);
      token !in t.baseColors.items && token !in t.privateColors.items &&
      t.utilityColors == theme.utilityColors && t.typography == theme.typography && t.borders == theme.borders &&
      (forall k | k != token :: (k in t.baseColors.items <==> k in theme.baseColors.items) &&
        (k in t.privateColors.items <==> k in theme.privateColors.items)) &&
      (forall k | k in t.baseColors.items :: t.baseColors.items[k] == theme.baseColors.items[k]) &&
      (forall k | k in t.privateColors.items :: t.privateColors.items[k] == theme.privateColors.items[k]) &&
      (theme.Valid() ==> t.Valid())
  {
  }

  /** Removing twice is removing once. */
  lemma RemoveIdempotent(theme: Theme, token: string)
    ensures RemoveSpec(RemoveSpec(theme, token), token) == RemoveSpec(theme, token)
  {
    var t := RemoveSpec(theme, token);
    WithoutAbsent(t.baseColors.keys, token);
    WithoutAbsent(t.privateColors.keys, token);
  }

  lemma {:induction false} WithoutAbsent(s: seq<string>, k: string)
    requires k !in s
    ensures Without(s, k) == s
  {
    if |s| > 0 {
      WithoutAbsent(s[1..], k);
    }
  }

  lemma {:induction false} WithoutAppended(s: seq<string>, k: string)
    requires k !in s
    ensures Without(s + [k], k) == s
  {
    if |s| == 0 {
      assert [k][1..] == [];
    } else {
      assert (s + [k])[1..] == s[1..] + [k];
      WithoutAppended(s[1..], k);
    }
  }

  /** Deleting a key just added gives the dictionary back. */
  lemma RemoveAfterPut<V>(d: Dict<V>, k: string, x: V)
    requires d.Valid() && k !in d.items
    ensures d.Put(k, x).Remove(k) == d
  {
    WithoutAppended(d.keys, k);
    SameMap(d.Put(k, x).Remove(k).items, d.items);
  }

  /** Adding a new base colour and then removing it gives the theme back. */
  lemma RemoveUndoesAdd(alg: ColorAlgebra, theme: Theme, token: string, u: BaseValue)
    requires theme.Valid()
    requires token !in theme.baseColors.items && token !in theme.privateColors.items
    requires UpdateBaseSpec(alg, theme, token, u).Ok?
    ensures RemoveSpec(UpdateBaseSpec(alg, theme, token, u).value, token) == theme
  {
    var bg := theme.utilityColors.items[BACKGROUND];
    var x := NewPrivateEntry(alg, theme.privateColors, token, u, bg).value;
    var e := NewBaseEntry(theme.baseColors, token, u);
    assert UpdateBaseSpec(alg, theme, token, u).value ==
      theme.(baseColors := theme.baseColors.Put(token, e), privateColors := theme.privateColors.Put(token, x));
    RemoveAfterPut(theme.baseColors, token, e);
    RemoveAfterPut(theme.privateColors, token, x);
  }

  // ---------------------------------------------------------------------------
  // updateUtilityColor

  /** One regeneration write of `updateUtilityColor`: the ramp first, then the
      write into the token's private entry, which must exist. */
  function RegenStep(alg: ColorAlgebra, base: Slots, p: Privates, k: string, w: Variant, lightBg: string, darkBg: string)
      : (r: Result<Privates>)
    requires k in base.items && p.Valid()
    ensures r.Ok? ==> r.value.keys == p.keys && r.value.items.Keys == p.items.Keys && r.value.Valid()
  {
    match Ramp(alg, w, k, base.items[k].Get(w).value, lightBg, darkBg)
    case Err(e) => Err(e)
    case Ok(s) => if k in p.items then Ok(p.Put(k, p.items[k].Set(w, s))) else Err(UndefinedSlot(k))
  }

  predicate WorkInBase(base: Slots, work: seq<(string, Variant)>) {
    forall i | 0 <= i < |work| :: work[i].0 in base.items
  }

  /** The regeneration writes in order, stopping at the first error. */
  function Regenerate(alg: ColorAlgebra, base: Slots, p: Privates, work: seq<(string, Variant)>, lightBg: string, darkBg: string)
      : (r: Result<Privates>)
    requires WorkInBase(base, work) && p.Valid()
    ensures r.Ok? ==> r.value.keys == p.keys && r.value.items.Keys == p.items.Keys && r.value.Valid()
    decreases |work|
  {
    if |work| == 0 then Ok(p)
    else match RegenStep(alg, base, p, work[0].0, work[0].1, lightBg, darkBg)
      case Err(e) => Err(e)
      case Ok(p1) => Regenerate(alg, base, p1, work[1..], lightBg, darkBg)
  }

  /** The visits of a base record are its keys, each with both variants. */
  lemma WorkOfBase(base: Slots)
    requires base.Valid()
    ensures WorkInBase(base, Work(base.keys))
    ensures forall k, w :: (k, w) in Work(base.keys) <==> k in base.items
  {
    var work := Work(base.keys);
    forall i | 0 <= i < |work| ensures work[i].0 in base.items {
      var j := i / 2;
      if i == 2 * j {
        assert work[i] == (base.keys[j], Dark);
      } else {
        assert work[i] == (base.keys[j], Light);
      }
    }
    forall k, w | k in base.items ensures (k, w) in work {
      var j :| 0 <= j < |base.keys| && base.keys[j] == k;
      assert work[2 * j] == (k, Dark) && work[2 * j + 1] == (k, Light);
      assert w == Light || w == Dark;
    }
  }

  /** `updateUtilityColor`: write `{value}` to the role's variant (the role must
      exist); when the role is `base-background`, regenerate every ramp of every
      base colour toward the new backgrounds. */
  function UpdateUtilitySpec(alg: ColorAlgebra, theme: Theme, v: Variant, role: string, value: string): Result<Theme>
    requires theme.baseColors.Valid() && theme.privateColors.Valid()
  {
    if role !in theme.utilityColors.items then Err(UndefinedSlot(role))
    else
      var u := theme.utilityColors.Put(role, theme.utilityColors.items[role].Set(v, Plain(value)));
      if role != BACKGROUND then Ok(theme.(utilityColors := u))
      else
        var bg := u.items[BACKGROUND];
        WorkOfBase(theme.baseColors);
        match Regenerate(alg, theme.baseColors, theme.privateColors, Work(theme.baseColors.keys), bg.light.value, bg.dark.value)
        case Err(e) => Err(e)
        case Ok(p) => Ok(theme.(utilityColors := u, privateColors := p))
  }

  /** One regeneration write. */
  method RegenerateSlot(alg: ColorAlgebra, base: Slots, p: Privates, k: string, w: Variant, lightBg: string, darkBg: string)
      returns (r: Result<Privates>)
    requires k in base.items && p.Valid()
    ensures r == RegenStep(alg, base, p, k, w, lightBg, darkBg)
  {
    var g := GenerateRamp(alg, w, k, base.items[k].Get(w).value, lightBg, darkBg);
    if g.Err? {
      return Err(g.error);
    }
    if k !in p.items {
      return Err(UndefinedSlot(k));
    }
    return Ok(p.Put(k, p.items[k].Set(w, g.value)));
  }

  lemma RegenUnfold(alg: ColorAlgebra, base: Slots, p: Privates, work: seq<(string, Variant)>, m: nat, lightBg: string, darkBg: string)
    requires WorkInBase(base, work) && p.Valid() && m < |work|
    ensures WorkInBase(base, work[m..]) && WorkInBase(base, work[m + 1..])
    ensures var step := RegenStep(alg, base, p, work[m].0, work[m].1, lightBg, darkBg);
      Regenerate(alg, base, p, work[m..], lightBg, darkBg) ==
        if step.Err? then Err(step.error) else Regenerate(alg, base, step.value, work[m + 1..], lightBg, darkBg)
  {
    assert work[m..][1..] == work[m + 1..];
  }

  /** Running the writes of two lists is running the first, then the second
      from where the first left off. */
  lemma {:induction false} RegenAppend(alg: ColorAlgebra, base: Slots, p: Privates, a: seq<(string, Variant)>,
                                       b: seq<(string, Variant)>, lightBg: string, darkBg: string)
    requires WorkInBase(base, a) && WorkInBase(base, b) && p.Valid()
    ensures WorkInBase(base, a + b)
    ensures Regenerate(alg, base, p, a + b, lightBg, darkBg) ==
      match Regenerate(alg, base, p, a, lightBg, darkBg)
      case Err(e) => Err(e)
      case Ok(p1) => Regenerate(alg, base, p1, b, lightBg, darkBg)
    decreases |a|
  {
    if |a| == 0 {
      assert a + b == b;
    } else {
      assert (a + b)[0] == a[0] && (a + b)[1..] == a[1..] + b;
      match RegenStep(alg, base, p, a[0].0, a[0].1, lightBg, darkBg)
      case Err(e) =>
      case Ok(p1) => RegenAppend(alg, base, p1, a[1..], b, lightBg, darkBg);
    }
  }

  /** The regeneration writes of one base colour (the inner loop). */
  method RegenerateToken(alg: ColorAlgebra, base: Slots, p0: Privates, k: string, lightBg: string, darkBg: string)
      returns (r: Result<Privates>)
    requires k in base.items && p0.Valid()
    ensures WorkInBase(base, RoleWork(k))
    ensures r == Regenerate(alg, base, p0, RoleWork(k), lightBg, darkBg)
  {
    var p := p0;
    for j := 0 to |SLOT_ORDER|
      invariant p.Valid() && WorkInBase(base, RoleWork(k)[j..])
      invariant Regenerate(alg, base, p0, RoleWork(k), lightBg, darkBg) == Regenerate(alg, base, p, RoleWork(k)[j..], lightBg, darkBg)
    {
      RegenUnfold(alg, base, p, RoleWork(k), j, lightBg, darkBg);
      var step := RegenerateSlot(alg, base, p, k, SLOT_ORDER[j], lightBg, darkBg);
      if step.Err? {
        return step;
      }
      p := step.value;
    }
    return Ok(p);
  }

  /** Loop state of the outer regeneration loop: `p` is what the writes of the
      first `i` base colours left, and the rest of the run continues from it. */
  ghost predicate RegeneratedUpTo(alg: ColorAlgebra, base: Slots, p0: Privates, p: Privates, i: nat, lightBg: string, darkBg: string)
    requires base.Valid() && p0.Valid() && i <= |base.keys|
  {
    var work := Work(base.keys);
    WorkInBase(base, work) && WorkInBase(base, work[2 * i..]) && p.Valid() &&
    Regenerate(alg, base, p0, work, lightBg, darkBg) == Regenerate(alg, base, p, work[2 * i..], lightBg, darkBg)
  }

  /** The run from base colour `i` on is the writes of colour `i`, then the run from `i + 1`. */
  lemma RegenerateSplit(alg: ColorAlgebra, base: Slots, p: Privates, i: nat, lightBg: string, darkBg: string)
    requires base.Valid() && p.Valid() && i < |base.keys| && WorkInBase(base, Work(base.keys)[2 * i..])
    ensures WorkInBase(base, RoleWork(base.keys[i])) && WorkInBase(base, Work(base.keys)[2 * i + 2..])
    ensures Regenerate(alg, base, p, Work(base.keys)[2 * i..], lightBg, darkBg) ==
      match Regenerate(alg, base, p, RoleWork(base.keys[i]), lightBg, darkBg)
      case Err(e) => Err(e)
      case Ok(p1) => Regenerate(alg, base, p1, Work(base.keys)[2 * i + 2..], lightBg, darkBg)
  {
    var work := Work(base.keys);
    WorkOfRole(base.keys, i);
    RegenAppend(alg, base, p, RoleWork(base.keys[i]), work[2 * i + 2..], lightBg, darkBg);
  }

  /** One round of the outer loop keeps its state. */
  lemma RegeneratedNext(alg: ColorAlgebra, base: Slots, p0: Privates, p: Privates, i: nat, p1: Privates, lightBg: string, darkBg: string)
    requires base.Valid() && p0.Valid() && i < |base.keys|
    requires RegeneratedUpTo(alg, base, p0, p, i, lightBg, darkBg)
    ensures WorkInBase(base, Work(base.keys))
    ensures Regenerate(alg, base, p, RoleWork(base.keys[i]), lightBg, darkBg).Err? ==>
      Regenerate(alg, base, p0, Work(base.keys), lightBg, darkBg) == Regenerate(alg, base, p, RoleWork(base.keys[i]), lightBg, darkBg)
    ensures Regenerate(alg, base, p, RoleWork(base.keys[i]), lightBg, darkBg) == Ok(p1) ==>
      RegeneratedUpTo(alg, base, p0, p1, i + 1, lightBg, darkBg)
  {
    RegenerateSplit(alg, base, p, i, lightBg, darkBg);
  }

  /** The regeneration loops of `updateUtilityColor`. */
  method RegenerateAll(alg: ColorAlgebra, base: Slots, p0: Privates, lightBg: string, darkBg: string)
      returns (r: Result<Privates>)
    requires base.Valid() && p0.Valid()
    ensures WorkInBase(base, Work(base.keys))
    ensures r == Regenerate(alg, base, p0, Work(base.keys), lightBg, darkBg)
  {
    WorkOfBase(base);
    assert Work(base.keys)[0..] == Work(base.keys);
    var p := p0;
    for i := 0 to |base.keys|
      invariant RegeneratedUpTo(alg, base, p0, p, i, lightBg, darkBg)
    {
      var step := RegenerateToken(alg, base, p, base.keys[i], lightBg, darkBg);
      RegeneratedNext(alg, base, p0, p, i, if step.Ok? then step.value else p, lightBg, darkBg);
      if step.Err? {
        return step;
      }
      p := step.value;
    }
    assert Work(base.keys)[2 * |base.keys|..] == [];
    return Ok(p);
  }

  method UpdateUtilityColor(alg: ColorAlgebra, theme: Theme, v: Variant, role: string, value: string) returns (r: Result<Theme>)
    requires theme.baseColors.Valid() && theme.privateColors.Valid()
    ensures r == UpdateUtilitySpec(alg, theme, v, role, value)
  {
    if role !in theme.utilityColors.items {
      return Err(UndefinedSlot(role));
    }
    var t := theme;
    t := t.(utilityColors := t.utilityColors.Put(role, t.utilityColors.items[role].Set(v, Plain(value))));
    if role == BACKGROUND {
      var bg := t.utilityColors.items[BACKGROUND];
      var p := RegenerateAll(alg, t.baseColors, t.privateColors, bg.light.value, bg.dark.value);
      if p.Err? {
        return Err(p.error);
      }
      t := t.(privateColors := p.value);
    }
    return Ok(t);
  }

  /** Every visited token has a private entry (among `keys`) and every ramp computed succeeds. */
  predicate Feasible(alg: ColorAlgebra, base: Slots, keys: set<string>, work: seq<(string, Variant)>, lightBg: string, darkBg: string)
    requires WorkInBase(base, work)
  {
    forall i | 0 <= i < |work| :: work[i].0 in keys &&
      Ramp(alg, work[i].1, work[i].0, base.items[work[i].0].Get(work[i].1).value, lightBg, darkBg).Ok?
  }

  lemma FeasibleCons(alg: ColorAlgebra, base: Slots, keys: set<string>, work: seq<(string, Variant)>, lightBg: string, darkBg: string)
    requires WorkInBase(base, work) && |work| > 0
    ensures WorkInBase(base, work[1..])
    ensures Feasible(alg, base, keys, work, lightBg, darkBg) <==>
      work[0].0 in keys && Ramp(alg, work[0].1, work[0].0, base.items[work[0].0].Get(work[0].1).value, lightBg, darkBg).Ok? &&
      Feasible(alg, base, keys, work[1..], lightBg, darkBg)
  {
    assert forall i | 1 <= i < |work| :: work[i] == work[1..][i - 1];
  }

  /** The regeneration succeeds exactly when every visited token has a private
      entry and every ramp it computes succeeds. */
  lemma {:induction false} RegenerateOutcome(alg: ColorAlgebra, base: Slots, p: Privates, work: seq<(string, Variant)>, lightBg: string, darkBg: string)
    requires WorkInBase(base, work) && p.Valid()
    ensures Regenerate(alg, base, p, work, lightBg, darkBg).Ok? <==> Feasible(alg, base, p.items.Keys, work, lightBg, darkBg)
    decreases |work|
  {
    if |work| > 0 {
      FeasibleCons(alg, base, p.items.Keys, work, lightBg, darkBg);
      var step := RegenStep(alg, base, p, work[0].0, work[0].1, lightBg, darkBg);
      if step.Ok? {
        RegenerateOutcome(alg, base, step.value, work[1..], lightBg, darkBg);
      }
    }
  }

  /** After a successful regeneration every visited slot holds its ramp and
      every other slot is as before. */
  lemma {:induction false} RegenerateValues(alg: ColorAlgebra, base: Slots, p: Privates, work: seq<(string, Variant)>, lightBg: string, darkBg: string)
    requires WorkInBase(base, work) && p.Valid()
    requires Regenerate(alg, base, p, work, lightBg, darkBg).Ok?
    ensures var p' := Regenerate(alg, base, p, work, lightBg, darkBg).value;
      forall k, w | k in p.items ::
        if (k, w) in work then Ramp(alg, w, k, base.items[k].Get(w).value, lightBg, darkBg) == Ok(p'.items[k].Get(w))
        else p'.items[k].Get(w) == p.items[k].Get(w)
    decreases |work|
  {
    if |work| > 0 {
      var k0, w0 := work[0].0, work[0].1;
      var p1 := RegenStep(alg, base, p, k0, w0, lightBg, darkBg).value;
      RegenStepValues(alg, base, p, k0, w0, lightBg, darkBg);
      RegenerateValues(alg, base, p1, work[1..], lightBg, darkBg);
      var p' := Regenerate(alg, base, p, work, lightBg, darkBg).value;
      assert work == [work[0]] + work[1..];
      forall k, w | k in p.items
        ensures if (k, w) in work then Ramp(alg, w, k, base.items[k].Get(w).value, lightBg, darkBg) == Ok(p'.items[k].Get(w))
          else p'.items[k].Get(w) == p.items[k].Get(w)
      {
        assert (k, w) in work <==> (k, w) == (k0, w0) || (k, w) in work[1..];
      }
    }
  }

  /** One write changes the visited slot to its ramp and nothing else. */
  lemma RegenStepValues(alg: ColorAlgebra, base: Slots, p: Privates, k0: string, w0: Variant, lightBg: string, darkBg: string)
    requires k0 in base.items && p.Valid() && RegenStep(alg, base, p, k0, w0, lightBg, darkBg).Ok?
    ensures var p1 := RegenStep(alg, base, p, k0, w0, lightBg, darkBg).value;
      Ramp(alg, w0, k0, base.items[k0].Get(w0).value, lightBg, darkBg) == Ok(p1.items[k0].Get(w0)) &&
      forall k, w | k in p.items && (k, w) != (k0, w0) :: p1.items[k].Get(w) == p.items[k].Get(w)
  {
  }

  /** Regeneration aborts when a base colour has no private entry. */
  lemma RegenerateNeedsPrivates(alg: ColorAlgebra, base: Slots, p: Privates, lightBg: string, darkBg: string, k: string)
    requires base.Valid() && p.Valid() && k in base.items && k !in p.items
    ensures WorkInBase(base, Work(base.keys))
    ensures Regenerate(alg, base, p, Work(base.keys), lightBg, darkBg).Err?
  {
    WorkOfBase(base);
    var work := Work(base.keys);
    var i :| 0 <= i < |work| && work[i] == (k, Light);
    RegenerateOutcome(alg, base, p, work, lightBg, darkBg);
  }

  /** Updating a role writes `{value}` to that variant only and leaves every
      other role, the base colours, typography and borders alone; the private
      colours change only when the role is `base-background`. */
  lemma UpdateUtilityFrame(alg: ColorAlgebra, theme: Theme, v: Variant, role: string, value: string)
    requires theme.Valid()
    ensures var r := UpdateUtilitySpec(alg, theme, v, role, value);
      r.Ok? ==>
        var t := r.value;
        role in t.utilityColors.items && t.utilityColors.items[role].Get(v) == Plain(value) &&
        (forall w | w != v :: t.utilityColors.items[role].Get(w) == theme.utilityColors.items[role].Get(w)) &&
        (forall k | k != role && k in theme.utilityColors.items :: k in t.utilityColors.items && t.utilityColors.items[k] == theme.utilityColors.items[k]) &&
        t.utilityColors.keys == theme.utilityColors.keys &&
        t.baseColors == theme.baseColors && t.typography == theme.typography && t.borders == theme.borders &&
        t.privateColors.keys == theme.privateColors.keys &&
        (role != BACKGROUND ==> t.privateColors == theme.privateColors)
  {
  }

  /** A missing role fails; so does a `base-background` update while some base
      colour has no private entry. */
  lemma UpdateUtilityErrors(alg: ColorAlgebra, theme: Theme, v: Variant, role: string, value: string)
    requires theme.Valid()
    ensures role !in theme.utilityColors.items ==> UpdateUtilitySpec(alg, theme, v, role, value) == Err(UndefinedSlot(role))
    ensures role == BACKGROUND && (exists k :: k in theme.baseColors.items && k !in theme.privateColors.items) ==>
      UpdateUtilitySpec(alg, theme, v, role, value).Err?
  {
    if role == BACKGROUND && role in theme.utilityColors.items {
      if k :| k in theme.baseColors.items && k !in theme.privateColors.items {
        var u := theme.utilityColors.Put(role, theme.utilityColors.items[role].Set(v, Plain(value)));
        var bg := u.items[BACKGROUND];
        RegenerateNeedsPrivates(alg, theme.baseColors, theme.privateColors, bg.light.value, bg.dark.value, k);
      }
    }
  }

  // ---------------------------------------------------------------------------
  // The ramp invariant: private colours are the ramps of the base colours

  /** Every base colour has a private entry holding its two ramps, mixed
      toward the current `base-background` values. */
  ghost predicate Consistent(alg: ColorAlgebra, theme: Theme) {
    BACKGROUND in theme.utilityColors.items &&
    var bg := theme.utilityColors.items[BACKGROUND];
    forall k | k in theme.baseColors.items ::
      k in theme.privateColors.items &&
      BaseRamps(alg, theme.baseColors.items[k], k, bg.light.value, bg.dark.value) == Ok(theme.privateColors.items[k])
  }

  /** Generating every ramp toward the theme's own background establishes the invariant. */
  lemma GeneratedConsistent(alg: ColorAlgebra, theme: Theme)
    requires theme.baseColors.Valid() && BACKGROUND in theme.utilityColors.items
    requires var bg := theme.utilityColors.items[BACKGROUND];
      GenerateForBaseSpec(alg, theme.baseColors, bg.light.value, bg.dark.value).Ok?
    ensures var bg := theme.utilityColors.items[BACKGROUND];
      Consistent(alg, theme.(privateColors := GenerateForBaseSpec(alg, theme.baseColors, bg.light.value, bg.dark.value).value))
  {
  }

  /** Updating an existing base colour (or writing both variants of any)
      preserves the invariant. */
  lemma UpdateBaseConsistent(alg: ColorAlgebra, theme: Theme, token: string, u: BaseValue)
    requires Consistent(alg, theme)
    requires u.OneVariant? ==> token in theme.baseColors.items
    requires UpdateBaseSpec(alg, theme, token, u).Ok?
    ensures Consistent(alg, UpdateBaseSpec(alg, theme, token, u).value)
  {
    var t := UpdateBaseSpec(alg, theme, token, u).value;
    var bg := theme.utilityColors.items[BACKGROUND];
    UpdateBaseFrame(alg, theme, token, u);
    if u.OneVariant? {
      var other := if u.v == Light then Dark else Light;
      UpdateOneVariant(alg, theme, token, u.v, u.value, other);
      var x, s := t.baseColors.items[token], t.privateColors.items[token];
      assert x.Get(Light).value == x.light.value && x.Get(Dark).value == x.dark.value;
      assert s == Themized(s.Get(Light), s.Get(Dark));
    }
  }

  /** Updating a utility role preserves the invariant: a `base-background`
      update regenerates every ramp toward the new backgrounds. */
  lemma UpdateUtilityConsistent(alg: ColorAlgebra, theme: Theme, v: Variant, role: string, value: string)
    requires theme.Valid()
    requires Consistent(alg, theme)
    requires UpdateUtilitySpec(alg, theme, v, role, value).Ok?
    ensures Consistent(alg, UpdateUtilitySpec(alg, theme, v, role, value).value)
  {
    var t := UpdateUtilitySpec(alg, theme, v, role, value).value;
    UpdateUtilityFrame(alg, theme, v, role, value);
    if role == BACKGROUND {
      var bg := t.utilityColors.items[BACKGROUND];
      var work := Work(theme.baseColors.keys);
      WorkOfBase(theme.baseColors);
      RegenerateValues(alg, theme.baseColors, theme.privateColors, work, bg.light.value, bg.dark.value);
      forall k | k in t.baseColors.items
        ensures k in t.privateColors.items
        ensures BaseRamps(alg, t.baseColors.items[k], k, bg.light.value, bg.dark.value) == Ok(t.privateColors.items[k])
      {
        assert (k, Light) in work && (k, Dark) in work;
        var s := t.privateColors.items[k];
        assert s == Themized(s.Get(Light), s.Get(Dark));
      }
    }
  }

  /** Removing a base colour preserves the invariant. */
  lemma RemoveConsistent(alg: ColorAlgebra, theme: Theme, token: string)
    requires Consistent(alg, theme)
    ensures Consistent(alg, RemoveSpec(theme, token))
  {
  }
}
