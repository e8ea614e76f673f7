/** Which declarations `generateCSS` writes: for each loop of the generator,
    a declaration is in its output exactly when the source entry exists and no
    suppression rule of `ignoreDefaultValues` skips it. */
module CssEmission {
  import opened Common
  import opened Dicts
  import opened Shades
  import opened Themes
  import opened Typography
  import opened CssGenerate
  import opened CssCommon

  // ---------------------------------------------------------------------------
  // Private shades of the base tokens

  /** A shade is declared exactly when `order` lists it, the token's entry has
      it, and suppression does not find it equal to the default's shade. Only
      the walked token's shades are declared, and no gap. */
  lemma {:induction false} ShadeLinesIff(token: string, shades: PrivateShades, ds: Option<PrivateShades>, ignore: bool,
                                         order: seq<Shade>, tok: string, t: Shade, x: string)
    ensures Decl(ShadeOf(tok, t), x) in ShadeLines(token, shades, ds, ignore, order) <==>
      tok == token && t in order && t in shades && x == shades[t].value && !(ignore && ShadeIsDefault(ds, t, x))
    ensures Gap !in ShadeLines(token, shades, ds, ignore, order)
    decreases |order|
  {
    if |order| > 0 {
      var init := order[..|order| - 1];
      ShadeLinesIff(token, shades, ds, ignore, init, tok, t, x);
      assert order == init + [order[|order| - 1]];
    }
  }

  /** A shade declaration of `tok` is in the variant's base-colour lines exactly
      when `tok` is among the walked base tokens, is not skipped as a default
      token, has a private entry, and the shade is declared for it. */
  lemma {:induction false} BaseLinesIff(th: Theme, dflt: Theme, v: Variant, ignore: bool, bg: bool, order: seq<Shade>, n: nat,
                                        tok: string, t: Shade, x: string)
    requires th.baseColors.Listed() && n <= |th.baseColors.keys|
    ensures Decl(ShadeOf(tok, t), x) in BaseLines(th, dflt, v, ignore, bg, order, n) <==>
      tok in th.baseColors.keys[..n] && tok in th.baseColors.items &&
      !(ignore && TokenIsDefault(th, dflt, tok, v, bg)) && tok in th.privateColors.items &&
      Decl(ShadeOf(tok, t), x) in ShadeLines(tok, th.privateColors.items[tok].Get(v), DefaultShades(dflt, tok, v), ignore, order)
    decreases n
  {
    if n > 0 {
      var keys := th.baseColors.keys;
      var token := keys[n - 1];
      assert keys[..n] == keys[..n - 1] + [token];
      BaseLinesIff(th, dflt, v, ignore, bg, order, n - 1, tok, t, x);
      assert token in th.baseColors.items;
      if !(ignore && TokenIsDefault(th, dflt, token, v, bg)) && token in th.privateColors.items {
        ShadeLinesIff(token, th.privateColors.items[token].Get(v), DefaultShades(dflt, token, v), ignore, order, tok, t, x);
      }
    }
  }

  /** A private entry for a token that is not a base colour is never written. */
  lemma OrphanPrivateNeverEmitted(th: Theme, dflt: Theme, v: Variant, ignore: bool, bg: bool, order: seq<Shade>,
                                  tok: string, t: Shade, x: string)
    requires th.baseColors.Listed()
    requires tok !in th.baseColors.items
    ensures Decl(ShadeOf(tok, t), x) !in BaseLines(th, dflt, v, ignore, bg, order, |th.baseColors.keys|)
  {
    BaseLinesIff(th, dflt, v, ignore, bg, order, |th.baseColors.keys|, tok, t, x);
  }

  /** The token-level rule alone: with suppression, a base token whose value and
      background equal the default's writes none of its shades. */
  lemma DefaultTokenSkipped(th: Theme, dflt: Theme, v: Variant, bg: bool, order: seq<Shade>, tok: string, t: Shade, x: string)
    requires th.baseColors.Listed()
    requires tok in th.baseColors.items && TokenIsDefault(th, dflt, tok, v, bg)
    ensures Decl(ShadeOf(tok, t), x) !in BaseLines(th, dflt, v, true, bg, order, |th.baseColors.keys|)
  {
    BaseLinesIff(th, dflt, v, true, bg, order, |th.baseColors.keys|, tok, t, x);
  }

  /** The shade-level rule alone: with suppression, a shade equal to the
      default's shade is not written. */
  lemma DefaultShadeSkipped(th: Theme, dflt: Theme, v: Variant, bg: bool, order: seq<Shade>, tok: string, t: Shade)
    requires th.baseColors.Listed()
    requires tok in th.privateColors.items && t in th.privateColors.items[tok].Get(v)
    requires ShadeIsDefault(DefaultShades(dflt, tok, v), t, th.privateColors.items[tok].Get(v)[t].value)
    ensures Decl(ShadeOf(tok, t), th.privateColors.items[tok].Get(v)[t].value) !in
      BaseLines(th, dflt, v, true, bg, order, |th.baseColors.keys|)
  {
    var x := th.privateColors.items[tok].Get(v)[t].value;
    BaseLinesIff(th, dflt, v, true, bg, order, |th.baseColors.keys|, tok, t, x);
    ShadeLinesIff(tok, th.privateColors.items[tok].Get(v), DefaultShades(dflt, tok, v), true, order, tok, t, x);
  }

  // ---------------------------------------------------------------------------
  // Utility roles

  /** The role walk succeeds exactly when the default has a slot for every walked role. */
  lemma {:induction false} RoleLinesOk(th: Theme, dflt: Theme, v: Variant, ignore: bool, n: nat)
    requires th.utilityColors.Listed() && n <= |th.utilityColors.keys|
    ensures RoleLines(th, dflt, v, ignore, n).Ok? <==>
      forall i | 0 <= i < n :: th.utilityColors.keys[i] in dflt.utilityColors.items
    decreases n
  {
    if n > 0 {
      RoleLinesOk(th, dflt, v, ignore, n - 1);
    }
  }

  /** `keys[i]` is the first of `keys` without a slot in `slots`. */
  predicate FirstMissing<V>(keys: seq<string>, slots: map<string, V>, i: nat) {
    i < |keys| && keys[i] !in slots && forall j | 0 <= j < i :: keys[j] in slots
  }

  /** A failing role walk names the first walked role the default has no slot for. */
  lemma {:induction false} RoleLinesErr(th: Theme, dflt: Theme, v: Variant, ignore: bool, n: nat)
    requires th.utilityColors.Listed() && n <= |th.utilityColors.keys|
    requires RoleLines(th, dflt, v, ignore, n).Err?
    ensures exists i | 0 <= i < n ::
      FirstMissing(th.utilityColors.keys, dflt.utilityColors.items, i) &&
      RoleLines(th, dflt, v, ignore, n) == Err(UndefinedSlot(th.utilityColors.keys[i]))
    decreases n
  {
    var keys, slots := th.utilityColors.keys, dflt.utilityColors.items;
    var before := RoleLines(th, dflt, v, ignore, n - 1);
    if before.Err? {
      RoleLinesErr(th, dflt, v, ignore, n - 1);
      var i :| 0 <= i < n - 1 && FirstMissing(keys, slots, i) && before == Err(UndefinedSlot(keys[i]));
      assert RoleLines(th, dflt, v, ignore, n) == before;
    } else {
      RoleLinesOk(th, dflt, v, ignore, n - 1);
      assert FirstMissing(keys, slots, n - 1);
    }
  }

  /** When the walk succeeds, a role is exported with colour `c` exactly when it
      is among the walked roles, `c` is its colour for the variant, and
      suppression does not find it equal to the default's. */
  lemma {:induction false} RoleLinesIff(th: Theme, dflt: Theme, v: Variant, ignore: bool, n: nat, role: string, c: ColorOptions)
    requires th.utilityColors.Listed() && n <= |th.utilityColors.keys|
    requires RoleLines(th, dflt, v, ignore, n).Ok?
    ensures Export(role, c) in RoleLines(th, dflt, v, ignore, n).value <==>
      role in th.utilityColors.keys[..n] && role in th.utilityColors.items && role in dflt.utilityColors.items &&
      c == th.utilityColors.items[role].Get(v) && !(ignore && RoleIsDefault(dflt.utilityColors.items[role].Get(v), c))
    decreases n
  {
    if n > 0 {
      var keys := th.utilityColors.keys;
      assert keys[..n] == keys[..n - 1] + [keys[n - 1]];
      RoleLinesOk(th, dflt, v, ignore, n);
      RoleLinesIff(th, dflt, v, ignore, n - 1, role, c);
      assert keys[n - 1] in th.utilityColors.items;
    }
  }

  // ---------------------------------------------------------------------------
  // Borders and typography

  /** A radius is declared exactly when its size is walked with that value and
      suppression does not find the default's equal; only radii are declared. */
  lemma {:induction false} BorderLinesIff(borders: Dict<string>, dflt: Dict<string>, ignore: bool, n: nat, size: string, x: string)
    requires borders.Listed() && n <= |borders.keys|
    ensures Decl(RadiusOf(size), x) in BorderLines(borders, dflt, ignore, n) <==>
      size in borders.keys[..n] && size in borders.items && x == borders.items[size] && !(ignore && BorderIsDefault(dflt, size, x))
    ensures forall l | l in BorderLines(borders, dflt, ignore, n) :: l.Decl? && l.subject.RadiusOf?
    decreases n
  {
    if n > 0 {
      var keys := borders.keys;
      assert keys[..n] == keys[..n - 1] + [keys[n - 1]];
      BorderLinesIff(borders, dflt, ignore, n - 1, size, x);
      assert keys[n - 1] in borders.items;
    }
  }

  /** A font family is declared, as `generateFontFamily` writes it, exactly when
      its key is walked and suppression does not find the default's equal. */
  lemma {:induction false} FontLinesIff(fonts: Dict<Font>, dflt: Dict<Font>, ignore: bool, n: nat, key: string, y: string)
    requires fonts.Listed() && n <= |fonts.keys|
    ensures Decl(FontOf(key), y) in FontLines(fonts, dflt, ignore, n) <==>
      key in fonts.keys[..n] && key in fonts.items && y == GenerateFontFamily(fonts.items[key]) &&
      !(ignore && FontIsDefault(dflt, key, fonts.items[key]))
    ensures forall l | l in FontLines(fonts, dflt, ignore, n) :: l.Decl? && l.subject.FontOf?
    decreases n
  {
    if n > 0 {
      var keys := fonts.keys;
      assert keys[..n] == keys[..n - 1] + [keys[n - 1]];
      FontLinesIff(fonts, dflt, ignore, n - 1, key, y);
      assert keys[n - 1] in fonts.items;
    }
  }

  /** A group property is declared exactly when it is walked and suppression
      does not find the default group's property equal. */
  lemma {:induction false} GroupPropertyLinesIff(g: string, o: GroupOptions, d: Option<GroupOptions>, ignore: bool, props: seq<string>,
                                                 g': string, p: string, x: string)
    ensures Decl(TextGroupOf(g', p), x) in GroupPropertyLines(g, o, d, ignore, props) <==>
      g' == g && p in props && x == GroupProperty(o, p) && !(ignore && d.Some? && SameGroupProperty(d.value, o, p))
    ensures forall l | l in GroupPropertyLines(g, o, d, ignore, props) :: l.Decl? && l.subject.TextGroupOf?
    decreases |props|
  {
    if props != [] {
      var init := props[..|props| - 1];
      assert props == init + [props[|props| - 1]];
      GroupPropertyLinesIff(g, o, d, ignore, init, g', p, x);
    }
  }

  /** A `font-weight` held as a string is declared under suppression even when
      the default holds a number, as the defaults do: the CSS parser stores
      `'400'`, and `isEqual(400, '400')` is false. */
  lemma StringWeightKept(g: string, o: GroupOptions, d: GroupOptions, props: seq<string>)
    requires "font-weight" in props
    requires o.fontWeight.WeightString? && d.fontWeight.WeightNumber?
    ensures !SameGroupProperty(d, o, "font-weight")
    ensures Decl(TextGroupOf(g, "font-weight"), o.fontWeight.s) in GroupPropertyLines(g, o, Some(d), true, props)
  {
    GroupPropertyLinesIff(g, o, Some(d), true, props, g, "font-weight", o.fontWeight.s);
  }

  /** A variant property is declared exactly when it is walked and suppression
      does not find the default variant's property equal. */
  lemma {:induction false} VariantPropertyLinesIff(w: string, o: VariantOptions, d: Option<VariantOptions>, ignore: bool, props: seq<string>,
                                                   w': string, p: string, x: string)
    ensures Decl(TextVariantOf(w', p), x) in VariantPropertyLines(w, o, d, ignore, props) <==>
      w' == w && p in props && x == VariantProperty(o, p) && !(ignore && d.Some? && VariantProperty(d.value, p) == x)
    ensures forall l | l in VariantPropertyLines(w, o, d, ignore, props) :: l.Decl? && l.subject.TextVariantOf?
    decreases |props|
  {
    if props != [] {
      var init := props[..|props| - 1];
      assert props == init + [props[|props| - 1]];
      VariantPropertyLinesIff(w, o, d, ignore, init, w', p, x);
    }
  }

  /** The group walk fails exactly when suppression is on, there are properties,
      and the default lacks one of the walked groups. */
  lemma {:induction false} GroupLinesOk(groups: Dict<GroupOptions>, dflt: Dict<GroupOptions>, ignore: bool, props: seq<string>, n: nat)
    requires groups.Listed() && n <= |groups.keys|
    ensures GroupLines(groups, dflt, ignore, props, n).Err? <==>
      ignore && |props| > 0 && exists i | 0 <= i < n :: groups.keys[i] !in dflt.items
    decreases n
  {
    if n > 0 {
      GroupLinesOk(groups, dflt, ignore, props, n - 1);
      assert groups.keys[n - 1] in groups.items;
    }
  }

  /** When the group walk succeeds, a group property is declared exactly when its
      group is walked and the property is declared for that group. */
  lemma {:induction false} GroupLinesIff(groups: Dict<GroupOptions>, dflt: Dict<GroupOptions>, ignore: bool, props: seq<string>, n: nat,
                                         g: string, p: string, x: string)
    requires groups.Listed() && n <= |groups.keys|
    requires GroupLines(groups, dflt, ignore, props, n).Ok?
    ensures Decl(TextGroupOf(g, p), x) in GroupLines(groups, dflt, ignore, props, n).value <==>
      g in groups.keys[..n] && g in groups.items && p in props && x == GroupProperty(groups.items[g], p) &&
      !(ignore && g in dflt.items && SameGroupProperty(dflt.items[g], groups.items[g], p))
    decreases n
  {
    if n > 0 {
      var keys := groups.keys;
      var h := keys[n - 1];
      assert keys[..n] == keys[..n - 1] + [h];
      assert h in groups.items;
      GroupLinesIff(groups, dflt, ignore, props, n - 1, g, p, x);
      GroupPropertyLinesIff(h, groups.items[h], Lookup(dflt, h), ignore, props, g, p, x);
    }
  }

  /** The variant walk fails exactly when suppression is on, there are
      properties, and the default lacks one of the walked variants. */
  lemma {:induction false} VariantLinesOk(variants: Dict<VariantOptions>, dflt: Dict<VariantOptions>, ignore: bool, props: seq<string>, n: nat)
    requires variants.Listed() && n <= |variants.keys|
    ensures VariantLines(variants, dflt, ignore, props, n).Err? <==>
      ignore && |props| > 0 && exists i | 0 <= i < n :: variants.keys[i] !in dflt.items
    decreases n
  {
    if n > 0 {
      VariantLinesOk(variants, dflt, ignore, props, n - 1);
      assert variants.keys[n - 1] in variants.items;
    }
  }

  /** When the variant walk succeeds, a variant property is declared exactly when
      its variant is walked and the property is declared for that variant. */
  lemma {:induction false} VariantLinesIff(variants: Dict<VariantOptions>, dflt: Dict<VariantOptions>, ignore: bool, props: seq<string>, n: nat,
                                           w: string, p: string, x: string)
    requires variants.Listed() && n <= |variants.keys|
    requires VariantLines(variants, dflt, ignore, props, n).Ok?
    ensures Decl(TextVariantOf(w, p), x) in VariantLines(variants, dflt, ignore, props, n).value <==>
      w in variants.keys[..n] && w in variants.items && p in props && x == VariantProperty(variants.items[w], p) &&
      !(ignore && w in dflt.items && VariantProperty(dflt.items[w], p) == x)
    decreases n
  {
    if n > 0 {
      var keys := variants.keys;
      var h := keys[n - 1];
      assert keys[..n] == keys[..n - 1] + [h];
      assert h in variants.items;
      VariantLinesIff(variants, dflt, ignore, props, n - 1, w, p, x);
      VariantPropertyLinesIff(h, variants.items[h], Lookup(dflt, h), ignore, props, w, p, x);
    }
  }

  // ---------------------------------------------------------------------------
  // Without suppression

  /** Without `ignoreDefaultValues` every shade of the ramp of every base token
      with a private entry is written. */
  lemma NoSuppressionShades(th: Theme, dflt: Theme, v: Variant, bg: bool, tok: string, t: Shade)
    requires th.Valid()
    ensures tok in th.baseColors.items && tok in th.privateColors.items && t in th.privateColors.items[tok].Get(v) && t in ALL_PRIVATE ==>
      Decl(ShadeOf(tok, t), th.privateColors.items[tok].Get(v)[t].value) in
        BaseLines(th, dflt, v, false, bg, ALL_PRIVATE, |th.baseColors.keys|)
  {
    if tok in th.baseColors.items && tok in th.privateColors.items && t in th.privateColors.items[tok].Get(v) && t in ALL_PRIVATE {
      var shades := th.privateColors.items[tok].Get(v);
      assert th.baseColors.keys[..|th.baseColors.keys|] == th.baseColors.keys;
      BaseLinesIff(th, dflt, v, false, bg, ALL_PRIVATE, |th.baseColors.keys|, tok, t, shades[t].value);
      ShadeLinesIff(tok, shades, DefaultShades(dflt, tok, v), false, ALL_PRIVATE, tok, t, shades[t].value);
    }
  }

  /** Without `ignoreDefaultValues` every role is written, the walk failing only
      on a role the default lacks. */
  lemma NoSuppressionRoles(th: Theme, dflt: Theme, v: Variant, role: string)
    requires th.Valid()
    requires forall r | r in th.utilityColors.items :: r in dflt.utilityColors.items
    ensures RoleLines(th, dflt, v, false, |th.utilityColors.keys|).Ok?
    ensures role in th.utilityColors.items ==>
      Export(role, th.utilityColors.items[role].Get(v)) in RoleLines(th, dflt, v, false, |th.utilityColors.keys|).value
  {
    var n := |th.utilityColors.keys|;
    RoleLinesOk(th, dflt, v, false, n);
    assert th.utilityColors.keys[..n] == th.utilityColors.keys;
    RoleLinesIff(th, dflt, v, false, n, role, if role in th.utilityColors.items then th.utilityColors.items[role].Get(v) else ColorOptions("", NoRef));
  }

  /** Without `ignoreDefaultValues` every border is written. */
  lemma NoSuppressionBorders(th: Theme, dflt: Theme, size: string)
    requires th.Valid()
    ensures size in th.borders.items ==>
      Decl(RadiusOf(size), th.borders.items[size]) in BorderLines(th.borders, dflt.borders, false, |th.borders.keys|)
  {
    assert th.borders.keys[..|th.borders.keys|] == th.borders.keys;
    BorderLinesIff(th.borders, dflt.borders, false, |th.borders.keys|, size, if size in th.borders.items then th.borders.items[size] else "");
  }

  /** Without `ignoreDefaultValues` every font family is written. */
  lemma NoSuppressionFonts(th: Theme, dflt: Theme, key: string)
    requires th.Valid()
    ensures key in th.typography.fontFamilies.items ==>
      Decl(FontOf(key), GenerateFontFamily(th.typography.fontFamilies.items[key])) in
        FontLines(th.typography.fontFamilies, dflt.typography.fontFamilies, false, |th.typography.fontFamilies.keys|)
  {
    var fonts := th.typography.fontFamilies;
    assert fonts.keys[..|fonts.keys|] == fonts.keys;
    if key in fonts.items {
      FontLinesIff(fonts, dflt.typography.fontFamilies, false, |fonts.keys|, key, GenerateFontFamily(fonts.items[key]));
    }
  }
}
