/** The utility colour roles (`text-primary`, `base-background`, ...): the
    closed set of names a utility colour slot can have. */
module Roles {
  import opened Common
  import Dicts

  /** The text roles, written as the blank-line separated groups of their declaration. */
  const TEXT_ROLES: seq<string> :=
    TEXT_MAIN + TEXT_STATUS + TEXT_HEAVY + TEXT_BRAND + TEXT_DARK + TEXT_LIGHT + TEXT_INVERTED

  const TEXT_MAIN: seq<string> := ["text-primary", "text-complementary", "text-secondary", "text-hint"]

  const TEXT_STATUS: seq<string> := [
    "text-info", "text-positive", "text-warning", "text-danger", "text-utility", "text-misc"
  ]

  const TEXT_HEAVY: seq<string> := [
    "text-info-heavy", "text-positive-heavy", "text-warning-heavy", "text-danger-heavy",
    "text-utility-heavy", "text-misc-heavy"
  ]

  const TEXT_BRAND: seq<string> := [
    "text-brand", "text-brand-heavy", "text-brand-contrast", "text-link", "text-link-hover",
    "text-link-visited", "text-link-visited-hover"
  ]

  const TEXT_DARK: seq<string> := [
    "text-dark-primary", "text-dark-complementary", "text-dark-secondary", "text-dark-hint"
  ]

  const TEXT_LIGHT: seq<string> := [
    "text-light-primary", "text-light-complementary", "text-light-secondary", "text-light-hint"
  ]

  const TEXT_INVERTED: seq<string> := [
    "text-inverted-primary", "text-inverted-complementary", "text-inverted-secondary",
    "text-inverted-hint"
  ]

  /** The base roles, written as the blank-line separated groups of their declaration. */
  const BASE_ROLES: seq<string> :=
    BASE_GENERIC + BASE_BRAND + BASE_INFO + BASE_POSITIVE + BASE_WARNING + BASE_DANGER + BASE_UTILITY + BASE_NEUTRAL + BASE_MISC + BASE_LIGHT + BASE_FLOAT

  const BASE_GENERIC: seq<string> := [
    "base-background", "base-generic", "base-generic-hover", "base-generic-medium",
    "base-generic-medium-hover", "base-generic-accent", "base-generic-accent-disabled",
    "base-generic-ultralight", "base-simple-hover", "base-simple-hover-solid"
  ]

  const BASE_BRAND: seq<string> := [
    "base-brand", "base-brand-hover", "base-selection", "base-selection-hover"
  ]

  const BASE_INFO: seq<string> := [
    "base-info-light", "base-info-light-hover", "base-info-medium", "base-info-medium-hover",
    "base-info-heavy", "base-info-heavy-hover"
  ]

  const BASE_POSITIVE: seq<string> := [
    "base-positive-light", "base-positive-light-hover", "base-positive-medium",
    "base-positive-medium-hover", "base-positive-heavy", "base-positive-heavy-hover"
  ]

  const BASE_WARNING: seq<string> := [
    "base-warning-light", "base-warning-light-hover", "base-warning-medium",
    "base-warning-medium-hover", "base-warning-heavy", "base-warning-heavy-hover"
  ]

  const BASE_DANGER: seq<string> := [
    "base-danger-light", "base-danger-light-hover", "base-danger-medium",
    "base-danger-medium-hover", "base-danger-heavy", "base-danger-heavy-hover"
  ]

  const BASE_UTILITY: seq<string> := [
    "base-utility-light", "base-utility-light-hover", "base-utility-medium",
    "base-utility-medium-hover", "base-utility-heavy", "base-utility-heavy-hover"
  ]

  const BASE_NEUTRAL: seq<string> := [
    "base-neutral-light", "base-neutral-light-hover", "base-neutral-medium",
    "base-neutral-medium-hover", "base-neutral-heavy", "base-neutral-heavy-hover"
  ]

  const BASE_MISC: seq<string> := [
    "base-misc-light", "base-misc-light-hover", "base-misc-medium", "base-misc-medium-hover",
    "base-misc-heavy", "base-misc-heavy-hover"
  ]

  const BASE_LIGHT: seq<string> := [
    "base-light", "base-light-hover", "base-light-simple-hover", "base-light-disabled",
    "base-light-accent-disabled"
  ]

  const BASE_FLOAT: seq<string> := [
    "base-float", "base-float-hover", "base-float-medium", "base-float-heavy", "base-float-accent",
    "base-float-accent-hover", "base-float-announcement", "base-modal"
  ]

  const LINE_ROLES: seq<string> := [
    "line-generic", "line-generic-hover", "line-generic-active", "line-generic-accent",
    "line-generic-accent-hover", "line-generic-solid", "line-brand", "line-focus", "line-light",
    "line-info", "line-positive", "line-warning", "line-danger", "line-utility", "line-misc"
  ]

  const SFX_ROLES: seq<string> := [
    "sfx-veil", "sfx-shadow", "sfx-shadow-heavy", "sfx-shadow-light", "sfx-fade"
  ]

  const SYSTEM_ROLES: seq<string> := [
    "scroll-track", "scroll-handle", "scroll-handle-hover", "scroll-corner", "infographics-axis",
    "infographics-tooltip-bg"
  ]

  /** `UTILITY_COLORS`: the five role lists concatenated in this order. */
  const UTILITY_COLORS: seq<string> := TEXT_ROLES + BASE_ROLES + LINE_ROLES + SFX_ROLES + SYSTEM_ROLES

  /** `isUtilityColorToken`: `r` is one of `UTILITY_COLORS`, looked for one name at a time. */
  predicate IsRole(r: string) { Among(r, UTILITY_COLORS) }

  predicate Among(r: string, names: seq<string>)
    decreases |names|
  {
    |names| > 0 && (names[0] == r || Among(r, names[1..]))
  }

  lemma {:induction false} AmongIff(r: string, names: seq<string>)
    ensures Among(r, names) <==> r in names
    decreases |names|
  {
    if |names| > 0 {
      AmongIff(r, names[1..]);
      assert names == [names[0]] + names[1..];
    }
  }

  lemma IsRoleIff(r: string)
    ensures IsRole(r) <==> r in UTILITY_COLORS
  {
    AmongIff(r, UTILITY_COLORS);
  }

  // ---------------------------------------------------------------------------
  // Distinctness

  /** The declaration group a role name belongs to, read off a few of its characters. */
  function GroupOf(r: string): nat {
    if |r| < 7 then 15
    else if r[0] == 't' then 0
    else if r[0] == 'b' then
      if r[5] == 'b' then (if r[6] == 'a' then 1 else 2)
      else if r[5] == 'g' then 1
      else if r[5] == 's' then (if r[6] == 'i' then 1 else 2)
      else if r[5] == 'i' then 3
      else if r[5] == 'p' then 4
      else if r[5] == 'w' then 5
      else if r[5] == 'd' then 6
      else if r[5] == 'u' then 7
      else if r[5] == 'n' then 8
      else if r[5] == 'm' then (if r[6] == 'i' then 9 else 11)
      else if r[5] == 'l' then 10
      else 11
    else if r[0] == 'l' then 12
    else if r[0] == 's' && r[1] == 'f' then 13
    else 14
  }

  /** Every role of `g` carries a tag in `[lo, hi)`, does not begin with `p` and has no dot. */
  predicate TagsIn(g: seq<string>, lo: nat, hi: nat) {
    forall r | r in g :: lo <= GroupOf(r) < hi && |r| > 0 && r[0] != 'p' && '.' !in r
  }

  lemma TextRolesDistinctTagged()
    ensures Dicts.Distinct(TEXT_ROLES) && TagsIn(TEXT_ROLES, 0, 1)
  {
    TextDistinct();
    TextTags();
  }

  /** Every text group carries tag 0, so their concatenation does. */
  lemma TextTags()
    ensures TagsIn(TEXT_ROLES, 0, 1)
  {
    TextMainTagged(); TextStatusTagged(); TextHeavyTagged(); TextBrandTagged(); TextDarkTagged(); TextLightTagged(); TextInvertedTagged();
    var a := TEXT_MAIN;
    TagsJoin(a, TEXT_STATUS, 0, 1);
    a := a + TEXT_STATUS;
    TagsJoin(a, TEXT_HEAVY, 0, 1);
    a := a + TEXT_HEAVY;
    TagsJoin(a, TEXT_BRAND, 0, 1);
    a := a + TEXT_BRAND;
    TagsJoin(a, TEXT_DARK, 0, 1);
    a := a + TEXT_DARK;
    TagsJoin(a, TEXT_LIGHT, 0, 1);
    a := a + TEXT_LIGHT;
    TagsJoin(a, TEXT_INVERTED, 0, 1);
  }

  lemma TextMainTagged()
    ensures TagsIn(TEXT_MAIN, 0, 1)
  {
    TextMainFacts();
    Tags(TEXT_MAIN, 0);
  }

  lemma TextMainFacts()
    ensures forall r | r in TEXT_MAIN :: GroupOf(r) == 0
    ensures forall r | r in TEXT_MAIN :: |r| > 0 && r[0] != 'p' && '.' !in r
  {}

  lemma TextStatusTagged()
    ensures TagsIn(TEXT_STATUS, 0, 1)
  {
    TextStatusFacts();
    Tags(TEXT_STATUS, 0);
  }

  lemma TextStatusFacts()
    ensures forall r | r in TEXT_STATUS :: GroupOf(r) == 0
    ensures forall r | r in TEXT_STATUS :: |r| > 0 && r[0] != 'p' && '.' !in r
  {}

  lemma TextHeavyTagged()
    ensures TagsIn(TEXT_HEAVY, 0, 1)
  {
    TextHeavyFacts();
    Tags(TEXT_HEAVY, 0);
  }

  lemma TextHeavyFacts()
    ensures forall r | r in TEXT_HEAVY :: GroupOf(r) == 0
    ensures forall r | r in TEXT_HEAVY :: |r| > 0 && r[0] != 'p' && '.' !in r
  {}

  lemma TextBrandTagged()
    ensures TagsIn(TEXT_BRAND, 0, 1)
  {
    TextBrandFacts();
    Tags(TEXT_BRAND, 0);
  }

  lemma TextBrandFacts()
    ensures forall r | r in TEXT_BRAND :: GroupOf(r) == 0
    ensures forall r | r in TEXT_BRAND :: |r| > 0 && r[0] != 'p' && '.' !in r
  {}

  lemma TextDarkTagged()
    ensures TagsIn(TEXT_DARK, 0, 1)
  {
    TextDarkFacts();
    Tags(TEXT_DARK, 0);
  }

  lemma TextDarkFacts()
    ensures forall r | r in TEXT_DARK :: GroupOf(r) == 0
    ensures forall r | r in TEXT_DARK :: |r| > 0 && r[0] != 'p' && '.' !in r
  {}

  lemma TextLightTagged()
    ensures TagsIn(TEXT_LIGHT, 0, 1)
  {
    TextLightFacts();
    Tags(TEXT_LIGHT, 0);
  }

  lemma TextLightFacts()
    ensures forall r | r in TEXT_LIGHT :: GroupOf(r) == 0
    ensures forall r | r in TEXT_LIGHT :: |r| > 0 && r[0] != 'p' && '.' !in r
  {}

  lemma TextInvertedTagged()
    ensures TagsIn(TEXT_INVERTED, 0, 1)
  {
    TextInvertedFacts();
    Tags(TEXT_INVERTED, 0);
  }

  lemma TextInvertedFacts()
    ensures forall r | r in TEXT_INVERTED :: GroupOf(r) == 0
    ensures forall r | r in TEXT_INVERTED :: |r| > 0 && r[0] != 'p' && '.' !in r
  {}


  lemma TagsJoin(a: seq<string>, b: seq<string>, lo: nat, hi: nat)
    requires TagsIn(a, lo, hi) && TagsIn(b, lo, hi)
    ensures TagsIn(a + b, lo, hi)
  {}

  /** The text groups are each free of repeats and none repeats a role of the groups before it. */
  lemma TextDistinct()
    ensures Dicts.Distinct(TEXT_ROLES)
  {
    var a := TEXT_MAIN;
    TextMainFresh(); TextStatusFresh(); TextHeavyFresh(); TextBrandFresh(); TextDarkFresh(); TextLightFresh(); TextInvertedFresh();
    DistinctAppend(a, TEXT_STATUS);
    a := a + TEXT_STATUS;
    DistinctAppend(a, TEXT_HEAVY);
    a := a + TEXT_HEAVY;
    DistinctAppend(a, TEXT_BRAND);
    a := a + TEXT_BRAND;
    DistinctAppend(a, TEXT_DARK);
    a := a + TEXT_DARK;
    DistinctAppend(a, TEXT_LIGHT);
    a := a + TEXT_LIGHT;
    DistinctAppend(a, TEXT_INVERTED);
  }

  lemma TextStatusFresh()
    ensures Dicts.Distinct(TEXT_STATUS)
    ensures forall x | x in TEXT_MAIN :: x !in TEXT_STATUS
  {}

  lemma TextHeavyFresh()
    ensures Dicts.Distinct(TEXT_HEAVY)
    ensures forall x | x in TEXT_MAIN + TEXT_STATUS :: x !in TEXT_HEAVY
  {}

  lemma TextBrandFresh()
    ensures Dicts.Distinct(TEXT_BRAND)
    ensures forall x | x in TEXT_MAIN + TEXT_STATUS + TEXT_HEAVY :: x !in TEXT_BRAND
  {}

  lemma TextDarkFresh()
    ensures Dicts.Distinct(TEXT_DARK)
    ensures forall x | x in TEXT_MAIN + TEXT_STATUS + TEXT_HEAVY + TEXT_BRAND :: x !in TEXT_DARK
  {}

  lemma TextLightFresh()
    ensures Dicts.Distinct(TEXT_LIGHT)
    ensures forall x | x in TEXT_MAIN + TEXT_STATUS + TEXT_HEAVY + TEXT_BRAND + TEXT_DARK :: x !in TEXT_LIGHT
  {}

  lemma TextInvertedFresh()
    ensures Dicts.Distinct(TEXT_INVERTED)
    ensures forall x | x in TEXT_MAIN + TEXT_STATUS + TEXT_HEAVY + TEXT_BRAND + TEXT_DARK + TEXT_LIGHT :: x !in TEXT_INVERTED
  {}

  lemma TextMainFresh()
    ensures Dicts.Distinct(TEXT_MAIN)
  {}

  lemma BaseGenericDistinctTagged()
    ensures Dicts.Distinct(BASE_GENERIC) && TagsIn(BASE_GENERIC, 1, 2)
  {
    BaseGenericFacts();
    BaseGenericShape();
    Tags(BASE_GENERIC, 1);
  }

  lemma BaseGenericFacts()
    ensures Dicts.Distinct(BASE_GENERIC)
    ensures forall r | r in BASE_GENERIC :: GroupOf(r) == 1
  {}

  lemma BaseGenericShape()
    ensures forall r | r in BASE_GENERIC :: |r| > 0 && r[0] != 'p' && '.' !in r
  {}

  lemma BaseBrandDistinctTagged()
    ensures Dicts.Distinct(BASE_BRAND) && TagsIn(BASE_BRAND, 2, 3)
  {
    BaseBrandFacts();
    Tags(BASE_BRAND, 2);
  }

  lemma BaseBrandFacts()
    ensures Dicts.Distinct(BASE_BRAND)
    ensures forall r | r in BASE_BRAND :: GroupOf(r) == 2
    ensures forall r | r in BASE_BRAND :: |r| > 0 && r[0] != 'p' && '.' !in r
  {}

  lemma BaseInfoDistinctTagged()
    ensures Dicts.Distinct(BASE_INFO) && TagsIn(BASE_INFO, 3, 4)
  {
    BaseInfoFacts();
    Tags(BASE_INFO, 3);
  }

  lemma BaseInfoFacts()
    ensures Dicts.Distinct(BASE_INFO)
    ensures forall r | r in BASE_INFO :: GroupOf(r) == 3
    ensures forall r | r in BASE_INFO :: |r| > 0 && r[0] != 'p' && '.' !in r
  {}

  lemma BasePositiveDistinctTagged()
    ensures Dicts.Distinct(BASE_POSITIVE) && TagsIn(BASE_POSITIVE, 4, 5)
  {
    BasePositiveFacts();
    Tags(BASE_POSITIVE, 4);
  }

  lemma BasePositiveFacts()
    ensures Dicts.Distinct(BASE_POSITIVE)
    ensures forall r | r in BASE_POSITIVE :: GroupOf(r) == 4
    ensures forall r | r in BASE_POSITIVE :: |r| > 0 && r[0] != 'p' && '.' !in r
  {}

  lemma BaseWarningDistinctTagged()
    ensures Dicts.Distinct(BASE_WARNING) && TagsIn(BASE_WARNING, 5, 6)
  {
    BaseWarningFacts();
    BaseWarningShape();
    Tags(BASE_WARNING, 5);
  }

  lemma BaseWarningFacts()
    ensures Dicts.Distinct(BASE_WARNING)
    ensures forall r | r in BASE_WARNING :: GroupOf(r) == 5
  {}

  lemma BaseWarningShape()
    ensures forall r | r in BASE_WARNING :: |r| > 0 && r[0] != 'p' && '.' !in r
  {}

  lemma BaseDangerDistinctTagged()
    ensures Dicts.Distinct(BASE_DANGER) && TagsIn(BASE_DANGER, 6, 7)
  {
    BaseDangerFacts();
    Tags(BASE_DANGER, 6);
  }

  lemma BaseDangerFacts()
    ensures Dicts.Distinct(BASE_DANGER)
    ensures forall r | r in BASE_DANGER :: GroupOf(r) == 6
    ensures forall r | r in BASE_DANGER :: |r| > 0 && r[0] != 'p' && '.' !in r
  {}

  lemma BaseUtilityDistinctTagged()
    ensures Dicts.Distinct(BASE_UTILITY) && TagsIn(BASE_UTILITY, 7, 8)
  {
    BaseUtilityFacts();
    Tags(BASE_UTILITY, 7);
  }

  lemma BaseUtilityFacts()
    ensures Dicts.Distinct(BASE_UTILITY)
    ensures forall r | r in BASE_UTILITY :: GroupOf(r) == 7
    ensures forall r | r in BASE_UTILITY :: |r| > 0 && r[0] != 'p' && '.' !in r
  {}

  lemma BaseNeutralDistinctTagged()
    ensures Dicts.Distinct(BASE_NEUTRAL) && TagsIn(BASE_NEUTRAL, 8, 9)
  {
    BaseNeutralFacts();
    Tags(BASE_NEUTRAL, 8);
  }

  lemma BaseNeutralFacts()
    ensures Dicts.Distinct(BASE_NEUTRAL)
    ensures forall r | r in BASE_NEUTRAL :: GroupOf(r) == 8
    ensures forall r | r in BASE_NEUTRAL :: |r| > 0 && r[0] != 'p' && '.' !in r
  {}

  lemma BaseMiscDistinctTagged()
    ensures Dicts.Distinct(BASE_MISC) && TagsIn(BASE_MISC, 9, 10)
  {
    BaseMiscFacts();
    Tags(BASE_MISC, 9);
  }

  lemma BaseMiscFacts()
    ensures Dicts.Distinct(BASE_MISC)
    ensures forall r | r in BASE_MISC :: GroupOf(r) == 9
    ensures forall r | r in BASE_MISC :: |r| > 0 && r[0] != 'p' && '.' !in r
  {}

  lemma BaseLightDistinctTagged()
    ensures Dicts.Distinct(BASE_LIGHT) && TagsIn(BASE_LIGHT, 10, 11)
  {
    BaseLightFacts();
    BaseLightShape();
    Tags(BASE_LIGHT, 10);
  }

  lemma BaseLightFacts()
    ensures Dicts.Distinct(BASE_LIGHT)
    ensures forall r | r in BASE_LIGHT :: GroupOf(r) == 10
  {}

  lemma BaseLightShape()
    ensures forall r | r in BASE_LIGHT :: |r| > 0 && r[0] != 'p' && '.' !in r
  {}

  lemma BaseFloatDistinctTagged()
    ensures Dicts.Distinct(BASE_FLOAT) && TagsIn(BASE_FLOAT, 11, 12)
  {
    BaseFloatFacts();
    BaseFloatShape();
    Tags(BASE_FLOAT, 11);
  }

  lemma BaseFloatFacts()
    ensures Dicts.Distinct(BASE_FLOAT)
    ensures forall r | r in BASE_FLOAT :: GroupOf(r) == 11
  {}

  lemma BaseFloatShape()
    ensures forall r | r in BASE_FLOAT :: |r| > 0 && r[0] != 'p' && '.' !in r
  {}

  lemma LineRolesDistinctTagged()
    ensures Dicts.Distinct(LINE_ROLES) && TagsIn(LINE_ROLES, 12, 13)
  {
    LineRolesFacts();
    LineRolesShape();
    Tags(LINE_ROLES, 12);
  }

  lemma LineRolesFacts()
    ensures Dicts.Distinct(LINE_ROLES)
    ensures forall r | r in LINE_ROLES :: GroupOf(r) == 12
  {}

  lemma LineRolesShape()
    ensures forall r | r in LINE_ROLES :: |r| > 0 && r[0] != 'p' && '.' !in r
  {}

  lemma SfxRolesDistinctTagged()
    ensures Dicts.Distinct(SFX_ROLES) && TagsIn(SFX_ROLES, 13, 14)
  {
    SfxRolesFacts();
    Tags(SFX_ROLES, 13);
  }

  lemma SfxRolesFacts()
    ensures Dicts.Distinct(SFX_ROLES)
    ensures forall r | r in SFX_ROLES :: GroupOf(r) == 13
    ensures forall r | r in SFX_ROLES :: |r| > 0 && r[0] != 'p' && '.' !in r
  {}

  lemma SystemRolesDistinctTagged()
    ensures Dicts.Distinct(SYSTEM_ROLES) && TagsIn(SYSTEM_ROLES, 14, 15)
  {
    SystemRolesFacts();
    Tags(SYSTEM_ROLES, 14);
  }

  lemma SystemRolesFacts()
    ensures Dicts.Distinct(SYSTEM_ROLES)
    ensures forall r | r in SYSTEM_ROLES :: GroupOf(r) == 14
    ensures forall r | r in SYSTEM_ROLES :: |r| > 0 && r[0] != 'p' && '.' !in r
  {}


  lemma DistinctAppend(a: seq<string>, b: seq<string>)
    requires Dicts.Distinct(a) && Dicts.Distinct(b)
    requires forall x | x in a :: x !in b
    ensures Dicts.Distinct(a + b)
  {
    forall i, j | 0 <= i < j < |a + b| ensures (a + b)[i] != (a + b)[j] {
      if j >= |a| && i < |a| {
        assert (a + b)[i] in a && (a + b)[j] == b[j - |a|];
      }
    }
  }

  lemma Tags(g: seq<string>, k: nat)
    requires forall r | r in g :: GroupOf(r) == k
    requires forall r | r in g :: |r| > 0 && r[0] != 'p' && '.' !in r
    ensures TagsIn(g, k, k + 1)
  {}

  /** Two lists whose tags lie in adjacent ranges share no role. */
  lemma AppendTagged(a: seq<string>, b: seq<string>, lo: nat, mid: nat, hi: nat)
    requires Dicts.Distinct(a) && TagsIn(a, lo, mid)
    requires Dicts.Distinct(b) && TagsIn(b, mid, hi)
    requires lo <= mid <= hi
    ensures Dicts.Distinct(a + b) && TagsIn(a + b, lo, hi)
  {
    forall x | x in a ensures x !in b {
      assert GroupOf(x) < mid;
    }
    DistinctAppend(a, b);
  }

  lemma BaseChain(
    g1: seq<string>, g2: seq<string>, g3: seq<string>, g4: seq<string>, g5: seq<string>, g6: seq<string>,
    g7: seq<string>, g8: seq<string>, g9: seq<string>, g10: seq<string>, g11: seq<string>)
    requires Dicts.Distinct(g1) && TagsIn(g1, 1, 2)
    requires Dicts.Distinct(g2) && TagsIn(g2, 2, 3)
    requires Dicts.Distinct(g3) && TagsIn(g3, 3, 4)
    requires Dicts.Distinct(g4) && TagsIn(g4, 4, 5)
    requires Dicts.Distinct(g5) && TagsIn(g5, 5, 6)
    requires Dicts.Distinct(g6) && TagsIn(g6, 6, 7)
    requires Dicts.Distinct(g7) && TagsIn(g7, 7, 8)
    requires Dicts.Distinct(g8) && TagsIn(g8, 8, 9)
    requires Dicts.Distinct(g9) && TagsIn(g9, 9, 10)
    requires Dicts.Distinct(g10) && TagsIn(g10, 10, 11)
    requires Dicts.Distinct(g11) && TagsIn(g11, 11, 12)
    ensures Dicts.Distinct(g1 + g2 + g3 + g4 + g5 + g6 + g7 + g8 + g9 + g10 + g11)
    ensures TagsIn(g1 + g2 + g3 + g4 + g5 + g6 + g7 + g8 + g9 + g10 + g11, 1, 12)
  {
    var a := g1;
    AppendTagged(a, g2, 1, 2, 3);
    a := a + g2;
    AppendTagged(a, g3, 1, 3, 4);
    a := a + g3;
    AppendTagged(a, g4, 1, 4, 5);
    a := a + g4;
    AppendTagged(a, g5, 1, 5, 6);
    a := a + g5;
    AppendTagged(a, g6, 1, 6, 7);
    a := a + g6;
    AppendTagged(a, g7, 1, 7, 8);
    a := a + g7;
    AppendTagged(a, g8, 1, 8, 9);
    a := a + g8;
    AppendTagged(a, g9, 1, 9, 10);
    a := a + g9;
    AppendTagged(a, g10, 1, 10, 11);
    a := a + g10;
    AppendTagged(a, g11, 1, 11, 12);
    a := a + g11;
  }

  lemma BaseDistinct()
    ensures Dicts.Distinct(BASE_ROLES) && TagsIn(BASE_ROLES, 1, 12)
  {
    BaseGenericDistinctTagged();
    BaseBrandDistinctTagged();
    BaseInfoDistinctTagged();
    BasePositiveDistinctTagged();
    BaseWarningDistinctTagged();
    BaseDangerDistinctTagged();
    BaseUtilityDistinctTagged();
    BaseNeutralDistinctTagged();
    BaseMiscDistinctTagged();
    BaseLightDistinctTagged();
    BaseFloatDistinctTagged();
    BaseChain(BASE_GENERIC, BASE_BRAND, BASE_INFO, BASE_POSITIVE, BASE_WARNING, BASE_DANGER, BASE_UTILITY, BASE_NEUTRAL, BASE_MISC, BASE_LIGHT, BASE_FLOAT);
  }

  lemma RolesChain(t: seq<string>, b: seq<string>, l: seq<string>, f: seq<string>, y: seq<string>)
    requires Dicts.Distinct(t) && TagsIn(t, 0, 1)
    requires Dicts.Distinct(b) && TagsIn(b, 1, 12)
    requires Dicts.Distinct(l) && TagsIn(l, 12, 13)
    requires Dicts.Distinct(f) && TagsIn(f, 13, 14)
    requires Dicts.Distinct(y) && TagsIn(y, 14, 15)
    ensures Dicts.Distinct(t + b + l + f + y) && TagsIn(t + b + l + f + y, 0, 15)
  {
    AppendTagged(t, b, 0, 1, 12);
    AppendTagged(t + b, l, 0, 12, 13);
    AppendTagged(t + b + l, f, 0, 13, 14);
    AppendTagged(t + b + l + f, y, 0, 14, 15);
  }

  /** The role names are pairwise distinct, and none begins with `p`. */
  lemma RolesDistinct()
    ensures Dicts.Distinct(UTILITY_COLORS) && TagsIn(UTILITY_COLORS, 0, 15)
  {
    TextRolesDistinctTagged();
    BaseDistinct();
    LineRolesDistinctTagged();
    SfxRolesDistinctTagged();
    SystemRolesDistinctTagged();
    RolesChain(TEXT_ROLES, BASE_ROLES, LINE_ROLES, SFX_ROLES, SYSTEM_ROLES);
  }

  /** No role contains a dot, so roles survive inside dotted references. */
  lemma RoleHasNoDot(r: string)
    requires IsRole(r)
    ensures '.' !in r
  {
    IsRoleIff(r);
    RolesDistinct();
  }

  /** No role begins with `private`, so a utility variable never carries the private prefix. */
  lemma RolesNotPrivate(r: string)
    requires IsRole(r)
    ensures !StartsWith(r, "private")
  {
    IsRoleIff(r);
    RolesDistinct();
    NotPrivateIn(UTILITY_COLORS, r);
  }

  lemma NotPrivateIn(list: seq<string>, r: string)
    requires TagsIn(list, 0, 15) && r in list
    ensures !StartsWith(r, "private")
  {}
}
