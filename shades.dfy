/** Private shade tokens (`1000-solid`, `500`, `opaque-150`, ...), the token
    lists each kind of base colour gets, and the step tables that drive the
    shade ramp. */
module Shades {
  import opened Common

  /** The numeric steps of the ramp, 20 to 1000. */
  datatype Step =
    | S20 | S50 | S70 | S100 | S150 | S200 | S250 | S300 | S350 | S400 | S450 | S500 | S550 | S600 | S650 | S700 | S750 | S800 | S850 | S900 | S950 | S1000
  {
    /** The step as a number: the key of its row in a step table. */
    function Value(): nat {
      match this
      case S20 => 20
      case S50 => 50
      case S70 => 70
      case S100 => 100
      case S150 => 150
      case S200 => 200
      case S250 => 250
      case S300 => 300
      case S350 => 350
      case S400 => 400
      case S450 => 450
      case S500 => 500
      case S550 => 550
      case S600 => 600
      case S650 => 650
      case S700 => 700
      case S750 => 750
      case S800 => 800
      case S850 => 850
      case S900 => 900
      case S950 => 950
      case S1000 => 1000
    }

    /** The step as written in token names. */
    function Digits(): string {
      match this
      case S20 => "20"
      case S50 => "50"
      case S70 => "70"
      case S100 => "100"
      case S150 => "150"
      case S200 => "200"
      case S250 => "250"
      case S300 => "300"
      case S350 => "350"
      case S400 => "400"
      case S450 => "450"
      case S500 => "500"
      case S550 => "550"
      case S600 => "600"
      case S650 => "650"
      case S700 => "700"
      case S750 => "750"
      case S800 => "800"
      case S850 => "850"
      case S900 => "900"
      case S950 => "950"
      case S1000 => "1000"
    }
  }

  /** The step a digit string spells, if any. */
  function StepFromDigits(d: string): Option<Step> {
    if d == "20" then Some(S20) else
    if d == "50" then Some(S50) else
    if d == "70" then Some(S70) else
    if d == "100" then Some(S100) else
    if d == "150" then Some(S150) else
    if d == "200" then Some(S200) else
    if d == "250" then Some(S250) else
    if d == "300" then Some(S300) else
    if d == "350" then Some(S350) else
    if d == "400" then Some(S400) else
    if d == "450" then Some(S450) else
    if d == "500" then Some(S500) else
    if d == "550" then Some(S550) else
    if d == "600" then Some(S600) else
    if d == "650" then Some(S650) else
    if d == "700" then Some(S700) else
    if d == "750" then Some(S750) else
    if d == "800" then Some(S800) else
    if d == "850" then Some(S850) else
    if d == "900" then Some(S900) else
    if d == "950" then Some(S950) else
    if d == "1000" then Some(S1000) else
    None
  }

  /** A private colour token: `<step>-solid`, a plain `<step>` (an alpha shade) or `opaque-150`. */
  datatype Shade = Solid(step: Step) | Alpha(step: Step) | Opaque150
  {
    /** The token as written in variable names and references. */
    function Name(): string {
      match this
      case Solid(n) => n.Digits() + "-solid"
      case Alpha(n) => n.Digits()
      case Opaque150 => "opaque-150"
    }
  }

  /** Every token the engine knows (`ALL_PRIVATE_VARIABLES`), in declaration order. */
  const ALL_PRIVATE: seq<Shade> := [
    Solid(S1000), Solid(S950), Solid(S900), Solid(S850), Solid(S800), Solid(S750), Solid(S700), Solid(S650),
    Solid(S600), Solid(S550), Solid(S500), Solid(S450), Solid(S400), Solid(S350), Solid(S300), Solid(S250),
    Solid(S200), Solid(S150), Solid(S100), Solid(S70), Solid(S50), Solid(S20),
    Alpha(S950), Alpha(S900), Alpha(S850), Alpha(S800), Alpha(S750), Alpha(S700), Alpha(S650), Alpha(S600),
    Alpha(S550), Alpha(S500), Alpha(S450), Alpha(S400), Alpha(S350), Alpha(S300), Alpha(S250), Alpha(S200),
    Alpha(S150), Alpha(S100), Alpha(S70), Alpha(S50), Alpha(S20),
    Opaque150
  ]

  /** `BASE_PRIVATE_SOLID_VARIABLES`. */
  const BASE_SOLID: seq<Shade> := [
    Solid(S1000), Solid(S950), Solid(S900), Solid(S850), Solid(S800), Solid(S750), Solid(S700), Solid(S650),
    Solid(S600), Solid(S550), Solid(S500), Solid(S450), Solid(S400), Solid(S350), Solid(S300), Solid(S250),
    Solid(S200), Solid(S150), Solid(S100), Solid(S50)
  ]

  /** `BASE_PRIVATE_VARIABLES`. */
  const BASE_PLAIN: seq<Shade> := [
    Alpha(S500), Alpha(S450), Alpha(S400), Alpha(S350), Alpha(S300), Alpha(S250), Alpha(S200), Alpha(S150),
    Alpha(S100), Alpha(S50)
  ]

  const LIGHT_WHITE_PLAIN: seq<Shade> := BASE_PLAIN + [
    Alpha(S950), Alpha(S900), Alpha(S850), Alpha(S800), Alpha(S750), Alpha(S700), Alpha(S650), Alpha(S600), Alpha(S70)
  ]

  const DARK_WHITE_PLAIN: seq<Shade> := LIGHT_WHITE_PLAIN + [Opaque150]

  const DARK_WHITE_SOLID: seq<Shade> := BASE_SOLID + [Solid(S70), Solid(S20)]

  const LIGHT_BLACK_SOLID: seq<Shade> := Filter(BASE_SOLID, Solid(S1000))

  const LIGHT_BLACK_PLAIN: seq<Shade> := [
    Alpha(S950), Alpha(S900), Alpha(S850), Alpha(S800), Alpha(S750), Alpha(S700), Alpha(S650), Alpha(S600)
  ] + BASE_PLAIN

  const DARK_BLACK_PLAIN: seq<Shade> := LIGHT_BLACK_PLAIN + [Alpha(S20)]

  /** `list.filter(v => v !== t)`. */
  function Filter(list: seq<Shade>, t: Shade): (r: seq<Shade>)
    ensures forall x :: x in r <==> x in list && x != t
  {
    if |list| == 0 then []
    else if list[0] == t then Filter(list[1..], t)
    else [list[0]] + Filter(list[1..], t)
  }

  predicate IsPrivateToken(t: Shade) { t in ALL_PRIVATE }

  // ---------------------------------------------------------------------------
  // Step tables

  /** One row of a step table: alpha `a` and mixing direction `c`. */
  datatype Row = Row(a: real, c: int)

  /** A step table: step number to row (`COLORS_MAP` and the `colorsMap` of each preset). */
  type Table = map<nat, Row>

  const COLORS_MAP: Table := map[
    50 := Row(0.1, -1), 100 := Row(0.15, -1), 150 := Row(0.2, -1), 200 := Row(0.3, -1),
    250 := Row(0.4, -1), 300 := Row(0.5, -1), 350 := Row(0.6, -1), 400 := Row(0.7, -1),
    450 := Row(0.8, -1), 500 := Row(0.9, -1), 550 := Row(1.0, 1), 600 := Row(0.9, 1),
    650 := Row(0.8, 1), 700 := Row(0.7, 1), 750 := Row(0.6, 1), 800 := Row(0.5, 1),
    850 := Row(0.4, 1), 900 := Row(0.3, 1), 950 := Row(0.2, 1), 1000 := Row(0.15, 1)
  ]

  /** `THEME_PRESET.light.white.colorsMap`. */
  const LIGHT_WHITE_TABLE: Table := map[
    50 := Row(0.05, 1), 70 := Row(0.07, 1), 100 := Row(0.1, 1), 150 := Row(0.15, 1), 200 := Row(0.2, 1),
    250 := Row(0.25, 1), 300 := Row(0.3, 1), 350 := Row(0.35, 1), 400 := Row(0.4, 1), 450 := Row(0.45, 1),
    500 := Row(0.5, 1), 550 := Row(0.55, 1), 600 := Row(0.6, 1), 650 := Row(0.65, 1), 700 := Row(0.7, 1),
    750 := Row(0.75, 1), 800 := Row(0.8, 1), 850 := Row(0.85, 1), 900 := Row(0.9, 1), 950 := Row(0.95, 1),
    1000 := Row(1.0, 1)
  ]

  /** `THEME_PRESET.light.black.colorsMap`. */
  const LIGHT_BLACK_TABLE: Table := map[
    50 := Row(0.05, -1), 70 := Row(0.07, -1), 100 := Row(0.1, -1), 150 := Row(0.15, -1), 200 := Row(0.2, -1),
    250 := Row(0.25, -1), 300 := Row(0.3, -1), 350 := Row(0.35, -1), 400 := Row(0.4, -1), 450 := Row(0.45, -1),
    500 := Row(0.5, -1), 550 := Row(0.55, -1), 600 := Row(0.6, -1), 650 := Row(0.65, -1), 700 := Row(0.7, -1),
    750 := Row(0.75, -1), 800 := Row(0.8, -1), 850 := Row(0.85, -1), 900 := Row(0.9, -1), 950 := Row(0.95, -1),
    1000 := Row(1.0, -1)
  ]

  /** `THEME_PRESET.dark.white.colorsMap`. */
  const DARK_WHITE_TABLE: Table := map[
    20 := Row(0.02, -1), 50 := Row(0.05, -1), 70 := Row(0.07, -1), 100 := Row(0.1, -1), 150 := Row(0.15, -1),
    200 := Row(0.2, -1), 250 := Row(0.25, -1), 300 := Row(0.3, -1), 350 := Row(0.35, -1), 400 := Row(0.4, -1),
    450 := Row(0.45, -1), 500 := Row(0.5, -1), 550 := Row(0.55, -1), 600 := Row(0.6, -1), 650 := Row(0.65, -1),
    700 := Row(0.7, -1), 750 := Row(0.75, -1), 800 := Row(0.8, -1), 850 := Row(0.85, -1), 900 := Row(0.9, -1),
    950 := Row(0.95, -1), 1000 := Row(1.0, -1)
  ]

  /** `THEME_PRESET.dark.black.colorsMap` (no step 70). */
  const DARK_BLACK_TABLE: Table := map[
    20 := Row(0.02, 1), 50 := Row(0.05, 1), 100 := Row(0.1, 1), 150 := Row(0.15, 1), 200 := Row(0.2, 1),
    250 := Row(0.25, 1), 300 := Row(0.3, 1), 350 := Row(0.35, 1), 400 := Row(0.4, 1), 450 := Row(0.45, 1),
    500 := Row(0.5, 1), 550 := Row(0.55, 1), 600 := Row(0.6, 1), 650 := Row(0.65, 1), 700 := Row(0.7, 1),
    750 := Row(0.75, 1), 800 := Row(0.8, 1), 850 := Row(0.85, 1), 900 := Row(0.9, 1), 950 := Row(0.95, 1),
    1000 := Row(1.0, 1)
  ]

  /** Token lists and step table for one variant of `white` or `black`. */
  datatype Preset = Preset(solids: seq<Shade>, plains: seq<Shade>, table: Table)

  datatype Anchor = White | Black

  function ThemePreset(v: Variant, who: Anchor): Preset {
    match (v, who)
    case (Light, White) => Preset([], LIGHT_WHITE_PLAIN, LIGHT_WHITE_TABLE)
    case (Light, Black) => Preset(LIGHT_BLACK_SOLID, LIGHT_BLACK_PLAIN, LIGHT_BLACK_TABLE)
    case (Dark, White) => Preset(DARK_WHITE_SOLID, DARK_WHITE_PLAIN, DARK_WHITE_TABLE)
    case (Dark, Black) => Preset([], DARK_BLACK_PLAIN, DARK_BLACK_TABLE)
  }

  // ---------------------------------------------------------------------------
  // Token names

  /** `PRIVATE_COLOR_TOKENS.has(s)`, with the token that `s` names: the first listed token of that name. */
  function FindShade(list: seq<Shade>, s: string): (r: Option<Shade>)
  {
    if |list| == 0 then None
    else if list[0].Name() == s then Some(list[0])
    else FindShade(list[1..], s)
  }

  function ShadeFromName(s: string): Option<Shade> {
    FindShade(ALL_PRIVATE, s)
  }

  predicate IsShadeName(s: string) { ShadeFromName(s).Some? }

  lemma {:induction false} FindShadeSpec(list: seq<Shade>, s: string)
    ensures FindShade(list, s).Some? ==> FindShade(list, s).value in list && FindShade(list, s).value.Name() == s
    ensures FindShade(list, s).None? ==> forall t | t in list :: t.Name() != s
  {
    if |list| > 0 && list[0].Name() != s {
      FindShadeSpec(list[1..], s);
      assert list == [list[0]] + list[1..];
    }
  }

  /** The lookup finds exactly the listed tokens, by their names. */
  lemma ShadeFromNameSpec(s: string)
    ensures ShadeFromName(s).Some? ==> ShadeFromName(s).value in ALL_PRIVATE && ShadeFromName(s).value.Name() == s
    ensures ShadeFromName(s).None? ==> forall t | t in ALL_PRIVATE :: t.Name() != s
  {
    FindShadeSpec(ALL_PRIVATE, s);
  }

  lemma ShadeFromNameSome(s: string)
    requires IsShadeName(s)
    ensures ShadeFromName(s).value in ALL_PRIVATE && ShadeFromName(s).value.Name() == s
  {
    FindShadeSpec(ALL_PRIVATE, s);
  }

  /** The two tokens whose names share the piece `150`. */
  lemma Tokens150()
    ensures Opaque150 in ALL_PRIVATE && Alpha(S150) in ALL_PRIVATE
    ensures Alpha(S150).Name() == "150" && Opaque150.Name() == "opaque-150"
  {
  }

  lemma NameNonEmpty(t: Shade)
    ensures |t.Name()| > 0
  {
    if t.Alpha? {
      StepDigits(t.step);
    }
  }

  /** Name lookup inverts `Name` on the known tokens. */
  lemma ShadeFromNameOfName(t: Shade)
    ensures ShadeFromName(t.Name()) == (if t in ALL_PRIVATE then Some(t) else None)
  {
    ShadeFromNameSpec(t.Name());
    var r := ShadeFromName(t.Name());
    if r.Some? {
      NameInjective(r.value, t);
    }
  }

  predicate AllDigits(s: string) { forall i | 0 <= i < |s| :: IsDigit(s[i]) }

  /** Step names are non-empty digit strings, read back by `StepFromDigits`, and
      they are the decimal renderings of the step numbers. */
  lemma StepDigits(n: Step)
    ensures |n.Digits()| > 0 && AllDigits(n.Digits())
    ensures StepFromDigits(n.Digits()) == Some(n)
    ensures n.Digits() == NatToString(n.Value())
  {
    match n
    case S20 => StepName20();
    case S50 => StepName50();
    case S70 => StepName70();
    case S100 => StepName100();
    case S150 => StepName150();
    case S200 => StepName200();
    case S250 => StepName250();
    case S300 => StepName300();
    case S350 => StepName350();
    case S400 => StepName400();
    case S450 => StepName450();
    case S500 => StepName500();
    case S550 => StepName550();
    case S600 => StepName600();
    case S650 => StepName650();
    case S700 => StepName700();
    case S750 => StepName750();
    case S800 => StepName800();
    case S850 => StepName850();
    case S900 => StepName900();
    case S950 => StepName950();
    case S1000 => StepName1000();
  }

  lemma StepName20() ensures NatToString(20) == "20" && StepFromDigits("20") == Some(S20) {}
  lemma StepName50() ensures NatToString(50) == "50" && StepFromDigits("50") == Some(S50) {}
  lemma StepName70() ensures NatToString(70) == "70" && StepFromDigits("70") == Some(S70) {}
  lemma StepName100() ensures NatToString(100) == "100" && StepFromDigits("100") == Some(S100) {}
  lemma StepName150() ensures NatToString(150) == "150" && StepFromDigits("150") == Some(S150) {}
  lemma StepName200() ensures NatToString(200) == "200" && StepFromDigits("200") == Some(S200) {}
  lemma StepName250() ensures NatToString(250) == "250" && StepFromDigits("250") == Some(S250) {}
  lemma StepName300() ensures NatToString(300) == "300" && StepFromDigits("300") == Some(S300) {}
  lemma StepName350() ensures NatToString(350) == "350" && StepFromDigits("350") == Some(S350) {}
  lemma StepName400() ensures NatToString(400) == "400" && StepFromDigits("400") == Some(S400) {}
  lemma StepName450() ensures NatToString(450) == "450" && StepFromDigits("450") == Some(S450) {}
  lemma StepName500() ensures NatToString(500) == "500" && StepFromDigits("500") == Some(S500) {}
  lemma StepName550() ensures NatToString(550) == "550" && StepFromDigits("550") == Some(S550) {}
  lemma StepName600() ensures NatToString(600) == "600" && StepFromDigits("600") == Some(S600) {}
  lemma StepName650() ensures NatToString(650) == "650" && StepFromDigits("650") == Some(S650) {}
  lemma StepName700() ensures NatToString(700) == "700" && StepFromDigits("700") == Some(S700) {}
  lemma StepName750() ensures NatToString(750) == "750" && StepFromDigits("750") == Some(S750) {}
  lemma StepName800() ensures NatToString(800) == "800" && StepFromDigits("800") == Some(S800) {}
  lemma StepName850() ensures NatToString(850) == "850" && StepFromDigits("850") == Some(S850) {}
  lemma StepName900() ensures NatToString(900) == "900" && StepFromDigits("900") == Some(S900) {}
  lemma StepName950() ensures NatToString(950) == "950" && StepFromDigits("950") == Some(S950) {}
  lemma StepName1000() ensures NatToString(1000) == "1000" && StepFromDigits("1000") == Some(S1000) {}

  lemma StepDigitsInjective(m: Step, n: Step)
    requires m.Digits() == n.Digits()
    ensures m == n
  {
    StepDigits(m);
    StepDigits(n);
  }

  /** Which kind of token a name spells, read off its first and last characters. */
  function NameKind(s: string): nat {
    if |s| > 0 && s[|s| - 1] == 'd' then 0 else if |s| > 0 && s[0] == 'o' then 2 else 1
  }

  function Kind(t: Shade): nat {
    match t
    case Solid(_) => 0
    case Alpha(_) => 1
    case Opaque150 => 2
  }

  lemma NameKindOf(t: Shade)
    ensures NameKind(t.Name()) == Kind(t)
  {
    match t
    case Solid(n) =>
    case Alpha(n) =>
      var d := n.Digits();
      StepDigits(n);
      assert IsDigit(d[0]) && IsDigit(d[|d| - 1]);
    case Opaque150 =>
  }

  /** Different tokens have different names. */
  lemma NameInjective(t1: Shade, t2: Shade)
    requires t1.Name() == t2.Name()
    ensures t1 == t2
  {
    NameKindOf(t1);
    NameKindOf(t2);
    match t1
    case Solid(a) =>
      var na, nb := a.Digits(), t2.step.Digits();
      assert na == t1.Name()[..|na|];
      assert nb == t2.Name()[..|nb|];
      StepDigitsInjective(a, t2.step);
    case Alpha(a) =>
      StepDigitsInjective(a, t2.step);
    case Opaque150 =>
  }

  /** The dash-separated pieces of every token name: `[step, "solid"]`, `[step]` or `["opaque", "150"]`. */
  lemma NamePieces(t: Shade)
    ensures Split(t.Name(), '-') ==
      match t
      case Solid(n) => [n.Digits(), "solid"]
      case Alpha(n) => [n.Digits()]
      case Opaque150 => ["opaque", "150"]
  {
    match t
    case Solid(n) => SolidPieces(n);
    case Alpha(n) =>
      StepDigits(n);
      DigitsHaveNoDash(n.Digits());
      SplitWithout(n.Digits(), '-');
    case Opaque150 => OpaquePieces();
  }

  lemma SolidPieces(n: Step)
    ensures Split(n.Digits() + "-solid", '-') == [n.Digits(), "solid"]
  {
    var d, b := n.Digits(), "solid";
    StepDigits(n);
    DigitsHaveNoDash(d);
    assert d + "-solid" == d + ['-'] + b;
    SplitTwo(d, '-', b);
  }

  lemma OpaquePieces()
    ensures Split("opaque-150", '-') == ["opaque", "150"]
  {
    var a, b := "opaque", "150";
    assert "opaque-150" == a + ['-'] + b;
    SplitTwo(a, '-', b);
  }

  lemma SplitTwo(a: string, c: char, b: string)
    requires c !in a && c !in b
    ensures Split(a + [c] + b, c) == [a, b]
  {
    SplitConcat(a, c, b);
    SplitWithout(a, c);
    SplitWithout(b, c);
  }

  lemma DigitsHaveNoDash(s: string)
    requires AllDigits(s)
    ensures '-' !in s && '.' !in s
  {
  }

  /** No token name contains a dot, so tokens survive inside dotted references. */
  lemma NameHasNoDot(t: Shade)
    ensures '.' !in t.Name()
  {
    match t
    case Solid(n) =>
      StepDigits(n);
      DigitsHaveNoDash(n.Digits());
      assert t.Name() == n.Digits() + "-solid";
    case Alpha(n) =>
      StepDigits(n);
      DigitsHaveNoDash(n.Digits());
    case Opaque150 =>
  }

  // ---------------------------------------------------------------------------
  // Facts about the token lists and tables

  /** 44 tokens: 22 solid tokens from 1000 down to 20, 21 plain tokens from 950
      down to 20, then `opaque-150`; hence pairwise distinct. */
  lemma AllPrivateShape()
    ensures |ALL_PRIVATE| == 44
    ensures forall i | 0 <= i < 22 :: ALL_PRIVATE[i].Solid?
    ensures forall i | 22 <= i < 43 :: ALL_PRIVATE[i].Alpha?
    ensures ALL_PRIVATE[43] == Opaque150
    ensures ALL_PRIVATE[0].step == S1000 && ALL_PRIVATE[21].step == S20
    ensures ALL_PRIVATE[22].step == S950 && ALL_PRIVATE[42].step == S20
    ensures forall i | 0 <= i < 21 :: ALL_PRIVATE[i].step.Value() > ALL_PRIVATE[i + 1].step.Value()
    ensures forall i | 22 <= i < 42 :: ALL_PRIVATE[i].step.Value() > ALL_PRIVATE[i + 1].step.Value()
  {
    AllPrivateKinds();
    AllPrivateDescending();
  }

  lemma AllPrivateKinds()
    ensures |ALL_PRIVATE| == 44
    ensures forall i | 0 <= i < 22 :: ALL_PRIVATE[i].Solid?
    ensures forall i | 22 <= i < 43 :: ALL_PRIVATE[i].Alpha?
    ensures ALL_PRIVATE[43] == Opaque150
    ensures ALL_PRIVATE[0].step == S1000 && ALL_PRIVATE[21].step == S20
    ensures ALL_PRIVATE[22].step == S950 && ALL_PRIVATE[42].step == S20
  {
  }

  lemma AllPrivateDescending()
    ensures |ALL_PRIVATE| == 44
    ensures forall i | 0 <= i < 21 :: ALL_PRIVATE[i].step.Value() > ALL_PRIVATE[i + 1].step.Value()
    ensures forall i | 22 <= i < 42 :: ALL_PRIVATE[i].step.Value() > ALL_PRIVATE[i + 1].step.Value()
  {
    SolidsDescending();
    AlphasDescending();
  }

  lemma SolidsDescending()
    ensures |ALL_PRIVATE| == 44
    ensures forall i | 0 <= i < 21 :: ALL_PRIVATE[i].step.Value() > ALL_PRIVATE[i + 1].step.Value()
  {
  }

  lemma AlphasDescending()
    ensures |ALL_PRIVATE| == 44
    ensures forall i | 22 <= i < 42 :: ALL_PRIVATE[i].step.Value() > ALL_PRIVATE[i + 1].step.Value()
  {
  }

  lemma AllPrivateDistinct()
    ensures forall i, j | 0 <= i < j < |ALL_PRIVATE| :: ALL_PRIVATE[i] != ALL_PRIVATE[j]
    ensures forall i, j | 0 <= i < j < |ALL_PRIVATE| :: ALL_PRIVATE[i].Name() != ALL_PRIVATE[j].Name()
  {
    AllPrivateShape();
    forall i, j | 0 <= i < j < |ALL_PRIVATE| ensures ALL_PRIVATE[i] != ALL_PRIVATE[j] {
      if j < 22 || 22 <= i < j < 43 {
        DescendingRun(i, j);
      }
    }
    forall i, j | 0 <= i < j < |ALL_PRIVATE| ensures ALL_PRIVATE[i].Name() != ALL_PRIVATE[j].Name() {
      if ALL_PRIVATE[i].Name() == ALL_PRIVATE[j].Name() {
        NameInjective(ALL_PRIVATE[i], ALL_PRIVATE[j]);
      }
    }
  }

  lemma {:induction false} DescendingRun(i: nat, j: nat)
    requires i < j < 22 || 22 <= i < j < 43
    ensures ALL_PRIVATE[i].step.Value() > ALL_PRIVATE[j].step.Value()
    decreases j - i
  {
    AllPrivateShape();
    if j > i + 1 {
      DescendingRun(i + 1, j);
    }
  }

  /** Every other token list only uses known tokens. */
  lemma ListsAreKnown()
    ensures forall t | t in BASE_SOLID :: t in ALL_PRIVATE
    ensures forall t | t in BASE_PLAIN :: t in ALL_PRIVATE
    ensures forall t | t in LIGHT_WHITE_PLAIN :: t in ALL_PRIVATE
    ensures forall t | t in DARK_WHITE_PLAIN :: t in ALL_PRIVATE
    ensures forall t | t in DARK_WHITE_SOLID :: t in ALL_PRIVATE
    ensures forall t | t in LIGHT_BLACK_SOLID :: t in ALL_PRIVATE
    ensures forall t | t in LIGHT_BLACK_PLAIN :: t in ALL_PRIVATE
    ensures forall t | t in DARK_BLACK_PLAIN :: t in ALL_PRIVATE
  {
  }

  /** The light-black solid list is the base solid list without `1000-solid`. */
  lemma LightBlackSolids()
    ensures LIGHT_BLACK_SOLID == BASE_SOLID[1..]
    ensures Solid(S1000) !in LIGHT_BLACK_SOLID
  {
    assert BASE_SOLID == [Solid(S1000)] + BASE_SOLID[1..];
    assert Solid(S1000) !in BASE_SOLID[1..];
    FilterAbsent(BASE_SOLID[1..], Solid(S1000));
  }

  lemma {:induction false} FilterAbsent(list: seq<Shade>, t: Shade)
    requires t !in list
    ensures Filter(list, t) == list
  {
    if |list| > 0 {
      FilterAbsent(list[1..], t);
      assert list == [list[0]] + list[1..];
    }
  }

  /** `COLORS_MAP`: mixing goes toward the variant's own background up to step 500
      and toward the other one from 550, and only step 550 is fully opaque. */
  lemma ColorsMapShape()
    ensures forall k | k in COLORS_MAP :: k <= 500 ==> COLORS_MAP[k].c == -1
    ensures forall k | k in COLORS_MAP :: k >= 550 ==> COLORS_MAP[k].c == 1
    ensures forall k | k in COLORS_MAP :: COLORS_MAP[k].a == 1.0 <==> k == 550
  {
  }

  /** Every row of a preset table has `a` = step / 1000 and the same `c`. */
  predicate PresetRows(t: Table, c: int) {
    forall k | k in t :: t[k].a == k as real / 1000.0 && t[k].c == c
  }

  lemma LightWhiteRows() ensures PresetRows(LIGHT_WHITE_TABLE, 1) {}
  lemma LightBlackRows() ensures PresetRows(LIGHT_BLACK_TABLE, -1) {}
  lemma DarkWhiteRows() ensures PresetRows(DARK_WHITE_TABLE, -1) {}
  lemma DarkBlackRows() ensures PresetRows(DARK_BLACK_TABLE, 1) {}

  /** In every white/black preset `a` is the step over 1000, and `c` is +1 for
      light-white and dark-black and -1 for light-black and dark-white. */
  lemma PresetShape(v: Variant, who: Anchor)
    ensures PresetRows(ThemePreset(v, who).table, if (v == Light) == (who == White) then 1 else -1)
  {
    LightWhiteRows();
    LightBlackRows();
    DarkWhiteRows();
    DarkBlackRows();
  }

  /** The table key each token reads its palette entry from. */
  predicate Covered(t: Shade, table: Table) {
    t.Opaque150? || t.step.Value() in table
  }

  /** All tokens of `list` are of the expected kind and have their row in `table`. */
  predicate ListCovered(list: seq<Shade>, table: Table, solid: bool) {
    forall t | t in list :: t.Solid? == solid && Covered(t, table)
  }

  /** `COLORS_MAP` has a row for every step but 20 and 70. */
  lemma ColorsMapSteps(n: Step)
    ensures n.Value() in COLORS_MAP <==> n != S20 && n != S70
  {
    match n
    case S20 => case S50 => case S70 => case S100 => case S150 => case S200 => case S250 =>
    case S300 => case S350 => case S400 => case S450 => case S500 => case S550 => case S600 =>
    case S650 => case S700 => case S750 => case S800 => case S850 => case S900 => case S950 => case S1000 =>
  }

  /** The light tables have a row for every step but 20. */
  lemma LightTableSteps(n: Step)
    ensures n.Value() in LIGHT_WHITE_TABLE <==> n != S20
  {
    match n
    case S20 => case S50 => case S70 => case S100 => case S150 => case S200 => case S250 =>
    case S300 => case S350 => case S400 => case S450 => case S500 => case S550 => case S600 =>
    case S650 => case S700 => case S750 => case S800 => case S850 => case S900 => case S950 => case S1000 =>
  }

  lemma LightBlackTableSteps(n: Step)
    ensures n.Value() in LIGHT_BLACK_TABLE <==> n != S20
  {
    match n
    case S20 => case S50 => case S70 => case S100 => case S150 => case S200 => case S250 =>
    case S300 => case S350 => case S400 => case S450 => case S500 => case S550 => case S600 =>
    case S650 => case S700 => case S750 => case S800 => case S850 => case S900 => case S950 => case S1000 =>
  }

  /** The dark-white table has a row for every step. */
  lemma DarkWhiteTableSteps(n: Step)
    ensures n.Value() in DARK_WHITE_TABLE
  {
    match n
    case S20 => case S50 => case S70 => case S100 => case S150 => case S200 => case S250 =>
    case S300 => case S350 => case S400 => case S450 => case S500 => case S550 => case S600 =>
    case S650 => case S700 => case S750 => case S800 => case S850 => case S900 => case S950 => case S1000 =>
  }

  /** The dark-black table has a row for every step but 70. */
  lemma DarkBlackTableSteps(n: Step)
    ensures n.Value() in DARK_BLACK_TABLE <==> n != S70
  {
    match n
    case S20 => case S50 => case S70 => case S100 => case S150 => case S200 => case S250 =>
    case S300 => case S350 => case S400 => case S450 => case S500 => case S550 => case S600 =>
    case S650 => case S700 => case S750 => case S800 => case S850 => case S900 => case S950 => case S1000 =>
  }

  lemma BaseCovered()
    ensures ListCovered(BASE_SOLID, COLORS_MAP, true) && ListCovered(BASE_PLAIN, COLORS_MAP, false)
  {
    BaseSolidCovered();
    BasePlainCovered();
  }

  lemma BaseSolidCovered()
    ensures ListCovered(BASE_SOLID, COLORS_MAP, true)
  {
    forall n: Step { ColorsMapSteps(n); }
  }

  lemma BasePlainCovered()
    ensures ListCovered(BASE_PLAIN, COLORS_MAP, false)
  {
    forall n: Step { ColorsMapSteps(n); }
  }

  lemma LightWhiteCovered()
    ensures ListCovered(LIGHT_WHITE_PLAIN, LIGHT_WHITE_TABLE, false)
  {
    forall n: Step { LightTableSteps(n); }
  }

  lemma LightBlackCovered()
    ensures ListCovered(LIGHT_BLACK_SOLID, LIGHT_BLACK_TABLE, true)
    ensures ListCovered(LIGHT_BLACK_PLAIN, LIGHT_BLACK_TABLE, false)
  {
    LightBlackSolidCovered();
    LightBlackPlainCovered();
  }

  lemma LightBlackSolidCovered()
    ensures ListCovered(LIGHT_BLACK_SOLID, LIGHT_BLACK_TABLE, true)
  {
    forall n: Step { LightBlackTableSteps(n); }
    assert forall t | t in BASE_SOLID :: t.Solid? && t.step != S20;
  }

  lemma LightBlackPlainCovered()
    ensures ListCovered(LIGHT_BLACK_PLAIN, LIGHT_BLACK_TABLE, false)
  {
    forall n: Step { LightBlackTableSteps(n); }
  }

  lemma DarkWhiteCovered()
    ensures ListCovered(DARK_WHITE_SOLID, DARK_WHITE_TABLE, true)
    ensures ListCovered(DARK_WHITE_PLAIN, DARK_WHITE_TABLE, false)
  {
    forall n: Step { DarkWhiteTableSteps(n); }
  }

  lemma DarkBlackCovered()
    ensures ListCovered(DARK_BLACK_PLAIN, DARK_BLACK_TABLE, false)
  {
    forall n: Step { DarkBlackTableSteps(n); }
  }

  /** `opaque-150` is listed only for dark white. */
  lemma OpaqueListed()
    ensures Opaque150 in DARK_WHITE_PLAIN
    ensures Opaque150 !in LIGHT_WHITE_PLAIN && Opaque150 !in LIGHT_BLACK_PLAIN && Opaque150 !in DARK_BLACK_PLAIN
    ensures Opaque150 !in BASE_PLAIN
  {}

  /** Every token in every list has its palette entry, so the non-null
      assertions of the generator never fail; `opaque-150` is listed only for
      dark white, whose table has step 150. */
  lemma PaletteCoverage(v: Variant, who: Anchor)
    ensures ListCovered(BASE_SOLID, COLORS_MAP, true) && ListCovered(BASE_PLAIN, COLORS_MAP, false)
    ensures ListCovered(ThemePreset(v, who).solids, ThemePreset(v, who).table, true)
    ensures ListCovered(ThemePreset(v, who).plains, ThemePreset(v, who).table, false)
    ensures Opaque150 in ThemePreset(v, who).plains <==> v == Dark && who == White
    ensures 150 in ThemePreset(v, who).table && 150 in COLORS_MAP
  {
    BaseCovered();
    OpaqueListed();
    match (v, who)
    case (Light, White) => LightWhiteCovered();
    case (Light, Black) => LightBlackCovered();
    case (Dark, White) => DarkWhiteCovered();
    case (Dark, Black) => DarkBlackCovered();
  }
}
