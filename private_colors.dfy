/** `generatePrivateColors`: the shade ramp of one base colour in one variant.
    The colour arithmetic of chroma-js is a parameter (`ColorAlgebra`); what is
    modelled is which step table is chosen, which background each row mixes
    toward, which shades are written and in what order they overwrite each other. */
module PrivateColors {
  import opened Common
  import opened Shades

  /** The chroma-js operations the generator uses, as uninterpreted functions:
      `valid` is `chroma.valid(c)`, `css` is `chroma(c).css()`,
      `mix` is `chroma.mix(c, target, w, 'rgb').css()` (`None` when it throws on
      an unparsable target) and `withAlpha` is `chroma(c).alpha(a).css()`. */
  datatype ColorAlgebra = ColorAlgebra(
    valid: string -> bool,
    css: string -> string,
    mix: (string, string, real) -> Option<string>,
    withAlpha: (string, real) -> string)

  /** `white` and `black` use their own presets; every other token the base lists. */
  function AnchorOf(token: string): Option<Anchor> {
    if token == "white" then Some(White)
    else if token == "black" then Some(Black)
    else None
  }

  /** The step table the palette is built from. */
  function TableFor(v: Variant, token: string): Table {
    match AnchorOf(token)
    case Some(who) => ThemePreset(v, who).table
    case None => COLORS_MAP
  }

  /** The solid shades written from the palette. */
  function SolidsFor(v: Variant, token: string): seq<Shade> {
    match AnchorOf(token)
    case Some(who) => ThemePreset(v, who).solids
    case None => BASE_SOLID
  }

  /** The plain shades (and `opaque-150`) written from the palette. */
  function PlainsFor(v: Variant, token: string): seq<Shade> {
    match AnchorOf(token)
    case Some(who) => ThemePreset(v, who).plains
    case None => BASE_PLAIN
  }

  /** The shade that receives the colour itself: `1000-solid` for white and black, `550-solid` otherwise. */
  function AnchorShade(token: string): Shade {
    if AnchorOf(token).Some? then Solid(S1000) else Solid(S550)
  }

  /** The background a row mixes toward: the other variant's background when
      `c > 0`, the variant's own otherwise. */
  function Target(v: Variant, c: int, lightBg: string, darkBg: string): string {
    var own := if v == Dark then darkBg else lightBg;
    var other := if v == Dark then lightBg else darkBg;
    if c > 0 then other else own
  }

  /** A palette entry: the mixed solid colour and the colour with the row's alpha. */
  datatype Entry = Entry(solid: string, alpha: string)

  type Palette = map<nat, Entry>

  /** The generator's inputs besides the algebra. */
  datatype Request = Request(v: Variant, token: string, color: string, lightBg: string, darkBg: string)

  /** The solid colour of one row: the colour mixed toward the row's target with weight `1 - a`. */
  function RowSolid(alg: ColorAlgebra, q: Request, row: Row): Option<string> {
    alg.mix(q.color, Target(q.v, row.c, q.lightBg, q.darkBg), 1.0 - row.a)
  }

  /** Every row of the table mixes successfully. */
  predicate AllRowsMix(alg: ColorAlgebra, q: Request, table: Table) {
    forall k | k in table :: RowSolid(alg, q, table[k]).Some?
  }

  /** The palette for every row of the table, or the error the first failing mix throws. */
  function PaletteOf(alg: ColorAlgebra, q: Request, table: Table): (r: Result<Palette>)
    ensures r.Ok? ==> r.value.Keys == table.Keys
  {
    if AllRowsMix(alg, q, table) then Ok(PaletteMap(alg, q, table)) else Err(InvalidColor)
  }

  /** The palette entry of every row, when every row mixes. */
  function PaletteMap(alg: ColorAlgebra, q: Request, table: Table): (p: Palette)
    requires AllRowsMix(alg, q, table)
    ensures p.Keys == table.Keys
  {
    map k | k in table :: Entry(RowSolid(alg, q, table[k]).value, alg.withAlpha(q.color, table[k].a))
  }

  /** The `reduce` that builds the palette, one row at a time (rows in any order give the same result). */
  method BuildPalette(alg: ColorAlgebra, q: Request, table: Table) returns (r: Result<Palette>)
    ensures r == PaletteOf(alg, q, table)
  {
    var p: Palette := map[];
    var todo := table.Keys;
    while todo != {}
      invariant todo <= table.Keys
      invariant p.Keys == table.Keys - todo
      invariant forall k | k in p :: RowSolid(alg, q, table[k]).Some?
      invariant forall k | k in p :: p[k] == Entry(RowSolid(alg, q, table[k]).value, alg.withAlpha(q.color, table[k].a))
      decreases |todo|
    {
      var k :| k in todo;
      var row := table[k];
      var solid := alg.mix(q.color, Target(q.v, row.c, q.lightBg, q.darkBg), 1.0 - row.a);
      if solid.None? {
        assert !AllRowsMix(alg, q, table);
        return Err(InvalidColor);
      }
      p := p[k := Entry(solid.value, alg.withAlpha(q.color, row.a))];
      todo := todo - {k};
    }
    assert AllRowsMix(alg, q, table);
    assert p == PaletteMap(alg, q, table);
    return Ok(p);
  }

  /** `opaque-150` is written only for the dark variant of white. */
  predicate WritesOpaque(q: Request) {
    q.v == Dark && q.token == "white"
  }

  /** The shades the generator writes. */
  predicate Written(q: Request, t: Shade) {
    t == AnchorShade(q.token) || t in SolidsFor(q.v, q.token) ||
    (t in PlainsFor(q.v, q.token) && (t != Opaque150 || WritesOpaque(q)))
  }

  /** Every palette key the generator reads is a row of the table. */
  predicate Readable(q: Request, p: Palette) {
    (forall t | t in SolidsFor(q.v, q.token) :: t.Solid? && t.step.Value() in p) &&
    (forall t | t in PlainsFor(q.v, q.token) :: !t.Solid? && (t.Alpha? ==> t.step.Value() in p)) &&
    (WritesOpaque(q) ==> 150 in p)
  }

  /** The value the generator leaves in shade `t`: plain shades take the alpha
      component of their row, `opaque-150` the solid of row 150 at alpha 0.95,
      listed solid shades the solid component of their row, and the anchor
      (when no solid write replaced it) the colour itself. */
  function ShadeValue(alg: ColorAlgebra, q: Request, p: Palette, t: Shade): string
    requires Readable(q, p) && Written(q, t)
  {
    match t
    case Alpha(n) =>
      assert t in PlainsFor(q.v, q.token);
      alg.css(p[n.Value()].alpha)
    case Opaque150 => alg.css(alg.withAlpha(p[150].solid, 0.95))
    case Solid(n) =>
      if t in SolidsFor(q.v, q.token) then alg.css(p[n.Value()].solid) else alg.css(q.color)
  }

  /** The generator's result: an error for an invalid colour or a failing mix,
      otherwise exactly the written shades with their values. */
  function GenerateSpec(alg: ColorAlgebra, q: Request): (r: Result<map<Shade, string>>)
    ensures r.Err? <==> !alg.valid(q.color) || !AllRowsMix(alg, q, TableFor(q.v, q.token))
    ensures r.Err? ==> r.error == InvalidColor
    ensures r.Ok? ==> forall t :: t in r.value <==> Written(q, t)
  {
    if !alg.valid(q.color) then Err(InvalidColor)
    else
      var table := TableFor(q.v, q.token);
      match PaletteOf(alg, q, table)
      case Err(e) => Err(e)
      case Ok(p) =>
        PaletteReadable(q, p);
        Ok(ShadeMap(alg, q, p))
  }

  /** Every written shade with its value. */
  function ShadeMap(alg: ColorAlgebra, q: Request, p: Palette): (m: map<Shade, string>)
    requires Readable(q, p)
    ensures forall t :: t in m <==> Written(q, t)
    ensures forall t | t in m :: m[t] == ShadeValue(alg, q, p, t)
  {
    AllWrittenKnown(q);
    map t | t in AllShades() && Written(q, t) :: ShadeValue(alg, q, p, t)
  }

  lemma AllWrittenKnown(q: Request)
    ensures forall t | Written(q, t) :: t in AllShades()
  {
    forall t | Written(q, t) ensures t in AllShades() {
      WrittenKnown(q, t);
    }
  }

  /** The tokens the generator can write: all of them. */
  function AllShades(): set<Shade> {
    set t | t in ALL_PRIVATE
  }

  /** The palette built from the selected table has every row the generator reads. */
  lemma PaletteReadable(q: Request, p: Palette)
    requires p.Keys == TableFor(q.v, q.token).Keys
    ensures Readable(q, p)
  {
    var table := TableFor(q.v, q.token);
    match AnchorOf(q.token)
    case None =>
      PaletteCoverage(q.v, White);
      ListsReadable(SolidsFor(q.v, q.token), PlainsFor(q.v, q.token), table, p);
    case Some(who) =>
      PaletteCoverage(q.v, who);
      ListsReadable(SolidsFor(q.v, q.token), PlainsFor(q.v, q.token), table, p);
      OpaqueForDarkWhite(q, who);
  }

  lemma ListsReadable(solids: seq<Shade>, plains: seq<Shade>, table: Table, p: Palette)
    requires ListCovered(solids, table, true) && ListCovered(plains, table, false)
    requires p.Keys == table.Keys
    ensures forall t | t in solids :: t.Solid? && t.step.Value() in p
    ensures forall t | t in plains :: !t.Solid? && (t.Alpha? ==> t.step.Value() in p)
  {
  }

  lemma OpaqueForDarkWhite(q: Request, who: Anchor)
    requires AnchorOf(q.token) == Some(who)
    ensures WritesOpaque(q) ==> q.v == Dark && who == White
  {
  }

  /** Every shade the generator writes is a known token. */
  lemma WrittenKnown(q: Request, t: Shade)
    requires Written(q, t)
    ensures t in AllShades()
  {
    if t == AnchorShade(q.token) {
      AnchorsKnown();
    } else if t in SolidsFor(q.v, q.token) {
      SolidsKnown(q.v, q.token);
    } else {
      PlainsKnown(q.v, q.token);
    }
  }

  lemma SolidsKnown(v: Variant, token: string)
    ensures forall t | t in SolidsFor(v, token) :: t in ALL_PRIVATE
  {
    ListsAreKnown();
  }

  lemma PlainsKnown(v: Variant, token: string)
    ensures forall t | t in PlainsFor(v, token) :: t in ALL_PRIVATE
  {
    ListsAreKnown();
  }

  lemma AnchorsKnown()
    ensures Solid(S550) in ALL_PRIVATE && Solid(S1000) in ALL_PRIVATE
  {
    assert ALL_PRIVATE[0] == Solid(S1000);
  }

  /** The value of a plain shade: the alpha component of its row, or for
      `opaque-150` the solid component of row 150 at alpha 0.95. */
  function PlainValue(alg: ColorAlgebra, p: Palette, t: Shade): string
    requires !t.Solid? && (t.Alpha? ==> t.step.Value() in p) && (t.Opaque150? ==> 150 in p)
  {
    if t.Alpha? then alg.css(p[t.step.Value()].alpha) else alg.css(alg.withAlpha(p[150].solid, 0.95))
  }

  /** The anchor write followed by the solid loop. */
  method WriteSolids(alg: ColorAlgebra, color: string, p: Palette, anchor: Shade, solids: seq<Shade>)
    returns (colors: map<Shade, string>)
    requires forall t | t in solids :: t.Solid? && t.step.Value() in p
    ensures forall t :: t in colors <==> t == anchor || t in solids
    ensures forall t | t in colors ::
      colors[t] == (if t in solids then alg.css(p[t.step.Value()].solid) else alg.css(color))
  {
    colors := map[anchor := alg.css(color)];
    for i := 0 to |solids|
      invariant forall t :: t in colors <==> t == anchor || t in solids[..i]
      invariant forall t | t in colors ::
        colors[t] == (if t in solids[..i] then alg.css(p[t.step.Value()].solid) else alg.css(color))
    {
      var t := solids[i];
      colors := colors[t := alg.css(p[t.step.Value()].solid)];
      assert solids[..i + 1] == solids[..i] + [t];
    }
    assert solids[..|solids|] == solids;
  }

  /** The plain loop over the map the solid loop left; `opaque-150` is skipped unless `withOpaque`. */
  method WritePlains(alg: ColorAlgebra, p: Palette, plains: seq<Shade>, withOpaque: bool, solid: map<Shade, string>)
    returns (colors: map<Shade, string>)
    requires forall t | t in plains :: !t.Solid? && (t.Alpha? ==> t.step.Value() in p)
    requires withOpaque ==> 150 in p
    requires forall t | t in solid :: t.Solid?
    ensures forall t :: t in colors <==> t in solid || (t in plains && (t != Opaque150 || withOpaque))
    ensures forall t | t in colors && t in plains :: (t.Opaque150? ==> withOpaque) && colors[t] == PlainValue(alg, p, t)
    ensures forall t | t in colors && t !in plains :: colors[t] == solid[t]
  {
    colors := solid;
    for i := 0 to |plains|
      invariant forall t :: t in colors <==> t in solid || (t in plains[..i] && (t != Opaque150 || withOpaque))
      invariant forall t | t in colors && t !in plains[..i] :: t in solid && colors[t] == solid[t]
      invariant forall t | t in colors && t in plains[..i] :: (t.Opaque150? ==> withOpaque) && colors[t] == PlainValue(alg, p, t)
    {
      var t := plains[i];
      if t == Opaque150 {
        if withOpaque {
          colors := colors[Opaque150 := alg.css(alg.withAlpha(p[150].solid, 0.95))];
        }
      } else {
        colors := colors[t := alg.css(p[t.step.Value()].alpha)];
      }
      assert plains[..i + 1] == plains[..i] + [t];
    }
    assert plains[..|plains|] == plains;
  }

  /** `generatePrivateColors`: validate, build the palette, write the anchor, then
      the solid shades, then the plain shades. */
  method Generate(alg: ColorAlgebra, q: Request) returns (r: Result<map<Shade, string>>)
    ensures r == GenerateSpec(alg, q)
  {
    if !alg.valid(q.color) {
      return Err(InvalidColor);
    }
    var table := TableFor(q.v, q.token);
    var palette := BuildPalette(alg, q, table);
    if palette.Err? {
      return Err(palette.error);
    }
    var p := palette.value;
    PaletteReadable(q, p);
    var solid := WriteSolids(alg, q.color, p, AnchorShade(q.token), SolidsFor(q.v, q.token));
    var colors := WritePlains(alg, p, PlainsFor(q.v, q.token), q.v == Dark && q.token == "white", solid);
    LoopsWritten(alg, q, p, solid, colors);
    WrittenValues(alg, q, p, colors);
    WrittenMap(alg, q, p, colors);
    return Ok(colors);
  }

  /** The map the loops leave is the written shades with their values. */
  lemma WrittenMap(alg: ColorAlgebra, q: Request, p: Palette, colors: map<Shade, string>)
    requires Readable(q, p)
    requires forall t :: t in colors <==> Written(q, t)
    requires forall t | t in colors :: Written(q, t) && colors[t] == ShadeValue(alg, q, p, t)
    ensures colors == ShadeMap(alg, q, p)
  {
    SameMap(colors, ShadeMap(alg, q, p));
  }

  /** The two loops together write exactly the written shades. */
  lemma LoopsWritten(alg: ColorAlgebra, q: Request, p: Palette, solid: map<Shade, string>, colors: map<Shade, string>)
    requires Readable(q, p)
    requires forall t :: t in solid <==> t == AnchorShade(q.token) || t in SolidsFor(q.v, q.token)
    requires forall t | t in solid ::
      solid[t] == (if t in SolidsFor(q.v, q.token) then alg.css(p[t.step.Value()].solid) else alg.css(q.color))
    requires forall t :: t in colors <==> t in solid || (t in PlainsFor(q.v, q.token) && (t != Opaque150 || WritesOpaque(q)))
    requires forall t | t in colors && t in PlainsFor(q.v, q.token) :: (t.Opaque150? ==> WritesOpaque(q)) && colors[t] == PlainValue(alg, p, t)
    requires forall t | t in colors && t !in PlainsFor(q.v, q.token) :: colors[t] == solid[t]
    ensures forall t :: t in colors <==> Written(q, t)
    ensures forall t | t in colors && t in PlainsFor(q.v, q.token) ::
      (t.Opaque150? ==> WritesOpaque(q)) && colors[t] == PlainValue(alg, p, t)
    ensures forall t | t in colors && t !in PlainsFor(q.v, q.token) ::
      colors[t] == (if t in SolidsFor(q.v, q.token) then alg.css(p[t.step.Value()].solid) else alg.css(q.color))
  {
  }

  /** Each slot the loops wrote holds the specified value. */
  lemma WrittenValues(alg: ColorAlgebra, q: Request, p: Palette, colors: map<Shade, string>)
    requires Readable(q, p)
    requires forall t :: t in colors <==> Written(q, t)
    requires forall t | t in colors && t in PlainsFor(q.v, q.token) ::
      (t.Opaque150? ==> WritesOpaque(q)) && colors[t] == PlainValue(alg, p, t)
    requires forall t | t in colors && t !in PlainsFor(q.v, q.token) ::
      colors[t] == (if t in SolidsFor(q.v, q.token) then alg.css(p[t.step.Value()].solid) else alg.css(q.color))
    ensures forall t | t in colors :: Written(q, t) && colors[t] == ShadeValue(alg, q, p, t)
  {
    forall t | t in colors ensures Written(q, t) && colors[t] == ShadeValue(alg, q, p, t) {
      if t in PlainsFor(q.v, q.token) {
        PlainIsShadeValue(alg, q, p, t);
      } else {
        SolidIsShadeValue(alg, q, p, t);
      }
    }
  }

  lemma PlainIsShadeValue(alg: ColorAlgebra, q: Request, p: Palette, t: Shade)
    requires Readable(q, p) && Written(q, t) && t in PlainsFor(q.v, q.token)
    requires t.Opaque150? ==> WritesOpaque(q)
    ensures ShadeValue(alg, q, p, t) == PlainValue(alg, p, t)
  {
  }

  lemma SolidIsShadeValue(alg: ColorAlgebra, q: Request, p: Palette, t: Shade)
    requires Readable(q, p) && Written(q, t) && t !in PlainsFor(q.v, q.token)
    ensures t.Solid?
    ensures ShadeValue(alg, q, p, t) ==
      if t in SolidsFor(q.v, q.token) then alg.css(p[t.step.Value()].solid) else alg.css(q.color)
  {
  }

  // ---------------------------------------------------------------------------
  // Properties of the generated ramp

  /** The palette of a successful run. */
  function PaletteFor(alg: ColorAlgebra, q: Request): (p: Palette)
    requires GenerateSpec(alg, q).Ok?
    ensures p.Keys == TableFor(q.v, q.token).Keys
  {
    PaletteMap(alg, q, TableFor(q.v, q.token))
  }

  /** Each listed solid shade holds its row's colour mixed toward the row's background. */
  lemma SolidValue(alg: ColorAlgebra, q: Request, t: Shade)
    requires GenerateSpec(alg, q).Ok? && t in SolidsFor(q.v, q.token)
    ensures var table, r := TableFor(q.v, q.token), GenerateSpec(alg, q).value;
      t.Solid? && t.step.Value() in table && RowSolid(alg, q, table[t.step.Value()]).Some? &&
      t in r && r[t] == alg.css(RowSolid(alg, q, table[t.step.Value()]).value)
  {
    PaletteReadable(q, PaletteFor(alg, q));
  }

  /** Each listed plain shade holds the colour at its row's alpha. */
  lemma PlainValueOf(alg: ColorAlgebra, q: Request, t: Shade)
    requires GenerateSpec(alg, q).Ok? && t.Alpha? && t in PlainsFor(q.v, q.token)
    ensures var table, r := TableFor(q.v, q.token), GenerateSpec(alg, q).value;
      t.step.Value() in table && t in r && r[t] == alg.css(alg.withAlpha(q.color, table[t.step.Value()].a))
  {
    PaletteReadable(q, PaletteFor(alg, q));
  }

  /** Dark white's `opaque-150` holds its mixed 150 row at alpha 0.95. */
  lemma OpaqueValue(alg: ColorAlgebra, q: Request, t: Shade)
    requires GenerateSpec(alg, q).Ok? && WritesOpaque(q) && t.Opaque150?
    ensures var table, r := TableFor(q.v, q.token), GenerateSpec(alg, q).value;
      150 in table && RowSolid(alg, q, table[150]).Some? && t in r &&
      r[t] == alg.css(alg.withAlpha(RowSolid(alg, q, table[150]).value, 0.95))
  {
    var p := PaletteFor(alg, q);
    PaletteReadable(q, p);
    OpaqueRow(t, q.v, q.token);
    assert Written(q, t);
    assert GenerateSpec(alg, q).value[t] == alg.css(alg.withAlpha(p[150].solid, 0.95));
  }

  lemma OpaqueRow(t: Shade, v: Variant, token: string)
    requires t.Opaque150? && v == Dark && token == "white"
    ensures t in PlainsFor(v, token) && 150 in TableFor(v, token)
  {
    var plains := PlainsFor(v, token);
    assert plains == DARK_WHITE_PLAIN;
    assert plains[|plains| - 1] == t;
  }

  /** `opaque-150` is generated exactly for the dark variant of white. */
  lemma OpaqueOnlyDarkWhite(alg: ColorAlgebra, q: Request)
    requires GenerateSpec(alg, q).Ok?
    ensures Opaque150 in GenerateSpec(alg, q).value <==> q.v == Dark && q.token == "white"
  {
    PaletteReadable(q, PaletteFor(alg, q));
    if WritesOpaque(q) {
      OpaqueRow(Opaque150, q.v, q.token);
      assert Written(q, Opaque150);
    }
  }

  /** An ordinary colour's anchor write (`550-solid`) is overwritten by its 550
      row, which mixes toward the other variant's background with weight 0. */
  lemma {:induction false} AnchorOverwritten(alg: ColorAlgebra, q: Request)
    requires GenerateSpec(alg, q).Ok? && AnchorOf(q.token).None?
    ensures var r, a := GenerateSpec(alg, q).value, AnchorShade(q.token);
      var m := alg.mix(q.color, Target(q.v, 1, q.lightBg, q.darkBg), 0.0);
      a == Solid(S550) && a in r && m.Some? && r[a] == alg.css(m.value)
  {
    var a := AnchorShade(q.token);
    AnchorRows(a, TableFor(q.v, q.token));
    SolidValue(alg, q, a);
  }

  /** Dark white's anchor write (`1000-solid`) is overwritten by its 1000 row,
      which mixes toward the dark background with weight 0. */
  lemma {:induction false} DarkWhiteAnchor(alg: ColorAlgebra, q: Request)
    requires GenerateSpec(alg, q).Ok? && q.token == "white" && q.v == Dark
    ensures var r, a := GenerateSpec(alg, q).value, AnchorShade(q.token);
      var m := alg.mix(q.color, q.darkBg, 0.0);
      a == Solid(S1000) && a in r && m.Some? && r[a] == alg.css(m.value)
  {
    var a := AnchorShade(q.token);
    DarkWhiteRow(a, SolidsFor(q.v, q.token), TableFor(q.v, q.token));
    SolidValue(alg, q, a);
  }

  /** Black (both variants) and light white keep the colour itself in `1000-solid`. */
  lemma {:induction false} AnchorKept(alg: ColorAlgebra, q: Request)
    requires GenerateSpec(alg, q).Ok?
    requires q.token == "black" || (q.token == "white" && q.v == Light)
    ensures var r := GenerateSpec(alg, q).value;
      Solid(S1000) in r && r[Solid(S1000)] == alg.css(q.color)
  {
    KeptAnchor(AnchorShade(q.token), SolidsFor(q.v, q.token));
  }

  lemma KeptAnchor(a: Shade, solids: seq<Shade>)
    requires a == Solid(S1000) && (solids == [] || solids == LIGHT_BLACK_SOLID)
    ensures a !in solids
  {
    LightBlackSolids();
  }

  lemma AnchorRows(a: Shade, table: Table)
    requires a == Solid(S550) && table == COLORS_MAP
    ensures a in BASE_SOLID && a.step.Value() in table && table[a.step.Value()] == Row(1.0, 1)
  {
    assert BASE_SOLID[9] == a;
  }

  lemma DarkWhiteRow(a: Shade, solids: seq<Shade>, table: Table)
    requires a == Solid(S1000) && solids == DARK_WHITE_SOLID && table == DARK_WHITE_TABLE
    ensures a in solids && a.step.Value() in table && table[a.step.Value()] == Row(1.0, -1)
  {
    assert solids[0] == a;
  }

  /** The palette key a token reads is the number its name starts with:
      `split('-')[0]` of a solid name, the whole name of a plain one. */
  lemma {:induction false} PaletteKeyOfName(t: Shade)
    ensures t.Solid? ==> Split(t.Name(), '-')[0] == NatToString(t.step.Value())
    ensures t.Alpha? ==> t.Name() == NatToString(t.step.Value())
  {
    NamePieces(t);
    if !t.Opaque150? {
      StepDigits(t.step);
    }
  }
}
