/** `generateCSS`: a theme written back as three CSS blocks (`.g-root` for
    borders and typography, then the light and the dark colour blocks), with
    optional suppression of values equal to the default theme and an optional
    `!important` on every declaration for previews. */
module CssGenerate {
  import opened Common
  import opened Dicts
  import opened Shades
  import opened Roles
  import opened Variables
  import opened References
  import opened Themes
  import opened Typography
  import opened Borders
  import CssTokens
  import CssParse

  /** `GenerateOptions` besides the theme; an absent flag is `false`. */
  datatype Options = Options(ignoreDefaults: bool, forPreview: bool)

  // ---------------------------------------------------------------------------
  // addIndentation

  /** `' '.repeat(n)`. */
  function Spaces(n: nat): (s: string)
    ensures |s| == n && forall i | 0 <= i < n :: s[i] == ' '
  {
    if n == 0 then "" else Spaces(n - 1) + " "
  }

  /** A line with something other than white space gets the indent; a blank line stays as it is. */
  function IndentLine(line: string, spaces: nat): string {
    if Trim(line) != "" then Spaces(spaces) + line else line
  }

  function IndentLines(lines: seq<string>, spaces: nat): (r: seq<string>)
    ensures |r| == |lines| && forall i | 0 <= i < |lines| :: r[i] == IndentLine(lines[i], spaces)
  {
    if |lines| == 0 then [] else [IndentLine(lines[0], spaces)] + IndentLines(lines[1..], spaces)
  }

  /** `addIndentation(text, spaces)`. */
  function AddIndentation(text: string, spaces: nat): string {
    Join(IndentLines(Split(text, '\n'), spaces), "\n")
  }

  /** The indented text has the lines of the original, in order: blank lines
      unchanged, every other line behind `spaces` spaces. */
  lemma AddIndentationLines(text: string, spaces: nat)
    ensures var lines, out := Split(text, '\n'), Split(AddIndentation(text, spaces), '\n');
      |out| == |lines| &&
      (forall i | 0 <= i < |lines| && Trim(lines[i]) == "" :: out[i] == lines[i]) &&
      (forall i | 0 <= i < |lines| && Trim(lines[i]) != "" :: out[i] == Spaces(spaces) + lines[i])
  {
    var lines := Split(text, '\n');
    var ind := IndentLines(lines, spaces);
    SplitPiecesWithout(text, '\n');
    forall i | 0 <= i < |ind| ensures '\n' !in ind[i] {
      assert '\n' !in lines[i];
    }
    SplitJoin(ind, '\n');
  }

  // ---------------------------------------------------------------------------
  // .replace(/\n{3,}/g, '\n\n')

  /** The number of newlines `s` starts with. */
  function NewlineRun(s: string): (k: nat)
    ensures k <= |s| && forall i | 0 <= i < k :: s[i] == '\n'
    ensures k < |s| ==> s[k] != '\n'
  {
    if |s| > 0 && s[0] == '\n' then 1 + NewlineRun(s[1..]) else 0
  }

  /** Every maximal run of three or more newlines becomes two. */
  function CollapseNewlines(s: string): (r: string)
    ensures |s| > 0 ==> |r| > 0 && r[0] == s[0]
    decreases |s|
  {
    if |s| == 0 then ""
    else if s[0] != '\n' then [s[0]] + CollapseNewlines(s[1..])
    else
      var k := NewlineRun(s);
      (if k >= 3 then "\n\n" else s[..k]) + CollapseNewlines(s[k..])
  }

  /** Three newlines in a row at `i`. */
  predicate TripleAt(s: string, i: nat) {
    i + 2 < |s| && s[i] == '\n' && s[i + 1] == '\n' && s[i + 2] == '\n'
  }

  ghost predicate NoTriple(s: string) {
    forall i: nat :: !TripleAt(s, i)
  }

  /** `s` without its newlines. */
  function Unbroken(s: string): string {
    if |s| == 0 then "" else (if s[0] == '\n' then "" else [s[0]]) + Unbroken(s[1..])
  }

  lemma {:induction false} UnbrokenAppend(a: string, b: string)
    ensures Unbroken(a + b) == Unbroken(a) + Unbroken(b)
    decreases |a|
  {
    if |a| > 0 {
      var h: string := if a[0] == '\n' then "" else [a[0]];
      assert (a + b)[0] == a[0] && (a + b)[1..] == a[1..] + b;
      assert Unbroken(a + b) == h + Unbroken(a[1..] + b);
      UnbrokenAppend(a[1..], b);
      assert Unbroken(a) == h + Unbroken(a[1..]);
    } else {
      assert a + b == b;
    }
  }

  lemma {:induction false} UnbrokenNewlines(s: string)
    requires forall i | 0 <= i < |s| :: s[i] == '\n'
    ensures Unbroken(s) == ""
    decreases |s|
  {
    if |s| > 0 {
      UnbrokenNewlines(s[1..]);
    }
  }

  /** Collapsing keeps every character other than a newline, in order. */
  lemma {:induction false} CollapseKeepsText(s: string)
    ensures Unbroken(CollapseNewlines(s)) == Unbroken(s)
    decreases |s|
  {
    if |s| > 0 {
      if s[0] != '\n' {
        CollapseKeepsText(s[1..]);
        UnbrokenAppend([s[0]], CollapseNewlines(s[1..]));
      } else {
        var k := NewlineRun(s);
        var run: string := if k >= 3 then "\n\n" else s[..k];
        CollapseKeepsText(s[k..]);
        UnbrokenAppend(run, CollapseNewlines(s[k..]));
        UnbrokenNewlines(run);
        assert s == s[..k] + s[k..];
        UnbrokenAppend(s[..k], s[k..]);
        UnbrokenNewlines(s[..k]);
      }
    }
  }

  /** A string that starts with at most two newlines followed by `t`, where `t`
      does not start with a newline and has no triple, has no triple. */
  lemma ShortRun(run: string, t: string)
    requires |run| <= 2 && forall i | 0 <= i < |run| :: run[i] == '\n'
    requires |t| > 0 ==> t[0] != '\n'
    requires NoTriple(t)
    ensures NoTriple(run + t)
  {
    var s := run + t;
    forall i: nat ensures !TripleAt(s, i) {
      if i >= |run| {
        assert !TripleAt(t, i - |run|);
      }
    }
  }

  /** No run of three newlines survives. */
  lemma {:induction false} CollapseNoTriple(s: string)
    ensures NoTriple(CollapseNewlines(s))
    decreases |s|
  {
    if |s| > 0 {
      if s[0] != '\n' {
        var t := CollapseNewlines(s[1..]);
        CollapseNoTriple(s[1..]);
        forall i: nat ensures !TripleAt([s[0]] + t, i) {
          if i > 0 {
            assert !TripleAt(t, i - 1);
          }
        }
      } else {
        var k := NewlineRun(s);
        var run: string := if k >= 3 then "\n\n" else s[..k];
        CollapseNoTriple(s[k..]);
        ShortRun(run, CollapseNewlines(s[k..]));
      }
    }
  }

  /** A string without a triple is left as it is, so collapsing twice is collapsing once. */
  lemma {:induction false} CollapseWithoutTriple(s: string)
    requires NoTriple(s)
    ensures CollapseNewlines(s) == s
    decreases |s|
  {
    if |s| > 0 {
      if s[0] != '\n' {
        assert !TripleAt(s[1..], 0) by { assert !TripleAt(s, 1); }
        forall i: nat ensures !TripleAt(s[1..], i) {
          assert !TripleAt(s, i + 1);
        }
        CollapseWithoutTriple(s[1..]);
      } else {
        var k := NewlineRun(s);
        assert !TripleAt(s, 0);
        assert k < 3;
        forall i: nat ensures !TripleAt(s[k..], i) {
          assert !TripleAt(s, i + k);
        }
        CollapseWithoutTriple(s[k..]);
        assert s == s[..k] + s[k..];
      }
    }
  }

  lemma CollapseIdempotent(s: string)
    ensures CollapseNewlines(CollapseNewlines(s)) == CollapseNewlines(s)
  {
    CollapseNoTriple(s);
    CollapseWithoutTriple(CollapseNewlines(s));
  }

  // ---------------------------------------------------------------------------
  // Declarations

  /** `forPreview ? ' !important' : ''`. */
  function Important(forPreview: bool): string {
    if forPreview then " !important" else ""
  }

  /** `name: value;`, or `name: value !important;` for a preview. */
  function Declaration(name: string, value: string, forPreview: bool): string {
    name + ": " + value + Important(forPreview) + ";"
  }

  /** The CSS reader takes a declaration back as written; in a preview the
      `!important` stays part of the value it reads. */
  lemma DeclarationParses(d: Dict<string>, name: string, value: string, forPreview: bool)
    requires CssTokens.NameShaped(name) && IsTrimmed(value) && ';' !in value
    requires forPreview ==> value != ""
    ensures CssTokens.FillFrom(d, Declaration(name, value, forPreview), 0) ==
      d.Put(name, value + Important(forPreview))
  {
    var x := value + Important(forPreview);
    assert Declaration(name, value, forPreview) == name + ": " + x + ";";
    assert ';' !in x;
    assert IsTrimmed(x);
    CssTokens.DeclRoundTrip(d, name, x);
  }

  // ---------------------------------------------------------------------------
  // isBackgroundColorChanged and createUtilityColorExport

  const BACKGROUND: string := "base-background"

  /** `isBackgroundColorChanged`: `base-background` differs from the default's,
      structurally, in either variant; reading a missing slot is an error. */
  function BackgroundChanged(th: Theme, dflt: Theme): (r: Result<bool>)
    ensures r.Ok? <==> BACKGROUND in th.utilityColors.items && BACKGROUND in dflt.utilityColors.items
    ensures r.Err? ==> r.error == UndefinedSlot(BACKGROUND)
    ensures r.Ok? ==> (r.value <==> exists v: Variant ::
      dflt.utilityColors.items[BACKGROUND].Get(v) != th.utilityColors.items[BACKGROUND].Get(v))
  {
    if BACKGROUND !in dflt.utilityColors.items || BACKGROUND !in th.utilityColors.items then
      Err(UndefinedSlot(BACKGROUND))
    else
      var d, c := dflt.utilityColors.items[BACKGROUND], th.utilityColors.items[BACKGROUND];
      Ok(d.Get(Dark) != c.Get(Dark) || d.Get(Light) != c.Get(Light))
  }

  /** `ref ? ref : value`: a non-empty `ref` wins. */
  function Source(c: ColorOptions): string {
    if c.ref.RefTo? && c.ref.name != "" then c.ref.name else c.value
  }

  /** The value a utility export writes: internal references become `var()`
      of the variable they name (a private one from the reference's own token
      and shade code), anything else is written as it is. */
  function ExportValue(c: ColorOptions): string {
    var x := Source(c);
    if IsPrivateRef(x) then
      match ParsePrivateRef(x)
      case Some(t) => "var(" + PrivateVar(t.main, Split(x, '.')[2]) + ")"
      case None => x
    else if IsUtilityRef(x) then
      match ParseUtilityRef(x)
      case Some(role) => "var(" + UtilityVar(role) + ")"
      case None => x
    else x
  }

  /** An internal private reference is written as its private variable. */
  lemma ExportPrivateRef(c: ColorOptions, main: string, t: Shade)
    requires c.ref == RefTo(PrivateRef(main, t.Name()))
    requires '.' !in main && t in ALL_PRIVATE
    ensures ExportValue(c) == "var(" + PrivateVar(main, t.Name()) + ")"
  {
    var x := PrivateRef(main, t.Name());
    assert Source(c) == x;
    NameHasNoDot(t);
    PrivateRefPieces(main, t.Name());
    assert IsPrivateRef(x);
    ParsePrivateRefRoundTrip(main, t);
  }

  /** An internal utility reference is written as the role's variable. */
  lemma ExportUtilityRef(c: ColorOptions, role: string)
    requires c.ref == RefTo(UtilityRef(role)) && IsRole(role)
    ensures ExportValue(c) == "var(" + UtilityVar(role) + ")"
  {
    ParseUtilityRefRoundTrip(role);
    ParseUtilityRefSound(UtilityRef(role));
    RefKindsExclusive(UtilityRef(role));
  }

  /** Without a `ref`, a value that is not an internal reference is written as it is. */
  lemma ExportPlain(c: ColorOptions)
    requires !c.ref.RefTo? && !IsPrivateRef(c.value) && !IsUtilityRef(c.value)
    ensures ExportValue(c) == c.value
  {
  }

  predicate LineFree(s: string) {
    forall i | 0 <= i < |s| :: !IsLineTerminator(s[i])
  }

  lemma LineFreeJoin(a: string, b: string)
    requires LineFree(a) && LineFree(b)
    ensures LineFree(a + "-" + b)
  {
    var s := a + "-" + b;
    forall i | 0 <= i < |s| ensures !IsLineTerminator(s[i]) {
      if i < |a| {
        assert s[i] == a[i];
      } else if i > |a| {
        assert s[i] == b[i - |a| - 1];
      }
    }
  }

  lemma PrefixesLineFree()
    ensures LineFree(COLOR_PREFIX) && LineFree(PRIVATE_COLOR_PREFIX)
  {
  }

  /** What the export writes for a private reference, the CSS reader takes back
      to the same internal reference (with the variable as its `ref`). */
  lemma ExportPrivateParses(c: ColorOptions, main: string, t: Shade)
    requires c.ref == RefTo(PrivateRef(main, t.Name()))
    requires '.' !in main && t in ALL_PRIVATE && LineFree(main)
    requires !OpaqueClash(main, t)
    ensures CssParse.UtilityValue(ExportValue(c)) ==
      Ok(ColorOptions(PrivateRef(main, t.Name()), RefTo(PrivateVar(main, t.Name()))))
  {
    var x := PrivateVar(main, t.Name());
    ExportPrivateRef(c, main, t);
    assert ParseCssReference(ExportValue(c)) == Some(x) by {
      NameLineFree(t);
      PrefixesLineFree();
      LineFreeJoin(main, t.Name());
      LineFreeJoin(PRIVATE_COLOR_PREFIX, main + "-" + t.Name());
      ParseCssReferenceOfVar(x);
    }
    assert IsPrivateVar(x);
    PrivateVarRoundTrip(main, t);
  }

  lemma NameLineFree(t: Shade)
    ensures LineFree(t.Name())
  {
    match t
    case Solid(n) => assert t.Name() == n.Digits() + "-solid";
    case Alpha(n) =>
    case Opaque150 =>
  }

  /** What the export writes for a utility reference, the CSS reader takes back
      to the same internal reference. */
  lemma ExportUtilityParses(c: ColorOptions, role: string)
    requires c.ref == RefTo(UtilityRef(role)) && IsRole(role) && LineFree(role)
    ensures CssParse.UtilityValue(ExportValue(c)) ==
      Ok(ColorOptions(UtilityRef(role), RefTo(UtilityVar(role))))
  {
    var x := UtilityVar(role);
    ExportUtilityRef(c, role);
    assert ParseCssReference(ExportValue(c)) == Some(x) by {
      PrefixesLineFree();
      LineFreeJoin(COLOR_PREFIX, role);
      ParseCssReferenceOfVar(x);
    }
    UtilityTypeRoundTrip(role, x);
    UtilityVarNotPrivate(x);
  }

  // ---------------------------------------------------------------------------
  // What the loops append

  /** The group `createTextCssVariable` interpolates for a variant property:
      the argument is absent, so an empty variant name prints it as `undefined`. */
  const NO_GROUP: string := "undefined"

  /** The value written for a group property: a `font-family` refers to the
      font variable of its key, any other property is written as it is. */
  function GroupValue(p: string, x: string): string {
    if p == "font-family" then "var(" + FontVar(x) + ")" else x
  }

  /** What a declaration sets: a shade of a base token, a border radius, a
      font family, a text-group property or a text-variant property. */
  datatype Subject =
    | ShadeOf(token: string, shade: Shade)
    | RadiusOf(size: string)
    | FontOf(key: string)
    | TextGroupOf(group: string, property: string)
    | TextVariantOf(variant: string, property: string)
  {
    /** The variable the declaration sets. */
    function Name(): string {
      match this
      case ShadeOf(token, t) => PrivateVar(token, t.Name())
      case RadiusOf(size) => BorderRadiusVar(size)
      case FontOf(key) => FontVar(key)
      case TextGroupOf(g, p) => TextVar(GroupKey(g, p))
      case TextVariantOf(w, p) => TextVar(VariantKey(NO_GROUP, w, p))
    }

    /** The text written for the value `x`. */
    function Written(x: string): string {
      match this
      case TextGroupOf(_, p) => GroupValue(p, x)
      case _ => x
    }
  }

  /** One thing a generator loop appends to its accumulator: a declaration of
      a subject with its value, or the bare newline after a token's shades. */
  datatype Line = Decl(subject: Subject, value: string) | Gap

  function ShadeDecl(token: string, t: Shade, x: string): Line {
    Decl(ShadeOf(token, t), x)
  }

  function RadiusDecl(size: string, x: string): Line {
    Decl(RadiusOf(size), x)
  }

  function FontDecl(key: string, f: Font): Line {
    Decl(FontOf(key), GenerateFontFamily(f))
  }

  function GroupDecl(g: string, p: string, x: string): Line {
    Decl(TextGroupOf(g, p), x)
  }

  function VariantDecl(w: string, p: string, x: string): Line {
    Decl(TextVariantOf(w, p), x)
  }

  function Render(l: Line, forPreview: bool): string {
    match l
    case Gap => "\n"
    case Decl(s, x) => Declaration(s.Name(), s.Written(x), forPreview) + "\n"
  }

  /** The texts of `xs` in order, each written by `text`. */
  function Concat<T>(xs: seq<T>, forPreview: bool, text: (T, bool) -> string): string {
    if |xs| == 0 then "" else Concat(xs[..|xs| - 1], forPreview, text) + text(xs[|xs| - 1], forPreview)
  }

  lemma ConcatPush<T>(xs: seq<T>, x: T, forPreview: bool, text: (T, bool) -> string)
    ensures Concat(xs + [x], forPreview, text) == Concat(xs, forPreview, text) + text(x, forPreview)
  {
    assert (xs + [x])[..|xs|] == xs;
  }

  lemma {:induction false} ConcatAppend<T>(a: seq<T>, b: seq<T>, forPreview: bool, text: (T, bool) -> string)
    ensures Concat(a + b, forPreview, text) == Concat(a, forPreview, text) + Concat(b, forPreview, text)
    decreases |b|
  {
    if |b| == 0 {
      assert a + b == a;
    } else {
      var b0, x := b[..|b| - 1], b[|b| - 1];
      assert b == b0 + [x];
      assert a + b == (a + b0) + [x];
      calc {
        Concat(a + b, forPreview, text);
      == { ConcatPush(a + b0, x, forPreview, text); }
        Concat(a + b0, forPreview, text) + text(x, forPreview);
      == { ConcatAppend(a, b0, forPreview, text); }
        (Concat(a, forPreview, text) + Concat(b0, forPreview, text)) + text(x, forPreview);
      ==
        Concat(a, forPreview, text) + (Concat(b0, forPreview, text) + text(x, forPreview));
      == { ConcatPush(b0, x, forPreview, text); }
        Concat(a, forPreview, text) + Concat(b, forPreview, text);
      }
    }
  }

  /** The accumulator after appending `ls` in order to an empty string. */
  function RenderAll(ls: seq<Line>, forPreview: bool): string {
    Concat(ls, forPreview, Render)
  }

  lemma RenderPush(ls: seq<Line>, l: Line, forPreview: bool)
    ensures RenderAll(ls + [l], forPreview) == RenderAll(ls, forPreview) + Render(l, forPreview)
  {
    ConcatPush(ls, l, forPreview, Render);
  }

  lemma RenderAppend(a: seq<Line>, b: seq<Line>, forPreview: bool)
    ensures RenderAll(a + b, forPreview) == RenderAll(a, forPreview) + RenderAll(b, forPreview)
  {
    ConcatAppend(a, b, forPreview, Render);
  }

  // ---------------------------------------------------------------------------
  // One variant's block: private shades per base token, then utility roles

  /** `DEFAULT_THEME.privateColors?.[token]?.[v]`. */
  function DefaultShades(dflt: Theme, token: string, v: Variant): Option<PrivateShades> {
    if token in dflt.privateColors.items then Some(dflt.privateColors.items[token].Get(v)) else None
  }

  /** The default defines shade `t` with value `x`. */
  predicate ShadeIsDefault(ds: Option<PrivateShades>, t: Shade, x: string) {
    ds.Some? && t in ds.value && ds.value[t].value == x
  }

  /** The token's base value equals the default's and the background is unchanged. */
  predicate TokenIsDefault(th: Theme, dflt: Theme, token: string, v: Variant, bg: bool)
    requires token in th.baseColors.items
  {
    !bg && token in dflt.baseColors.items &&
    dflt.baseColors.items[token].Get(v).value == th.baseColors.items[token].Get(v).value
  }

  /** The shades of one token, taken in the order of `order`, without those suppression skips. */
  function ShadeLines(token: string, shades: PrivateShades, ds: Option<PrivateShades>, ignore: bool, order: seq<Shade>): seq<Line>
  {
    if |order| == 0 then []
    else
      var init := ShadeLines(token, shades, ds, ignore, order[..|order| - 1]);
      var t := order[|order| - 1];
      if t !in shades || (ignore && ShadeIsDefault(ds, t, shades[t].value)) then init
      else init + [ShadeDecl(token, t, shades[t].value)]
  }

  /** The base tokens among the first `n`: each not skipped with a private entry
      gives its shades and a gap. */
  function BaseLines(th: Theme, dflt: Theme, v: Variant, ignore: bool, bg: bool, order: seq<Shade>, n: nat): seq<Line>
    requires th.baseColors.Listed() && n <= |th.baseColors.keys|
  {
    if n == 0 then []
    else
      var init := BaseLines(th, dflt, v, ignore, bg, order, n - 1);
      var token := th.baseColors.keys[n - 1];
      if ignore && TokenIsDefault(th, dflt, token, v, bg) then init
      else if token in th.privateColors.items then
        init + ShadeLines(token, th.privateColors.items[token].Get(v), DefaultShades(dflt, token, v), ignore, order) + [Gap]
      else init
  }

  /** With suppression, a role is skipped when its value equals the default's, or
      when the default has a non-empty `ref` and the theme has the same `ref`. */
  predicate RoleIsDefault(d: ColorOptions, c: ColorOptions) {
    d.value == c.value || (d.ref.RefTo? && d.ref.name != "" && c.ref == d.ref)
  }

  /** A utility role and the colour it exports. */
  datatype Export = Export(role: string, color: ColorOptions)

  /** `createUtilityColorExport` for each export in turn: the role's variable
      with the value `exportOf` writes for its colour (`ExportValue` in the
      generator; a parameter here so that the walk does not depend on it). */
  function RenderExports(es: seq<Export>, forPreview: bool, exportOf: ColorOptions -> string): string {
    if |es| == 0 then ""
    else
      var e := es[|es| - 1];
      RenderExports(es[..|es| - 1], forPreview, exportOf) + (Declaration(UtilityVar(e.role), exportOf(e.color), forPreview) + "\n")
  }

  lemma RenderExportsPush(es: seq<Export>, e: Export, forPreview: bool, exportOf: ColorOptions -> string)
    ensures RenderExports(es + [e], forPreview, exportOf) ==
      RenderExports(es, forPreview, exportOf) + (Declaration(UtilityVar(e.role), exportOf(e.color), forPreview) + "\n")
  {
    assert (es + [e])[..|es|] == es;
  }

  /** The roles among the first `n`; a role the default has no slot for is an error. */
  function RoleLines(th: Theme, dflt: Theme, v: Variant, ignore: bool, n: nat): Result<seq<Export>>
    requires th.utilityColors.Listed() && n <= |th.utilityColors.keys|
  {
    if n == 0 then Ok([])
    else match RoleLines(th, dflt, v, ignore, n - 1)
      case Err(e) => Err(e)
      case Ok(init) =>
        var role := th.utilityColors.keys[n - 1];
        if role !in dflt.utilityColors.items then Err(UndefinedSlot(role))
        else
          var c := th.utilityColors.items[role].Get(v);
          if ignore && RoleIsDefault(dflt.utilityColors.items[role].Get(v), c) then Ok(init)
          else Ok(init + [Export(role, c)])
  }

  /** `prepareThemeVariables(v)`. */
  function ThemeVariables(th: Theme, dflt: Theme, v: Variant, o: Options, bg: bool): Result<string>
    requires th.Valid()
  {
    match RoleLines(th, dflt, v, o.ignoreDefaults, |th.utilityColors.keys|)
    case Err(e) => Err(e)
    case Ok(roles) =>
      var shades := BaseLines(th, dflt, v, o.ignoreDefaults, bg, ALL_PRIVATE, |th.baseColors.keys|);
      Ok(Trim(RenderAll(shades + [Gap], o.forPreview) + RenderExports(roles, o.forPreview, ExportValue)))
  }

  /** One more shade of `order` considered by `ShadeLines`. */
  lemma ShadeLinesStep(token: string, shades: PrivateShades, ds: Option<PrivateShades>, ignore: bool, order: seq<Shade>, j: nat)
    requires j < |order|
    ensures var t, init := order[j], ShadeLines(token, shades, ds, ignore, order[..j]);
      ShadeLines(token, shades, ds, ignore, order[..j + 1]) ==
        if t !in shades || (ignore && ShadeIsDefault(ds, t, shades[t].value)) then init
        else init + [ShadeDecl(token, t, shades[t].value)]
  {
    assert order[..j + 1][..j] == order[..j];
  }

  /** The inner `forEach` over one token's shades, in the order of `order`. */
  method PrivateShadeVariables(token: string, shades: PrivateShades, ds: Option<PrivateShades>, o: Options, order: seq<Shade>)
    returns (css: string)
    ensures css == RenderAll(ShadeLines(token, shades, ds, o.ignoreDefaults, order), o.forPreview)
  {
    css := "";
    for j := 0 to |order|
      invariant css == RenderAll(ShadeLines(token, shades, ds, o.ignoreDefaults, order[..j]), o.forPreview)
    {
      ShadeLinesStep(token, shades, ds, o.ignoreDefaults, order, j);
      var t := order[j];
      if t in shades {
        var color := shades[t];
        var colorEqualsToDefault := ds.Some? && t in ds.value && ds.value[t].value == color.value;
        if o.ignoreDefaults && colorEqualsToDefault {
          continue;
        }
        var text := Declaration(PrivateVar(token, t.Name()), color.value, o.forPreview);
        assert css + (text + "\n") == RenderAll(ShadeLines(token, shades, ds, o.ignoreDefaults, order[..j + 1]), o.forPreview) by {
          var line := ShadeDecl(token, t, color.value);
          RenderPush(ShadeLines(token, shades, ds, o.ignoreDefaults, order[..j]), line, o.forPreview);
        }
        css := css + (text + "\n");
      }
    }
    assert order[..|order|] == order;
  }

  /** The text of one more base token considered by `BaseLines`. */
  lemma BaseLinesStep(th: Theme, dflt: Theme, v: Variant, ignore: bool, bg: bool, order: seq<Shade>, i: nat, forPreview: bool)
    requires th.baseColors.Listed() && i < |th.baseColors.keys|
    ensures var token, before := th.baseColors.keys[i], RenderAll(BaseLines(th, dflt, v, ignore, bg, order, i), forPreview);
      token in th.baseColors.items &&
      RenderAll(BaseLines(th, dflt, v, ignore, bg, order, i + 1), forPreview) ==
        if ignore && TokenIsDefault(th, dflt, token, v, bg) then before
        else if token in th.privateColors.items then
          before + RenderAll(ShadeLines(token, th.privateColors.items[token].Get(v), DefaultShades(dflt, token, v), ignore, order), forPreview) + "\n"
        else before
  {
    var token := th.baseColors.keys[i];
    assert token in th.baseColors.items;
    if !(ignore && TokenIsDefault(th, dflt, token, v, bg)) && token in th.privateColors.items {
      var before := BaseLines(th, dflt, v, ignore, bg, order, i);
      var added := ShadeLines(token, th.privateColors.items[token].Get(v), DefaultShades(dflt, token, v), ignore, order);
      assert BaseLines(th, dflt, v, ignore, bg, order, i + 1) == before + added + [Gap];
      RenderAppend(before, added, forPreview);
      RenderPush(before + added, Gap, forPreview);
    }
  }

  /** The `forEach` over `theme.baseColors` in `prepareThemeVariables(v)`. */
  method BaseColorVariables(th: Theme, dflt: Theme, v: Variant, o: Options, bg: bool, order: seq<Shade>) returns (css: string)
    requires th.baseColors.Listed()
    ensures css == RenderAll(BaseLines(th, dflt, v, o.ignoreDefaults, bg, order, |th.baseColors.keys|), o.forPreview)
  {
    css := "";
    var base := th.baseColors;
    for i := 0 to |base.keys|
      invariant css == RenderAll(BaseLines(th, dflt, v, o.ignoreDefaults, bg, order, i), o.forPreview)
    {
      BaseLinesStep(th, dflt, v, o.ignoreDefaults, bg, order, i, o.forPreview);
      var token := base.keys[i];
      var colorOptions := base.items[token];
      var valueEqualsToDefault := token in dflt.baseColors.items &&
        dflt.baseColors.items[token].Get(v).value == colorOptions.Get(v).value && !bg;
      if valueEqualsToDefault && o.ignoreDefaults {
        continue;
      }
      if token in th.privateColors.items {
        var ds := DefaultShades(dflt, token, v);
        var entry := th.privateColors.items[token].Get(v);
        var shades := PrivateShadeVariables(token, entry, ds, o, order);
        css := css + shades + "\n";
      }
    }
  }

  /** The lines of a role list as text, or its error. */
  function RenderResult(r: Result<seq<Export>>, forPreview: bool, exportOf: ColorOptions -> string): Result<string> {
    match r
    case Err(e) => Err(e)
    case Ok(es) => Ok(RenderExports(es, forPreview, exportOf))
  }

  /** One more role considered by `RoleLines`, when the roles before it gave `init`. */
  lemma RoleLinesStep(th: Theme, dflt: Theme, v: Variant, ignore: bool, i: nat, init: seq<Export>)
    requires th.utilityColors.Listed() && i < |th.utilityColors.keys|
    requires RoleLines(th, dflt, v, ignore, i) == Ok(init)
    ensures var role := th.utilityColors.keys[i];
      role in th.utilityColors.items &&
      RoleLines(th, dflt, v, ignore, i + 1) ==
        if role !in dflt.utilityColors.items then Err(UndefinedSlot(role))
        else
          var c := th.utilityColors.items[role].Get(v);
          if ignore && RoleIsDefault(dflt.utilityColors.items[role].Get(v), c) then Ok(init)
          else Ok(init + [Export(role, c)])
  {
    assert th.utilityColors.keys[i] in th.utilityColors.items;
  }

  /** Once a role fails, every longer prefix fails the same way. */
  lemma {:induction false} RoleLinesErrPersists(th: Theme, dflt: Theme, v: Variant, ignore: bool, i: nat, n: nat)
    requires th.utilityColors.Listed() && i <= n <= |th.utilityColors.keys|
    requires RoleLines(th, dflt, v, ignore, i).Err?
    ensures RoleLines(th, dflt, v, ignore, n) == RoleLines(th, dflt, v, ignore, i)
    decreases n - i
  {
    if i < n {
      RoleLinesErrPersists(th, dflt, v, ignore, i, n - 1);
    }
  }

  /** The `forEach` over `theme.utilityColors` in `prepareThemeVariables(v)`. */
  method UtilityColorVariables(th: Theme, dflt: Theme, v: Variant, o: Options, exportOf: ColorOptions -> string)
    returns (r: Result<string>)
    requires th.utilityColors.Listed()
    ensures r == RenderResult(RoleLines(th, dflt, v, o.ignoreDefaults, |th.utilityColors.keys|), o.forPreview, exportOf)
  {
    var css := "";
    ghost var exports: seq<Export> := [];
    var roles := th.utilityColors;
    for i := 0 to |roles.keys|
      invariant RoleLines(th, dflt, v, o.ignoreDefaults, i) == Ok(exports)
      invariant css == RenderExports(exports, o.forPreview, exportOf)
    {
      RoleLinesStep(th, dflt, v, o.ignoreDefaults, i, exports);
      var role := roles.keys[i];
      if role !in dflt.utilityColors.items {
        RoleLinesErrPersists(th, dflt, v, o.ignoreDefaults, i + 1, |roles.keys|);
        return Err(UndefinedSlot(role));
      }
      var d, c := dflt.utilityColors.items[role].Get(v), roles.items[role].Get(v);
      var valueEqualsToDefault := d.value == c.value || (d.ref.RefTo? && d.ref.name != "" && d.ref == c.ref);
      if valueEqualsToDefault && o.ignoreDefaults {
        continue;
      }
      var text := Declaration(UtilityVar(role), exportOf(c), o.forPreview);
      RenderExportsPush(exports, Export(role, c), o.forPreview, exportOf);
      exports := exports + [Export(role, c)];
      css := css + (text + "\n");
    }
    r := Ok(css);
  }

  /** `prepareThemeVariables(v)`: the shades of every base token with a private
      entry, a gap, then every utility role, unless suppressed; trimmed. */
  method PrepareThemeVariables(th: Theme, dflt: Theme, v: Variant, o: Options, bg: bool) returns (r: Result<string>)
    requires th.Valid()
    ensures r == ThemeVariables(th, dflt, v, o, bg)
  {
    var css := BaseColorVariables(th, dflt, v, o, bg, ALL_PRIVATE);
    css := css + "\n";
    var roles := UtilityColorVariables(th, dflt, v, o, ExportValue);
    match roles
    case Err(e) =>
      r := Err(e);
    case Ok(text) =>
      ghost var shades := BaseLines(th, dflt, v, o.ignoreDefaults, bg, ALL_PRIVATE, |th.baseColors.keys|);
      RenderPush(shades, Gap, o.forPreview);
      r := Ok(Trim(css + text));
  }
}
