/** `generateCSS`: the three prepared sections are indented, put into the
    `.g-root` / `.g-root_theme_light` / `.g-root_theme_dark` template, and runs
    of three or more newlines are collapsed to two. */
module CssDocument {
  import opened Common
  import opened Themes
  import opened CssGenerate
  import opened CssCommon
  import CssTokens

  /** `addIndentation`'s default width. */
  const INDENT: nat := 4

  /** One block of the template: selector, ` {`, a newline, the section, a newline, `}`. */
  function Block(sc: CssTokens.Scope, section: string): string {
    CssTokens.Selector(sc) + " {\n" + section + "\n}"
  }

  /** `CSS_TEMPLATE` with its three placeholders replaced: the blocks in the order
      root, light, dark, a blank line between two blocks. */
  function Template(common: string, light: string, dark: string): string {
    Block(CssTokens.Root, common) + "\n\n" + Block(CssTokens.Scheme(Light), light) + "\n\n" + Block(CssTokens.Scheme(Dark), dark)
  }

  /** The placeholders of `CSS_TEMPLATE`. */
  const COMMON_SLOT: string := "%COMMON_VARIABLES%"
  const LIGHT_SLOT: string := "%LIGHT_THEME_VARIABLES%"
  const DARK_SLOT: string := "%DARK_THEME_VARIABLES%"

  /** `CSS_TEMPLATE`: the three blocks, each body a placeholder (the template
      literal's leading and trailing newlines are trimmed away). */
  const CSS_TEMPLATE: string := Template(COMMON_SLOT, LIGHT_SLOT, DARK_SLOT)

  /** The three chained `replace` calls: each replaces the first occurrence of its
      placeholder in the text built so far, `$` patterns of the inserted text
      expanded. */
  function Fill(common: string, light: string, dark: string): string {
    ReplaceFirst(ReplaceFirst(ReplaceFirst(CSS_TEMPLATE, COMMON_SLOT, common), LIGHT_SLOT, light), DARK_SLOT, dark)
  }

  /** The three sections in the order `generateCSS` computes them, after the
      background check; the first failure is the result. */
  function Sections(th: Theme, dflt: Theme, o: Options): Result<(string, string, string)>
    requires th.Valid()
  {
    match BackgroundChanged(th, dflt)
    case Err(e) => Err(e)
    case Ok(bg) =>
      match CommonVariables(th, dflt, o)
      case Err(e) => Err(e)
      case Ok(common) =>
        match ThemeVariables(th, dflt, Light, o, bg)
        case Err(e) => Err(e)
        case Ok(light) =>
          match ThemeVariables(th, dflt, Dark, o, bg)
          case Err(e) => Err(e)
          case Ok(dark) => Ok((common, light, dark))
  }

  /** The whole stylesheet. */
  function GenerateCssSpec(th: Theme, dflt: Theme, o: Options): Result<string>
    requires th.Valid()
  {
    match Sections(th, dflt, o)
    case Err(e) => Err(e)
    case Ok((common, light, dark)) =>
      Ok(CollapseNewlines(Fill(AddIndentation(common, INDENT), AddIndentation(light, INDENT), AddIndentation(dark, INDENT))))
  }

  /** `generateCSS` step by step. */
  method GenerateCss(th: Theme, dflt: Theme, o: Options) returns (r: Result<string>)
    requires th.Valid()
    ensures r == GenerateCssSpec(th, dflt, o)
  {
    var bg := BackgroundChanged(th, dflt);
    if bg.Err? {
      return Err(bg.error);
    }
    var common := PrepareCommonVariables(th, dflt, o);
    if common.Err? {
      return Err(common.error);
    }
    var light := PrepareThemeVariables(th, dflt, Light, o, bg.value);
    if light.Err? {
      return Err(light.error);
    }
    var dark := PrepareThemeVariables(th, dflt, Dark, o, bg.value);
    if dark.Err? {
      return Err(dark.error);
    }
    var css := Fill(AddIndentation(common.value, INDENT), AddIndentation(light.value, INDENT), AddIndentation(dark.value, INDENT));
    r := Ok(CollapseNewlines(css));
  }

  // ---------------------------------------------------------------------------
  // Filling the template

  /** The template text around the three bodies. */
  function Head(): string { CssTokens.Selector(CssTokens.Root) + " {\n" }
  function Seam(sc: CssTokens.Scope): string { "\n}\n\n" + CssTokens.Selector(sc) + " {\n" }
  const TAIL: string := "\n}"

  lemma TemplatePieces(c: string, l: string, d: string)
    ensures Template(c, l, d) == Head() + c + Seam(CssTokens.Scheme(Light)) + l + Seam(CssTokens.Scheme(Dark)) + d + TAIL
  {
  }

  /** How the template text around the bodies and the placeholders sit together:
      the placeholders hold no newline, the text before a placeholder holds
      none of its first character and ends at a newline, the text after a body
      starts at one, and the light placeholder does not hold the dark one. */
  ghost predicate Frame(h: string, t0: string, t1: string, cs: string, ls: string, ds: string) {
    && |cs| > 0 && |ls| > 0 && |ds| > 0
    && '\n' !in cs && '\n' !in ls && '\n' !in ds
    && cs[0] !in h && ls[0] !in h && ds[0] !in h && ls[0] !in t0 && ds[0] !in t0 && ds[0] !in t1
    && |h| > 0 && h[|h| - 1] == '\n'
    && |t0| > 0 && t0[0] == '\n' && t0[|t0| - 1] == '\n'
    && |t1| > 0 && t1[0] == '\n' && t1[|t1| - 1] == '\n'
    && Absent(ls, ds)
  }

  /** The dark placeholder does not occur in the light one. */
  lemma SlotsApart()
    ensures Absent(LIGHT_SLOT, DARK_SLOT)
  {
    forall j: nat | j + |DARK_SLOT| <= |LIGHT_SLOT| ensures !OccursAt(LIGHT_SLOT, DARK_SLOT, j) {
      assert LIGHT_SLOT[j..j + |DARK_SLOT|][1] == LIGHT_SLOT[j + 1] != DARK_SLOT[1];
    }
  }

  /** Every placeholder is one line starting with `%`. */
  lemma SlotShape(slot: string)
    requires slot in {COMMON_SLOT, LIGHT_SLOT, DARK_SLOT}
    ensures |slot| > 0 && slot[0] == '%' && '\n' !in slot
  {
  }

  /** The fixed text of the template holds no `%` and ends its lines where the placeholders sit. */
  lemma HeadShape()
    ensures |Head()| > 0 && Head()[|Head()| - 1] == '\n' && '%' !in Head()
  {
  }

  lemma SeamShape(sc: CssTokens.Scope)
    ensures |Seam(sc)| > 0 && Seam(sc)[0] == '\n' && Seam(sc)[|Seam(sc)| - 1] == '\n' && '%' !in Seam(sc)
  {
  }

  lemma TemplateFrame()
    ensures Frame(Head(), Seam(CssTokens.Scheme(Light)), Seam(CssTokens.Scheme(Dark)), COMMON_SLOT, LIGHT_SLOT, DARK_SLOT)
    ensures CSS_TEMPLATE == Head() + COMMON_SLOT + Seam(CssTokens.Scheme(Light)) + LIGHT_SLOT + Seam(CssTokens.Scheme(Dark)) + DARK_SLOT + TAIL
  {
    TemplatePieces(COMMON_SLOT, LIGHT_SLOT, DARK_SLOT);
    SlotsApart();
    SlotShape(COMMON_SLOT);
    SlotShape(LIGHT_SLOT);
    SlotShape(DARK_SLOT);
    HeadShape();
    SeamShape(CssTokens.Scheme(Light));
    SeamShape(CssTokens.Scheme(Dark));
  }

  /** Text without `pat` around a body without `pat`, meeting it at newlines. */
  lemma AbsentAround(h: string, c: string, t: string, pat: string)
    requires |pat| > 0 && '\n' !in pat
    requires Absent(h, pat) && Absent(c, pat) && Absent(t, pat)
    requires |h| > 0 && h[|h| - 1] == '\n' && |t| > 0 && t[0] == '\n'
    ensures Absent(h + c + t, pat)
  {
    AbsentConcat(h, c, pat);
    AbsentConcat(h + c, t, pat);
  }

  lemma Regroup(h: string, a: string, t0: string, b: string, t1: string, e: string, t2: string)
    ensures h + a + t0 + b + t1 + e + t2 == h + a + (t0 + b + t1 + e + t2)
    ensures h + a + t0 + b + t1 + e + t2 == h + a + t0 + b + (t1 + e + t2)
  {
  }

  lemma RegroupTail(x: string, l: string, t1: string, e: string, t2: string)
    ensures x + l + (t1 + e + t2) == x + l + t1 + e + t2
  {
  }

  /** Replacing a newline-free placeholder that first occurs after a newline. */
  lemma ReplaceBetween(x: string, pat: string, y: string, rep: string)
    requires |pat| > 0 && '\n' !in pat && Absent(x, pat) && |x| > 0 && x[|x| - 1] == '\n' && '$' !in rep
    ensures ReplaceFirst(x + pat + y, pat, rep) == x + rep + y
  {
    ReplaceAfter(x, pat, y, rep);
  }

  /** The second and third replacements on a frame whose first body is in place. */
  lemma LaterSteps(h: string, t0: string, t1: string, t2: string, cs: string, ls: string, ds: string, c: string, l: string, d: string)
    requires Frame(h, t0, t1, cs, ls, ds)
    requires '$' !in l && '$' !in d
    requires Absent(c, ls) && Absent(c, ds) && Absent(l, ds)
    ensures ReplaceFirst(ReplaceFirst(h + c + t0 + ls + t1 + ds + t2, ls, l), ds, d) ==
      h + c + t0 + l + t1 + d + t2
  {
    var x1 := h + c + t0;
    AbsentNoStart(h, ls);
    AbsentNoStart(t0, ls);
    AbsentAround(h, c, t0, ls);
    assert x1[|x1| - 1] == t0[|t0| - 1];
    Regroup(h, c, t0, ls, t1, ds, t2);
    ReplaceBetween(x1, ls, t1 + ds + t2, l);
    RegroupTail(x1, l, t1, ds, t2);
    var x2 := x1 + l + t1;
    AbsentNoStart(h, ds);
    AbsentNoStart(t0, ds);
    AbsentNoStart(t1, ds);
    AbsentAround(h, c, t0, ds);
    AbsentAround(x1, l, t1, ds);
    assert x2[|x2| - 1] == t1[|t1| - 1];
    ReplaceBetween(x2, ds, t2, d);
  }

  /** The three replacements on a frame, with bodies that the later steps do not
      find a placeholder in and that hold no `$`. */
  lemma FillSteps(h: string, t0: string, t1: string, t2: string, cs: string, ls: string, ds: string, c: string, l: string, d: string)
    requires Frame(h, t0, t1, cs, ls, ds)
    requires '$' !in c && '$' !in l && '$' !in d
    requires Absent(c, ls) && Absent(c, ds) && Absent(l, ds)
    ensures ReplaceFirst(ReplaceFirst(ReplaceFirst(h + cs + t0 + ls + t1 + ds + t2, cs, c), ls, l), ds, d) ==
      h + c + t0 + l + t1 + d + t2
  {
    AbsentNoStart(h, cs);
    Regroup(h, cs, t0, ls, t1, ds, t2);
    Regroup(h, c, t0, ls, t1, ds, t2);
    ReplaceBetween(h, cs, t0 + ls + t1 + ds + t2, c);
    LaterSteps(h, t0, t1, t2, cs, ls, ds, c, l, d);
  }

  /** Sections without `$` and without a later placeholder fill the template
      as plain text. */
  lemma FillPlain(c: string, l: string, d: string)
    requires '$' !in c && '$' !in l && '$' !in d
    requires Absent(c, LIGHT_SLOT) && Absent(c, DARK_SLOT) && Absent(l, DARK_SLOT)
    ensures Fill(c, l, d) == Template(c, l, d)
  {
    TemplateFrame();
    TemplatePieces(c, l, d);
    FillSteps(Head(), Seam(CssTokens.Scheme(Light)), Seam(CssTokens.Scheme(Dark)), TAIL, COMMON_SLOT, LIGHT_SLOT, DARK_SLOT, c, l, d);
  }

  /** The replacements on a frame whose first body is the second placeholder. */
  lemma PlaceholderSteps(h: string, t0: string, t1: string, t2: string, cs: string, ls: string, ds: string, l: string, d: string)
    requires Frame(h, t0, t1, cs, ls, ds)
    requires '$' !in ls && '$' !in l && '$' !in d && Absent(l, ds)
    ensures ReplaceFirst(ReplaceFirst(ReplaceFirst(h + cs + t0 + ls + t1 + ds + t2, cs, ls), ls, l), ds, d) ==
      h + l + t0 + ls + t1 + d + t2
  {
    var rest := t0 + ls + t1 + ds + t2;
    AbsentNoStart(h, cs);
    AbsentNoStart(h, ls);
    Regroup(h, cs, t0, ls, t1, ds, t2);
    ReplaceBetween(h, cs, rest, ls);
    ReplaceBetween(h, ls, rest, l);
    Regroup(h, l, t0, ls, t1, ds, t2);
    var x2 := h + l + t0 + ls + t1;
    AbsentNoStart(h, ds);
    AbsentNoStart(t0, ds);
    AbsentNoStart(t1, ds);
    AbsentAround(h, l, t0, ds);
    AbsentAround(h + l + t0, ls, t1, ds);
    assert x2[|x2| - 1] == t1[|t1| - 1];
    ReplaceBetween(x2, ds, t2, d);
  }

  /** A common section that holds the light placeholder takes the light section
      into the `.g-root` block, and the light block keeps the placeholder. */
  lemma PlaceholderInCommon(l: string, d: string)
    requires '$' !in l && '$' !in d && Absent(l, DARK_SLOT)
    ensures Fill(LIGHT_SLOT, l, d) == Template(l, LIGHT_SLOT, d)
  {
    TemplateFrame();
    TemplatePieces(l, LIGHT_SLOT, d);
    assert '$' !in LIGHT_SLOT;
    PlaceholderSteps(Head(), Seam(CssTokens.Scheme(Light)), Seam(CssTokens.Scheme(Dark)), TAIL, COMMON_SLOT, LIGHT_SLOT, DARK_SLOT, l, d);
  }

  /** `$'` in place of the first placeholder stands for the rest of the template. */
  lemma TailFirst(h: string, cs: string, rest: string, c: string)
    requires c == "$'"
    requires |cs| > 0 && '\n' !in cs && cs[0] !in h && |h| > 0 && h[|h| - 1] == '\n'
    ensures ReplaceFirst(h + cs + rest, cs, c) == h + rest + rest
  {
    AbsentNoStart(h, cs);
    ReplaceAt(h, cs, rest, c);
    SubstitutionPatterns(h, cs, rest);
  }

  /** Two copies of the rest of the template, cut at the last dark placeholder of the first. */
  lemma RegroupTwice(h: string, t0: string, ls: string, t1: string, ds: string, t2: string)
    ensures var rest := t0 + ls + t1 + ds + t2;
      h + rest + rest == h + t0 + ls + t1 + ds + (t2 + rest)
  {
  }

  /** The later replacements once `$'` has doubled the rest of the template. */
  lemma TailSteps(h: string, t0: string, t1: string, t2: string, cs: string, ls: string, ds: string, l: string, d: string)
    requires Frame(h, t0, t1, cs, ls, ds)
    requires '$' !in l && '$' !in d && Absent(l, ds)
    ensures var rest := t0 + ls + t1 + ds + t2;
      ReplaceFirst(ReplaceFirst(h + rest + rest, ls, l), ds, d) == h + t0 + l + t1 + d + (t2 + rest)
  {
    var rest := t0 + ls + t1 + ds + t2;
    RegroupTwice(h, t0, ls, t1, ds, t2);
    assert h + "" == h;
    AbsentNoStart("", ls);
    AbsentNoStart("", ds);
    LaterSteps(h, t0, t1, t2 + rest, cs, ls, ds, "", l, d);
  }

  /** The template from the light block on, placeholders and all. */
  function Rest(): string {
    Seam(CssTokens.Scheme(Light)) + LIGHT_SLOT + Seam(CssTokens.Scheme(Dark)) + DARK_SLOT + TAIL
  }

  lemma TailFirstStep(c: string)
    requires c == "$'"
    ensures ReplaceFirst(CSS_TEMPLATE, COMMON_SLOT, c) == Head() + Rest() + Rest()
  {
    TemplateFrame();
    Regroup(Head(), COMMON_SLOT, Seam(CssTokens.Scheme(Light)), LIGHT_SLOT, Seam(CssTokens.Scheme(Dark)), DARK_SLOT, TAIL);
    TailFirst(Head(), COMMON_SLOT, Rest(), c);
  }

  lemma TailLaterSteps(l: string, d: string)
    requires '$' !in l && '$' !in d && Absent(l, DARK_SLOT)
    ensures ReplaceFirst(ReplaceFirst(Head() + Rest() + Rest(), LIGHT_SLOT, l), DARK_SLOT, d) ==
      Head() + Seam(CssTokens.Scheme(Light)) + l + Seam(CssTokens.Scheme(Dark)) + d + (TAIL + Rest())
  {
    TemplateFrame();
    TailSteps(Head(), Seam(CssTokens.Scheme(Light)), Seam(CssTokens.Scheme(Dark)), TAIL, COMMON_SLOT, LIGHT_SLOT, DARK_SLOT, l, d);
  }

  lemma TailFill(c: string, l: string, d: string)
    requires c == "$'" && '$' !in l && '$' !in d && Absent(l, DARK_SLOT)
    ensures Fill(c, l, d) == Head() + Seam(CssTokens.Scheme(Light)) + l + Seam(CssTokens.Scheme(Dark)) + d + (TAIL + Rest())
  {
    TailFirstStep(c);
    TailLaterSteps(l, d);
  }

  /** A seam is the end of one block, a blank line and the next block's header. */
  lemma SeamSplit(sc: CssTokens.Scope)
    ensures Seam(sc) == TAIL + "\n\n" + CssTokens.Selector(sc) + " {\n"
  {
  }

  lemma Reblock(t: string, nn: string, sl: string, ob: string, ls: string, sd: string, ds: string)
    ensures (t + nn + sl + ob) + ls + (t + nn + sd + ob) + ds + t == t + nn + (sl + ob + ls + t) + nn + (sd + ob + ds + t)
  {
  }

  lemma RestBlocks()
    ensures Rest() == TAIL + "\n\n" + Block(CssTokens.Scheme(Light), LIGHT_SLOT) + "\n\n" + Block(CssTokens.Scheme(Dark), DARK_SLOT)
  {
    SeamSplit(CssTokens.Scheme(Light));
    SeamSplit(CssTokens.Scheme(Dark));
    Reblock(TAIL, "\n\n", CssTokens.Selector(CssTokens.Scheme(Light)), " {\n", LIGHT_SLOT, CssTokens.Selector(CssTokens.Scheme(Dark)), DARK_SLOT);
  }

  lemma TailLayout(l: string, d: string)
    ensures Head() + Seam(CssTokens.Scheme(Light)) + l + Seam(CssTokens.Scheme(Dark)) + d + (TAIL + Rest()) ==
      Template("", l, d) + (TAIL + "\n\n" + Block(CssTokens.Scheme(Light), LIGHT_SLOT) + "\n\n" + Block(CssTokens.Scheme(Dark), DARK_SLOT))
  {
    var x := Head() + Seam(CssTokens.Scheme(Light)) + l + Seam(CssTokens.Scheme(Dark)) + d;
    RestBlocks();
    TemplatePieces("", l, d);
    assert Head() + "" == Head();
    SeqAssoc(x, TAIL, Rest());
  }

  /** A common section that is `$'` stands for the rest of the template: the
      stylesheet gains a stray `}` and a second light and dark block, each with
      its placeholder. */
  lemma TailPattern(l: string, d: string)
    requires '$' !in l && '$' !in d && Absent(l, DARK_SLOT)
    ensures Fill("$'", l, d) ==
      Template("", l, d) + (TAIL + "\n\n" + Block(CssTokens.Scheme(Light), LIGHT_SLOT) + "\n\n" + Block(CssTokens.Scheme(Dark), DARK_SLOT))
  {
    TailFill("$'", l, d);
    TailLayout(l, d);
  }

  // ---------------------------------------------------------------------------
  // Placeholders through indentation

  /** A slice of text without `pat` holds no `pat`. */
  lemma AbsentSlice(s: string, i: nat, j: nat, pat: string)
    requires i <= j <= |s| && Absent(s, pat)
    ensures Absent(s[i..j], pat)
  {
    forall k: nat | k + |pat| <= j - i ensures !OccursAt(s[i..j], pat, k) {
      var a, b := s[i..j][k..k + |pat|], s[i + k..i + k + |pat|];
      forall m | 0 <= m < |a| ensures a[m] == b[m] {
        assert a[m] == s[i..j][k + m] == s[i + k + m];
      }
      assert a == b;
      assert !OccursAt(s, pat, i + k);
    }
  }

  /** The first piece of a split is a prefix of the text. */
  lemma {:induction false} SplitHead(s: string, sep: char)
    ensures |Split(s, sep)[0]| <= |s| && Split(s, sep)[0] == s[..|Split(s, sep)[0]|]
    decreases |s|
  {
    if |s| > 0 && s[0] != sep {
      var h := Split(s[1..], sep)[0];
      SplitHead(s[1..], sep);
      assert Split(s, sep)[0] == [s[0]] + h;
      assert s[..1 + |h|] == [s[0]] + s[1..][..|h|];
    }
  }

  /** The pieces of a split of text without `pat` hold no `pat`. */
  lemma {:induction false} SplitPiecesAbsent(s: string, sep: char, pat: string)
    requires |pat| > 0 && Absent(s, pat)
    ensures forall i | 0 <= i < |Split(s, sep)| :: Absent(Split(s, sep)[i], pat)
    decreases |s|
  {
    if |s| == 0 {
      assert Absent("", pat);
    } else {
      var rest := Split(s[1..], sep);
      AbsentSlice(s, 1, |s|, pat);
      assert s[1..|s|] == s[1..];
      SplitPiecesAbsent(s[1..], sep, pat);
      if s[0] == sep {
        assert Absent("", pat);
      } else {
        SplitHead(s, sep);
        AbsentSlice(s, 0, |Split(s, sep)[0]|, pat);
        assert Split(s, sep)[1..] == rest[1..];
      }
    }
  }

  /** Joining pieces without a newline-free `pat` by newlines brings no `pat`. */
  lemma {:induction false} JoinAbsent(parts: seq<string>, pat: string)
    requires |pat| > 0 && '\n' !in pat
    requires forall i | 0 <= i < |parts| :: Absent(parts[i], pat)
    ensures Absent(Join(parts, "\n"), pat)
    decreases |parts|
  {
    if |parts| == 0 {
      assert Absent("", pat);
    } else if |parts| > 1 {
      JoinAbsent(parts[1..], pat);
      assert pat[0] != '\n' by { assert pat[0] in pat; }
      AbsentNoStart("\n", pat);
      AbsentConcat(parts[0], "\n", pat);
      AbsentConcat(parts[0] + "\n", Join(parts[1..], "\n"), pat);
    }
  }

  /** Indentation brings in no placeholder that starts with neither a space nor
      a newline. */
  lemma AddIndentationAbsent(text: string, spaces: nat, pat: string)
    requires |pat| > 0 && '\n' !in pat && pat[0] != ' '
    requires Absent(text, pat)
    ensures Absent(AddIndentation(text, spaces), pat)
  {
    var lines := Split(text, '\n');
    SplitPiecesAbsent(text, '\n', pat);
    var out := IndentLines(lines, spaces);
    AbsentNoStart(Spaces(spaces), pat);
    forall i | 0 <= i < |out| ensures Absent(out[i], pat) {
      assert out[i] == IndentLine(lines[i], spaces);
      AbsentConcat(Spaces(spaces), lines[i], pat);
    }
    JoinAbsent(out, pat);
  }

  // ---------------------------------------------------------------------------
  // Collapsing newlines piece by piece

  /** Appending text that does not continue a run of newlines leaves the run as it is. */
  lemma {:induction false} NewlineRunAppend(a: string, b: string)
    requires NewlineRun(a) < |a| || b == [] || b[0] != '\n'
    ensures NewlineRun(a + b) == NewlineRun(a)
    decreases |a|
  {
    if |a| > 0 && a[0] == '\n' {
      assert (a + b)[1..] == a[1..] + b;
      NewlineRunAppend(a[1..], b);
    }
  }

  /** Where the seam between `a` and `b` is not inside a run of newlines, the two
      halves collapse on their own. */
  lemma {:induction false} CollapseAppend(a: string, b: string)
    requires a == [] || a[|a| - 1] != '\n' || b == [] || b[0] != '\n'
    ensures CollapseNewlines(a + b) == CollapseNewlines(a) + CollapseNewlines(b)
    decreases |a|
  {
    var ab := a + b;
    if |a| == 0 {
      assert ab == b;
    } else if a[0] != '\n' {
      assert ab[0] == a[0] && ab[1..] == a[1..] + b;
      assert |a| > 1 ==> a[1..][|a| - 2] == a[|a| - 1];
      CollapseAppend(a[1..], b);
      assert CollapseNewlines(ab) == [a[0]] + CollapseNewlines(a[1..] + b);
      assert CollapseNewlines(a) == [a[0]] + CollapseNewlines(a[1..]);
      SeqAssoc([a[0]], CollapseNewlines(a[1..]), CollapseNewlines(b));
    } else {
      var k := NewlineRun(a);
      NewlineRunAppend(a, b);
      assert ab[0] == '\n';
      assert ab[..k] == a[..k] && ab[k..] == a[k..] + b;
      assert k < |a| ==> a[k..][|a| - k - 1] == a[|a| - 1];
      CollapseAppend(a[k..], b);
      var run: string := if k >= 3 then "\n\n" else a[..k];
      assert CollapseNewlines(ab) == run + CollapseNewlines(a[k..] + b);
      assert CollapseNewlines(a) == run + CollapseNewlines(a[k..]);
      SeqAssoc(run, CollapseNewlines(a[k..]), CollapseNewlines(b));
    }
  }

  lemma SeqAssoc(x: string, y: string, z: string)
    ensures (x + y) + z == x + (y + z)
  {
  }

  /** Text without a newline is left as it is. */
  lemma CollapseUnbroken(s: string)
    requires '\n' !in s
    ensures CollapseNewlines(s) == s
  {
    forall i: nat ensures !TripleAt(s, i) {
      if i < |s| {
        assert s[i] in s;
      }
    }
    CollapseWithoutTriple(s);
  }

  /** Collapsing brings in no character but newlines. */
  lemma {:induction false} CollapseBringsNothing(s: string, c: char)
    requires c != '\n' && c !in s
    ensures c !in CollapseNewlines(s)
    decreases |s|
  {
    if |s| > 0 {
      if s[0] != '\n' {
        assert s[1..] == s[1..];
        CollapseBringsNothing(s[1..], c);
      } else {
        var k := NewlineRun(s);
        assert c !in s[k..];
        CollapseBringsNothing(s[k..], c);
      }
    }
  }

  /** Indentation brings in no character but spaces. */
  lemma AddIndentationBringsNothing(text: string, spaces: nat, c: char)
    requires c != ' ' && c != '\n' && c !in text
    ensures c !in AddIndentation(text, spaces)
  {
    var lines := Split(text, '\n');
    SplitPiecesFrom(text, '\n', c);
    var out := IndentLines(lines, spaces);
    forall i | 0 <= i < |out| ensures c !in out[i] {
      assert out[i] == IndentLine(lines[i], spaces);
    }
    JoinBringsNothing(out, "\n", c);
  }

  /** A piece of `Split(s, _)` holds only characters of `s`. */
  lemma {:induction false} SplitPiecesFrom(s: string, sep: char, c: char)
    requires c !in s
    ensures forall i | 0 <= i < |Split(s, sep)| :: c !in Split(s, sep)[i]
    decreases |s|
  {
    if |s| > 0 {
      assert c !in s[1..];
      SplitPiecesFrom(s[1..], sep, c);
    }
  }

  /** `Join` brings in only the characters of its separator. */
  lemma {:induction false} JoinBringsNothing(parts: seq<string>, sep: string, c: char)
    requires c !in sep
    requires forall i | 0 <= i < |parts| :: c !in parts[i]
    ensures c !in Join(parts, sep)
    decreases |parts|
  {
    if |parts| > 1 {
      JoinBringsNothing(parts[1..], sep, c);
    }
  }

  // ---------------------------------------------------------------------------
  // The block structure of the output

  /** A block's opening: selector, a space, `{`. */
  function Opening(sc: CssTokens.Scope): string {
    CssTokens.Selector(sc) + " {"
  }

  /** A block's body as it stands in the output: the section between two
      newlines, with runs of newlines collapsed. */
  function Body(section: string): string {
    CollapseNewlines("\n" + section + "\n")
  }

  lemma OpeningUnbroken(sc: CssTokens.Scope)
    ensures '\n' !in Opening(sc) && |Opening(sc)| > 0 && Opening(sc)[0] == '.'
    ensures Opening(sc)[|Opening(sc)| - 1] == '{'
  {
    assert Opening(sc) == CssTokens.Selector(sc) + [' ', '{'];
  }

  /** A block as it stands in the output: opening, body, `}`. */
  function Written(sc: CssTokens.Scope, body: string): string {
    Opening(sc) + body + "}"
  }

  /** The output's layout: the three written blocks with a blank line between two. */
  function Layout(b0: string, b1: string, b2: string): string {
    Written(CssTokens.Root, b0) + ("\n\n" + (Written(CssTokens.Scheme(Light), b1) + ("\n\n" + Written(CssTokens.Scheme(Dark), b2))))
  }

  /** Collapsing a block collapses its body and nothing else. */
  lemma CollapseBlock(sc: CssTokens.Scope, section: string)
    ensures CollapseNewlines(Block(sc, section)) == Written(sc, Body(section))
  {
    var h, inner := Opening(sc), "\n" + section + "\n";
    OpeningUnbroken(sc);
    assert Block(sc, section) == h + (inner + "}");
    CollapseAppend(h, inner + "}");
    CollapseUnbroken(h);
    CollapseAppend(inner, "}");
    CollapseUnbroken("}");
    SeqAssoc(h, Body(section), "}");
  }

  /** Collapsing the template collapses each body on its own and leaves
      everything between the bodies as it is. */
  lemma CollapseTemplate(c: string, l: string, d: string)
    ensures CollapseNewlines(Template(c, l, d)) == Layout(Body(c), Body(l), Body(d))
  {
    var b0, b1, b2 := Block(CssTokens.Root, c), Block(CssTokens.Scheme(Light), l), Block(CssTokens.Scheme(Dark), d);
    var gap := "\n\n";
    SeqAssoc(b0 + gap + b1, gap, b2);
    SeqAssoc(b0 + gap, b1, gap + b2);
    SeqAssoc(b0, gap, b1 + (gap + b2));
    assert Template(c, l, d) == b0 + (gap + (b1 + (gap + b2)));
    OpeningUnbroken(CssTokens.Scheme(Light));
    OpeningUnbroken(CssTokens.Scheme(Dark));
    assert Block(CssTokens.Scheme(Light), l)[0] == '.' && Block(CssTokens.Scheme(Dark), d)[0] == '.' by {
      assert Block(CssTokens.Scheme(Light), l)[0] == Opening(CssTokens.Scheme(Light))[0];
      assert Block(CssTokens.Scheme(Dark), d)[0] == Opening(CssTokens.Scheme(Dark))[0];
    }
    forall i: nat ensures !TripleAt(gap, i) { }
    CollapseWithoutTriple(gap);
    CollapseAppend(gap, b2);
    CollapseAppend(b1, gap + b2);
    CollapseAppend(gap, b1 + (gap + b2));
    CollapseAppend(b0, gap + (b1 + (gap + b2)));
    CollapseBlock(CssTokens.Root, c);
    CollapseBlock(CssTokens.Scheme(Light), l);
    CollapseBlock(CssTokens.Scheme(Dark), d);
  }




  /** A blank line starts no block. */
  lemma BlocksSkipGap(s: string, i: nat)
    requires i + 1 < |s| && s[i] == '\n' && s[i + 1] == '\n'
    ensures CssTokens.Blocks(s, i) == CssTokens.Blocks(s, i + 2)
  {
    CssTokens.BlocksSkipNewline(s, i);
    CssTokens.BlocksSkipNewline(s, i + 1);
  }

  /** A blank line and a written block that ends the string scan to that block alone. */
  lemma BlocksOfLast(s: string, i: nat, sc: CssTokens.Scope, body: string)
    requires '}' !in body
    requires |s| == i + 2 + |Written(sc, body)|
    requires s[i] == '\n' && s[i + 1] == '\n'
    requires OccursAt(s, Written(sc, body), i + 2)
    ensures CssTokens.Blocks(s, i) == [(sc, body)]
  {
    BlocksSkipGap(s, i);
    BlockStep(s, i + 2, sc, body, |s|);
    assert CssTokens.Blocks(s, |s|) == [];
  }

  /** A blank line, then a written block, then more. */
  lemma BlocksOfNext(s: string, i: nat, sc: CssTokens.Scope, body: string, j: nat)
    requires '}' !in body
    requires j == i + 2 + |Written(sc, body)| <= |s|
    requires s[i] == '\n' && s[i + 1] == '\n'
    requires OccursAt(s, Written(sc, body), i + 2)
    ensures CssTokens.Blocks(s, i) == [(sc, body)] + CssTokens.Blocks(s, j)
  {
    BlocksSkipGap(s, i);
    BlockStep(s, i + 2, sc, body, j);
  }

  /** The scan of a string holding three written blocks, a blank line between two,
      and nothing else. */
  lemma BlocksOfThree(s: string, b0: string, b1: string, b2: string, n0: nat, n1: nat)
    requires '}' !in b0 && '}' !in b1 && '}' !in b2
    requires n0 == |Written(CssTokens.Root, b0)| && n1 == n0 + 2 + |Written(CssTokens.Scheme(Light), b1)|
    requires |s| == n1 + 2 + |Written(CssTokens.Scheme(Dark), b2)|
    requires OccursAt(s, Written(CssTokens.Root, b0), 0)
    requires s[n0] == '\n' && s[n0 + 1] == '\n'
    requires OccursAt(s, Written(CssTokens.Scheme(Light), b1), n0 + 2)
    requires s[n1] == '\n' && s[n1 + 1] == '\n'
    requires OccursAt(s, Written(CssTokens.Scheme(Dark), b2), n1 + 2)
    ensures CssTokens.Blocks(s, 0) ==
      [(CssTokens.Root, b0), (CssTokens.Scheme(Light), b1), (CssTokens.Scheme(Dark), b2)]
  {
    var e0, e1, e2 := (CssTokens.Root, b0), (CssTokens.Scheme(Light), b1), (CssTokens.Scheme(Dark), b2);
    BlocksOfLast(s, n1, CssTokens.Scheme(Dark), b2);
    BlocksOfNext(s, n0, CssTokens.Scheme(Light), b1, n1);
    BlockStep(s, 0, CssTokens.Root, b0, n0);
    assert [e0] + ([e1] + [e2]) == [e0, e1, e2];
  }

  /** A written block at `i` is the next one scanned, and the scan goes on where it ends. */
  lemma BlockStep(s: string, i: nat, sc: CssTokens.Scope, body: string, j: nat)
    requires '}' !in body
    requires OccursAt(s, Written(sc, body), i) && j == i + |Written(sc, body)|
    ensures j <= |s|
    ensures CssTokens.Blocks(s, i) == [(sc, body)] + CssTokens.Blocks(s, j)
  {
    WrittenLength(sc, body);
    CssTokens.BlocksAt(s, i, sc, body, j);
  }

  lemma WrittenLength(sc: CssTokens.Scope, body: string)
    ensures Written(sc, body) == CssTokens.Selector(sc) + " {" + body + "}"
    ensures |Written(sc, body)| == |CssTokens.Selector(sc)| + |body| + 3
  {
  }

  /** `x`, a blank line, `r`: where each part stands. */
  lemma GapJoin(x: string, r: string)
    ensures |x + ("\n\n" + r)| == |x| + 2 + |r|
    ensures OccursAt(x + ("\n\n" + r), x, 0)
    ensures (x + ("\n\n" + r))[|x|] == '\n' && (x + ("\n\n" + r))[|x| + 1] == '\n'
  {
    assert (x + ("\n\n" + r))[..|x|] == x;
  }

  /** What stands at `k` in `r` stands `|x| + 2` further on in `x`, a blank line, `r`. */
  lemma GapShift(x: string, r: string, y: string, k: nat)
    requires OccursAt(r, y, k)
    ensures OccursAt(x + ("\n\n" + r), y, |x| + 2 + k)
  {
    var s := x + ("\n\n" + r);
    assert s[|x| + 2 + k..|x| + 2 + k + |y|] == r[k..k + |y|];
  }

  /** A character of `r` at `k` stands `|x| + 2` further on in `x`, a blank line, `r`. */
  lemma GapChar(x: string, r: string, k: nat)
    requires k < |r|
    ensures (x + ("\n\n" + r))[|x| + 2 + k] == r[k]
  {
  }

  /** The output's layout scans back to the three scopes, in order, and their bodies. */
  lemma ThreeBlocks(b0: string, b1: string, b2: string)
    requires '}' !in b0 && '}' !in b1 && '}' !in b2
    ensures CssTokens.Blocks(Layout(b0, b1, b2), 0) ==
      [(CssTokens.Root, b0), (CssTokens.Scheme(Light), b1), (CssTokens.Scheme(Dark), b2)]
  {
    var x0, x1, x2 := Written(CssTokens.Root, b0), Written(CssTokens.Scheme(Light), b1), Written(CssTokens.Scheme(Dark), b2);
    var t1 := x1 + ("\n\n" + x2);
    var s := x0 + ("\n\n" + t1);
    assert OccursAt(x2, x2, 0) by { assert x2[0..|x2|] == x2; }
    GapJoin(x1, x2);
    GapShift(x1, x2, x2, 0);
    GapJoin(x0, t1);
    GapShift(x0, t1, x1, 0);
    GapShift(x0, t1, x2, |x1| + 2);
    GapChar(x0, t1, |x1|);
    GapChar(x0, t1, |x1| + 1);
    BlocksOfThree(s, b0, b1, b2, |x0|, |x0| + 2 + |x1|);
  }

  /** The output of `generateCSS` is three blocks, `.g-root` with the common
      section, then `.g-root_theme_light`, then `.g-root_theme_dark`, each body
      being its section, indented, between two newlines. This holds as long as
      no section holds a `}`, which would end its block early, or a `$`, which
      `replace` would expand, and no section holds the placeholder of a later
      one, which a later `replace` would find first. */
  lemma GenerateCssBlocks(th: Theme, dflt: Theme, o: Options)
    requires th.Valid()
    requires Sections(th, dflt, o).Ok?
    requires var (c, l, d) := Sections(th, dflt, o).value; '}' !in c && '}' !in l && '}' !in d
    requires var (c, l, d) := Sections(th, dflt, o).value; '$' !in c && '$' !in l && '$' !in d
    requires var (c, l, d) := Sections(th, dflt, o).value;
      Absent(c, LIGHT_SLOT) && Absent(c, DARK_SLOT) && Absent(l, DARK_SLOT)
    ensures GenerateCssSpec(th, dflt, o).Ok?
    ensures var (c, l, d) := Sections(th, dflt, o).value;
      CssTokens.Blocks(GenerateCssSpec(th, dflt, o).value, 0) ==
        [(CssTokens.Root, Body(AddIndentation(c, INDENT))),
         (CssTokens.Scheme(Light), Body(AddIndentation(l, INDENT))),
         (CssTokens.Scheme(Dark), Body(AddIndentation(d, INDENT)))]
  {
    var (c, l, d) := Sections(th, dflt, o).value;
    IndentedBlocks(c, l, d);
  }

  /** Indented sections free of `}`, `$` and later placeholders fill the template
      block for block. */
  lemma IndentedBlocks(c: string, l: string, d: string)
    requires '}' !in c && '}' !in l && '}' !in d
    requires '$' !in c && '$' !in l && '$' !in d
    requires Absent(c, LIGHT_SLOT) && Absent(c, DARK_SLOT) && Absent(l, DARK_SLOT)
    ensures CssTokens.Blocks(CollapseNewlines(Fill(AddIndentation(c, INDENT), AddIndentation(l, INDENT), AddIndentation(d, INDENT))), 0) ==
      [(CssTokens.Root, Body(AddIndentation(c, INDENT))),
       (CssTokens.Scheme(Light), Body(AddIndentation(l, INDENT))),
       (CssTokens.Scheme(Dark), Body(AddIndentation(d, INDENT)))]
  {
    AddIndentationBringsNothing(c, INDENT, '}');
    AddIndentationBringsNothing(l, INDENT, '}');
    AddIndentationBringsNothing(d, INDENT, '}');
    AddIndentationBringsNothing(c, INDENT, '$');
    AddIndentationBringsNothing(l, INDENT, '$');
    AddIndentationBringsNothing(d, INDENT, '$');
    AddIndentationAbsent(c, INDENT, LIGHT_SLOT);
    AddIndentationAbsent(c, INDENT, DARK_SLOT);
    AddIndentationAbsent(l, INDENT, DARK_SLOT);
    PlainBlocks(AddIndentation(c, INDENT), AddIndentation(l, INDENT), AddIndentation(d, INDENT));
  }

  lemma PlainBlocks(c: string, l: string, d: string)
    requires '}' !in c && '}' !in l && '}' !in d
    requires '$' !in c && '$' !in l && '$' !in d
    requires Absent(c, LIGHT_SLOT) && Absent(c, DARK_SLOT) && Absent(l, DARK_SLOT)
    ensures CssTokens.Blocks(CollapseNewlines(Fill(c, l, d)), 0) ==
      [(CssTokens.Root, Body(c)), (CssTokens.Scheme(Light), Body(l)), (CssTokens.Scheme(Dark), Body(d))]
  {
    FillPlain(c, l, d);
    CollapseBringsNothing("\n" + c + "\n", '}');
    CollapseBringsNothing("\n" + l + "\n", '}');
    CollapseBringsNothing("\n" + d + "\n", '}');
    CollapseTemplate(c, l, d);
    ThreeBlocks(Body(c), Body(l), Body(d));
  }

  /** Every failure of `generateCSS` is the failure of one of its sections, and a
      failure in an earlier section hides any later one. */
  lemma GenerateCssFails(th: Theme, dflt: Theme, o: Options)
    requires th.Valid()
    ensures GenerateCssSpec(th, dflt, o).Err? <==>
      BackgroundChanged(th, dflt).Err? ||
      CommonVariables(th, dflt, o).Err? ||
      ThemeVariables(th, dflt, Light, o, BackgroundChanged(th, dflt).value).Err? ||
      ThemeVariables(th, dflt, Dark, o, BackgroundChanged(th, dflt).value).Err?
    ensures BackgroundChanged(th, dflt).Err? ==> GenerateCssSpec(th, dflt, o) == Err(UndefinedSlot(BACKGROUND))
    ensures BackgroundChanged(th, dflt).Ok? && CommonVariables(th, dflt, o).Err? ==>
      GenerateCssSpec(th, dflt, o) == Err(CommonVariables(th, dflt, o).error)
  {
  }
}
