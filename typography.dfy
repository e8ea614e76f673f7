/** Typography helpers: the text groups and their variants, the `--g-text-…`
    and `--g-font-family-…` variables, and the font-family value scanner and
    emitter. */
module Typography {
  import opened Common
  import opened Dicts
  import opened Variables
  import opened Themes

  /** `TEXT_GROUP_PROPERTIES`. */
  const GROUP_PROPERTIES: seq<string> := ["font-weight", "font-family"]

  /** `TEXT_VARIANT_PROPERTIES`. */
  const VARIANT_PROPERTIES: seq<string> := ["font-size", "line-height"]

  /** `TEXT_GROUPS`. */
  const TEXT_GROUPS: seq<string> := ["body", "caption", "header", "subheader", "display", "code"]

  /** `TEXT_VARIANTS`: the variants of each group, in the order the parser tries them. */
  const TEXT_VARIANTS: map<string, seq<string>> := map[
    "body" := ["body-short", "body-1", "body-2", "body-3"],
    "caption" := ["caption-1", "caption-2"],
    "header" := ["header-1", "header-2"],
    "subheader" := ["subheader-1", "subheader-2", "subheader-3"],
    "display" := ["display-1", "display-2", "display-3", "display-4"],
    "code" := ["code-1", "code-inline-1", "code-2", "code-inline-2", "code-3", "code-inline-3"]]

  /** Every variant, group by group. */
  const ALL_VARIANTS: seq<string> :=
    TEXT_VARIANTS["body"] + TEXT_VARIANTS["caption"] + TEXT_VARIANTS["header"] +
    TEXT_VARIANTS["subheader"] + TEXT_VARIANTS["display"] + TEXT_VARIANTS["code"]

  /** `FONT_FAMILY_TYPES`: the generic families written without quotes. */
  const FONT_FAMILY_TYPES: set<string> := {"sans-serif", "serif", "monospace", "cursive", "fantasy", "system-ui"}

  // ---------------------------------------------------------------------------
  // Facts about the enumerations

  /** `TEXT_GROUPS` is exactly the key set of `TEXT_VARIANTS`. */
  lemma GroupsAreVariantKeys()
    ensures TEXT_VARIANTS.Keys == set g | g in TEXT_GROUPS
    ensures Distinct(TEXT_GROUPS)
  {
  }

  /** Every variant of group `g` is `g-` followed by a suffix, and no group name holds a dash. */
  lemma VariantUnderGroup(g: string, w: string)
    requires g in TEXT_VARIANTS && w in TEXT_VARIANTS[g]
    ensures '-' !in g && '-' in w
    ensures StartsWith(w, g + "-") && |w| > |g| + 1
  {
  }

  lemma GroupHasNoDash(g: string)
    requires g in TEXT_VARIANTS
    ensures '-' !in g
  {
  }

  /** Group properties and variant properties are disjoint. */
  lemma PropertiesDisjoint(p: string)
    ensures !(p in GROUP_PROPERTIES && p in VARIANT_PROPERTIES)
  {
  }

  /** No variant name occurs twice, across all groups. */
  lemma VariantsDistinct()
    ensures Distinct(ALL_VARIANTS)
    ensures forall g, w | g in TEXT_VARIANTS && w in TEXT_VARIANTS[g] :: w in ALL_VARIANTS
  {
  }

  // ---------------------------------------------------------------------------
  // Text variables

  /** `isTextCssVariable`. */
  predicate IsTextVar(v: string) {
    StartsWith(v, TEXT_PREFIX)
  }

  /** What a text variable names: a group property or a variant property. */
  datatype TextKey =
    | GroupKey(group: string, property: string)
    | VariantKey(group: string, variant: string, property: string)

  /** The key is one the enumerations define. */
  predicate KnownKey(k: TextKey) {
    k.group in TEXT_VARIANTS &&
    match k
    case GroupKey(_, p) => p in GROUP_PROPERTIES
    case VariantKey(g, w, p) => w in TEXT_VARIANTS[g] && p in VARIANT_PROPERTIES
  }

  /** Whose property it is: the variant when it is not empty, otherwise the group. */
  function Owner(k: TextKey): string {
    if k.VariantKey? && k.variant != "" then k.variant else k.group
  }

  /** The name after the prefix: the owner, a dash, the property. */
  function KeyText(k: TextKey): string {
    Owner(k) + "-" + k.property
  }

  /** `createTextCssVariable`. */
  function TextVar(k: TextKey): (v: string)
    ensures IsTextVar(v) && v == TEXT_PREFIX + "-" + KeyText(k)
  {
    Under(TEXT_PREFIX, KeyText(k))
  }

  /** `variable.slice(THEME_TEXT_VARIABLE_PREFIX.length + 1)`: whatever character follows the prefix is skipped. */
  function TextContent(v: string): string {
    if |v| <= |TEXT_PREFIX| + 1 then "" else v[|TEXT_PREFIX| + 1..]
  }

  /** The variant loop: the first variant whose dash-pieces open `parts` and
      whose remaining pieces join to a variant property. */
  function MatchVariant(parts: seq<string>, variants: seq<string>): Option<(string, string)>
    decreases |variants|
  {
    if |variants| == 0 then None
    else
      var n := |Split(variants[0], '-')|;
      if |parts| <= n then MatchVariant(parts, variants[1..])
      else if Join(parts[..n], "-") == variants[0] && Join(parts[n..], "-") in VARIANT_PROPERTIES
      then Some((variants[0], Join(parts[n..], "-")))
      else MatchVariant(parts, variants[1..])
  }

  /** `parseTextCssVariable`. */
  function ParseTextVar(v: string): Option<TextKey> {
    if !IsTextVar(v) then None
    else
      var parts := Split(TextContent(v), '-');
      var g := parts[0];
      if g !in TEXT_VARIANTS then None
      else match MatchVariant(parts, TEXT_VARIANTS[g])
        case Some((w, p)) => Some(VariantKey(g, w, p))
        case None =>
          var rest := Join(parts[1..], "-");
          if rest in GROUP_PROPERTIES then Some(GroupKey(g, rest)) else None
  }

  /** Two dash-free words joined by a dash split into exactly those two. */
  lemma TwoPieces(a: string, b: string)
    requires '-' !in a && '-' !in b
    ensures Split(a + "-" + b, '-') == [a, b]
  {
    SplitConcat(a, '-', b);
    SplitWithout(a, '-');
    SplitWithout(b, '-');
  }

  /** Every property name is two dash-free words. */
  lemma PropertyPieces(p: string)
    requires p in GROUP_PROPERTIES || p in VARIANT_PROPERTIES
    ensures |Split(p, '-')| == 2
  {
    var a, b: string;
    if p == "font-weight" {
      a, b := "font", "weight";
    } else if p == "font-family" {
      a, b := "font", "family";
    } else if p == "font-size" {
      a, b := "font", "size";
    } else {
      a, b := "line", "height";
    }
    assert p == a + "-" + b;
    TwoPieces(a, b);
  }

  /** The pieces of `x-p` are the pieces of `x` followed by those of `p`, none holding a dash. */
  lemma ContentPieces(x: string, p: string)
    ensures Split(x + "-" + p, '-') == Split(x, '-') + Split(p, '-')
    ensures forall i | 0 <= i < |Split(x + "-" + p, '-')| :: '-' !in Split(x + "-" + p, '-')[i]
  {
    SplitConcat(x, '-', p);
    SplitPiecesWithout(x + "-" + p, '-');
  }

  /** When the content is `x-p` with `p` two words, a variant candidate `w`
      matches exactly when it is `x` and `p` is a variant property. */
  lemma {:induction false} CandidateMatch(x: string, p: string, w: string)
    requires |Split(p, '-')| == 2
    ensures var parts, n := Split(x, '-') + Split(p, '-'), |Split(w, '-')|;
      (|parts| > n && Join(parts[..n], "-") == w && Join(parts[n..], "-") in VARIANT_PROPERTIES)
      <==> (w == x && p in VARIANT_PROPERTIES)
  {
    var sx, sp := Split(x, '-'), Split(p, '-');
    var parts, n := sx + sp, |Split(w, '-')|;
    ContentPieces(x, p);
    assert parts == Split(x + "-" + p, '-');
    if w == x && p in VARIANT_PROPERTIES {
      assert parts[..n] == sx && parts[n..] == sp;
      JoinSplit(x, '-');
      JoinSplit(p, '-');
    }
    if |parts| > n && Join(parts[..n], "-") == w && Join(parts[n..], "-") in VARIANT_PROPERTIES {
      var q := Join(parts[n..], "-");
      PropertyPieces(q);
      SplitJoin(parts[n..], '-');
      assert n == |sx|;
      assert parts[..n] == sx && parts[n..] == sp;
      JoinSplit(x, '-');
      JoinSplit(p, '-');
    }
  }

  /** The variant loop finds `x` exactly when it is listed and `p` is a variant property. */
  lemma {:induction false} MatchVariantSpec(x: string, p: string, variants: seq<string>)
    requires |Split(p, '-')| == 2
    ensures MatchVariant(Split(x, '-') + Split(p, '-'), variants) ==
      if x in variants && p in VARIANT_PROPERTIES then Some((x, p)) else None
    decreases |variants|
  {
    if |variants| > 0 {
      var parts := Split(x, '-') + Split(p, '-');
      var n := |Split(variants[0], '-')|;
      CandidateMatch(x, p, variants[0]);
      MatchVariantSpec(x, p, variants[1..]);
      if variants[0] == x && p in VARIANT_PROPERTIES {
        assert parts[n..] == Split(p, '-');
        JoinSplit(p, '-');
      }
      assert x in variants <==> x == variants[0] || x in variants[1..];
    }
  }

  /** What the variant loop returns is a listed variant, the pieces it covers, and a variant property after them. */
  lemma {:induction false} MatchVariantSound(parts: seq<string>, variants: seq<string>)
    requires MatchVariant(parts, variants).Some?
    ensures var (w, p) := MatchVariant(parts, variants).value;
      w in variants && p in VARIANT_PROPERTIES && Join(parts, "-") == w + "-" + p
    decreases |variants|
  {
    var n := |Split(variants[0], '-')|;
    if |parts| > n && Join(parts[..n], "-") == variants[0] && Join(parts[n..], "-") in VARIANT_PROPERTIES {
      JoinPrefix(parts, n, '-');
    } else {
      MatchVariantSound(parts, variants[1..]);
    }
  }

  /** A variant variable parses back to its group, variant and property. */
  lemma VariantRoundTrip(g: string, w: string, p: string)
    requires g in TEXT_VARIANTS && w in TEXT_VARIANTS[g] && p in VARIANT_PROPERTIES
    ensures ParseTextVar(TextVar(VariantKey(g, w, p))) == Some(VariantKey(g, w, p))
  {
    var v := TextVar(VariantKey(g, w, p));
    VariantUnderGroup(g, w);
    assert TextContent(v) == w + "-" + p;
    ContentPieces(w, p);
    var suffix := w[|g| + 1..];
    assert w == g + "-" + suffix;
    ContentPieces(g, suffix);
    SplitWithout(g, '-');
    PropertyPieces(p);
    MatchVariantSpec(w, p, TEXT_VARIANTS[g]);
  }

  /** A group variable parses back to its group and property. */
  lemma GroupRoundTrip(g: string, p: string)
    requires g in TEXT_VARIANTS && p in GROUP_PROPERTIES
    ensures ParseTextVar(TextVar(GroupKey(g, p))) == Some(GroupKey(g, p))
  {
    var v := TextVar(GroupKey(g, p));
    assert TextContent(v) == g + "-" + p;
    ContentPieces(g, p);
    GroupHasNoDash(g);
    SplitWithout(g, '-');
    PropertyPieces(p);
    MatchVariantSpec(g, p, TEXT_VARIANTS[g]);
    forall w | w in TEXT_VARIANTS[g] ensures w != g {
      VariantUnderGroup(g, w);
    }
    assert Split(g + "-" + p, '-')[1..] == Split(p, '-');
    JoinSplit(p, '-');
  }

  /** `parseTextCssVariable(createTextCssVariable(k))` recovers every known key. */
  lemma TextRoundTrip(k: TextKey)
    requires KnownKey(k)
    ensures ParseTextVar(TextVar(k)) == Some(k)
  {
    match k
    case GroupKey(g, p) => GroupRoundTrip(g, p);
    case VariantKey(g, w, p) => VariantRoundTrip(g, w, p);
  }

  /** What the parser returns is a known key, and the variable is its built name
      except for the one character after the prefix, which is never looked at. */
  lemma ParseTextSound(v: string)
    requires ParseTextVar(v).Some?
    ensures var k := ParseTextVar(v).value;
      KnownKey(k) && |v| == |TextVar(k)| && v[..|TEXT_PREFIX|] == TEXT_PREFIX &&
      v[|TEXT_PREFIX| + 1..] == KeyText(k)
  {
    var content := TextContent(v);
    var parts := Split(content, '-');
    var g := parts[0];
    JoinSplit(content, '-');
    match MatchVariant(parts, TEXT_VARIANTS[g])
    case Some((w, p)) =>
      MatchVariantSound(parts, TEXT_VARIANTS[g]);
      VariantUnderGroup(g, w);
    case None =>
      JoinPrefix(parts, 1, '-');
  }

  /** `--g-text-body-1-font-size` names variant `body-1` of `body`, property `font-size`. */
  lemma ParsesBodySize(v: string)
    requires v == "--g-text-body-1-font-size"
    ensures ParseTextVar(v) == Some(VariantKey("body", "body-1", "font-size"))
  {
    var g, w, p := "body", "body-1", "font-size";
    assert TextVar(VariantKey(g, w, p)) == v;
    VariantRoundTrip(g, w, p);
  }

  /** `--g-text-header-font-weight` names the `font-weight` of group `header`. */
  lemma ParsesHeaderWeight(v: string)
    requires v == "--g-text-header-font-weight"
    ensures ParseTextVar(v) == Some(GroupKey("header", "font-weight"))
  {
    var g, p := "header", "font-weight";
    assert TextVar(GroupKey(g, p)) == v;
    GroupRoundTrip(g, p);
  }

  /** The parser on a variable whose content is `x-p`, `p` being two words:
      a listed variant `x` with a variant property, else the rest after the
      group when it is a group property, else nothing. */
  lemma ParseOfContent(v: string, x: string, p: string)
    requires IsTextVar(v) && TextContent(v) == x + "-" + p && |Split(p, '-')| == 2
    ensures var parts := Split(x, '-') + Split(p, '-');
      var g, rest := parts[0], Join(parts[1..], "-");
      ParseTextVar(v) ==
        if g !in TEXT_VARIANTS then None
        else if x in TEXT_VARIANTS[g] && p in VARIANT_PROPERTIES then Some(VariantKey(g, x, p))
        else if rest in GROUP_PROPERTIES then Some(GroupKey(g, rest))
        else None
  {
    ContentPieces(x, p);
    var g := (Split(x, '-') + Split(p, '-'))[0];
    if g in TEXT_VARIANTS {
      MatchVariantSpec(x, p, TEXT_VARIANTS[g]);
    }
  }

  /** A group followed by two words: a group property or nothing, never a variant. */
  lemma GroupContent(v: string, g: string, p: string)
    requires IsTextVar(v) && TextContent(v) == g + "-" + p
    requires '-' !in g && |Split(p, '-')| == 2
    ensures ParseTextVar(v) ==
      if g in TEXT_VARIANTS && p in GROUP_PROPERTIES then Some(GroupKey(g, p)) else None
  {
    SplitWithout(g, '-');
    ParseOfContent(v, g, p);
    if g in TEXT_VARIANTS {
      forall w | w in TEXT_VARIANTS[g] ensures w != g {
        VariantUnderGroup(g, w);
      }
    }
    assert ([g] + Split(p, '-'))[1..] == Split(p, '-');
    JoinSplit(p, '-');
  }

  /** Skipping the prefix and the character after it gives back what followed them. */
  lemma ContentUnder(c: string)
    ensures TextContent(TEXT_PREFIX + "-" + c) == c
  {
    var v := TEXT_PREFIX + "-" + c;
    if |v| > |TEXT_PREFIX| + 1 {
      assert v[|TEXT_PREFIX| + 1..] == c;
    }
  }

  /** `<prefix>-g-n-l-t`, all four words without dashes: the variant `g-n`
      with property `l-t` when both are listed, else the group property
      `n-l-t`, else nothing. */
  lemma VariantContent(v: string, g: string, n: string, l: string, t: string)
    requires v == TEXT_PREFIX + "-" + (g + "-" + n + "-" + l + "-" + t)
    requires '-' !in g && '-' !in n && '-' !in l && '-' !in t
    ensures var p, rest := l + "-" + t, n + "-" + l + "-" + t;
      ParseTextVar(v) ==
        if g !in TEXT_VARIANTS then None
        else if g + "-" + n in TEXT_VARIANTS[g] && p in VARIANT_PROPERTIES then Some(VariantKey(g, g + "-" + n, p))
        else if rest in GROUP_PROPERTIES then Some(GroupKey(g, rest))
        else None
  {
    var x, p := g + "-" + n, l + "-" + t;
    StartsWithConcat(TEXT_PREFIX, "-" + (g + "-" + n + "-" + l + "-" + t));
    assert v == TEXT_PREFIX + ("-" + (g + "-" + n + "-" + l + "-" + t));
    ContentUnder(g + "-" + n + "-" + l + "-" + t);
    assert TextContent(v) == x + "-" + p;
    TwoPieces(g, n);
    TwoPieces(l, t);
    ParseOfContent(v, x, p);
    assert ([g, n] + [l, t])[1..] == [n, l, t];
    JoinThree(n, l, t, "-");
  }

  /** `--g-text-header-55-line-height` names nothing: `header-55` is not a variant. */
  lemma RejectsUnknownVariant(v: string)
    requires v == "--g-text-header-55-line-height"
    ensures ParseTextVar(v).None?
  {
    var h, n, l, t := "header", "55", "line", "height";
    assert v == TEXT_PREFIX + "-" + (h + "-" + n + "-" + l + "-" + t);
    assert h in TEXT_VARIANTS && h + "-" + n !in TEXT_VARIANTS[h] && n + "-" + l + "-" + t !in GROUP_PROPERTIES;
    VariantContent(v, h, n, l, t);
  }

  /** `--g-text-header-font-super` names nothing: `font-super` is no property. */
  lemma RejectsUnknownProperty(v: string)
    requires v == "--g-text-header-font-super"
    ensures ParseTextVar(v).None?
  {
    var h, f, u := "header", "font", "super";
    var p := f + "-" + u;
    assert TextContent(v) == h + "-" + p;
    TwoPieces(f, u);
    GroupContent(v, h, p);
  }

  // ---------------------------------------------------------------------------
  // Font variables

  /** `isFontCssVariable`. */
  predicate IsFontVar(v: string) {
    StartsWith(v, FONT_PREFIX)
  }

  /** `createFontCssVariable`. */
  function FontVar(key: string): (v: string)
    ensures IsFontVar(v) && v == FONT_PREFIX + "-" + key
  {
    Under(FONT_PREFIX, key)
  }

  /** `getKeyFromCssFontVariable`: the first `--g-font-family-` removed. */
  function FontKeyOf(v: string): string {
    ReplaceFirst(v, FONT_PREFIX + "-", "")
  }

  /** `getKeyFromCssFontVariable(createFontCssVariable(k)) == k`. */
  lemma FontKeyRoundTrip(key: string)
    ensures FontKeyOf(FontVar(key)) == key
  {
    ReplacePrefix(FONT_PREFIX + "-", key);
  }

  // ---------------------------------------------------------------------------
  // Font-family values

  predicate IsQuote(ch: char) { ch == '"' || ch == '\'' }

  /** A character of `[^,'" \n]`. */
  predicate IsBare(ch: char) { ch != ',' && ch != '\'' && ch != '"' && ch != ' ' && ch != '\n' }

  /** The first quote at or after `i`. */
  function NextQuote(s: string, i: nat): (r: Option<nat>)
    ensures r.Some? ==> i <= r.value < |s| && IsQuote(s[r.value])
    ensures r.Some? ==> forall j | i <= j < r.value :: !IsQuote(s[j])
    ensures r.None? ==> forall j | i <= j < |s| :: !IsQuote(s[j])
    decreases |s| - i
  {
    if i >= |s| then None
    else if IsQuote(s[i]) then Some(i)
    else NextQuote(s, i + 1)
  }

  /** The end of the run of bare characters starting at `i`. */
  function BareEnd(s: string, i: nat): (e: nat)
    requires i <= |s|
    ensures i <= e <= |s| && (e < |s| ==> !IsBare(s[e]))
    ensures forall j | i <= j < e :: IsBare(s[j])
    decreases |s| - i
  {
    if i < |s| && IsBare(s[i]) then BareEnd(s, i + 1) else i
  }

  /** One attempt of `/["']([^"']+)["']|([^,'" \n]+)/` at the start of `s`: the
      captured text and the length of the match. A quote needs a later quote
      with at least one character between them; otherwise a run of bare
      characters is taken. */
  function MatchFont(s: string): (r: Option<(string, nat)>)
    ensures r.Some? ==> 0 < r.value.1 <= |s|
  {
    if |s| == 0 then None
    else if IsQuote(s[0]) then
      match NextQuote(s, 1)
      case Some(e) => if e > 1 then Some((s[1..e], e + 1)) else None
      case None => None
    else if IsBare(s[0]) then
      var e := BareEnd(s, 0);
      Some((s[..e], e))
    else None
  }

  /** The names the `exec` loop collects: each match trimmed, empty ones dropped. */
  function FontTokens(s: string): seq<string>
    decreases |s|
  {
    if |s| == 0 then []
    else match MatchFont(s)
      case None => FontTokens(s[1..])
      case Some((text, len)) =>
        var font := Trim(text);
        (if font == "" then [] else [font]) + FontTokens(s[len..])
  }

  /** `parseCssFontFamily`: the first name is the main font, the rest the
      fallbacks; no name at all gives nothing. */
  function FontFamilySpec(value: string): Option<Font> {
    var fonts := FontTokens(value);
    if |fonts| == 0 then None else Some(Font(fonts[0], fonts[1..]))
  }

  /** One step of the scan. */
  lemma FontTokensStep(s: string)
    requires |s| > 0
    ensures MatchFont(s).None? ==> FontTokens(s) == FontTokens(s[1..])
    ensures MatchFont(s).Some? ==> var (text, len) := MatchFont(s).value;
      FontTokens(s) == (if Trim(text) == "" then [] else [Trim(text)]) + FontTokens(s[len..])
  {
  }

  /** A position where nothing matches is skipped. */
  lemma ScanSkip(value: string, p: nat, fonts: seq<string>)
    requires p < |value| && fonts + FontTokens(value[p..]) == FontTokens(value)
    requires MatchFont(value[p..]).None?
    ensures fonts + FontTokens(value[p + 1..]) == FontTokens(value)
  {
    FontTokensStep(value[p..]);
    assert value[p..][1..] == value[p + 1..];
  }

  /** A match contributes its trimmed text, unless that is empty, and the scan resumes after it. */
  lemma ScanTake(value: string, p: nat, fonts: seq<string>, text: string, len: nat)
    requires p < |value| && fonts + FontTokens(value[p..]) == FontTokens(value)
    requires MatchFont(value[p..]) == Some((text, len))
    ensures p + len <= |value|
    ensures (fonts + (if Trim(text) == "" then [] else [Trim(text)])) + FontTokens(value[p + len..]) == FontTokens(value)
  {
    var rest := value[p..];
    FontTokensStep(rest);
    var found := if Trim(text) == "" then [] else [Trim(text)];
    assert rest[len..] == value[p + len..];
    Regroup(fonts, found, FontTokens(value[p + len..]));
  }

  lemma Regroup(a: seq<string>, b: seq<string>, c: seq<string>)
    ensures a + (b + c) == (a + b) + c
  {
  }

  /** `parseCssFontFamily`, one regex match per iteration. */
  method ParseCssFontFamily(value: string) returns (r: Option<Font>)
    ensures r == FontFamilySpec(value)
  {
    var fonts: seq<string> := [];
    var p := 0;
    while p < |value|
      invariant p <= |value|
      invariant fonts + FontTokens(value[p..]) == FontTokens(value)
      decreases |value| - p
    {
      var m := MatchFont(value[p..]);
      if m.None? {
        ScanSkip(value, p, fonts);
        assert fonts + FontTokens(value[p + 1..]) == FontTokens(value);
        p := p + 1;
      } else {
        var (text, len) := m.value;
        ScanTake(value, p, fonts, text, len);
        var font := Trim(text);
        if font != "" {
          fonts := fonts + [font];
        } else {
          assert fonts + [] == fonts;
        }
        assert fonts + FontTokens(value[p + len..]) == FontTokens(value);
        p := p + len;
      }
    }
    assert value[p..] == [] && FontTokens([]) == [];
    assert fonts + [] == fonts;
    if |fonts| == 0 {
      return None;
    }
    return Some(Font(fonts[0], fonts[1..]));
  }

  /** A name as `generateCssFontFamily` writes it: generic families bare, others single-quoted. */
  function QuoteName(name: string): string {
    if name in FONT_FAMILY_TYPES then name else "'" + name + "'"
  }

  function QuoteAll(names: seq<string>): (r: seq<string>)
    ensures |r| == |names| && forall i | 0 <= i < |names| :: r[i] == QuoteName(names[i])
  {
    if |names| == 0 then [] else [QuoteName(names[0])] + QuoteAll(names[1..])
  }

  /** `generateCssFontFamily`. */
  function GenerateFontFamily(f: Font): string {
    Join(QuoteAll([f.mainFont] + f.fallbackFonts), ", ")
  }

  /** A name the emitter can write so that the scanner reads it back. */
  predicate Writable(name: string) {
    name != "" && IsTrimmed(name) && forall i | 0 <= i < |name| :: !IsQuote(name[i])
  }

  /** The generic families consist of bare characters only. */
  lemma GenericIsBare(name: string)
    requires name in FONT_FAMILY_TYPES
    ensures forall i | 0 <= i < |name| :: IsBare(name[i])
  {
  }

  /** A written name followed by a separator (or nothing) scans as that name. */
  lemma OneName(name: string, tail: string)
    requires Writable(name)
    requires tail == "" || tail[0] == ','
    ensures FontTokens(QuoteName(name) + tail) == [name] + FontTokens(tail)
  {
    TrimProperties(name);
    if name in FONT_FAMILY_TYPES {
      BareName(name, tail);
    } else {
      QuotedName(name, tail);
    }
  }

  /** A generic family is matched as one run of bare characters, ended by the separator. */
  lemma BareName(name: string, tail: string)
    requires name in FONT_FAMILY_TYPES && Trim(name) == name
    requires tail == "" || tail[0] == ','
    ensures FontTokens(name + tail) == [name] + FontTokens(tail)
  {
    var s := name + tail;
    GenericIsBare(name);
    BareRun(s, |name|);
    assert s[..|name|] == name && s[|name|..] == tail;
    assert MatchFont(s) == Some((name, |name|));
    FontTokensStep(s);
  }

  /** A quoted name is matched from its opening to its closing quote. */
  lemma QuotedName(name: string, tail: string)
    requires name != "" && Trim(name) == name && forall i | 0 <= i < |name| :: !IsQuote(name[i])
    ensures FontTokens("'" + name + "'" + tail) == [name] + FontTokens(tail)
  {
    var s := "'" + name + "'" + tail;
    assert NextQuote(s, 1) == Some(|name| + 1) by {
      assert forall j | 1 <= j < |name| + 1 :: s[j] == name[j - 1];
      assert s[|name| + 1] == '\'';
    }
    assert s[1..|name| + 1] == name && s[|name| + 2..] == tail;
    assert MatchFont(s) == Some((name, |name| + 2));
    FontTokensStep(s);
  }

  lemma BareRun(s: string, n: nat)
    requires n <= |s| && (n < |s| ==> !IsBare(s[n])) && forall j | 0 <= j < n :: IsBare(s[j])
    ensures BareEnd(s, 0) == n
  {
    BareRunFrom(s, 0, n);
  }

  lemma {:induction false} BareRunFrom(s: string, i: nat, n: nat)
    requires i <= n <= |s| && (n < |s| ==> !IsBare(s[n])) && forall j | i <= j < n :: IsBare(s[j])
    ensures BareEnd(s, i) == n
    decreases n - i
  {
    if i < n {
      BareRunFrom(s, i + 1, n);
    }
  }

  /** The `, ` between two names yields nothing. */
  lemma Separator(tail: string)
    ensures FontTokens(", " + tail) == FontTokens(tail)
  {
    assert (", " + tail)[1..] == " " + tail;
    assert (" " + tail)[1..] == tail;
  }

  /** Scanning the emitted list gives back the names. */
  lemma {:induction false} ScanWritten(names: seq<string>)
    requires |names| >= 1 && forall i | 0 <= i < |names| :: Writable(names[i])
    ensures FontTokens(Join(QuoteAll(names), ", ")) == names
    decreases |names|
  {
    var q := QuoteAll(names);
    if |names| == 1 {
      OneName(names[0], "");
      assert QuoteName(names[0]) + "" == QuoteName(names[0]);
    } else {
      var rest := Join(QuoteAll(names[1..]), ", ");
      assert q[1..] == QuoteAll(names[1..]);
      assert Join(q, ", ") == QuoteName(names[0]) + (", " + rest);
      OneName(names[0], ", " + rest);
      Separator(rest);
      ScanWritten(names[1..]);
      assert names == [names[0]] + names[1..];
    }
  }

  /** Font-family round trip: `parseCssFontFamily(generateCssFontFamily(f)) == f`
      when every name is non-empty, trimmed and free of quotes. */
  lemma FontFamilyRoundTrip(f: Font)
    requires Writable(f.mainFont) && forall i | 0 <= i < |f.fallbackFonts| :: Writable(f.fallbackFonts[i])
    ensures FontFamilySpec(GenerateFontFamily(f)) == Some(f)
  {
    var names := [f.mainFont] + f.fallbackFonts;
    assert forall i | 0 <= i < |names| :: Writable(names[i]) by {
      forall i | 0 <= i < |names| ensures Writable(names[i]) {
        if i > 0 { assert names[i] == f.fallbackFonts[i - 1]; }
      }
    }
    ScanWritten(names);
    assert names[1..] == f.fallbackFonts;
  }

  /** A value without quotes or bare characters holds no font at all. */
  lemma {:induction false} NoFontInSeparators(s: string)
    requires forall i | 0 <= i < |s| :: s[i] == ',' || s[i] == ' ' || s[i] == '\n'
    ensures FontFamilySpec(s).None?
    ensures FontTokens(s) == []
    decreases |s|
  {
    if |s| > 0 {
      NoFontInSeparators(s[1..]);
    }
  }
}
