/** `parseThemeTokens`: the two regular-expression scans of a CSS string, written
    out by hand. Blocks are `.g-root`, `.g-root_theme_light` or
    `.g-root_theme_dark`, optional white space, `{`, a body up to the first `}`,
    and `}`; inside a body, declarations are `--name: value;`. Each declaration
    lands in the bucket of its block, trimmed, a later one overwriting an
    earlier one of the same name. */
module CssTokens {
  import opened Common
  import opened Dicts

  /** The block a declaration came from. */
  datatype Scope = Root | Scheme(v: Variant)

  const ROOT_SELECTOR: string := ".g-root"
  const LIGHT_SUFFIX: string := "_theme_light"
  const DARK_SUFFIX: string := "_theme_dark"

  /** The selector of each block kind. */
  function Selector(sc: Scope): string {
    match sc
    case Root => ROOT_SELECTOR
    case Scheme(Light) => ROOT_SELECTOR + LIGHT_SUFFIX
    case Scheme(Dark) => ROOT_SELECTOR + DARK_SUFFIX
  }

  // ---------------------------------------------------------------------------
  // Character scanning

  /** `\s*`: the end of the run of white space starting at `i`. */
  function SkipSpace(s: string, i: nat): (r: nat)
    requires i <= |s|
    ensures i <= r <= |s|
    ensures r < |s| ==> !IsJsSpace(s[r])
    ensures forall k | i <= k < r :: IsJsSpace(s[k])
    decreases |s| - i
  {
    if i < |s| && IsJsSpace(s[i]) then SkipSpace(s, i + 1) else i
  }

  /** The first `c` at or after `i`. */
  function Find(s: string, c: char, i: nat): (r: Option<nat>)
    requires i <= |s|
    ensures r.Some? ==> i <= r.value < |s| && s[r.value] == c
    decreases |s| - i
  {
    if i == |s| then None
    else if s[i] == c then Some(i)
    else Find(s, c, i + 1)
  }

  /** A `c` at `e` with none between `i` and `e` is what `Find` finds. */
  lemma {:induction false} FindAt(s: string, c: char, i: nat, e: nat)
    requires i <= e < |s| && s[e] == c
    requires forall k | i <= k < e :: s[k] != c
    ensures Find(s, c, i) == Some(e)
    decreases e - i
  {
    if i < e {
      FindAt(s, c, i + 1, e);
    }
  }

  /** `\w` and `-`. */
  predicate IsNameChar(ch: char) {
    'a' <= ch <= 'z' || 'A' <= ch <= 'Z' || '0' <= ch <= '9' || ch == '_' || ch == '-'
  }

  // ---------------------------------------------------------------------------
  // Blocks: /\.g-root(?:_theme_(light|dark))?\s*{([^}]*)}/g

  /** `\s*{` at `i`: the position after the brace. */
  function OpenAt(s: string, i: nat): (r: Option<nat>)
    requires i <= |s|
    ensures r.Some? ==> i < r.value <= |s|
  {
    var k := SkipSpace(s, i);
    if k < |s| && s[k] == '{' then Some(k + 1) else None
  }

  /** The selector at `i`, up to and including `{`: the theme suffix is tried
      first, then the bare `.g-root`. */
  function HeaderAt(s: string, i: nat): (r: Option<(Scope, nat)>)
    requires i <= |s|
    ensures r.Some? ==> i < r.value.1 <= |s|
  {
    if !OccursAt(s, ROOT_SELECTOR, i) then None
    else
      var j := i + |ROOT_SELECTOR|;
      if OccursAt(s, LIGHT_SUFFIX, j) && OpenAt(s, j + |LIGHT_SUFFIX|).Some? then
        Some((Scheme(Light), OpenAt(s, j + |LIGHT_SUFFIX|).value))
      else if OccursAt(s, DARK_SUFFIX, j) && OpenAt(s, j + |DARK_SUFFIX|).Some? then
        Some((Scheme(Dark), OpenAt(s, j + |DARK_SUFFIX|).value))
      else match OpenAt(s, j)
        case Some(k) => Some((Root, k))
        case None => None
  }

  /** A block matched at exactly `i`: its scope, its body and where the scan resumes. */
  function BlockAt(s: string, i: nat): (r: Option<(Scope, string, nat)>)
    requires i <= |s|
    ensures r.Some? ==> i < r.value.2 <= |s|
  {
    match HeaderAt(s, i)
    case None => None
    case Some((sc, k)) =>
      match Find(s, '}', k)
      case None => None
      case Some(e) => Some((sc, s[k..e], e + 1))
  }

  /** `regex.exec`: the first block matched at `i` or later. */
  function NextBlock(s: string, i: nat): (r: Option<(Scope, string, nat)>)
    requires i <= |s|
    ensures r.Some? ==> i < r.value.2 <= |s|
    decreases |s| - i
  {
    if i == |s| then None
    else match BlockAt(s, i)
      case Some(b) => Some(b)
      case None => NextBlock(s, i + 1)
  }

  /** Every block from `i` on, in order. */
  function Blocks(s: string, i: nat): seq<(Scope, string)>
    requires i <= |s|
    decreases |s| - i
  {
    match NextBlock(s, i)
    case None => []
    case Some((sc, body, next)) => [(sc, body)] + Blocks(s, next)
  }

  // ---------------------------------------------------------------------------
  // Declarations: /(--[\w-]+):\s*([^;]+);/g

  /** `--` at `j`. */
  predicate DashesAt(s: string, j: nat) {
    j + 2 <= |s| && s[j] == '-' && s[j + 1] == '-'
  }

  /** `--` followed by at least one name character. */
  predicate NameShaped(n: string) {
    |n| > 2 && DashesAt(n, 0) && forall k | 2 <= k < |n| :: IsNameChar(n[k])
  }

  /** The first position in `[lo, hi)` that is not white space, or `hi`. */
  function LeadEnd(s: string, lo: nat, hi: nat): (r: nat)
    requires lo <= hi <= |s|
    ensures lo <= r <= hi
    decreases hi - lo
  {
    if lo < hi && IsJsSpace(s[lo]) then LeadEnd(s, lo + 1, hi) else lo
  }

  /** The end of `[lo, hi)` once trailing white space is dropped. */
  function TrailStart(s: string, lo: nat, hi: nat): (r: nat)
    requires lo <= hi <= |s|
    ensures lo <= r <= hi
    decreases hi - lo
  {
    if lo < hi && IsJsSpace(s[hi - 1]) then TrailStart(s, lo, hi - 1) else hi
  }

  /** Where a match lies: its start, its `:`, the first and the last-plus-one
      position of its trimmed value, and its `;`. */
  type Span = (nat, nat, nat, nat, nat)

  predicate SpanIn(b: string, m: Span) {
    m.0 + 2 < m.1 && m.1 < m.2 <= m.3 <= m.4 < |b|
  }

  /** `propRegex.exec` from `j`: at each position in turn, `--`, then
      `[\w-]+`, `:`, and a value running to the first `;`; when the match at a
      position fails, the search resumes one position further on. */
  function NextDecl(b: string, j: nat): (r: Option<Span>)
    requires j <= |b|
    ensures r.Some? ==> j <= r.value.0 && SpanIn(b, r.value)
    decreases |b| - j, 2, 0
  {
    if j == |b| then None
    else if DashesAt(b, j) then NameFrom(b, j, j + 2)
    else NextDecl(b, j + 1)
  }

  /** `[\w-]+:` from `k`, for a match starting at `j`. */
  function NameFrom(b: string, j: nat, k: nat): (r: Option<Span>)
    requires j + 2 <= k <= |b|
    ensures r.Some? ==> j <= r.value.0 && SpanIn(b, r.value)
    decreases |b| - j, 1, |b| - k
  {
    if k < |b| && IsNameChar(b[k]) then NameFrom(b, j, k + 1)
    else if k == j + 2 || k == |b| || b[k] != ':' then NextDecl(b, j + 1)
    else ValueFrom(b, j, k, k + 1)
  }

  /** `\s*([^;]+);` from `k`, after the `:` at `e`. The value must not be
      empty; `\s*` followed by trimming drops the same white space as trimming
      alone, which is what the positions recorded mark. */
  function ValueFrom(b: string, j: nat, e: nat, k: nat): (r: Option<Span>)
    requires j + 2 < e < k <= |b|
    ensures r.Some? ==> j <= r.value.0 && SpanIn(b, r.value)
    decreases |b| - j, 0, |b| - k
  {
    if k == |b| then NextDecl(b, j + 1)
    else if b[k] != ';' then ValueFrom(b, j, e, k + 1)
    else if k == e + 1 then NextDecl(b, j + 1)
    else
      var lo := LeadEnd(b, e + 1, k);
      Some((j, e, lo, TrailStart(b, lo, k), k))
  }

  /** The name and the trimmed value of a match. */
  function Decl(b: string, m: Span): (string, string)
    requires SpanIn(b, m)
  {
    (b[m.0..m.1], b[m.2..m.3])
  }

  /** Dropping leading white space from a slice starts it at `LeadEnd`. */
  lemma {:induction false} TrimStartSlice(s: string, lo: nat, hi: nat)
    requires lo <= hi <= |s|
    ensures TrimStart(s[lo..hi]) == s[LeadEnd(s, lo, hi)..hi]
    decreases hi - lo
  {
    if lo < hi && IsJsSpace(s[lo]) {
      assert s[lo..hi][1..] == s[lo + 1..hi];
      TrimStartSlice(s, lo + 1, hi);
    }
  }

  /** Dropping trailing white space from a slice ends it at `TrailStart`. */
  lemma {:induction false} TrimEndSlice(s: string, lo: nat, hi: nat)
    requires lo <= hi <= |s|
    ensures TrimEnd(s[lo..hi]) == s[lo..TrailStart(s, lo, hi)]
    decreases hi - lo
  {
    if lo < hi && IsJsSpace(s[hi - 1]) {
      assert s[lo..hi][..hi - 1 - lo] == s[lo..hi - 1];
      TrimEndSlice(s, lo, hi - 1);
    }
  }

  /** The positions a match records for its value are those of the trimmed
      text between `:` and `;`. */
  lemma TrimSlice(s: string, lo: nat, hi: nat)
    requires lo <= hi <= |s|
    ensures Trim(s[lo..hi]) == s[LeadEnd(s, lo, hi)..TrailStart(s, LeadEnd(s, lo, hi), hi)]
  {
    TrimStartSlice(s, lo, hi);
    TrimEndSlice(s, LeadEnd(s, lo, hi), hi);
  }

  /** What `--[\w-]+` matched is shaped like a custom property name. */
  lemma NameAt(b: string, j: nat, e: nat)
    requires j + 2 < e <= |b| && DashesAt(b, j)
    requires forall k | j + 2 <= k < e :: IsNameChar(b[k])
    ensures NameShaped(b[j..e])
  {
    var name := b[j..e];
    assert forall k | 0 <= k < |name| :: name[k] == b[j + k];
  }

  /** What a match yields: a custom property name, then `:`, at least one
      character other than `;`, and the `;` that ends the match; the value is
      the trimmed text between the two, so it is trimmed and holds no `;`. */
  predicate Matched(b: string, m: Span)
    requires SpanIn(b, m)
  {
    && NameShaped(Decl(b, m).0)
    && b[m.1] == ':' && b[m.4] == ';' && m.1 + 1 < m.4
    && (forall i | m.1 < i < m.4 :: b[i] != ';')
    && Decl(b, m).1 == Trim(b[m.1 + 1..m.4])
    && IsTrimmed(Decl(b, m).1) && ';' !in Decl(b, m).1
  }

  /** Positions found by trimming mark the trimmed text. */
  lemma TrimmedValue(b: string, m: Span)
    requires SpanIn(b, m) && m.2 == LeadEnd(b, m.1 + 1, m.4) && m.3 == TrailStart(b, m.2, m.4)
    ensures Decl(b, m).1 == Trim(b[m.1 + 1..m.4])
  {
    ValueSlice(b, m.1 + 1, m.2, m.3, m.4);
  }

  lemma ValueSlice(b: string, lo: nat, a: nat, z: nat, hi: nat)
    requires lo <= hi <= |b| && a == LeadEnd(b, lo, hi) && z == TrailStart(b, a, hi)
    ensures b[a..z] == Trim(b[lo..hi])
  {
    TrimSlice(b, lo, hi);
  }

  lemma {:induction false} NextDeclMatched(b: string, j: nat)
    requires j <= |b|
    ensures NextDecl(b, j).Some? ==> Matched(b, NextDecl(b, j).value)
    decreases |b| - j, 2, 0
  {
    if j < |b| {
      if DashesAt(b, j) {
        NameFromMatched(b, j, j + 2);
      } else {
        NextDeclMatched(b, j + 1);
      }
    }
  }

  lemma {:induction false} NameFromMatched(b: string, j: nat, k: nat)
    requires j + 2 <= k <= |b| && DashesAt(b, j)
    requires forall i | j + 2 <= i < k :: IsNameChar(b[i])
    ensures NameFrom(b, j, k).Some? ==> Matched(b, NameFrom(b, j, k).value)
    decreases |b| - j, 1, |b| - k
  {
    if k < |b| && IsNameChar(b[k]) {
      NameFromMatched(b, j, k + 1);
    } else if k == j + 2 || k == |b| || b[k] != ':' {
      NextDeclMatched(b, j + 1);
    } else {
      NameAt(b, j, k);
      ValueFromMatched(b, j, k, k + 1);
    }
  }

  lemma {:induction false} ValueFromMatched(b: string, j: nat, e: nat, k: nat)
    requires j + 2 < e < k <= |b| && NameShaped(b[j..e]) && b[e] == ':'
    requires forall i | e < i < k :: b[i] != ';'
    ensures ValueFrom(b, j, e, k).Some? ==> Matched(b, ValueFrom(b, j, e, k).value)
    decreases |b| - j, 0, |b| - k
  {
    if k == |b| {
      NextDeclMatched(b, j + 1);
    } else if b[k] != ';' {
      ValueFromMatched(b, j, e, k + 1);
    } else if k == e + 1 {
      NextDeclMatched(b, j + 1);
    } else {
      MatchedAt(b, j, e, k);
    }
  }

  /** The match that ends at the first `;` after the `:`. */
  lemma MatchedAt(b: string, j: nat, e: nat, k: nat)
    requires j + 2 < e && e + 1 < k < |b| && NameShaped(b[j..e]) && b[e] == ':' && b[k] == ';'
    requires forall i | e < i < k :: b[i] != ';'
    ensures var lo := LeadEnd(b, e + 1, k); Matched(b, (j, e, lo, TrailStart(b, lo, k), k))
  {
    var lo := LeadEnd(b, e + 1, k);
    var m := (j, e, lo, TrailStart(b, lo, k), k);
    TrimmedValue(b, m);
    TrimProperties(b[e + 1..k]);
    NoSemicolonIn(b, e + 1, lo, m.3, k);
    assert Matched(b, m);
  }

  lemma NoSemicolonIn(b: string, lo: nat, a: nat, z: nat, hi: nat)
    requires lo <= a <= z <= hi <= |b|
    requires forall i | lo - 1 < i < hi :: b[i] != ';'
    ensures ';' !in b[a..z]
  {
    assert forall x | 0 <= x < z - a :: b[a..z][x] == b[a + x];
  }

  // ---------------------------------------------------------------------------
  // Buckets

  /** The three buckets, keyed by variable name in first-declaration order. */
  datatype Tokens = Tokens(root: Dict<string>, light: Dict<string>, dark: Dict<string>)
  {
    ghost predicate Valid() {
      root.Valid() && light.Valid() && dark.Valid()
    }

    function Bucket(sc: Scope): Dict<string> {
      match sc
      case Root => root
      case Scheme(Light) => light
      case Scheme(Dark) => dark
    }

    function With(sc: Scope, d: Dict<string>): (t: Tokens)
      ensures t.Bucket(sc) == d
      ensures forall o | o != sc :: t.Bucket(o) == Bucket(o)
    {
      match sc
      case Root => this.(root := d)
      case Scheme(Light) => this.(light := d)
      case Scheme(Dark) => this.(dark := d)
    }
  }

  const NO_TOKENS: Tokens := Tokens(Empty(), Empty(), Empty())

  /** `tokens[type][name] = value` for one declaration. */
  function Put(d: Dict<string>, x: (string, string)): Dict<string> {
    d.Put(x.0, x.1)
  }

  /** The declarations of `b` from `j` on, poured into `d` match by match. */
  function FillFrom(d: Dict<string>, b: string, j: nat): (r: Dict<string>)
    requires j <= |b|
    ensures d.Valid() ==> r.Valid()
    decreases |b| - j
  {
    match NextDecl(b, j)
    case None => d
    case Some(m) => FillFrom(Put(d, Decl(b, m)), b, m.4 + 1)
  }

  /** Each block's declarations poured into its bucket, block by block. */
  function AddBlocks(t: Tokens, blocks: seq<(Scope, string)>): (r: Tokens)
    ensures t.Valid() ==> r.Valid()
    decreases |blocks|
  {
    if |blocks| == 0 then t
    else
      var (sc, body) := blocks[0];
      AddBlocks(t.With(sc, FillFrom(t.Bucket(sc), body, 0)), blocks[1..])
  }

  /** What `parseThemeTokens` returns. */
  function TokensSpec(s: string): (t: Tokens)
    ensures t.Valid()
  {
    AddBlocks(NO_TOKENS, Blocks(s, 0))
  }

  // ---------------------------------------------------------------------------
  // The scanning loops

  /** The inner loop: every declaration of a body, into one bucket. */
  method ScanDeclarations(body: string, d0: Dict<string>) returns (d: Dict<string>)
    ensures d == FillFrom(d0, body, 0)
  {
    d := d0;
    var j := 0;
    var m := NextDecl(body, 0);
    while m.Some?
      invariant j <= |body| && m == NextDecl(body, j)
      invariant FillFrom(d, body, j) == FillFrom(d0, body, 0)
      decreases |body| - j
    {
      d := Put(d, Decl(body, m.value));
      j := m.value.4 + 1;
      m := NextDecl(body, j);
    }
  }

  /** `parseThemeTokens`. */
  method ParseThemeTokens(s: string) returns (t: Tokens)
    ensures t == TokensSpec(s)
  {
    t := NO_TOKENS;
    var i := 0;
    while true
      invariant i <= |s|
      invariant AddBlocks(t, Blocks(s, i)) == TokensSpec(s)
      decreases |s| - i
    {
      var m := NextBlock(s, i);
      if m.None? {
        break;
      }
      var (sc, body, next) := m.value;
      var d := ScanDeclarations(body, t.Bucket(sc));
      t := t.With(sc, d);
      i := next;
    }
  }

  // ---------------------------------------------------------------------------
  // Properties

  /** Every name is `--` followed by name characters, and every value is
      trimmed and holds no `;`. */
  predicate WellFormed(d: Dict<string>) {
    forall n | n in d.items :: NameShaped(n) && IsTrimmed(d.items[n]) && ';' !in d.items[n]
  }

  lemma {:induction false} FillFromWellFormed(d: Dict<string>, b: string, j: nat)
    requires j <= |b| && WellFormed(d)
    ensures WellFormed(FillFrom(d, b, j))
    decreases |b| - j
  {
    if NextDecl(b, j).Some? {
      var m := NextDecl(b, j).value;
      NextDeclMatched(b, j);
      PutWellFormed(d, Decl(b, m));
      FillFromWellFormed(Put(d, Decl(b, m)), b, m.4 + 1);
    }
  }

  lemma PutWellFormed(d: Dict<string>, x: (string, string))
    requires WellFormed(d) && NameShaped(x.0) && IsTrimmed(x.1) && ';' !in x.1
    ensures WellFormed(Put(d, x))
  {
  }

  lemma {:induction false} AddBlocksWellFormed(t: Tokens, blocks: seq<(Scope, string)>)
    requires forall sc :: WellFormed(t.Bucket(sc))
    ensures forall sc :: WellFormed(AddBlocks(t, blocks).Bucket(sc))
    decreases |blocks|
  {
    if |blocks| > 0 {
      var (sc, body) := blocks[0];
      FillFromWellFormed(t.Bucket(sc), body, 0);
      AddBlocksWellFormed(t.With(sc, FillFrom(t.Bucket(sc), body, 0)), blocks[1..]);
    }
  }

  /** `[^;]+` backtracks over the white space `\s*` took, so a declaration
      whose value is only white space still matches and stores the empty string. */
  lemma BlankValueStored()
    ensures FillFrom(Empty(), "--a: ;", 0).items == map["--a" := ""]
  {
    var b := "--a: ;";
    assert NextDecl(b, 0) == Some((0, 3, 5, 5, 5));
    assert b[0..3] == "--a";
  }

  /** Every bucket is keyed by custom property names, with trimmed values. */
  lemma TokensWellFormed(s: string)
    ensures forall sc :: WellFormed(TokensSpec(s).Bucket(sc))
  {
    assert forall sc :: NO_TOKENS.Bucket(sc).items == map[];
    AddBlocksWellFormed(NO_TOKENS, Blocks(s, 0));
  }

  /** The trimmed value of the last declaration of `n` from `j` on, if any. */
  function LastDeclared(b: string, j: nat, n: string): Option<string>
    requires j <= |b|
    decreases |b| - j
  {
    match NextDecl(b, j)
    case None => None
    case Some(m) =>
      match LastDeclared(b, m.4 + 1, n)
      case Some(v) => Some(v)
      case None => if Decl(b, m).0 == n then Some(Decl(b, m).1) else None
  }

  /** After scanning, a name maps to its last declared value, or keeps the value
      it had when it is not declared. */
  lemma {:induction false} FillFromLookup(d: Dict<string>, b: string, j: nat, n: string)
    requires j <= |b|
    ensures n in FillFrom(d, b, j).items <==> n in d.items || LastDeclared(b, j, n).Some?
    ensures n in FillFrom(d, b, j).items ==>
      FillFrom(d, b, j).items[n] == if LastDeclared(b, j, n).Some? then LastDeclared(b, j, n).value else d.items[n]
    decreases |b| - j
  {
    if NextDecl(b, j).Some? {
      var m := NextDecl(b, j).value;
      var x := Decl(b, m);
      FillFromLookup(Put(d, x), b, m.4 + 1, n);
      assert n in Put(d, x).items <==> n in d.items || x.0 == n;
    }
  }

  /** A declaration in the form the generator writes scans back to its name and
      value, and nothing else. */
  lemma {:induction false} DeclRoundTrip(d: Dict<string>, name: string, value: string)
    requires NameShaped(name) && IsTrimmed(value) && ';' !in value
    ensures FillFrom(d, name + ": " + value + ";", 0) == d.Put(name, value)
  {
    var b := name + ": " + value + ";";
    var e := |name|;
    var semi := |b| - 1;
    var m := (0, e, e + 2, semi, semi);
    assert NextDecl(b, 0) == Some(m) by {
      DeclName(name, value);
      DeclValue(name, value);
    }
    assert Decl(b, m) == (name, value) by {
      assert b[e + 2..semi] == value;
      assert b[0..e] == name;
    }
    assert NextDecl(b, |b|) == None;
  }

  /** Name characters from `k` to `e` are consumed without a decision. */
  lemma {:induction false} NameRun(b: string, j: nat, k: nat, e: nat)
    requires j + 2 <= k <= e <= |b|
    requires forall i | k <= i < e :: IsNameChar(b[i])
    ensures NameFrom(b, j, k) == NameFrom(b, j, e)
    decreases e - k
  {
    if k < e {
      NameRun(b, j, k + 1, e);
    }
  }

  /** Characters other than `;` from `k` to `s` are consumed without a decision. */
  lemma {:induction false} ValueRun(b: string, j: nat, e: nat, k: nat, s: nat)
    requires j + 2 < e < k <= s <= |b|
    requires forall i | k <= i < s :: b[i] != ';'
    ensures ValueFrom(b, j, e, k) == ValueFrom(b, j, e, s)
    decreases s - k
  {
    if k < s {
      ValueRun(b, j, e, k + 1, s);
    }
  }

  lemma DeclName(name: string, value: string)
    requires NameShaped(name)
    ensures var b := name + ": " + value + ";";
      NextDecl(b, 0) == ValueFrom(b, 0, |name|, |name| + 1)
  {
    var b := name + ": " + value + ";";
    assert forall k | 0 <= k < |name| :: b[k] == name[k];
    assert DashesAt(b, 0);
    NameRun(b, 0, 2, |name|);
    assert b[|name|] == ':' && !IsNameChar(b[|name|]);
  }

  lemma DeclValue(name: string, value: string)
    requires NameShaped(name) && IsTrimmed(value) && ';' !in value
    ensures var b := name + ": " + value + ";";
      ValueFrom(b, 0, |name|, |name| + 1) == Some((0, |name|, |name| + 2, |b| - 1, |b| - 1))
  {
    var b := name + ": " + value + ";";
    var e := |name|;
    assert b[e + 1] == ' ';
    assert forall k | e + 2 <= k < |b| - 1 :: b[k] == value[k - e - 2];
    ValueRun(b, 0, e, e + 1, |b| - 1);
    DeclValueTrimmed(name, value);
  }

  lemma DeclValueTrimmed(name: string, value: string)
    requires IsTrimmed(value)
    ensures var b := name + ": " + value + ";";
      LeadEnd(b, |name| + 1, |b| - 1) == |name| + 2 &&
      TrailStart(b, |name| + 2, |b| - 1) == |b| - 1
  {
    var b := name + ": " + value + ";";
    var e := |name|;
    assert b[e + 1] == ' ';
    if |value| > 0 {
      assert b[e + 2] == value[0];
      assert b[|b| - 2] == value[|value| - 1];
    }
  }

  /** A block in the form the generator writes scans back to its scope and body. */
  lemma BlockRoundTrip(sc: Scope, body: string)
    requires '}' !in body
    ensures Blocks(Selector(sc) + " {" + body + "}", 0) == [(sc, body)]
  {
    var s := Selector(sc) + " {" + body + "}";
    var k := |Selector(sc)| + 2;
    HeaderOf(sc, body);
    assert forall i | k <= i < |s| - 1 :: s[i] == body[i - k];
    assert forall i | k <= i < |s| - 1 :: s[i] != '}';
    FindAt(s, '}', k, |s| - 1);
    assert s[k..|s| - 1] == body;
    assert BlockAt(s, 0) == Some((sc, body, |s|));
    assert NextBlock(s, 0) == Some((sc, body, |s|));
    assert Blocks(s, |s|) == [];
  }

  /** The selector, a space and `{` open a block of the selector's scope. */
  lemma HeaderOf(sc: Scope, body: string)
    ensures HeaderAt(Selector(sc) + " {" + body + "}", 0) == Some((sc, |Selector(sc)| + 2))
  {
    var sel := Selector(sc);
    var s := sel + " {" + body + "}";
    assert s[..|sel|] == sel;
    assert OccursAt(s, ROOT_SELECTOR, 0) by { assert s[..7] == sel[..7]; }
    assert s[|sel|] == ' ' && s[|sel| + 1] == '{';
    assert OpenAt(s, |sel|) == Some(|sel| + 2);
    match sc
    case Root =>
      assert s[7] == ' ';
      assert !OccursAt(s, LIGHT_SUFFIX, 7) && !OccursAt(s, DARK_SUFFIX, 7);
    case Scheme(Light) =>
      assert OccursAt(s, LIGHT_SUFFIX, 7) by { assert s[7..|sel|] == sel[7..]; }
    case Scheme(Dark) =>
      assert !OccursAt(s, LIGHT_SUFFIX, 7) by { assert s[14] == 'd' && LIGHT_SUFFIX[7] == 'l'; }
      assert OccursAt(s, DARK_SUFFIX, 7) by { assert s[7..|sel|] == sel[7..]; }
  }

  /** The selector of `sc`, a space and `{` at `i` open a block of that scope. */
  lemma HeaderAtOffset(s: string, i: nat, sc: Scope)
    requires OccursAt(s, Selector(sc) + " {", i)
    ensures HeaderAt(s, i) == Some((sc, i + |Selector(sc)| + 2))
  {
    var sel := Selector(sc);
    var n := |sel|;
    assert s[i..i + n + 2] == sel + " {";
    assert s[i..i + n] == sel by { assert s[i..i + n] == s[i..i + n + 2][..n]; }
    assert OccursAt(s, ROOT_SELECTOR, i) by { assert s[i..i + 7] == s[i..i + n][..7]; }
    assert s[i + n] == ' ' && s[i + n + 1] == '{' by {
      assert s[i + n] == s[i..i + n + 2][n];
      assert s[i + n + 1] == s[i..i + n + 2][n + 1];
    }
    assert OpenAt(s, i + n) == Some(i + n + 2);
    match sc
    case Root =>
      assert s[i + 7] == ' ';
      assert !OccursAt(s, LIGHT_SUFFIX, i + 7) by { assert LIGHT_SUFFIX[0] == '_'; }
      assert !OccursAt(s, DARK_SUFFIX, i + 7) by { assert DARK_SUFFIX[0] == '_'; }
    case Scheme(Light) =>
      assert OccursAt(s, LIGHT_SUFFIX, i + 7) by { assert s[i + 7..i + n] == s[i..i + n][7..]; }
    case Scheme(Dark) =>
      assert !OccursAt(s, LIGHT_SUFFIX, i + 7) by {
        assert s[i + 14] == s[i..i + n][14] == 'd' && LIGHT_SUFFIX[7] == 'l';
      }
      assert OccursAt(s, DARK_SUFFIX, i + 7) by { assert s[i + 7..i + n] == s[i..i + n][7..]; }
  }

  /** A whole block in the form the generator writes, at `i`, is the next block found from `i`. */
  lemma NextBlockAt(s: string, i: nat, sc: Scope, body: string)
    requires '}' !in body
    requires OccursAt(s, Selector(sc) + " {" + body + "}", i)
    ensures NextBlock(s, i) == Some((sc, body, i + |Selector(sc)| + |body| + 3))
  {
    var b := Selector(sc) + " {" + body + "}";
    var k := i + |Selector(sc)| + 2;
    var e := k + |body|;
    assert s[i..i + |b|] == b;
    assert OccursAt(s, Selector(sc) + " {", i) by {
      assert s[i..i + |Selector(sc)| + 2] == s[i..i + |b|][..|Selector(sc)| + 2];
    }
    HeaderAtOffset(s, i, sc);
    forall j | k <= j < e ensures s[j] == body[j - k] {
      assert s[j] == s[i..i + |b|][j - i];
    }
    assert s[e] == '}' by { assert s[e] == s[i..i + |b|][|b| - 1]; }
    FindAt(s, '}', k, e);
    assert s[k..e] == body;
  }

  /** A newline starts no block: the search moves on. */
  lemma NextBlockSkipsNewline(s: string, i: nat)
    requires i < |s| && s[i] == '\n'
    ensures NextBlock(s, i) == NextBlock(s, i + 1)
  {
    assert !OccursAt(s, ROOT_SELECTOR, i) by { assert ROOT_SELECTOR[0] == '.'; }
  }

  /** The scan from a written block: that block, then the scan after it. */
  lemma BlocksAt(s: string, i: nat, sc: Scope, body: string, j: nat)
    requires '}' !in body
    requires OccursAt(s, Selector(sc) + " {" + body + "}", i)
    requires j == i + |Selector(sc)| + |body| + 3
    ensures j <= |s|
    ensures Blocks(s, i) == [(sc, body)] + Blocks(s, j)
  {
    NextBlockAt(s, i, sc, body);
  }

  /** The scan from a newline is the scan after it. */
  lemma BlocksSkipNewline(s: string, i: nat)
    requires i < |s| && s[i] == '\n'
    ensures Blocks(s, i) == Blocks(s, i + 1)
  {
    NextBlockSkipsNewline(s, i);
  }
}
