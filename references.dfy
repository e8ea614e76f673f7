/** The reference layer: internal dotted references (`private.<token>.<shade>`,
    `utility.<role>`), the colour CSS variables (`--g-color-private-<token>-<shade>`,
    `--g-color-<role>`), the longest-suffix parser of private variables and the
    `var(...)` extractor. */
module References {
  import opened Common
  import opened Variables
  import opened Shades
  import opened Roles

  /** A base-colour token and one of its shades. */
  datatype PrivateTarget = PrivateTarget(main: string, shade: Shade)

  // ---------------------------------------------------------------------------
  // Internal private references

  /** `createInternalPrivateColorReference`. */
  function PrivateRef(main: string, token: string): string {
    "private." + main + "." + token
  }

  /** `isInternalPrivateColorReference`: non-empty, three dot-separated parts, the first `private`. */
  predicate IsPrivateRef(s: string) {
    |s| > 0 && var parts := Split(s, '.'); |parts| == 3 && parts[0] == "private"
  }

  /** `parseInternalPrivateColorReference`: the shape test plus a known shade. */
  function ParsePrivateRef(s: string): Option<PrivateTarget> {
    var parts := Split(s, '.');
    if |parts| != 3 || parts[0] != "private" then None
    else match ShadeFromName(parts[2])
      case None => None
      case Some(t) => Some(PrivateTarget(parts[1], t))
  }

  lemma ThreePieces(a: string, b: string, c: string, sep: char)
    requires sep !in a && sep !in b && sep !in c
    ensures Split(a + [sep] + b + [sep] + c, sep) == [a, b, c]
    ensures Join([a, b, c], [sep]) == a + [sep] + b + [sep] + c
  {
    var ab := a + [sep] + b;
    SplitConcat(ab, sep, c);
    SplitConcat(a, sep, b);
    SplitWithout(a, sep);
    SplitWithout(b, sep);
    SplitWithout(c, sep);
    assert Split(ab, sep) == [a, b];
    assert [a, b] + [c] == [a, b, c];
    JoinThree(a, b, c, [sep]);
  }

  lemma PrivateRefPieces(main: string, token: string)
    requires '.' !in main && '.' !in token
    ensures Split(PrivateRef(main, token), '.') == ["private", main, token]
  {
    assert PrivateRef(main, token) == "private" + ['.'] + main + ['.'] + token;
    ThreePieces("private", main, token, '.');
  }

  /** The predicate holds exactly of the strings the builder produces from dot-free parts. */
  lemma IsPrivateRefIff(s: string)
    ensures IsPrivateRef(s) <==>
      exists main, token :: '.' !in main && '.' !in token && s == PrivateRef(main, token)
  {
    if IsPrivateRef(s) {
      var parts := Split(s, '.');
      SplitPiecesWithout(s, '.');
      JoinSplit(s, '.');
      ThreePieces(parts[0], parts[1], parts[2], '.');
      assert parts == [parts[0], parts[1], parts[2]];
      assert s == PrivateRef(parts[1], parts[2]);
    }
    if exists main, token :: '.' !in main && '.' !in token && s == PrivateRef(main, token) {
      var main, token :| '.' !in main && '.' !in token && s == PrivateRef(main, token);
      PrivateRefPieces(main, token);
    }
  }

  /** Parsing inverts building for every known shade and dot-free token. */
  lemma ParsePrivateRefRoundTrip(main: string, t: Shade)
    requires '.' !in main && t in ALL_PRIVATE
    ensures ParsePrivateRef(PrivateRef(main, t.Name())) == Some(PrivateTarget(main, t))
  {
    var name := t.Name();
    NameHasNoDot(t);
    PrivateRefPieces(main, name);
    ShadeFromNameOfName(t);
    ParsePieces(PrivateRef(main, name), main, name);
  }

  /** The parse of a string that dot-splits into `private`, `main` and a name. */
  lemma ParsePieces(s: string, main: string, name: string)
    requires Split(s, '.') == ["private", main, name]
    ensures ParsePrivateRef(s) == if ShadeFromName(name).Some? then Some(PrivateTarget(main, ShadeFromName(name).value)) else None
  {
  }

  /** A successful parse names a known shade and is the reference built from its parts. */
  lemma ParsePrivateRefSound(s: string)
    ensures ParsePrivateRef(s).Some? <==> IsPrivateRef(s) && IsShadeName(Split(s, '.')[2])
    ensures ParsePrivateRef(s).Some? ==>
      var p := ParsePrivateRef(s).value;
      p.shade in ALL_PRIVATE && s == PrivateRef(p.main, p.shade.Name())
  {
    var parts := Split(s, '.');
    if |parts| == 3 && parts[0] == "private" {
      ThreePartsJoined(s);
      if IsShadeName(parts[2]) {
        ShadeFromNameSome(parts[2]);
        PrivateRefOfParts(s, parts[0], parts[1], parts[2]);
      }
    }
  }

  lemma PrivateRefOfParts(s: string, a: string, b: string, c: string)
    requires a == "private" && s == a + "." + b + "." + c
    ensures s == PrivateRef(b, c)
  {
  }

  /** A string that dot-splits into three parts is their join. */
  lemma ThreePartsJoined(s: string)
    requires |Split(s, '.')| == 3
    ensures var parts := Split(s, '.'); |s| > 0 && s == parts[0] + "." + parts[1] + "." + parts[2]
  {
    var parts := Split(s, '.');
    JoinSplit(s, '.');
    ThreePieces(parts[0], parts[1], parts[2], '.') by { SplitPiecesWithout(s, '.'); }
    assert parts == [parts[0], parts[1], parts[2]];
  }

  // ---------------------------------------------------------------------------
  // Internal utility references

  /** `createInternalUtilityColorReference`. */
  function UtilityRef(role: string): string {
    "utility." + role
  }

  /** `isInternalUtilityColorReference`: non-empty, two dot-separated parts, the first `utility`. */
  predicate IsUtilityRef(s: string) {
    |s| > 0 && var parts := Split(s, '.'); |parts| == 2 && parts[0] == "utility"
  }

  /** `parseInternalUtilityColorReference`: the shape test plus a known role. */
  function ParseUtilityRef(s: string): Option<string> {
    var parts := Split(s, '.');
    if |parts| != 2 || parts[0] != "utility" then None
    else if IsRole(parts[1]) then Some(parts[1])
    else None
  }

  lemma UtilityRefPieces(role: string)
    requires '.' !in role
    ensures Split(UtilityRef(role), '.') == ["utility", role]
  {
    assert UtilityRef(role) == "utility" + ['.'] + role;
    SplitConcat("utility", '.', role);
    SplitWithout("utility", '.');
    SplitWithout(role, '.');
  }

  lemma IsUtilityRefIff(s: string)
    ensures IsUtilityRef(s) <==> exists role :: '.' !in role && s == UtilityRef(role)
  {
    if IsUtilityRef(s) {
      var parts := Split(s, '.');
      SplitPiecesWithout(s, '.');
      JoinSplit(s, '.');
      assert parts == [parts[0], parts[1]];
      JoinTwo(parts[0], parts[1], ['.']);
      assert s == UtilityRef(parts[1]);
    }
    if exists role :: '.' !in role && s == UtilityRef(role) {
      var role :| '.' !in role && s == UtilityRef(role);
      UtilityRefPieces(role);
    }
  }

  lemma ParseUtilityRefRoundTrip(role: string)
    requires IsRole(role)
    ensures ParseUtilityRef(UtilityRef(role)) == Some(role)
  {
    RoleHasNoDot(role);
    UtilityRefPieces(role);
  }

  lemma ParseUtilityRefSound(s: string)
    ensures ParseUtilityRef(s).Some? <==> IsUtilityRef(s) && IsRole(Split(s, '.')[1])
    ensures ParseUtilityRef(s).Some? ==>
      IsRole(ParseUtilityRef(s).value) && s == UtilityRef(ParseUtilityRef(s).value)
  {
    var parts := Split(s, '.');
    if |parts| == 2 && parts[0] == "utility" {
      JoinSplit(s, '.');
      assert parts == [parts[0], parts[1]];
      JoinTwo(parts[0], parts[1], ['.']);
      assert |s| > 0;
    }
  }

  /** A string is never both kinds of internal reference. */
  lemma RefKindsExclusive(s: string)
    ensures !(IsPrivateRef(s) && IsUtilityRef(s))
  {}

  // ---------------------------------------------------------------------------
  // Colour CSS variables

  /** `isColorCssVariable`. */
  predicate IsColorVar(v: string) { StartsWith(v, COLOR_PREFIX) }

  /** `isPrivateColorCssVariable`. */
  predicate IsPrivateVar(v: string) { StartsWith(v, PRIVATE_COLOR_PREFIX) }

  /** `createPrivateColorCssVariable`: `--g-color-private-<main>-<token>`. */
  function PrivateVar(main: string, token: string): string {
    Under(PRIVATE_COLOR_PREFIX, main + "-" + token)
  }

  /** `createUtilityColorCssVariable`: `--g-color-<role>`. */
  function UtilityVar(role: string): string {
    Under(COLOR_PREFIX, role)
  }

  /** `isUtilityColorCssVariable`: membership in the set of variables built from the roles. */
  predicate IsUtilityVar(v: string) {
    |v| > |COLOR_PREFIX| && v[..|COLOR_PREFIX| + 1] == COLOR_PREFIX + "-" && IsRole(v[|COLOR_PREFIX| + 1..])
  }

  /** `getUtilityColorTypeFromCssVariable`. */
  function UtilityTypeOf(v: string): Option<string> {
    if IsUtilityVar(v) then Some(v[|COLOR_PREFIX| + 1..]) else None
  }

  /** The utility variables are exactly the variables built from the roles. */
  lemma IsUtilityVarIff(v: string)
    ensures IsUtilityVar(v) <==> exists role :: IsRole(role) && v == UtilityVar(role)
  {
    if IsUtilityVar(v) {
      var role := v[|COLOR_PREFIX| + 1..];
      assert v == v[..|COLOR_PREFIX| + 1] + role;
      assert v == UtilityVar(role);
    }
    if exists role :: IsRole(role) && v == UtilityVar(role) {
      var role :| IsRole(role) && v == UtilityVar(role);
      assert v[..|COLOR_PREFIX| + 1] == COLOR_PREFIX + "-";
    }
  }

  /** The role is recovered from its variable, and nothing else yields a role. */
  lemma UtilityTypeRoundTrip(role: string, v: string)
    ensures IsRole(role) ==> UtilityTypeOf(UtilityVar(role)) == Some(role)
    ensures UtilityTypeOf(v).Some? ==> v == UtilityVar(UtilityTypeOf(v).value)
  {
    if IsRole(role) {
      assert UtilityVar(role)[..|COLOR_PREFIX| + 1] == COLOR_PREFIX + "-";
    }
    if UtilityTypeOf(v).Some? {
      IsUtilityVarIff(v);
    }
  }

  /** A utility variable never carries the private prefix. */
  lemma UtilityVarNotPrivate(v: string)
    requires IsUtilityVar(v)
    ensures IsColorVar(v) && !IsPrivateVar(v)
  {
    var role := v[|COLOR_PREFIX| + 1..];
    RolesNotPrivate(role);
    ColorVarNotPrivate(v, role);
  }

  lemma ColorVarNotPrivate(v: string, key: string)
    requires |v| > |COLOR_PREFIX| && v[..|COLOR_PREFIX| + 1] == COLOR_PREFIX + "-"
    requires key == v[|COLOR_PREFIX| + 1..] && !StartsWith(key, "private")
    ensures IsColorVar(v) && !IsPrivateVar(v)
  {
    assert v[..|COLOR_PREFIX|] == v[..|COLOR_PREFIX| + 1][..|COLOR_PREFIX|];
  }

  // ---------------------------------------------------------------------------
  // parsePrivateColorCssVariable

  /** `variable.slice(PREFIX.length + 1)`: one character after the prefix is skipped, whatever it is. */
  function PrivateSuffix(v: string): string {
    if |v| >= |PRIVATE_COLOR_PREFIX| + 1 then v[|PRIVATE_COLOR_PREFIX| + 1..] else ""
  }

  /** The candidate token starting at dash-piece `i`: `parts.slice(i).join('-')`. */
  function Candidate(parts: seq<string>, i: nat): string
    requires i <= |parts|
  {
    Join(parts[i..], "-")
  }

  /** The first piece index at or after `i` whose candidate is a known shade. */
  function FirstShadeAt(parts: seq<string>, i: nat): (r: Option<nat>)
    requires i <= |parts|
    ensures r.Some? ==> i <= r.value < |parts| && IsShadeName(Candidate(parts, r.value))
    decreases |parts| - i
  {
    if i == |parts| then None
    else if IsShadeName(Candidate(parts, i)) then Some(i)
    else FirstShadeAt(parts, i + 1)
  }

  /** `FirstShadeAt` finds the smallest index whose candidate is a known shade, or reports there is none. */
  lemma {:induction false} FirstShadeAtSpec(parts: seq<string>, i: nat)
    requires i <= |parts|
    ensures var r := FirstShadeAt(parts, i);
      (r.Some? ==> forall j | i <= j < r.value :: !IsShadeName(Candidate(parts, j))) &&
      (r.None? ==> forall j | i <= j < |parts| :: !IsShadeName(Candidate(parts, j)))
    decreases |parts| - i
  {
    if i < |parts| && !IsShadeName(Candidate(parts, i)) {
      FirstShadeAtSpec(parts, i + 1);
    }
  }

  /** An index with a known candidate and none before it is what `FirstShadeAt` finds. */
  lemma FirstShadeAtIs(parts: seq<string>, k: nat)
    requires k < |parts| && IsShadeName(Candidate(parts, k))
    requires forall j | 0 <= j < k :: !IsShadeName(Candidate(parts, j))
    ensures FirstShadeAt(parts, 0) == Some(k)
  {
    FirstShadeAtFrom(parts, 0, k);
  }

  lemma {:induction false} FirstShadeAtFrom(parts: seq<string>, i: nat, k: nat)
    requires i <= k < |parts| && IsShadeName(Candidate(parts, k))
    requires forall j | i <= j < k :: !IsShadeName(Candidate(parts, j))
    ensures FirstShadeAt(parts, i) == Some(k)
    decreases k - i
  {
    if i < k {
      assert !IsShadeName(Candidate(parts, i));
      FirstShadeAtFrom(parts, i + 1, k);
    }
  }

  lemma FirstShadeAtNone(parts: seq<string>)
    requires forall j | 0 <= j < |parts| :: !IsShadeName(Candidate(parts, j))
    ensures FirstShadeAt(parts, 0) == None
  {
    FirstShadeAtSpec(parts, 0);
  }

  /** What `parsePrivateColorCssVariable` returns or throws: the split at the
      smallest piece index whose remaining suffix is a known shade. */
  function PrivateVarSpec(v: string): Result<PrivateTarget> {
    if !IsPrivateVar(v) then Err(InvalidPrivatePrefix)
    else
      var parts := Split(PrivateSuffix(v), '-');
      match FirstShadeAt(parts, 0)
      case None => Err(InvalidVariableFormat)
      case Some(i) => Ok(PrivateTarget(Join(parts[..i], "-"), ShadeFromName(Candidate(parts, i)).value))
  }

  /** Later candidates are strictly shorter. */
  lemma CandidateShrinks(parts: seq<string>, j: nat, i: nat)
    requires j < i < |parts|
    ensures |Candidate(parts, j)| > |Candidate(parts, i)|
  {
    var q := parts[j..];
    JoinPrefix(q, i - j, '-');
    assert q[i - j..] == parts[i..];
  }

  lemma ShadeNameNonEmpty(s: string)
    requires IsShadeName(s)
    ensures |s| > 0
  {
    ShadeFromNameSome(s);
    NameNonEmpty(ShadeFromName(s).value);
  }

  /** The search loop keeps the longest known candidate, which is the first one found. */
  method ParsePrivateVar(v: string) returns (r: Result<PrivateTarget>)
    ensures r == PrivateVarSpec(v)
  {
    if !StartsWith(v, PRIVATE_COLOR_PREFIX) {
      return Err(InvalidPrivatePrefix);
    }
    var suffix := if |v| >= |PRIVATE_COLOR_PREFIX| + 1 then v[|PRIVATE_COLOR_PREFIX| + 1..] else "";
    var parts := Split(suffix, '-');
    var bestIndex: int := -1;
    var bestToken := "";
    for i := 0 to |parts|
      invariant bestIndex == -1 ==> bestToken == "" && FirstShadeAt(parts, 0) == FirstShadeAt(parts, i)
      invariant bestIndex != -1 ==> 0 <= bestIndex < i && bestToken == Candidate(parts, bestIndex)
      invariant bestIndex != -1 ==> FirstShadeAt(parts, 0) == Some(bestIndex) && IsShadeName(bestToken)
    {
      var candidate := Join(parts[i..], "-");
      if bestIndex != -1 {
        CandidateShrinks(parts, bestIndex, i);
      } else if IsShadeName(candidate) {
        ShadeNameNonEmpty(candidate);
      }
      if IsShadeName(candidate) && |candidate| > |bestToken| {
        bestToken := candidate;
        bestIndex := i;
      }
    }
    if bestIndex == -1 {
      return Err(InvalidVariableFormat);
    }
    r := Ok(PrivateTarget(Join(parts[..bestIndex], "-"), ShadeFromName(bestToken).value));
  }

  /** The dash pieces of a known candidate are the pieces of its shade's name. */
  lemma CandidatePieces(ps: seq<string>)
    requires |ps| >= 1 && forall i | 0 <= i < |ps| :: '-' !in ps[i]
    requires IsShadeName(Join(ps, "-"))
    ensures ps == Split(ShadeFromName(Join(ps, "-")).value.Name(), '-')
  {
    SplitJoin(ps, '-');
    ShadeFromNameSome(Join(ps, "-"));
  }

  /** Three or more dash-free pieces never spell a shade. */
  lemma LongCandidate(ps: seq<string>)
    requires |ps| >= 3 && forall i | 0 <= i < |ps| :: '-' !in ps[i]
    ensures !IsShadeName(Join(ps, "-"))
  {
    if IsShadeName(Join(ps, "-")) {
      var t := ShadeFromName(Join(ps, "-")).value;
      CandidatePieces(ps);
      NamePieces(t);
    }
  }

  /** Two dash-free pieces spell a shade only as `<step>-solid` or `opaque-150`. */
  lemma PairCandidate(a: string, b: string)
    requires '-' !in a && '-' !in b
    requires IsShadeName(Join([a, b], "-"))
    ensures b == "solid" || (a == "opaque" && b == "150")
  {
    var t := ShadeFromName(Join([a, b], "-")).value;
    CandidatePieces([a, b]);
    NamePieces(t);
  }

  /** The pieces of `<main>-<token>`. */
  lemma SuffixPieces(main: string, token: string)
    ensures Split(main + "-" + token, '-') == Split(main, '-') + Split(token, '-')
    ensures forall i | 0 <= i < |Split(main + "-" + token, '-')| :: '-' !in Split(main + "-" + token, '-')[i]
  {
    assert main + "-" + token == main + ['-'] + token;
    SplitConcat(main, '-', token);
    SplitPiecesWithout(main + "-" + token, '-');
  }

  /** The private variable built from `main` and `token` reaches the spec with these pieces. */
  lemma PrivateVarParts(main: string, token: string)
    ensures IsPrivateVar(PrivateVar(main, token))
    ensures PrivateSuffix(PrivateVar(main, token)) == main + "-" + token
  {}

  /** A candidate that starts inside the token part is never a known shade,
      unless it is the `opaque` piece followed by a plain `150`. */
  lemma EarlyCandidateUnknown(mp: seq<string>, t: Shade, j: nat)
    requires j < |mp| && forall i | 0 <= i < |mp| :: '-' !in mp[i]
    requires !(t == Alpha(S150) && mp[|mp| - 1] == "opaque")
    ensures !IsShadeName(Join((mp + Split(t.Name(), '-'))[j..], "-"))
  {
    var tp := Split(t.Name(), '-');
    NamePieces(t);
    SplitPiecesWithout(t.Name(), '-');
    var ps := (mp + tp)[j..];
    assert ps == mp[j..] + tp;
    assert forall i | 0 <= i < |ps| :: '-' !in ps[i];
    if |ps| >= 3 {
      LongCandidate(ps);
    } else if IsShadeName(Join(ps, "-")) {
      assert t.Alpha? && ps == [mp[|mp| - 1], tp[0]];
      PairCandidate(mp[|mp| - 1], tp[0]);
      StepDigits(t.step);
      assert IsDigit(tp[0][0]);
      StepName150();
    }
  }

  lemma EarlyCandidatesUnknown(main: string, mp: seq<string>, t: Shade, parts: seq<string>)
    requires mp == Split(main, '-') && forall i | 0 <= i < |mp| :: '-' !in mp[i]
    requires !OpaqueClash(main, t)
    requires parts == mp + Split(t.Name(), '-')
    ensures forall j | 0 <= j < |mp| :: !IsShadeName(Candidate(parts, j))
  {
    forall j | 0 <= j < |mp| ensures !IsShadeName(Candidate(parts, j)) {
      EarlyCandidateUnknown(mp, t, j);
    }
  }

  /** The last dash-piece of a token name. */
  function LastPiece(main: string): string {
    var pieces := Split(main, '-');
    pieces[|pieces| - 1]
  }

  /** The one clash of the private-variable round trip: the plain `150` shade after a
      token whose last dash-piece is `opaque` reads back as `opaque-150`. */
  predicate OpaqueClash(main: string, t: Shade) {
    t == Alpha(S150) && LastPiece(main) == "opaque"
  }

  /** Private-variable round trip: parsing recovers the token and the shade, except
      for a plain `150` after a token whose last dash-piece is `opaque`. */
  lemma PrivateVarRoundTrip(main: string, t: Shade)
    requires t in ALL_PRIVATE
    requires !OpaqueClash(main, t)
    ensures PrivateVarSpec(PrivateVar(main, t.Name())) == Ok(PrivateTarget(main, t))
  {
    ShadeFromNameOfName(t);
    RoundTripPieces(main, t);
  }

  /** The round trip for a shade that name lookup finds. */
  lemma RoundTripPieces(main: string, t: Shade)
    requires ShadeFromName(t.Name()) == Some(t)
    requires !OpaqueClash(main, t)
    ensures PrivateVarSpec(PrivateVar(main, t.Name())) == Ok(PrivateTarget(main, t))
  {
    var mp := Split(main, '-');
    var tp := Split(t.Name(), '-');
    PrivateVarParts(main, t.Name());
    var parts := Split(main + "-" + t.Name(), '-');
    var k := |mp|;
    assert parts == mp + tp && forall i | 0 <= i < |mp| :: '-' !in mp[i] by {
      SuffixPieces(main, t.Name());
      SplitPiecesWithout(main, '-');
    }
    assert Candidate(parts, k) == t.Name() by {
      assert parts[k..] == tp;
      JoinSplit(t.Name(), '-');
    }
    assert FirstShadeAt(parts, 0) == Some(k) by {
      EarlyCandidatesUnknown(main, mp, t, parts);
      NamePieces(t);
      FirstShadeAtIs(parts, k);
    }
    assert Join(parts[..k], "-") == main by {
      assert parts[..k] == mp;
      JoinSplit(main, '-');
    }
  }

  /** The exception: `<x>-opaque` with the plain `150` shade parses as `<x>` with `opaque-150`. */
  lemma PrivateVarOpaqueClash(x: string)
    requires '-' !in x
    ensures PrivateVarSpec(PrivateVar(x + "-opaque", "150")) == Ok(PrivateTarget(x, Opaque150))
  {
    var main := x + "-opaque";
    PrivateVarParts(main, "150");
    assert main == x + ['-'] + "opaque";
    SplitTwo(x, '-', "opaque");
    SplitWithout("150", '-');
    SuffixPieces(main, "150");
    var parts := Split(main + "-" + "150", '-');
    assert parts == [x, "opaque"] + ["150"];
    assert parts == [x, "opaque", "150"];
    LongCandidate(parts);
    assert parts[1..] == ["opaque", "150"];
    JoinTwo("opaque", "150", "-");
    assert Candidate(parts, 1) == "opaque-150";
    Tokens150();
    ShadeFromNameOfName(Opaque150);
    FirstShadeAtIs(parts, 1);
    assert parts[..1] == [x];
  }

  /** A candidate that starts inside the token part, before a final piece of digits, is never a known shade. */
  lemma EarlyCandidateBeforeDigits(mp: seq<string>, d: string, j: nat)
    requires j < |mp| && forall i | 0 <= i < |mp| :: '-' !in mp[i]
    requires |d| > 0 && AllDigits(d) && !IsShadeName(d)
    ensures !IsShadeName(Join((mp + [d])[j..], "-"))
  {
    DigitsHaveNoDash(d);
    var ps := (mp + [d])[j..];
    assert ps == mp[j..] + [d];
    assert forall i | 0 <= i < |ps| :: '-' !in ps[i];
    if |ps| >= 3 {
      LongCandidate(ps);
    } else if IsShadeName(Join(ps, "-")) {
      assert ps == [mp[|mp| - 1], d];
      PairCandidate(mp[|mp| - 1], d);
      assert IsDigit(d[0]);
      PlainShadeKnown(d);
    }
  }

  lemma PlainShadeKnown(d: string)
    requires d == "150"
    ensures IsShadeName(d)
  {
    Tokens150();
    ShadeFromNameOfName(Alpha(S150));
  }

  /** A final piece of digits that is not a known token makes the parse throw, e.g. `red-123`. */
  lemma PrivateVarUnknownStep(main: string, d: string)
    requires |d| > 0 && AllDigits(d) && !IsShadeName(d)
    ensures PrivateVarSpec(PrivateVar(main, d)) == Err(InvalidVariableFormat)
  {
    PrivateVarParts(main, d);
    var mp := Split(main, '-');
    DigitsHaveNoDash(d);
    SplitWithout(d, '-');
    SuffixPieces(main, d);
    SplitPiecesWithout(main, '-');
    var parts := Split(main + "-" + d, '-');
    assert parts == mp + [d];
    forall j | 0 <= j < |parts| ensures !IsShadeName(Candidate(parts, j)) {
      if j < |mp| {
        EarlyCandidateBeforeDigits(mp, d, j);
      } else {
        assert parts[j..] == [d];
      }
    }
    FirstShadeAtNone(parts);
  }

  /** A successful parse names a known shade, and the variable's suffix is the
      token, a dash and the shade (or the shade alone when the token is empty). */
  lemma PrivateVarSound(v: string)
    requires PrivateVarSpec(v).Ok?
    ensures IsPrivateVar(v)
    ensures var p := PrivateVarSpec(v).value;
      p.shade in ALL_PRIVATE &&
      (PrivateSuffix(v) == p.main + "-" + p.shade.Name() || (p.main == "" && PrivateSuffix(v) == p.shade.Name()))
  {
    var parts := Split(PrivateSuffix(v), '-');
    var i := FirstShadeAt(parts, 0).value;
    var p := PrivateVarSpec(v).value;
    ShadeFromNameSome(Candidate(parts, i));
    JoinSplit(PrivateSuffix(v), '-');
    if i == 0 {
      assert parts[0..] == parts;
    } else {
      JoinPrefix(parts, i, '-');
    }
  }

  // ---------------------------------------------------------------------------
  // parseCssReferenceVariable: the first match of /var\((.*)\)/

  /** The characters `.` does not match in a JavaScript regular expression. */
  predicate IsLineTerminator(ch: char) {
    ch == '\n' || ch == '\r' || ch == '\U{2028}' || ch == '\U{2029}'
  }

  /** The end of the line that position `i` is on. */
  function LineEnd(s: string, i: nat): (r: nat)
    requires i <= |s|
    ensures i <= r <= |s|
    ensures r < |s| ==> IsLineTerminator(s[r])
    ensures forall k | i <= k < r :: !IsLineTerminator(s[k])
    decreases |s| - i
  {
    if i == |s| || IsLineTerminator(s[i]) then i else LineEnd(s, i + 1)
  }

  /** The last `)` in `s[lo..hi]`. */
  function LastClose(s: string, lo: nat, hi: nat): (r: Option<nat>)
    requires lo <= hi <= |s|
    ensures r.Some? ==> lo <= r.value < hi && s[r.value] == ')' && forall k | r.value < k < hi :: s[k] != ')'
    ensures r.None? ==> forall k | lo <= k < hi :: s[k] != ')'
    decreases hi - lo
  {
    if lo == hi then None
    else if s[hi - 1] == ')' then Some(hi - 1)
    else LastClose(s, lo, hi - 1)
  }

  /** A match attempt starting at `p` or later: `var(`, then the longest run of
      the line that is followed by `)`. */
  function VarFrom(s: string, p: nat): Option<string>
    requires p <= |s|
    decreases |s| - p
  {
    if p + 4 > |s| then None
    else if s[p..p + 4] == "var(" && LastClose(s, p + 4, LineEnd(s, p + 4)).Some? then
      Some(s[p + 4..LastClose(s, p + 4, LineEnd(s, p + 4)).value])
    else VarFrom(s, p + 1)
  }

  /** `parseCssReferenceVariable`. */
  function ParseCssReference(value: string): Option<string> {
    VarFrom(value, 0)
  }

  /** `var(<x>)` yields `<x>` when `<x>` is on one line. */
  lemma ParseCssReferenceOfVar(x: string)
    requires forall i | 0 <= i < |x| :: !IsLineTerminator(x[i])
    ensures ParseCssReference("var(" + x + ")") == Some(x)
  {
    var s := "var(" + x + ")";
    assert s[0..4] == "var(";
    assert forall i | 4 <= i < |s| - 1 :: s[i] == x[i - 4];
    assert LineEnd(s, 4) == |s|;
    assert s[4..|s| - 1] == x;
  }

  /** `var(` at `p` and a `)` at `k` later on the same line: a way `/var\((.*)\)/` can match. */
  predicate MatchAt(s: string, p: nat, k: nat) {
    p + 4 <= k < |s| && s[p..p + 4] == "var(" && s[k] == ')' &&
    forall i | p + 4 <= i < k :: !IsLineTerminator(s[i])
  }

  /** The match the regular expression reports when searching from `p`: the
      leftmost start, and from there the longest run. */
  ghost predicate FirstMatch(s: string, p: nat, q: nat, k: nat) {
    p <= q && MatchAt(s, q, k) &&
    (forall q': nat, k': nat | p <= q' < q :: !MatchAt(s, q', k')) &&
    (forall k': nat | k < k' :: !MatchAt(s, q, k'))
  }

  /** A match never crosses the end of its line. */
  lemma MatchWithinLine(s: string, q: nat, k: nat)
    requires MatchAt(s, q, k)
    ensures k < LineEnd(s, q + 4)
  {
  }

  /** `parseCssReferenceVariable` returns the group of the regular expression's
      first match, and undefined when there is no match at all. */
  lemma {:induction false} VarFromSpec(s: string, p: nat)
    requires p <= |s|
    ensures VarFrom(s, p).None? ==> forall q: nat, k: nat | p <= q :: !MatchAt(s, q, k)
    ensures VarFrom(s, p).Some? ==>
      exists q: nat, k: nat :: FirstMatch(s, p, q, k) && VarFrom(s, p).value == s[q + 4..k]
    decreases |s| - p
  {
    if p + 4 <= |s| {
      var c := LastClose(s, p + 4, LineEnd(s, p + 4));
      if s[p..p + 4] == "var(" && c.Some? {
        VarFromHere(s, p);
      } else {
        VarFromSpec(s, p + 1);
        VarFromSkip(s, p);
      }
    }
  }

  /** A `var(` with a closing parenthesis on its line is the first match. */
  lemma VarFromHere(s: string, p: nat)
    requires p + 4 <= |s| && s[p..p + 4] == "var("
    requires LastClose(s, p + 4, LineEnd(s, p + 4)).Some?
    ensures VarFrom(s, p).Some?
    ensures exists q: nat, k: nat :: FirstMatch(s, p, q, k) && VarFrom(s, p).value == s[q + 4..k]
  {
    var k := LastClose(s, p + 4, LineEnd(s, p + 4)).value;
    forall k': nat | k < k' && MatchAt(s, p, k') ensures false {
      MatchWithinLine(s, p, k');
    }
    assert FirstMatch(s, p, p, k);
  }

  /** The search from `p` finds the first match from `p` on, or there is none. */
  ghost predicate SearchSound(s: string, p: nat)
    requires p <= |s|
  {
    (VarFrom(s, p).None? ==> forall q: nat, k: nat | p <= q :: !MatchAt(s, q, k)) &&
    (VarFrom(s, p).Some? ==> exists q: nat, k: nat :: FirstMatch(s, p, q, k) && VarFrom(s, p).value == s[q + 4..k])
  }

  /** No match starts at `p`, so the search from `p` is the search from `p + 1`. */
  lemma VarFromSkip(s: string, p: nat)
    requires p + 4 <= |s|
    requires !(s[p..p + 4] == "var(" && LastClose(s, p + 4, LineEnd(s, p + 4)).Some?)
    requires SearchSound(s, p + 1)
    ensures VarFrom(s, p) == VarFrom(s, p + 1)
    ensures SearchSound(s, p)
  {
    forall k: nat | MatchAt(s, p, k) ensures false {
      MatchWithinLine(s, p, k);
    }
    if VarFrom(s, p + 1).Some? {
      var q: nat, k: nat :| FirstMatch(s, p + 1, q, k) && VarFrom(s, p + 1).value == s[q + 4..k];
      assert FirstMatch(s, p, q, k);
    }
  }

  lemma ParseCssReferenceSpec(value: string)
    ensures ParseCssReference(value).None? <==> forall q: nat, k: nat :: !MatchAt(value, q, k)
    ensures ParseCssReference(value).Some? ==>
      exists q: nat, k: nat :: FirstMatch(value, 0, q, k) && ParseCssReference(value).value == value[q + 4..k]
  {
    VarFromSpec(value, 0);
  }
}
