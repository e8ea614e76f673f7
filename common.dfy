/** Shared vocabulary of the model: optional values, error results, and the
    handful of JavaScript string operations the theme engine relies on
    (`split`, `join`, `startsWith`, `trim`, number-to-string). */
module Common {

  datatype Option<+T> = None | Some(value: T)

  /** The exceptions the engine throws (or the TypeErrors it crashes with). */
  datatype Error =
    | InvalidPrivatePrefix                 // "Invalid private color CSS variable prefix"
    | InvalidVariableFormat                // "Invalid CSS variable format"
    | InvalidColor                         // chroma rejects a colour (input or mix target)
    | CircularReference(role: string)      // "Circular reference detected in utility color <role>"
    | FontFamilyReference(target: string)  // text group font-family var() to a non-font variable
    | UndefinedSlot(key: string)           // property read/write on `undefined`

  datatype Result<+T> = Ok(value: T) | Err(error: Error)

  /** The two colour variants of a theme (`'light' | 'dark'`). */
  datatype Variant = Light | Dark

  // ---------------------------------------------------------------------------
  // Prefixes

  predicate StartsWith(s: string, prefix: string) {
    |prefix| <= |s| && s[..|prefix|] == prefix
  }

  lemma StartsWithConcat(prefix: string, rest: string)
    ensures StartsWith(prefix + rest, prefix)
    ensures (prefix + rest)[|prefix|..] == rest
  {
    assert (prefix + rest)[..|prefix|] == prefix;
  }

  /** Maps with the same keys and the same value at each key are equal. */
  lemma SameMap<K, V>(a: map<K, V>, b: map<K, V>)
    requires forall k :: k in a <==> k in b
    requires forall k | k in a :: a[k] == b[k]
    ensures a == b
  {
  }

  // ---------------------------------------------------------------------------
  // String.prototype.split with a one-character separator, and Array.prototype.join

  /** `s.split(c)`: the maximal separator-free pieces; never empty ("" gives [""]). */
  function Split(s: string, c: char): (parts: seq<string>)
    ensures |parts| >= 1
    decreases |s|
  {
    if |s| == 0 then [""]
    else
      var rest := Split(s[1..], c);
      if s[0] == c then [""] + rest
      else [[s[0]] + rest[0]] + rest[1..]
  }

  /** `parts.join(sep)`. */
  function Join(parts: seq<string>, sep: string): string
    decreases |parts|
  {
    if |parts| == 0 then ""
    else if |parts| == 1 then parts[0]
    else parts[0] + sep + Join(parts[1..], sep)
  }

  lemma {:induction false} SplitWithout(s: string, c: char)
    requires c !in s
    ensures Split(s, c) == [s]
    decreases |s|
  {
    if |s| > 0 {
      SplitWithout(s[1..], c);
      assert [s[0]] + s[1..] == s;
    }
  }

  lemma {:induction false} SplitConcat(a: string, c: char, b: string)
    ensures Split(a + [c] + b, c) == Split(a, c) + Split(b, c)
    decreases |a|
  {
    if |a| == 0 {
      assert a + [c] + b == [c] + b;
      assert ([c] + b)[1..] == b;
    } else {
      assert (a + [c] + b)[1..] == a[1..] + [c] + b;
      SplitConcat(a[1..], c, b);
    }
  }

  /** Every piece of a split is free of the separator. */
  lemma {:induction false} SplitPiecesWithout(s: string, c: char)
    ensures forall i | 0 <= i < |Split(s, c)| :: c !in Split(s, c)[i]
    decreases |s|
  {
    if |s| > 0 {
      SplitPiecesWithout(s[1..], c);
    }
  }

  lemma JoinTwo(a: string, b: string, sep: string)
    ensures Join([a, b], sep) == a + sep + b
  {
    assert [a, b][1..] == [b];
  }

  lemma JoinThree(a: string, b: string, c: string, sep: string)
    ensures Join([a, b, c], sep) == a + sep + b + sep + c
  {
    assert [a, b, c][1..] == [b, c];
    JoinTwo(b, c, sep);
  }

  lemma {:induction false} JoinAppend(ps: seq<string>, qs: seq<string>, sep: string)
    requires |ps| >= 1 && |qs| >= 1
    ensures Join(ps + qs, sep) == Join(ps, sep) + sep + Join(qs, sep)
    decreases |ps|
  {
    if |ps| == 1 {
      assert (ps + qs)[1..] == qs;
    } else {
      assert (ps + qs)[1..] == ps[1..] + qs;
      JoinAppend(ps[1..], qs, sep);
    }
  }

  /** Joining the pieces of a split restores the string. */
  lemma {:induction false} JoinSplit(s: string, c: char)
    ensures Join(Split(s, c), [c]) == s
    decreases |s|
  {
    if |s| > 0 {
      var rest := Split(s[1..], c);
      JoinSplit(s[1..], c);
      if s[0] == c {
        assert Split(s, c) == [""] + rest;
        if |rest| == 1 {
          assert Join([""] + rest, [c]) == "" + [c] + rest[0];
        } else {
          assert ([""] + rest)[1..] == rest;
        }
        assert s == [c] + s[1..];
      } else {
        var parts := [[s[0]] + rest[0]] + rest[1..];
        assert Split(s, c) == parts;
        if |rest| == 1 {
          assert Join(parts, [c]) == [s[0]] + rest[0];
        } else {
          assert parts[1..] == rest[1..];
          assert Join(parts, [c]) == [s[0]] + rest[0] + [c] + Join(rest[1..], [c]);
          assert Join(rest, [c]) == rest[0] + [c] + Join(rest[1..], [c]);
        }
        assert s == [s[0]] + s[1..];
      }
    }
  }

  /** Splitting a join of separator-free pieces gives the pieces back. */
  lemma {:induction false} SplitJoin(parts: seq<string>, c: char)
    requires |parts| >= 1
    requires forall i | 0 <= i < |parts| :: c !in parts[i]
    ensures Split(Join(parts, [c]), c) == parts
    decreases |parts|
  {
    if |parts| == 1 {
      SplitWithout(parts[0], c);
    } else {
      SplitJoin(parts[1..], c);
      SplitConcat(parts[0], c, Join(parts[1..], [c]));
      SplitWithout(parts[0], c);
      assert parts == [parts[0]] + parts[1..];
    }
  }

  /** Joined pieces with the separator between them. */
  lemma {:induction false} JoinPrefix(parts: seq<string>, i: nat, c: char)
    requires 0 < i < |parts|
    ensures Join(parts, [c]) == Join(parts[..i], [c]) + [c] + Join(parts[i..], [c])
  {
    assert parts == parts[..i] + parts[i..];
    JoinAppend(parts[..i], parts[i..], [c]);
  }

  lemma {:induction false} JoinLength(parts: seq<string>, sep: string)
    requires |parts| >= 1
    ensures |Join(parts, sep)| >= |parts[0]| + (|parts| - 1) * |sep|
    decreases |parts|
  {
    if |parts| > 1 {
      JoinLength(parts[1..], sep);
    }
  }

  // ---------------------------------------------------------------------------
  // Whitespace and String.prototype.trim

  /** The characters matched by `\s` in a JavaScript regular expression (and removed by `trim`). */
  predicate IsJsSpace(ch: char) {
    ch == '\t' || ch == '\n' || ch == '\U{B}' || ch == '\U{C}' || ch == '\r' || ch == ' '
    || ch == '\U{A0}' || ch == '\U{1680}' || ('\U{2000}' <= ch <= '\U{200A}')
    || ch == '\U{2028}' || ch == '\U{2029}' || ch == '\U{202F}' || ch == '\U{205F}'
    || ch == '\U{3000}' || ch == '\U{FEFF}'
  }

  function TrimStart(s: string): (r: string)
    ensures |r| <= |s|
    ensures |r| > 0 ==> !IsJsSpace(r[0])
    decreases |s|
  {
    if |s| > 0 && IsJsSpace(s[0]) then TrimStart(s[1..]) else s
  }

  function TrimEnd(s: string): (r: string)
    ensures |r| <= |s|
    ensures |r| > 0 ==> !IsJsSpace(r[|r| - 1]) && r[0] == s[0]
    decreases |s|
  {
    if |s| > 0 && IsJsSpace(s[|s| - 1]) then TrimEnd(s[..|s| - 1]) else s
  }

  /** `s.trim()`. */
  function Trim(s: string): string {
    TrimEnd(TrimStart(s))
  }

  predicate IsTrimmed(s: string) {
    |s| == 0 || (!IsJsSpace(s[0]) && !IsJsSpace(s[|s| - 1]))
  }

  lemma TrimProperties(s: string)
    ensures IsTrimmed(Trim(s))
    ensures IsTrimmed(s) ==> Trim(s) == s
  {
  }

  // ---------------------------------------------------------------------------
  // Decimal rendering of naturals (JavaScript `String(n)` for a non-negative integer)

  function Digit(d: nat): char
    requires d < 10
  {
    "0123456789"[d]
  }

  predicate IsDigit(ch: char) { '0' <= ch <= '9' }

  function NatToString(n: nat): (s: string)
    ensures |s| >= 1
    ensures forall i | 0 <= i < |s| :: IsDigit(s[i])
    decreases n
  {
    if n < 10 then [Digit(n)] else NatToString(n / 10) + [Digit(n % 10)]
  }

  lemma DigitInjective(a: nat, b: nat)
    requires a < 10 && b < 10 && Digit(a) == Digit(b)
    ensures a == b
  {
  }

  /** Distinct numbers have distinct decimal renderings. */
  lemma {:induction false} NatToStringInjective(a: nat, b: nat)
    requires NatToString(a) == NatToString(b)
    ensures a == b
    decreases a + b
  {
    var sa, sb := NatToString(a), NatToString(b);
    if a < 10 && b < 10 {
      DigitInjective(a, b);
    } else if a < 10 || b < 10 {
      // one rendering has a single digit, the other at least two
    } else {
      assert sa[..|sa| - 1] == NatToString(a / 10);
      assert sb[..|sb| - 1] == NatToString(b / 10);
      NatToStringInjective(a / 10, b / 10);
      DigitInjective(a % 10, b % 10);
    }
  }

  // ---------------------------------------------------------------------------
  // String.prototype.replace with a string pattern (first occurrence only)

  predicate OccursAt(s: string, pat: string, i: nat) {
    i + |pat| <= |s| && s[i..i + |pat|] == pat
  }

  /** `s.indexOf(pat, from)`. */
  function IndexOf(s: string, pat: string, from: nat): (r: Option<nat>)
    ensures r.Some? ==> from <= r.value && OccursAt(s, pat, r.value)
    ensures r.Some? ==> forall j | from <= j < r.value :: !OccursAt(s, pat, j)
    ensures r.None? ==> forall j | from <= j :: !OccursAt(s, pat, j)
    decreases |s| - from
  {
    if from + |pat| > |s| then None
    else if s[from..from + |pat|] == pat then Some(from)
    else IndexOf(s, pat, from + 1)
  }

  /** The text a replacement string stands for (`GetSubstitution` without capture
      groups): `$$` is one `$`, `$&` the matched text, `` $` `` the text before the
      match and `$'` the text after it; every other character, `$` included,
      stands for itself. */
  function Substitution(rep: string, before: string, matched: string, after: string): string
    decreases |rep|
  {
    if |rep| == 0 then ""
    else if rep[0] == '$' && |rep| >= 2 && rep[1] in "$&`'" then
      var part := if rep[1] == '$' then "$" else if rep[1] == '&' then matched else if rep[1] == '`' then before else after;
      part + Substitution(rep[2..], before, matched, after)
    else [rep[0]] + Substitution(rep[1..], before, matched, after)
  }

  /** A replacement without `$` stands for itself. */
  lemma {:induction false} SubstitutionPlain(rep: string, before: string, matched: string, after: string)
    requires '$' !in rep
    ensures Substitution(rep, before, matched, after) == rep
    decreases |rep|
  {
    if |rep| > 0 {
      assert '$' !in rep[1..];
      SubstitutionPlain(rep[1..], before, matched, after);
    }
  }

  /** The four patterns on their own. */
  lemma SubstitutionPatterns(before: string, matched: string, after: string)
    ensures Substitution("$$", before, matched, after) == "$"
    ensures Substitution("$&", before, matched, after) == matched
    ensures Substitution("$`", before, matched, after) == before
    ensures Substitution("$'", before, matched, after) == after
  {
    assert "$$"[2..] == "$&"[2..] == "$`"[2..] == "$'"[2..] == "";
  }

  /** `s.replace(pat, rep)`: only the first occurrence is replaced, by what `rep`
      stands for there; without one, `s` is returned. */
  function ReplaceFirst(s: string, pat: string, rep: string): string {
    match IndexOf(s, pat, 0)
    case None => s
    case Some(i) => s[..i] + Substitution(rep, s[..i], pat, s[i + |pat|..]) + s[i + |pat|..]
  }

  /** Replacing a prefix by nothing removes it. */
  lemma ReplacePrefix(pat: string, rest: string)
    ensures ReplaceFirst(pat + rest, pat, "") == rest
  {
    assert OccursAt(pat + rest, pat, 0) by { assert (pat + rest)[0..|pat|] == pat; }
    assert (pat + rest)[|pat|..] == rest;
  }

  /** `pat` occurs nowhere in `s`. */
  ghost predicate Absent(s: string, pat: string) {
    forall j: nat :: !OccursAt(s, pat, j)
  }

  /** Text that does not hold the first character of `pat` does not hold `pat`. */
  lemma AbsentNoStart(s: string, pat: string)
    requires |pat| > 0 && pat[0] !in s
    ensures Absent(s, pat)
  {
    forall j: nat | j + |pat| <= |s| ensures !OccursAt(s, pat, j) {
      assert s[j..j + |pat|][0] == s[j] != pat[0];
    }
  }

  /** Where `p` and `q` meet at a newline (or `p` cannot start an occurrence),
      and `pat` holds no newline, an occurrence in `p + q` lies in one of them. */
  lemma AbsentConcat(p: string, q: string, pat: string)
    requires |pat| > 0 && '\n' !in pat
    requires Absent(p, pat) && Absent(q, pat)
    requires p == [] || p[|p| - 1] == '\n' || (q != [] && q[0] == '\n') || pat[0] !in p
    ensures Absent(p + q, pat)
  {
    var s := p + q;
    forall j: nat | j + |pat| <= |s| ensures !OccursAt(s, pat, j) {
      var w := s[j..j + |pat|];
      if j + |pat| <= |p| {
        assert p[j..j + |pat|] == w;
        assert !OccursAt(p, pat, j);
      } else if j >= |p| {
        assert q[j - |p|..j - |p| + |pat|] == w;
        assert !OccursAt(q, pat, j - |p|);
      } else if pat[0] !in p {
        assert w[0] == p[j] != pat[0];
      } else if p[|p| - 1] == '\n' {
        assert w[|p| - 1 - j] == '\n';
        assert pat[|p| - 1 - j] != '\n' by { assert pat[|p| - 1 - j] in pat; }
      } else {
        assert w[|p| - j] == q[0] == '\n';
        assert pat[|p| - j] != '\n' by { assert pat[|p| - j] in pat; }
      }
    }
  }

  /** After text without `pat` that ends at a newline, the first occurrence of
      a newline-free `pat` is the one placed there. */
  lemma FirstAfter(x: string, pat: string, y: string)
    requires |pat| > 0 && '\n' !in pat
    requires Absent(x, pat)
    requires x == [] || x[|x| - 1] == '\n'
    ensures IndexOf(x + pat + y, pat, 0) == Some(|x|)
  {
    var s := x + pat + y;
    assert OccursAt(s, pat, |x|) by { assert s[|x|..|x| + |pat|] == pat; }
    forall j | 0 <= j < |x| ensures !OccursAt(s, pat, j) {
      var w := s[j..j + |pat|];
      if j + |pat| <= |x| {
        assert x[j..j + |pat|] == w;
        assert !OccursAt(x, pat, j);
      } else {
        assert w[|x| - 1 - j] == '\n';
        assert pat[|x| - 1 - j] != '\n' by { assert pat[|x| - 1 - j] in pat; }
      }
    }
  }

  /** Replacing that first occurrence puts what `rep` stands for in its place. */
  lemma ReplaceAt(x: string, pat: string, y: string, rep: string)
    requires |pat| > 0 && '\n' !in pat
    requires Absent(x, pat)
    requires x == [] || x[|x| - 1] == '\n'
    ensures ReplaceFirst(x + pat + y, pat, rep) == x + Substitution(rep, x, pat, y) + y
  {
    var s := x + pat + y;
    FirstAfter(x, pat, y);
    assert s[..|x|] == x && s[|x| + |pat|..] == y;
  }

  /** ... and text without `$` stands there as it is. */
  lemma ReplaceAfter(x: string, pat: string, y: string, rep: string)
    requires |pat| > 0 && '\n' !in pat
    requires Absent(x, pat)
    requires x == [] || x[|x| - 1] == '\n'
    requires '$' !in rep
    ensures ReplaceFirst(x + pat + y, pat, rep) == x + rep + y
  {
    ReplaceAt(x, pat, y, rep);
    SubstitutionPlain(rep, x, pat, y);
  }
}
