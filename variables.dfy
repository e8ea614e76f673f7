/** The five CSS custom-property prefixes that classify every theme variable. */
module Variables {
  import opened Common

  const COLOR_PREFIX: string := "--g-color"
  const PRIVATE_COLOR_PREFIX: string := "--g-color-private"
  const TEXT_PREFIX: string := "--g-text"
  const FONT_PREFIX: string := "--g-font-family"
  const BORDER_RADIUS_PREFIX: string := "--g-border-radius"

  /** The builders all put exactly one dash between a prefix and its key. */
  function Under(prefix: string, key: string): (v: string)
    ensures StartsWith(v, prefix) && |v| == |prefix| + 1 + |key|
    ensures v[|prefix|] == '-' && v[|prefix| + 1..] == key
  {
    StartsWithConcat(prefix, "-" + key);
    prefix + "-" + key
  }

  /** The private prefix is the colour prefix followed by `-private`, so every
      private colour variable is also a colour variable. */
  lemma PrivateIsColor(v: string)
    ensures PRIVATE_COLOR_PREFIX == COLOR_PREFIX + "-private"
    ensures StartsWith(v, PRIVATE_COLOR_PREFIX) ==> StartsWith(v, COLOR_PREFIX)
  {
    if StartsWith(v, PRIVATE_COLOR_PREFIX) {
      assert v[..|COLOR_PREFIX|] == v[..|PRIVATE_COLOR_PREFIX|][..|COLOR_PREFIX|];
    }
  }

  predicate Overlap(p: string, q: string) {
    StartsWith(p, q) || StartsWith(q, p)
  }

  /** No variable can carry two of the colour, text, font-family and border-radius prefixes. */
  lemma PrefixesDisjoint(v: string)
    ensures !Overlap(COLOR_PREFIX, TEXT_PREFIX) && !Overlap(COLOR_PREFIX, FONT_PREFIX)
    ensures !Overlap(COLOR_PREFIX, BORDER_RADIUS_PREFIX) && !Overlap(TEXT_PREFIX, FONT_PREFIX)
    ensures !Overlap(TEXT_PREFIX, BORDER_RADIUS_PREFIX) && !Overlap(FONT_PREFIX, BORDER_RADIUS_PREFIX)
    ensures StartsWith(v, COLOR_PREFIX) ==> !StartsWith(v, TEXT_PREFIX) && !StartsWith(v, FONT_PREFIX) && !StartsWith(v, BORDER_RADIUS_PREFIX)
    ensures StartsWith(v, TEXT_PREFIX) ==> !StartsWith(v, FONT_PREFIX) && !StartsWith(v, BORDER_RADIUS_PREFIX)
    ensures StartsWith(v, FONT_PREFIX) ==> !StartsWith(v, BORDER_RADIUS_PREFIX)
  {
    assert COLOR_PREFIX[4] == 'c' && TEXT_PREFIX[4] == 't' && FONT_PREFIX[4] == 'f' && BORDER_RADIUS_PREFIX[4] == 'b';
  }

  /** A utility variable such as `--g-color-text-primary` is not a text variable. */
  lemma ColorTextIsNotText(role: string)
    ensures !StartsWith(Under(COLOR_PREFIX, role), TEXT_PREFIX)
  {
    var v := Under(COLOR_PREFIX, role);
    assert v[4] == COLOR_PREFIX[4] == 'c';
  }

  /** None of the prefixes ends with a dash. */
  lemma NoTrailingDash()
    ensures COLOR_PREFIX[|COLOR_PREFIX| - 1] != '-' && PRIVATE_COLOR_PREFIX[|PRIVATE_COLOR_PREFIX| - 1] != '-'
    ensures TEXT_PREFIX[|TEXT_PREFIX| - 1] != '-' && FONT_PREFIX[|FONT_PREFIX| - 1] != '-'
    ensures BORDER_RADIUS_PREFIX[|BORDER_RADIUS_PREFIX| - 1] != '-'
  {
  }
}
