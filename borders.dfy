/** Border-radius variables: `--g-border-radius-<size>` for the five sizes. */
module Borders {
  import opened Common
  import opened Variables

  /** `BORDER_SIZES`. */
  const BORDER_SIZES: seq<string> := ["xs", "s", "m", "l", "xl"]

  /** `isBorderRadiusCssVariable`: a prefix test, nothing more. */
  predicate IsBorderRadiusVar(v: string) {
    StartsWith(v, BORDER_RADIUS_PREFIX)
  }

  /** `createBorderRadiusCssVariable`. */
  function BorderRadiusVar(size: string): (v: string)
    ensures IsBorderRadiusVar(v)
    ensures v == BORDER_RADIUS_PREFIX + "-" + size
  {
    Under(BORDER_RADIUS_PREFIX, size)
  }

  /** `getSizeFromCssBorderSizeVariable`: drop the first `--g-border-radius-`
      and accept the rest only when it is a known size. */
  function SizeOf(v: string): Option<string> {
    if !IsBorderRadiusVar(v) then None
    else
      var size := ReplaceFirst(v, BORDER_RADIUS_PREFIX + "-", "");
      if size in BORDER_SIZES then Some(size) else None
  }

  /** No size starts with a dash, and each is at most two characters long. */
  lemma SizesShape(s: string)
    requires s in BORDER_SIZES
    ensures 0 < |s| <= 2 && s[0] != '-'
  {
  }

  /** The size parser accepts exactly the five built variables, and returns their size. */
  lemma SizeOfIff(v: string, s: string)
    ensures SizeOf(v) == Some(s) <==> s in BORDER_SIZES && v == BorderRadiusVar(s)
  {
    var pat := BORDER_RADIUS_PREFIX + "-";
    if s in BORDER_SIZES && v == BorderRadiusVar(s) {
      ReplacePrefix(pat, s);
    }
    if SizeOf(v) == Some(s) {
      var size := ReplaceFirst(v, pat, "");
      SizesShape(size);
      assert v == pat + size;
    }
  }

  /** `getSizeFromCssBorderSizeVariable(createBorderRadiusCssVariable(s)) == s`. */
  lemma SizeRoundTrip(s: string)
    requires s in BORDER_SIZES
    ensures SizeOf(BorderRadiusVar(s)) == Some(s)
  {
    SizeOfIff(BorderRadiusVar(s), s);
  }

  /** Without the prefix, or with a remainder that is not a size, there is no size. */
  lemma SizeOfNone(v: string)
    ensures SizeOf(v).None? <==> !IsBorderRadiusVar(v) || forall s | s in BORDER_SIZES :: v != BorderRadiusVar(s)
  {
    if SizeOf(v).Some? {
      SizeOfIff(v, SizeOf(v).value);
    } else {
      forall s | s in BORDER_SIZES ensures v != BorderRadiusVar(s) {
        SizeOfIff(v, s);
      }
    }
  }
}
