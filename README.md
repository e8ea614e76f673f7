# uikit-themer theme engine, modelled in Dafny

This project models the theme engine of gravity-ui's uikit-themer. A theme (`GravityTheme`) has five parts:

- base colours, keyed by colour token and split into a light and a dark variant;
- private shade ramps generated from each base colour;
- utility colour roles, each holding a literal colour or an internal reference;
- typography (font families, text groups and their variants);
- border radii.

The model covers the engine and the two codecs built on it:

- the reference layer: the internal references `private.<token>.<shade>` and `utility.<role>`, the CSS variable names, the longest-suffix parser of private variables and the `var(...)` extractor;
- the two-pass reference resolver, and the restoration of base colours from their anchor shades;
- shade-ramp generation. The colour arithmetic of chroma-js is a parameter (`PrivateColors.ColorAlgebra`); what is modelled is table selection, the background each row mixes toward, the keys written and the order of overwrites;
- the copy-on-write edits `updateBaseColor`, `removeBaseColor` and `updateUtilityColor`;
- the CSS codec: `parseThemeTokens`, the `apply*` dispatchers and `parseCSS`, then `generateCSS` with default suppression and the preview flag;
- the JSON codec: `parseJSON` and `generateJSON`;
- the default theme, built from the same functions, with the typography defaults and the colour algebra as parameters.

JavaScript objects whose key order shows in the output are `Dicts.Dict`, which keeps insertion order (see "Left out" for integer-like keys). Cloning (`cloneDeep`) is Dafny value semantics. Structural equality (`isEqual`) is `==` on values that keep their JavaScript type: a `font-weight` is a `Themes.Weight`, a number or a string, because `isEqual(400, '400')` is false. A JavaScript `throw` is an `Err` of `Common.Error`, and a logged-and-skipped entry leaves the theme unchanged. Loops of the source are methods proved equal to a specification function; properties are lemmas about those functions.

Modules, one per file, in dependency order:

- `Common`: the error type and JavaScript string helpers.
- `Dicts`: ordered dictionaries.
- `Variables`: the five prefixes.
- `Borders`, `Shades`, `Roles`: the closed enumerations.
- `References`: the reference layer.
- `Themes`: the theme record and the type guards.
- `Typography`: text and font variables, and the font-family scanner and emitter.
- `PrivateColors`: `generatePrivateColors`.
- `Resolver`: `replaceReferencesInUtilityColors`.
- `Edits`: restore and the three updates.
- `Defaults`: `DEFAULT_THEME`.
- `CssTokens`, `CssParse`: the CSS parser.
- `CssCommon`, `CssGenerate`, `CssEmission`, `CssDocument`: the CSS generator.
- `JsonParse`, `JsonGenerate`: the JSON codec.

## Model

| member | source | states |
|---|---|---|
| Variables.Under | src/variables.ts:1-7 | every builder puts the prefix, exactly one `-`, then the key: the result starts with the prefix, has the dash at the prefix's length and the key after it |
| Variables.PrivateIsColor | src/variables.ts:1-2 | the private prefix is the colour prefix followed by `-private`, so every private colour variable is also a colour variable |
| Variables.PrefixesDisjoint | src/variables.ts:1-7 | none of the colour, text, font-family and border-radius prefixes is a prefix of another, and no variable starts with two of them |
| Variables.ColorTextIsNotText | src/variables.ts:1-4 | a colour variable built from any key, such as `--g-color-text-primary`, does not start with the text prefix `--g-text` |
| Variables.NoTrailingDash | src/variables.ts:1-7 | no prefix ends with a dash |
| Borders.BorderRadiusVar | src/borders/utils.ts:23-25 | `createBorderRadiusCssVariable` is the border-radius prefix, `-` and the size, and the result passes `isBorderRadiusCssVariable` |
| Borders.SizeOfIff | src/borders/utils.ts:37-45 | `getSizeFromCssBorderSizeVariable` returns a size exactly for the five variables built from `xs`, `s`, `m`, `l`, `xl`, and that size |
| Borders.SizeRoundTrip | src/borders/utils.ts:23-45 | parsing the variable built from a border size gives the size back |
| Borders.SizeOfNone | src/borders/utils.ts:37-45 | the parser returns undefined exactly when the prefix is missing or the variable is none of the five built ones |
| Themes.IsColorOptionsIff | src/types.ts:21-23 | `isColorOptions` holds exactly of JSON objects with a `value` key; `undefined`, `null`, strings, numbers, booleans and arrays all fail it |
| Themes.ThemizedIsNotColor | src/json/types.ts:17-35 | a themized object without its own `value` key fails `isValueWithReference`, while both its `light` and `dark` pass it |
| Themes.ToColorOptions | src/json/parse.ts:28-60 | a guarded JSON object read as colour options keeps its `value` string and its `ref`, and has no `ref` when the object has none |
| Shades.ShadeFromNameSpec | src/utils.ts:126-135 | `isPrivateColorToken` finds exactly the 44 listed tokens, by name, and nothing else |
| Shades.ShadeFromNameOfName | src/utils.ts:126-135 | looking up a token's name returns that token for every listed token |
| Shades.NameInjective | src/private-colors/constants.ts:3-48 | different tokens have different names |
| Shades.NamePieces | src/private-colors/constants.ts:3-48 | every token name dash-splits into `[step, "solid"]`, `[step]` or `["opaque", "150"]` |
| Shades.NameHasNoDot | src/private-colors/constants.ts:3-48 | no token name contains a dot, so a token survives inside a dotted internal reference |
| Shades.StepDigits | src/private-colors/constants.ts:3-48 | each step's digits are a non-empty run of digits, spell the step's number and are read back as that step |
| Shades.AllPrivateShape | src/private-colors/constants.ts:3-48 | `ALL_PRIVATE_VARIABLES` has 44 tokens: 22 solid tokens from 1000 down to 20, 21 plain tokens from 950 down to 20, then `opaque-150` |
| Shades.AllPrivateDistinct | src/private-colors/constants.ts:3-48 | the 44 tokens, and their names, are pairwise distinct |
| Shades.ListsAreKnown | src/private-colors/constants.ts:50-128 | every token of every other list in the file belongs to `ALL_PRIVATE_VARIABLES` |
| Shades.Filter | src/private-colors/constants.ts:110-111 | `filter(v => v !== t)` keeps exactly the elements other than `t` |
| Shades.LightBlackSolids | src/private-colors/constants.ts:110-111 | the light-black solid list is the base solid list without its first token, `1000-solid` |
| Shades.OpaqueListed | src/private-colors/constants.ts:73-128 | `opaque-150` is listed only in the dark-white plain list |
| Shades.ColorsMapShape | src/private-colors/constants.ts:130-151 | `COLORS_MAP` has `c = -1` up to step 500, `c = +1` from 550 and `a = 1` only at 550 |
| Shades.PresetShape | src/private-colors/constants.ts:153-267 | in every white/black preset `a` is the step over 1000; `c` is +1 for light-white and dark-black and -1 for light-black and dark-white |
| Shades.ColorsMapSteps | src/private-colors/constants.ts:130-151 | `COLORS_MAP` has a row for every step except 20 and 70 |
| Shades.LightTableSteps | src/private-colors/constants.ts:155-181 | the light-white table has a row for every step except 20 |
| Shades.LightBlackTableSteps | src/private-colors/constants.ts:182-208 | the light-black table has a row for every step except 20 |
| Shades.DarkWhiteTableSteps | src/private-colors/constants.ts:211-238 | the dark-white table has a row for every step |
| Shades.DarkBlackTableSteps | src/private-colors/constants.ts:239-266 | the dark-black table has a row for every step except 70 |
| Shades.PaletteCoverage | src/private-colors/constants.ts:50-267 | for `COLORS_MAP` with the base lists, and for each preset with its own lists, the step of every listed token is a row of the table; `opaque-150` is listed only for dark white and step 150 is in every table |
| Roles.IsRoleIff | src/utils.ts:232-241 | `isUtilityColorToken` holds exactly of the names in `UTILITY_COLORS` |
| Roles.RolesDistinct | src/types.ts:46-220 | the role names of `UTILITY_COLORS` are pairwise distinct |
| Roles.RoleHasNoDot | src/types.ts:46-212 | no role contains a dot, so a role survives inside a dotted internal reference |
| Roles.RolesNotPrivate | src/types.ts:46-212 | no role begins with `private`, so a utility variable never carries the private prefix |
| References.IsPrivateRefIff | src/utils.ts:23-47 | `isInternalPrivateColorReference` holds exactly of the strings `private.<m>.<t>` built from dot-free `m` and `t` |
| References.ParsePrivateRefRoundTrip | src/utils.ts:23-77 | parsing the reference built from a dot-free token and a known shade gives both back |
| References.ParsePrivateRefSound | src/utils.ts:59-77 | the parser succeeds exactly on well-shaped references whose third part is a known shade, and the result rebuilds the input |
| References.IsUtilityRefIff | src/utils.ts:228-260 | `isInternalUtilityColorReference` holds exactly of the strings `utility.<r>` built from a dot-free `r` |
| References.ParseUtilityRefRoundTrip | src/utils.ts:228-282 | parsing the reference built from a role gives the role back |
| References.ParseUtilityRefSound | src/utils.ts:270-282 | the parser succeeds exactly on well-shaped references whose second part is a role, and the result rebuilds the input |
| References.RefKindsExclusive | src/utils.ts:35-47 | no string is both a private and a utility internal reference |
| References.IsUtilityVarIff | src/utils.ts:189-206 | `isUtilityColorCssVariable` holds exactly of `--g-color-<role>` for the roles |
| References.UtilityTypeRoundTrip | src/utils.ts:189-221 | `getUtilityColorTypeFromCssVariable` recovers the role from its variable and returns a role only for that role's variable |
| References.UtilityVarNotPrivate | src/utils.ts:90-106 | a utility variable is a colour variable and never a private colour variable |
| References.FirstShadeAt | src/utils.ts:158-168 | the index found has a known candidate token starting there |
| References.FirstShadeAtSpec | src/utils.ts:158-168 | the search finds the smallest index whose candidate is a known token, and reports none only when no candidate is known |
| References.CandidateShrinks | src/utils.ts:158-168 | later candidates are strictly shorter, so the longest known candidate is the first one |
| References.ParsePrivateVar | src/utils.ts:149-178 | the loop over candidates that keeps the longest known one returns what the split at the first known candidate gives, or throws for a missing prefix or no known suffix |
| References.PrivateVarRoundTrip | src/utils.ts:119-178 | parsing `createPrivateColorCssVariable(m, t)` gives `(m, t)` for every listed token, except a plain `150` after a main token whose last dash-piece is `opaque` |
| References.PrivateVarOpaqueClash | src/utils.ts:149-178 | the exception: `--g-color-private-<x>-opaque-150` parses as `<x>` with `opaque-150` |
| References.PrivateVarUnknownStep | src/utils.ts:170-172 | a final piece of digits that is not a known token makes the parse throw "Invalid CSS variable format", e.g. `red-123` |
| References.PrivateVarSound | src/utils.ts:149-178 | a successful parse has the private prefix and names a known token, and the suffix is the main token, a dash and the token name (or the token name alone) |
| References.LineEnd | src/utils.ts:645-654 | the end of the current line: the first line terminator at or after the position, or the end of the string |
| References.LastClose | src/utils.ts:645-654 | the last `)` in a range, or none when the range has no `)` |
| References.ParseCssReferenceOfVar | src/utils.ts:645-654 | `var(<x>)` with `<x>` on one line yields `<x>` |
| References.ParseCssReferenceSpec | src/utils.ts:645-654 | `parseCssReferenceVariable` returns undefined exactly when no `var(` has a `)` later on its line, and otherwise the text from the first such `var(` to the last `)` of that line |
| Typography.GroupsAreVariantKeys | src/typography/types.ts:7-25 | the six text groups are exactly the keys of the variant table, each listed once |
| Typography.VariantUnderGroup | src/typography/types.ts:11-25 | every variant of a group is the group name, a dash and a non-empty suffix, and no group name holds a dash |
| Typography.PropertiesDisjoint | src/typography/types.ts:1-5 | no name is both a group property (`font-weight`, `font-family`) and a variant property (`font-size`, `line-height`) |
| Typography.VariantsDistinct | src/typography/types.ts:11-25 | no variant name occurs twice across all groups, and every group's variants are in the combined list |
| Typography.TextVar | src/typography/utils.ts:233-239 | `createTextCssVariable` is the text prefix, a dash and the variant (or group when there is no variant) followed by the property, and passes `isTextCssVariable` |
| Typography.MatchVariantSpec | src/typography/utils.ts:180-202 | the variant loop over a group's variants matches `x-p` exactly when `x` is one of the variants and `p` a variant property, and then returns that pair |
| Typography.MatchVariantSound | src/typography/utils.ts:180-202 | whatever the variant loop returns is a listed variant and a variant property whose dash-join is the variable's content |
| Typography.CandidateMatch | src/typography/utils.ts:185-195 | a variant's slice test succeeds on `x-p` exactly when the variant is `x` and `p` is a variant property |
| Typography.VariantRoundTrip | src/typography/utils.ts:164-239 | parsing the variable built from a group, one of its variants and a variant property gives that key back |
| Typography.GroupRoundTrip | src/typography/utils.ts:164-239 | parsing the variable built from a group and a group property gives that key back |
| Typography.TextRoundTrip | src/typography/utils.ts:164-239 | `parseTextCssVariable(createTextCssVariable(k)) == k` for every key of a listed group, variant and property |
| Typography.ParseTextSound | src/typography/utils.ts:164-214 | whatever the parser returns is a known key, and the variable is the text prefix, one character and that key's text |
| Typography.ParseOfContent | src/typography/utils.ts:164-214 | on content `x-p` with a two-word `p`, the parser returns undefined for an unknown group, the variant key when `x` is a variant of the group and `p` a variant property, else the group key when the rest is a group property, else undefined |
| Typography.GroupContent | src/typography/utils.ts:204-213 | a dash-free group followed by a two-word name parses as that group property when both are listed, and as nothing otherwise, never as a variant |
| Typography.VariantContent | src/typography/utils.ts:164-214 | on a four-piece content `g-n-l-t` the parser tries the variant `g-n` with property `l-t` first, then the group property `n-l-t` |
| Typography.ContentUnder | src/typography/utils.ts:169 | skipping the prefix and the one character after it gives back what was written after `prefix-` |
| Typography.ParsesBodySize | src/typography/__tests__/utils.spec.ts:26-32 | `--g-text-body-1-font-size` parses to group `body`, variant `body-1`, property `font-size` |
| Typography.ParsesHeaderWeight | src/typography/__tests__/utils.spec.ts:4-9 | `--g-text-header-font-weight` parses to group `header`, property `font-weight` |
| Typography.RejectsUnknownVariant | src/typography/__tests__/utils.spec.ts:42-44 | `--g-text-header-55-line-height` parses to undefined |
| Typography.RejectsUnknownProperty | src/typography/__tests__/utils.spec.ts:18-20 | `--g-text-header-font-super` parses to undefined |
| Typography.FontVar | src/typography/utils.ts:96-107 | `createFontCssVariable` is the font-family prefix, a dash and the key, and passes `isFontCssVariable` |
| Typography.FontKeyRoundTrip | src/typography/utils.ts:105-121 | `getKeyFromCssFontVariable(createFontCssVariable(k)) == k` for every key, dashes included |
| Typography.NextQuote | src/typography/utils.ts:36 | the first quote at or after a position, or none when no quote follows |
| Typography.BareEnd | src/typography/utils.ts:36 | the end of the run of characters outside `,'" \n` starting at a position: every character before it is in the class and the one at it is not |
| Typography.MatchFont | src/typography/utils.ts:36-40 | a regex match consumes at least one and at most all of the remaining characters |
| Typography.FontTokensStep | src/typography/utils.ts:40-46 | one step of the `exec` loop: no match skips a character; a match adds its trimmed text when that is non-empty and resumes after the match |
| Typography.ScanSkip | src/typography/utils.ts:40-46 | a position where the regex does not match is skipped and the fonts found so far stay a prefix of the result |
| Typography.ScanTake | src/typography/utils.ts:40-46 | a match contributes its trimmed text unless that is empty and the scan resumes after the match, keeping the fonts found so far a prefix of the result |
| Typography.ParseCssFontFamily | src/typography/utils.ts:35-58 | the loop returns undefined when no non-blank font is found, and otherwise the first font as the main font and the rest, in order, as fallbacks |
| Typography.QuoteAll | src/typography/utils.ts:65-68 | each name is quoted with `'` unless it is one of the six generic families, and the list keeps its length and order |
| Typography.GenericIsBare | src/typography/utils.ts:16-23 | the six generic families consist only of characters the unquoted branch of the regex matches |
| Typography.OneName | src/typography/utils.ts:36-68 | a name as `generateCssFontFamily` writes it, followed by a comma or nothing, scans back as that name |
| Typography.BareName | src/typography/utils.ts:36-46 | a generic family followed by a comma or nothing is matched as one unquoted run |
| Typography.QuotedName | src/typography/utils.ts:36-46 | a quoted trimmed name without quotes inside is matched from its opening to its closing quote |
| Typography.Separator | src/typography/utils.ts:36-46 | the `, ` between two names yields no font |
| Typography.ScanWritten | src/typography/utils.ts:36-68 | scanning the `, `-joined written names gives back the names in order |
| Typography.FontFamilyRoundTrip | src/typography/utils.ts:35-69 | `parseCssFontFamily(generateCssFontFamily(f)) == f` whenever every name is non-empty, trimmed and quote-free |
| Typography.NoFontInSeparators | src/typography/utils.ts:48-50 | a value made only of commas, spaces and newlines holds no font, so the parser returns undefined |
| Resolver.PrivatePass | src/utils.ts:296-319 | pass 1 keeps the key order and the key set of the utility colours |
| Resolver.ResolvePrivateSlot | src/utils.ts:298-318 | pass 1 on one role's two variants: a private reference becomes the named shade (or `''` when it is missing) with the reference in `ref`, a malformed one becomes `''` with `ref` undefined, anything else is kept |
| Resolver.PartialPassStep | src/utils.ts:297-319 | after `i` roles of pass 1 the `i`-th role still holds its input, and one more round writes exactly that role's resolved value |
| Resolver.ResolvePrivateRefs | src/utils.ts:296-319 | the loop over the roles computes pass 1 |
| Resolver.Work | src/utils.ts:322-323 | pass 2 visits each role in key order, dark then light, the key order of every default slot: visit `2i` is role `i` dark and `2i+1` is role `i` light |
| Resolver.UtilityStep | src/utils.ts:324-349 | a visit that succeeds keeps the key order, the key set and validity |
| Resolver.UtilityPass | src/utils.ts:321-351 | a pass 2 run that succeeds keeps the key order, the key set and validity |
| Resolver.VisitSlot | src/utils.ts:324-349 | one visit of pass 2 as the loop body performs it |
| Resolver.WorkCovers | src/utils.ts:322-323 | pass 2 visits every role and variant of the record |
| Resolver.PassAppend | src/utils.ts:321-351 | running pass 2 over two visit lists in turn is running it over their concatenation, the first error stopping everything |
| Resolver.VisitRole | src/utils.ts:323-350 | the inner loop over a role's variants is pass 2 over that role's two visits |
| Resolver.ResolveUtilityRefs | src/utils.ts:321-351 | the loop over the roles and the loop over each slot's variants, dark then light, perform pass 2 over every visit in that order, stopping at the first throw |
| Resolver.ResolveReferences | src/utils.ts:290-354 | `replaceReferencesInUtilityColors` is pass 1 followed by pass 2 on its result |
| Resolver.StepOtherSlot | src/utils.ts:345-348 | a visit changes at most the slot it visits, and not even that one when it holds no utility reference |
| Resolver.PassKeepsPlain | src/utils.ts:321-351 | pass 2 leaves every slot that holds no utility reference as it was |
| Resolver.UnreferencedUntouched | src/utils.ts:290-354 | a slot holding neither kind of reference comes out of a successful resolution unchanged |
| Resolver.PrivateRefResolved | src/utils.ts:299-316 | a well-formed private reference to a shade becomes that shade's value in the slot's variant, with the reference kept in `ref` |
| Resolver.SelfReferenceFails | src/utils.ts:330-340 | a role whose slot refers to the role itself makes the resolver throw |
| Resolver.SelfStepFails | src/utils.ts:330-340 | visiting a slot that refers to its own role throws `Circular reference detected` for that role |
| Resolver.PassSelfFails | src/utils.ts:321-351 | pass 2 over visits that include a self-referring slot throws |
| Resolver.MutualStepFails | src/utils.ts:330-340 | visiting a slot whose target still holds a utility reference throws for the visited role |
| Resolver.MutualReferenceFails | src/utils.ts:321-351 | two roles referring to each other in one variant make the resolver throw, and when nothing earlier throws the error names the role that comes first in key order |
| Resolver.MutualRefsFail | src/utils.ts:321-351 | the same for any two well-formed utility references that point at each other |
| Resolver.PassMutualFails | src/utils.ts:321-351 | pass 2 throws at the first visit of either of two slots that refer to each other, naming the role visited |
| Resolver.PrivatePassKeeps | src/utils.ts:299 | pass 1 leaves a slot that is not a private reference as it is |
| Resolver.MutualWork | src/utils.ts:322-323 | the first visit of role `i` in variant `v` comes before any visit of a later role in that variant |
| Resolver.PrivatePassClean | src/utils.ts:296-319 | when the shades hold colours, no private reference survives pass 1, and slots holding utility references are untouched by it |
| Resolver.PassClean | src/utils.ts:321-351 | a successful pass 2 leaves no utility reference in a visited slot and creates no private one |
| Resolver.ResolvedHasNoReferences | src/utils.ts:290-354 | when the shades hold colours, a successful resolution keeps the key order and leaves no reference of either kind anywhere |
| Resolver.PassIdle | src/utils.ts:321-351 | pass 2 over a record without utility references changes nothing |
| Resolver.ResolveWithoutUtilityRefs | src/utils.ts:290-354 | without utility references, and with shades that hold none, the resolver is pass 1 alone and cannot throw |
| Resolver.StepPlain | src/utils.ts:324 | a visit of a slot without a utility reference changes nothing |
| Resolver.StepReads | src/utils.ts:324-349 | a visit of a slot referring to a present role reads that role's current value: it throws when that value is a reference, and otherwise stores it with the reference in `ref` |
| Resolver.PrivatePassIdle | src/utils.ts:296-319 | pass 1 leaves a record without private references as it is |
| Resolver.ChainResolvedWhenTargetFirst | src/utils.ts:321-351 | with `a -> b -> c -> colour` listed `c, b, a`, pass 2 resolves `a` to the colour with `ref` to `b` |
| Resolver.ChainForward | src/utils.ts:321-351 | the same for any well-formed chain of utility references listed target first |
| Resolver.ChainRejectedWhenSourceFirst | src/utils.ts:321-351 | the same chain listed `a, b, c` throws for `a`, since `a` reads `b` before `b` is resolved |
| Resolver.ChainBackward | src/utils.ts:321-351 | the same for any well-formed chain listed source first |
| PrivateColors.PaletteOf | src/private-colors/generatePrivateColors.ts:40-53 | the palette has exactly the rows of the selected table, or is the error of the first mix that fails |
| PrivateColors.PaletteMap | src/private-colors/generatePrivateColors.ts:40-53 | when every row mixes, the palette has an entry for each row of the table |
| PrivateColors.BuildPalette | src/private-colors/generatePrivateColors.ts:40-53 | the `reduce` over the table's rows computes the palette, or its first error |
| PrivateColors.GenerateSpec | src/private-colors/generatePrivateColors.ts:21-88 | `generatePrivateColors` fails, with the invalid-colour error, exactly when the colour is not valid or a mix fails; otherwise it writes exactly the shades its lists name |
| PrivateColors.ShadeMap | src/private-colors/generatePrivateColors.ts:63-85 | the shade map has exactly the written shades, each with the value its branch computes |
| PrivateColors.AllWrittenKnown | src/private-colors/generatePrivateColors.ts:63-85 | every shade the generator writes is one of the 44 private tokens |
| PrivateColors.PaletteReadable | src/private-colors/generatePrivateColors.ts:70-84 | a palette built from the selected table has every row the two loops read (`pallete[normalizedKey]`, `pallete[varName]`, `pallete[150]`) |
| PrivateColors.OpaqueForDarkWhite | src/private-colors/generatePrivateColors.ts:77-81 | among white and black, `opaque-150` is written only for white in the dark theme |
| PrivateColors.WriteSolids | src/private-colors/generatePrivateColors.ts:63-73 | the anchor write and the solid loop write exactly the anchor and the listed solids; a listed solid holds its row's mixed colour, an unlisted anchor the input colour |
| PrivateColors.WritePlains | src/private-colors/generatePrivateColors.ts:75-85 | the plain loop adds exactly the listed plain shades (`opaque-150` only when allowed), each with its computed value, and leaves the solid shades as they were |
| PrivateColors.Generate | src/private-colors/generatePrivateColors.ts:21-88 | the method computes the specified shade map or the specified error |
| PrivateColors.WrittenMap | src/private-colors/generatePrivateColors.ts:63-85 | a map holding exactly the written shades, each with its value, is the specified shade map |
| PrivateColors.LoopsWritten | src/private-colors/generatePrivateColors.ts:63-85 | the anchor write and both loops together write exactly the written shades, with the values of the branch that wrote each last |
| PrivateColors.WrittenValues | src/private-colors/generatePrivateColors.ts:63-85 | every slot the loops wrote holds the specified value |
| PrivateColors.PaletteFor | src/private-colors/generatePrivateColors.ts:40-53 | the palette of a successful run has exactly the rows of the selected table |
| PrivateColors.SolidValue | src/private-colors/generatePrivateColors.ts:40-73 | each listed solid shade holds its row's colour mixed toward the row's background (`c > 0` picks the far one) at `1 - a` |
| PrivateColors.PlainValueOf | src/private-colors/generatePrivateColors.ts:47-83 | each listed plain shade holds the input colour at its row's alpha |
| PrivateColors.OpaqueValue | src/private-colors/generatePrivateColors.ts:77-81 | dark white's `opaque-150` holds its mixed 150 row at alpha 0.95 |
| PrivateColors.OpaqueOnlyDarkWhite | src/private-colors/generatePrivateColors.ts:76-84 | `opaque-150` is in the result exactly for the dark variant of white |
| PrivateColors.AnchorOverwritten | src/private-colors/generatePrivateColors.ts:63-73 | for any colour other than white and black, `550-solid` ends up as the mix of the colour at weight 0, overwriting the colour written first |
| PrivateColors.DarkWhiteAnchor | src/private-colors/generatePrivateColors.ts:63-73 | for dark white, `1000-solid` ends up as the mix with the dark background at weight 0 |
| PrivateColors.AnchorKept | src/private-colors/generatePrivateColors.ts:63-73 | black in either theme and light white keep the input colour in `1000-solid` |
| PrivateColors.PaletteKeyOfName | src/private-colors/generatePrivateColors.ts:70-84 | the palette key read for a solid token is the part before its first dash, and for a plain token its whole name: both are the step's digits |
| Edits.Wrap | src/utils.ts:422-432 | the `reduce` that wraps generated strings keeps exactly the generated shades, each as a `{value}` option without `ref` |
| Edits.GenerateRamp | src/utils.ts:414-432 | one generated and wrapped ramp, as the specification function computes it |
| Edits.RampError | src/private-colors/generatePrivateColors.ts:30-53 | a ramp fails exactly when the colour is invalid or a row's mix fails, and the only error it reports is the invalid-colour one |
| Edits.RampAnchor | src/utils.ts:362-389 | the anchor shade `restore` reads (`1000-solid` for white and black, `550-solid` otherwise) is always generated, has no `ref`, and holds the mixed colour for ordinary tokens and dark white and the input colour for black and light white |
| Edits.GenerateForBaseSpec | src/utils.ts:398-437 | `generatePrivateColorsForBaseColors` keeps the base colours' keys in their order |
| Edits.GenerateEntry | src/utils.ts:405-434 | the inner loop produces one base colour's two ramps, or the first error |
| Edits.GenerateForBase | src/utils.ts:398-437 | the outer loop computes `generatePrivateColorsForBaseColors` |
| Edits.GeneratedAll | src/utils.ts:398-437 | a dictionary holding the ramps of every base colour, in their order, is the result of the generator |
| Edits.NewKeys | src/utils.ts:375-380 | the keys `restore` appends are exactly those of the private colours that the base colours lack |
| Edits.RestoreToken | src/utils.ts:369-385 | one round of `restore` sets both variants of the token to its anchor values |
| Edits.Restore | src/utils.ts:362-389 | the loop computes `restoreBaseColorsFromPrivateColors` |
| Edits.RestoreEntries | src/utils.ts:362-389 | `restore` sets every private token's anchor values without `ref`, keeps every other base colour, and appends the new tokens in private-colour order |
| Edits.RestoreAfterGenerate | src/utils.ts:362-437 | restoring from freshly generated ramps gives every base colour its ramp's anchor value and keeps the key order |
| Edits.GeneratedShades | src/utils.ts:398-437 | the generated ramp of each base colour and variant holds exactly the shades `generatePrivateColors` writes, each wrapped as `{value}` |
| Edits.WriteBase | src/utils.ts:482-500 | the base-colour writes of `updateBaseColor` give the token its new entry and change nothing else |
| Edits.WritePrivate | src/utils.ts:502-564 | the private-colour writes of `updateBaseColor` store the new ramps, or fail with the generator's error |
| Edits.UpdateBaseColor | src/utils.ts:478-567 | the method computes `updateBaseColor` |
| Edits.UpdateBaseFrame | src/utils.ts:478-567 | without `base-background` the update fails; otherwise it fails with the invalid-colour error exactly when a requested ramp fails; on success only the token's base and private entries change, and validity is kept |
| Edits.UpdateOneVariant | src/utils.ts:489-530 | a one-variant update writes the new value and its ramp for that variant and keeps the other variant's base and private values (empty for a new token) |
| Edits.UpdateBothVariants | src/utils.ts:494-563 | a two-variant update writes both values and both fresh ramps |
| Edits.RemoveBaseColor | src/utils.ts:582-587 | the method computes `removeBaseColor` |
| Edits.RemoveFrame | src/utils.ts:582-587 | removal deletes the token from the base and private colours, keeps every other entry and everything else, and keeps validity |
| Edits.RemoveIdempotent | src/utils.ts:582-587 | removing twice is removing once |
| Edits.RemoveAfterPut | src/utils.ts:584-585 | deleting a key just added gives the dictionary back, key order included |
| Edits.RemoveUndoesAdd | src/utils.ts:478-587 | adding a new base colour and then removing it gives the theme back |
| Edits.RegenStep | src/utils.ts:616-632 | one regeneration write keeps the key order, the key set and validity |
| Edits.Regenerate | src/utils.ts:614-634 | a successful run of the regeneration writes keeps the key order, the key set and validity |
| Edits.WorkOfBase | src/utils.ts:614-615 | the regeneration visits every base colour with both variants, and nothing else |
| Edits.RegenerateSlot | src/utils.ts:616-632 | one regeneration write as the loop body performs it |
| Edits.RegenerateToken | src/utils.ts:615-633 | the inner loop writes one base colour's two ramps |
| Edits.RegenerateAll | src/utils.ts:614-634 | the nested loops perform every regeneration write in order, stopping at the first throw |
| Edits.UpdateUtilityColor | src/utils.ts:608-638 | the method computes `updateUtilityColor` |
| Edits.RegenerateOutcome | src/utils.ts:614-634 | the regeneration succeeds exactly when every visited token has a private entry and every ramp can be generated |
| Edits.RegenerateValues | src/utils.ts:614-634 | after a successful regeneration each visited slot holds its fresh ramp and every other slot is unchanged |
| Edits.RegenStepValues | src/utils.ts:616-632 | one write changes the visited slot to its ramp and nothing else |
| Edits.RegenerateNeedsPrivates | src/utils.ts:624 | regeneration throws when a base colour has no private entry |
| Edits.UpdateUtilityFrame | src/utils.ts:608-638 | on success only the given variant of the role changes, to `{value}`; the base colours, typography and borders are kept, and private colours change only for `base-background` |
| Edits.UpdateUtilityErrors | src/utils.ts:608-634 | a role missing from the utility colours makes the update throw, and so does a `base-background` update when some base colour has no private entry |
| Edits.GeneratedConsistent | src/utils.ts:398-437 | generating every ramp toward the theme's own background makes the private colours consistent with the base colours |
| Edits.UpdateBaseConsistent | src/utils.ts:478-567 | `updateBaseColor` keeps the private colours consistent with the base colours |
| Edits.UpdateUtilityConsistent | src/utils.ts:608-638 | `updateUtilityColor` keeps that consistency, the background case included since all ramps are regenerated |
| Edits.RemoveConsistent | src/utils.ts:582-587 | `removeBaseColor` keeps that consistency |
| CssTokens.SkipSpace | src/css/parse.ts:33 | the `\s*` of the block regex: the first non-space position at or after the start, every character skipped being a space |
| CssTokens.FindAt | src/css/parse.ts:33 | the search for `}` finds the first closing brace at or after the start |
| CssTokens.HeaderAt | src/css/parse.ts:33 | a recognised `.g-root`, `.g-root_theme_light` or `.g-root_theme_dark` header followed by `{` ends after its start |
| CssTokens.BlockAt | src/css/parse.ts:33 | a block match at a position consumes at least one character and stays within the text |
| CssTokens.NextBlock | src/css/parse.ts:33-36 | the next block match at or after a position ends after that position |
| CssTokens.NextDecl | src/css/parse.ts:46-48 | the next declaration match at or after a position lies within the block and starts no earlier |
| CssTokens.NextDeclMatched | src/css/parse.ts:46 | every declaration match has the shape the regex demands: `--` and name characters, then `:`, at least one character that is not `;`, and the `;` that ends the match; the value is the trimmed text between `:` and `;`, so it is trimmed and holds no `;` |
| CssTokens.TrimSlice | src/css/parse.ts:53 | the value positions the scan computes delimit exactly the trimmed value text |
| CssTokens.TrimmedValue | src/css/parse.ts:53 | the value stored for a declaration is the trimmed text between `:` and `;` |
| CssTokens.With | src/css/parse.ts:53 | writing one scope's bucket leaves the other two buckets as they were |
| CssTokens.FillFrom | src/css/parse.ts:46-54 | the declarations of a block, written into a bucket in order, keep the bucket a valid ordered dictionary |
| CssTokens.AddBlocks | src/css/parse.ts:36-55 | processing the blocks in order keeps every bucket valid |
| CssTokens.TokensSpec | src/css/parse.ts:25-58 | `parseThemeTokens` yields three valid ordered buckets, for `root`, `light` and `dark` |
| CssTokens.ScanDeclarations | src/css/parse.ts:46-54 | the inner `exec` loop computes the declarations written into the bucket |
| CssTokens.ParseThemeTokens | src/css/parse.ts:25-58 | the outer `exec` loop computes `parseThemeTokens` |
| CssTokens.FillFromWellFormed | src/css/parse.ts:46-54 | every name stored is `--` followed by name characters, and every value stored is trimmed and holds no `;` (it may be empty: `--a: ;` stores `""`) |
| CssTokens.BlankValueStored | src/css/parse.ts:46-53 | a declaration whose value is only white space, `--a: ;`, still matches and stores the empty value |
| CssTokens.TokensWellFormed | src/css/parse.ts:25-58 | every bucket of the result holds only custom property names, each with a trimmed value that holds no `;` |
| CssTokens.FillFromLookup | src/css/parse.ts:46-54 | a name is in the bucket exactly when it was there or is declared in the block, and then holds the value of its last declaration |
| CssTokens.DeclRoundTrip | src/css/parse.ts:46-54 | scanning `name: value;` for a well-formed name and a trimmed value without `;` writes exactly that pair |
| CssTokens.BlockRoundTrip | src/css/parse.ts:33 | a block written as `selector {body}` with no `}` in the body matches once, with its scope and body |
| CssTokens.NextBlockAt | src/css/parse.ts:33-36 | a block written at a position is the next match there, and the scan resumes right after its `}` |
| CssTokens.BlocksAt | src/css/parse.ts:33-36 | the blocks from a position holding a written block are that block followed by the blocks after it |
| CssTokens.BlocksSkipNewline | src/css/parse.ts:33-36 | a newline between blocks changes nothing |
| CssParse.ApplyPrivate | src/css/parse.ts:60-94 | `applyPrivateColorVariable` keeps the theme valid and touches only the base and private colours; a variable that fails to parse is skipped |
| CssParse.ApplyUtility | src/css/parse.ts:96-131 | `applyUtilityColorVariable` keeps the theme valid and changes only the utility colours |
| CssParse.ApplyFont | src/css/parse.ts:133-148 | `applyFontVariable` keeps the theme valid and changes neither colours nor borders |
| CssParse.ApplyText | src/css/parse.ts:150-180 | `applyTextVariable` keeps the theme valid and changes neither colours nor borders |
| CssParse.ApplyBorder | src/css/parse.ts:182-191 | `applyBorderRadiusVariable` keeps the theme valid and changes no colour |
| CssParse.RootStep | src/css/parse.ts:215-225 | one root declaration, dispatched to fonts, text or borders or skipped, keeps the theme valid and changes no colour |
| CssParse.RootFrom | src/css/parse.ts:215-225 | the root loop keeps the theme valid |
| CssParse.ApplyRoot | src/css/parse.ts:215-225 | the loop over the root block computes the root pass |
| CssParse.SchemeFrom | src/css/parse.ts:231-254 | one block's loop keeps the theme valid and defers only utility declarations of the block whose value refers to a utility variable, appended to the list it was given |
| CssParse.ReplayFrom | src/css/parse.ts:256-258 | replaying the deferred list keeps the theme valid |
| CssParse.SchemePass | src/css/parse.ts:231-258 | a block's loop followed by the replay keeps the theme valid and returns the grown deferred list |
| CssParse.ScanScheme | src/css/parse.ts:231-254 | the method computes one block's loop |
| CssParse.Replay | src/css/parse.ts:256-258 | the method computes the replay |
| CssParse.ApplyScheme | src/css/parse.ts:231-258 | the method computes one block's loop and its replay |
| CssParse.SchemesFrom | src/css/parse.ts:227-259 | the light block then the dark block, each with a deferred list of its own, keep the theme valid |
| CssParse.SchemesAsWritten | src/css/parse.ts:227-259 | the two blocks with the one deferred list shared by both keep the theme valid |
| CssParse.ApplySchemes | src/css/parse.ts:227-259 | the loop over the two blocks, with the list declared once before it, computes the shared-list pass |
| CssParse.FinishTheme | src/css/parse.ts:261-266 | resolution of the utility references, then restoration of the base colours |
| CssParse.ParseCss | src/css/parse.ts:210-269 | `parseCSS` is the token scan, the root pass on the default theme, the shared-list pass over the two blocks, then resolution and restoration |
| CssParse.ApplyPrivateSetsShade | src/css/parse.ts:60-94 | a parsed private variable creates missing base and private entries, sets its shade to `{value}` in its variant, and leaves the other variant and all but the base and private colours alone |
| CssParse.ApplyPrivateRoundTrip | src/css/parse.ts:60-94 | the variable built for a shade of a base colour sets that shade (unless the name clashes with `opaque-150`) |
| CssParse.ApplyPrivateSkipsUnknown | src/css/parse.ts:90-93 | a digits-only token that is no shade makes the private parser throw and the declaration is skipped, the theme unchanged |
| CssParse.PrivateReferenceResolved | src/css/parse.ts:112-119 | a `var()` of a private variable is stored as the internal private reference, which resolution then turns into the named shade with the reference kept in `ref` |
| CssParse.UtilityReferenceStored | src/css/parse.ts:120-126 | a `var()` of a utility variable is stored as the internal utility reference with the variable in `ref` |
| CssParse.PlainUtilityValue | src/css/parse.ts:109-130 | a value without `var()` is stored as it is, with `ref` present but undefined |
| CssParse.UtilityWithoutSlot | src/css/parse.ts:130 | a utility variable whose role has no slot in the theme makes the parser throw |
| CssParse.GroupFontFamilyKey | src/css/parse.ts:163-172 | a group font-family given as `var(--g-font-family-<key>)` stores the key and keeps the weight |
| CssParse.GroupFontFamilyThrows | src/css/parse.ts:164-170 | a group font-family referring to anything other than a font variable throws |
| CssParse.VariantPropertySet | src/css/parse.ts:158-160 | a variant variable sets that property of that variant and leaves every other variant alone |
| CssParse.RootFontRoundTrip | src/css/parse.ts:133-148 | a root font variable holding a written font family stores exactly that family under its key |
| CssParse.RootBorderRoundTrip | src/css/parse.ts:182-191 | a root border-radius variable stores its value under its size |
| CssParse.RootKeepsColors | src/css/parse.ts:215-225 | the root pass changes no colour |
| CssParse.RootKeepsUndeclaredBorder | src/css/parse.ts:215-225 | a border size not declared in the root block keeps its value |
| CssParse.RootDeclaredBorder | src/css/parse.ts:215-225 | a border size declared in the root block takes the declared value |
| CssParse.ApplyUtilityKeepsSlot | src/css/parse.ts:96-131 | a utility declaration changes no slot but its own role's slot in its own variant |
| CssParse.SchemeFromKeepsSlot | src/css/parse.ts:231-254 | a block's loop changes no slot whose variable it does not declare |
| CssParse.ReplayKeepsSlot | src/css/parse.ts:256-258 | the replay changes no slot whose variable is not on the list |
| CssParse.SchemePassKeepsSlot | src/css/parse.ts:231-258 | a block and its replay change no slot that neither declares |
| CssParse.SchemesKeepUndeclared | src/css/parse.ts:227-259 | with a list per block, a utility slot whose variable a block does not declare keeps its value in that block's variant |
| CssParse.ReplayOne | src/css/parse.ts:256-258 | replaying one deferred declaration stores its value in that variant |
| CssParse.DeferredOnly | src/css/parse.ts:237-241 | a utility declaration referring to a utility variable is deferred, then applied by the replay |
| CssParse.EmptyBlock | src/css/parse.ts:230-258 | an empty block still replays what the list holds, and with an empty list changes nothing |
| CssParse.AsWrittenLeaksLightDeferral | src/css/parse.ts:227-259 | with the shared list, a light declaration referring to a utility variable is replayed into the dark variant as well, where the per-block version keeps the dark default |
| CssParse.AsWrittenKeepsUndeclared | src/css/parse.ts:227-259 | with the shared list, a slot not declared in a block keeps its value in that variant, except in dark when the light block deferred it |
| CssGenerate.Spaces | src/css/generate.ts:34 | `' '.repeat(n)` is `n` spaces |
| CssGenerate.IndentLines | src/css/generate.ts:35-38 | each line is mapped on its own, the count and order of lines kept |
| CssGenerate.AddIndentationLines | src/css/generate.ts:33-39 | `addIndentation` keeps the number of lines, leaves blank lines as they are and puts the indent before every other line |
| CssGenerate.NewlineRun | src/css/generate.ts:296 | the run of newlines at the start of a text ends at the first other character |
| CssGenerate.UnbrokenAppend | src/css/generate.ts:296 | dropping newlines distributes over concatenation |
| CssGenerate.CollapseKeepsText | src/css/generate.ts:296 | `.replace(/\n{3,}/g, '\n\n')` changes only newlines: the text without its newlines is the same before and after |
| CssGenerate.CollapseNoTriple | src/css/generate.ts:296 | after the collapse no three newlines follow one another |
| CssGenerate.CollapseWithoutTriple | src/css/generate.ts:296 | a text without three newlines in a row is left unchanged by the collapse |
| CssGenerate.CollapseIdempotent | src/css/generate.ts:296 | collapsing twice is collapsing once |
| CssGenerate.DeclarationParses | src/css/generate.ts:192-196 | a declaration line `name: value;` (with ` !important` for previews) scans back to that name and value |
| CssGenerate.BackgroundChanged | src/css/generate.ts:59-70 | `isBackgroundColorChanged` throws when either theme lacks `base-background`, and otherwise holds exactly when one of its variants differs from the default's, `ref` included (lodash `isEqual`) |
| CssGenerate.ExportPrivateRef | src/css/generate.ts:78-86 | a slot whose `ref` is an internal private reference is exported as `var(` the private variable `)` |
| CssGenerate.ExportUtilityRef | src/css/generate.ts:78-91 | a slot whose `ref` is an internal utility reference is exported as `var(` the utility variable `)` |
| CssGenerate.ExportPlain | src/css/generate.ts:78-92 | a slot without `ref` and with a plain value is exported as its value |
| CssGenerate.ExportPrivateParses | src/css/generate.ts:78-86 | the exported private `var()` parses back, in `applyUtilityColorVariable`, to the same internal reference with the variable in `ref` |
| CssGenerate.ExportUtilityParses | src/css/generate.ts:87-91 | the exported utility `var()` parses back to the same internal utility reference with the variable in `ref` |
| CssGenerate.NameLineFree | src/private-colors/constants.ts:3-48 | no private token name holds a line terminator, so a `var()` around it is matched by the reference regex |
| CssGenerate.ShadeLinesStep | src/css/generate.ts:136-155 | one shade of the private loop adds its line unless the shade is absent or suppressed as equal to a defined default |
| CssGenerate.PrivateShadeVariables | src/css/generate.ts:136-156 | the private-shade loop writes the lines of the shades present, in shade order, minus the suppressed ones |
| CssGenerate.BaseLinesStep | src/css/generate.ts:124-159 | one base colour adds nothing when it is suppressed, its shade lines and a blank line when it has a private entry, and nothing otherwise |
| CssGenerate.BaseColorVariables | src/css/generate.ts:124-159 | the base-colour loop writes the specified shade lines |
| CssGenerate.RoleLinesStep | src/css/generate.ts:163-179 | one role throws when the default theme lacks it, is skipped when suppressed, and is exported otherwise |
| CssGenerate.RoleLinesErrPersists | src/css/generate.ts:163-179 | once a role throws, the role loop's result is that error |
| CssGenerate.UtilityColorVariables | src/css/generate.ts:163-179 | the role loop writes one export line per emitted role, or the first error |
| CssGenerate.PrepareThemeVariables | src/css/generate.ts:121-182 | `prepareThemeVariables` is the base-colour loop, a blank line and the role loop, trimmed |
| CssCommon.BorderLinesStep | src/css/generate.ts:187-197 | one border size adds its line unless defaults are ignored and it equals the default |
| CssCommon.BordersVariables | src/css/generate.ts:184-200 | the border loop writes the specified lines |
| CssCommon.FontLinesStep | src/css/generate.ts:205-219 | one font family adds its generated family line unless defaults are ignored and it equals the default |
| CssCommon.FontVariables | src/css/generate.ts:205-219 | the font loop writes the specified lines |
| CssCommon.GroupPropertyLinesStep | src/css/generate.ts:222-253 | one group property adds its line, `var(--g-font-family-<key>)` for the font family and the weight's text for `font-weight`, unless defaults are ignored and the default's property is `isEqual` to it, a number never being equal to a string |
| CssCommon.GroupPropertyVariables | src/css/generate.ts:222-253 | the property loop of one group writes the specified lines |
| CssCommon.GroupLinesStep | src/css/generate.ts:221-254 | one group adds its property lines to those of the groups before it, or fails |
| CssCommon.GroupErrPersists | src/css/generate.ts:221-254 | once a group fails, the group loop's result is that error |
| CssCommon.GroupVariables | src/css/generate.ts:221-254 | the group loop writes the specified lines |
| CssCommon.VariantPropertyLinesStep | src/css/generate.ts:257-277 | one variant property adds its line, named after the variant only, unless suppressed |
| CssCommon.VariantPropertyVariables | src/css/generate.ts:257-277 | the property loop of one variant writes the specified lines |
| CssCommon.VariantLinesStep | src/css/generate.ts:256-278 | one variant adds its property lines to those of the variants before it, or fails |
| CssCommon.VariantErrPersists | src/css/generate.ts:256-278 | once a variant fails, the variant loop's result is that error |
| CssCommon.VariantVariables | src/css/generate.ts:256-278 | the variant loop writes the specified lines |
| CssCommon.PrepareTypographyVariables | src/css/generate.ts:202-281 | `prepareTypographyVariables` is the font, group and variant lines, trimmed |
| CssCommon.PrepareCommonVariables | src/css/generate.ts:283-285 | `prepareCommonVariables` is the border lines and the typography lines joined by a newline, trimmed |
| CssDocument.GenerateCss | src/css/generate.ts:118-297 | `generateCSS` computes the background check, the three sections, the three chained `replace` calls that put the indented sections into `CSS_TEMPLATE`, and the newline collapse |
| CssDocument.CollapseAppend | src/css/generate.ts:296 | the collapse distributes over a concatenation that does not join two newlines |
| CssDocument.CollapseBlock | src/css/generate.ts:45-57 | collapsing one template block gives the block written around its collapsed section |
| CssDocument.CollapseTemplate | src/css/generate.ts:45-57 | collapsing the filled template gives the three blocks separated by one blank line |
| CssDocument.AddIndentationBringsNothing | src/css/generate.ts:33-39 | indentation adds only spaces and newlines, so it brings no `}` into a section |
| CssDocument.ThreeBlocks | src/css/generate.ts:45-57 | the block scanner of the parser finds in the layout exactly the root, light and dark blocks, in that order |
| CssDocument.GenerateCssBlocks | src/css/generate.ts:118-297 | when no section holds `}` or `$`, the common section holds neither later placeholder and the light section does not hold the dark one, `parseThemeTokens`' block scan of the stylesheet gives the `.g-root`, light and dark blocks in that order, each holding its indented section |
| CssDocument.FillPlain | src/css/generate.ts:293-295 | sections without `$`, and without the placeholder of a later section, fill the template as plain text, each in its own block |
| CssDocument.PlaceholderInCommon | src/css/generate.ts:293-295 | a common section holding `%LIGHT_THEME_VARIABLES%` takes the light section into the `.g-root` block, and the light block is left with the placeholder |
| CssDocument.TailPattern | src/css/generate.ts:293-295 | a common section `$'` expands to the rest of the template: the stylesheet gains a stray `}` and a second light and a second dark block holding their placeholders |
| CssDocument.AddIndentationAbsent | src/css/generate.ts:33-39 | indentation brings no placeholder into a section that lacks it |
| Common.SubstitutionPlain | src/css/generate.ts:293-295 | a replacement without `$` is inserted as it is |
| Common.SubstitutionPatterns | src/css/generate.ts:293-295 | in a replacement, `$$` stands for `$`, `$&` for the placeholder, `` $` `` for the text before it and `$'` for the text after it |
| Common.ReplaceAfter | src/css/generate.ts:293-295 | `replace` on text whose first occurrence of the pattern follows a newline puts the replacement there and keeps the rest |
| CssDocument.GenerateCssFails | src/css/generate.ts:118-297 | `generateCSS` throws exactly when the background check or one of the three sections throws, and then with the first such error |
| CssEmission.ShadeLinesIff | src/css/generate.ts:136-155 | a shade line is emitted exactly for a shade of the token that is present and listed, with its value, unless suppressed as default |
| CssEmission.BaseLinesIff | src/css/generate.ts:124-159 | a shade line is emitted exactly for a listed base colour that is not suppressed, has a private entry, and emits that shade |
| CssEmission.OrphanPrivateNeverEmitted | src/css/generate.ts:124-135 | a private entry whose token is not a base colour is never emitted |
| CssEmission.DefaultTokenSkipped | src/css/generate.ts:127-133 | with defaults ignored, a base colour equal to its default while the background is unchanged emits no shade |
| CssEmission.DefaultShadeSkipped | src/css/generate.ts:138-149 | with defaults ignored, a shade equal to a defined default shade is not emitted |
| CssEmission.RoleLinesOk | src/css/generate.ts:163-179 | the role loop succeeds exactly when every role of the theme exists in the default theme |
| CssEmission.RoleLinesErr | src/css/generate.ts:163-179 | when it fails, the error names the first role missing from the default theme |
| CssEmission.RoleLinesIff | src/css/generate.ts:163-179 | a role is exported, with its colour, exactly when it is listed and not suppressed by the equal-value or equal-ref rule |
| CssEmission.BorderLinesIff | src/css/generate.ts:187-197 | a border line is emitted exactly for each listed size with its value, unless defaults are ignored and it equals the default |
| CssEmission.FontLinesIff | src/css/generate.ts:205-219 | a font line is emitted exactly for each listed family with its generated value, unless defaults are ignored and it equals the default |
| CssEmission.GroupPropertyLinesIff | src/css/generate.ts:222-253 | a group line is emitted, with the property's text, exactly for each of its properties unless defaults are ignored and the default's property is `isEqual` to it (same type and value) |
| CssEmission.StringWeightKept | src/css/generate.ts:228-236 | a `font-weight` held as a string, as the CSS parser stores it, is never `isEqual` to a numeric default weight such as `400`, so it is emitted under suppression |
| CssEmission.GroupLinesOk | src/css/generate.ts:221-236 | the group loop fails exactly when defaults are ignored and a group has no default, since the source reads a property of `undefined` |
| CssEmission.GroupLinesIff | src/css/generate.ts:221-254 | a group property line is emitted, with the property's text, exactly for each listed group and property unless defaults are ignored and the default group's property is `isEqual` to it (same type and value) |
| CssEmission.VariantPropertyLinesIff | src/css/generate.ts:257-277 | a variant line is emitted exactly for each of its properties unless suppressed as equal to the default |
| CssEmission.VariantLinesOk | src/css/generate.ts:256-266 | the variant loop fails exactly when defaults are ignored and a variant has no default |
| CssEmission.VariantLinesIff | src/css/generate.ts:256-278 | a variant property line is emitted exactly for each listed variant and property unless suppressed as equal to the default |
| CssEmission.NoSuppressionShades | src/css/generate.ts:124-159 | without `ignoreDefaultValues` every listed shade of every base colour with a private entry is emitted with its value |
| CssEmission.NoSuppressionRoles | src/css/generate.ts:163-179 | without `ignoreDefaultValues` the role walk succeeds whenever the default has every role, and every role is exported |
| CssEmission.NoSuppressionBorders | src/css/generate.ts:187-197 | without `ignoreDefaultValues` every border is emitted with its value |
| CssEmission.NoSuppressionFonts | src/css/generate.ts:205-219 | without `ignoreDefaultValues` every font family is emitted as its generated CSS family |
| JsonParse.ApplyPrivate | src/json/parse.ts:28-60 | `applyPrivateColorVariable` keeps the theme valid and touches only the base and private colours; a name that fails to parse is skipped |
| JsonParse.ApplyUtility | src/json/parse.ts:62-76 | `applyUtilityColorVariable` keeps the theme valid and changes only the utility colours |
| JsonParse.ApplyText | src/json/parse.ts:94-114 | `applyTextVariable` keeps the theme valid and changes neither colours nor borders |
| JsonParse.ColorStep | src/json/parse.ts:147-159 | a colour entry keeps the theme valid and changes neither typography nor borders |
| JsonParse.OtherStep | src/json/parse.ts:160-180 | a font, text, border-radius or unsupported entry keeps the theme valid and changes no colour |
| JsonParse.Step | src/json/parse.ts:146-181 | one entry of the loop keeps the theme valid |
| JsonParse.Fold | src/json/parse.ts:146-181 | the loop over the entries, in input order, keeps the theme valid |
| JsonParse.FoldErr | src/json/parse.ts:146-181 | once an entry throws, the loop's result is that error |
| JsonParse.ApplyEntry | src/json/parse.ts:146-181 | the loop body dispatches one entry as specified |
| JsonParse.ApplyEntries | src/json/parse.ts:144-181 | the loop, started on the default theme, computes the fold over the entries |
| JsonParse.ParseJson | src/json/parse.ts:143-186 | `parseJSON` is the fold over the entries on the default theme, followed by the restoration of the base colours and no reference resolution |
| JsonParse.ColorStepUtility | src/json/parse.ts:62-76 | a colour entry replaces a role's slot by its light and dark options exactly when it is that role's variable and themized, and leaves it otherwise |
| JsonParse.StepUtility | src/json/parse.ts:146-159 | the same for any entry |
| JsonParse.FoldUtility | src/json/parse.ts:146-181 | after the loop a role's slot is what the entries written to its variable leave |
| JsonParse.SlotAfterOnly | src/json/parse.ts:146-181 | with distinct keys, that is the options of the role's variable when it is present and themized, and the starting slot otherwise |
| JsonParse.ParseJsonUtility | src/json/parse.ts:143-186 | `parseJSON` gives a role the light and dark options of its variable when present and themized, and the default theme's slot otherwise |
| JsonParse.Setters | src/json/parse.ts:146-159 | the flags mark only themized entries |
| JsonParse.LastSetting | src/json/parse.ts:146-159 | the last entry that sets a given shade, if any, is a themized entry before the bound |
| JsonParse.LastSettingSets | src/json/parse.ts:146-159 | the last setting entry does set the shade |
| JsonParse.LastSettingIsLast | src/json/parse.ts:146-159 | no later entry sets the shade |
| JsonParse.ApplyPrivateShade | src/json/parse.ts:28-60 | a private entry writes the shade it names in both variants and no other shade |
| JsonParse.StepShade | src/json/parse.ts:146-159 | an entry writes a shade exactly when it sets it, with its options for the variant, and leaves every other shade |
| JsonParse.FoldShade | src/json/parse.ts:146-181 | after the loop a shade holds the options of the last entry that set it, or its starting value |
| JsonParse.ParseJsonShade | src/json/parse.ts:143-186 | `parseJSON` gives each shade the options of the last entry setting it, or the default theme's |
| JsonParse.ParseJsonRestoresBase | src/json/parse.ts:183 | every base colour with a private entry is restored from its anchor shades; one without keeps what the loop left |
| JsonParse.FoldSamePrefix | src/json/parse.ts:146-181 | the loop over a prefix depends only on the entries of that prefix |
| JsonParse.StepMalformed | src/json/parse.ts:147-177 | an entry of the wrong shape for its kind of variable is skipped |
| JsonParse.MalformedIgnored | src/json/parse.ts:147-177 | adding a malformed entry to the input does not change what `parseJSON` returns |
| JsonParse.StepFont | src/json/parse.ts:78-92 | a font entry stores the parsed family under its key, or is skipped when no font parses |
| JsonParse.StepGroupProperty | src/json/parse.ts:94-113 | a group entry sets that property of the group to the value as it is (a numeric `font-weight` stays a number; no `ref` parsing), and throws when the theme has no such group |
| JsonParse.StepVariantProperty | src/json/parse.ts:94-108 | a variant entry sets that property of the variant, and throws when the theme has no such variant |
| JsonParse.StepBorder | src/json/parse.ts:116-129 | a border-radius entry stores its value under its size |
| JsonParse.StepUnknownSkipped | src/json/parse.ts:99-126 | a text variable that does not parse, or a border-radius variable of no known size, is skipped |
| JsonGenerate.ColorJsonRoundTrip | src/json/generate.ts:74-97 | a colour written as a JSON entry passes the `{value, ref}` shape check and reads back as the same colour |
| JsonGenerate.ThemizedJsonRoundTrip | src/json/generate.ts:86-97 | a light/dark pair written as a JSON entry passes the `{light, dark}` shape check and reads back as the same pair |
| JsonGenerate.ValueJson | src/json/generate.ts:35-38 | a plain value is written as an entry with that `value` and no `ref` |
| JsonGenerate.GenerateJsonSpec | src/json/generate.ts:32-107 | the generated document is a well-formed variable map |
| JsonGenerate.AddFonts | src/json/generate.ts:35-38 | the font loop writes one entry per font family, in key order |
| JsonGenerate.AddGroupProperties | src/json/generate.ts:42-57 | the loop over one group's properties writes one entry per property |
| JsonGenerate.AddGroups | src/json/generate.ts:40-59 | the group loop writes every group's properties, group by group |
| JsonGenerate.AddVariantProperties | src/json/generate.ts:63-70 | the loop over one variant's properties writes one entry per property |
| JsonGenerate.AddVariantsOfGroup | src/json/generate.ts:62-71 | the loop over the variants writes every variant's properties |
| JsonGenerate.AddVariants | src/json/generate.ts:61-72 | the variant section walks the variants once for each group |
| JsonGenerate.AddShade | src/json/generate.ts:77-89 | one shade is merged into its entry under its variant, creating the entry when missing |
| JsonGenerate.AddShades | src/json/generate.ts:76-90 | the loop over one variant's shades writes each shade in the given order |
| JsonGenerate.AddPrivate | src/json/generate.ts:74-92 | the private section writes the light then the dark shades of every token |
| JsonGenerate.AddUtility | src/json/generate.ts:94-97 | the utility section writes one `{light, dark}` entry per role |
| JsonGenerate.AddBorders | src/json/generate.ts:99-104 | the border section writes one entry per size |
| JsonGenerate.GenerateJson | src/json/generate.ts:32-107 | `generateJSON` runs the six sections in order on an empty document and returns the specified document |
| JsonGenerate.FontEntriesConfined | src/json/generate.ts:35-38 | the font section writes only font variables |
| JsonGenerate.GroupEntriesConfined | src/json/generate.ts:40-59 | the group section writes only text variables |
| JsonGenerate.VariantEntriesConfined | src/json/generate.ts:61-72 | the variant section writes only text variables |
| JsonGenerate.PrivateEntriesConfined | src/json/generate.ts:74-92 | the private section writes only private colour variables |
| JsonGenerate.UtilityEntriesConfined | src/json/generate.ts:94-97 | the utility section writes only colour variables |
| JsonGenerate.BorderEntriesConfined | src/json/generate.ts:99-104 | the border section writes only border-radius variables |
| JsonGenerate.FontEntriesHold | src/json/generate.ts:35-38 | after the font loop each font's variable holds its generated CSS family |
| JsonGenerate.UtilityEntriesHold | src/json/generate.ts:94-97 | after the utility loop each role's variable holds its light and dark options |
| JsonGenerate.BorderEntriesHold | src/json/generate.ts:99-104 | after the border loop each size's variable holds its value |
| JsonGenerate.GenerateJsonFont | src/json/generate.ts:32-107 | the generated document holds every font family, unchanged by the later sections |
| JsonGenerate.GenerateJsonUtility | src/json/generate.ts:32-107 | the generated document holds every utility colour as its light/dark pair |
| JsonGenerate.GenerateJsonBorder | src/json/generate.ts:32-107 | the generated document holds every border radius |
| JsonGenerate.SetVariantAgain | src/json/generate.ts:82-89 | writing the same shade twice gives the same entry, and a present entry stays present |
| JsonGenerate.SetVariantThemized | src/json/generate.ts:82-89 | setting one variant of a written pair writes the pair with that variant replaced |
| JsonGenerate.ShadeEntriesAt | src/json/generate.ts:76-90 | after one variant's shade loop a shade's entry has that variant set when the shade is listed and present, and is untouched otherwise |
| JsonGenerate.TokenEntriesShape | src/json/generate.ts:74-92 | a token's shade entry holds its light and dark options, `{value: ''}` standing for a missing side, and is absent when neither side has the shade |
| JsonGenerate.GroupWritesMade | src/json/generate.ts:62-71 | the same for the loop over all variants |
| JsonGenerate.VariantEntriesOneWalk | src/json/generate.ts:61-72 | walking the variants once per group leaves the same document as walking them once |
| JsonGenerate.VariantPropEntriesHold | src/json/generate.ts:63-70 | after a variant's loop each listed property's variable holds the variant's value for it |
| JsonGenerate.GroupPropEntriesElsewhere | src/json/generate.ts:42-57 | one group's loop does not touch another group's variables |
| JsonGenerate.GroupFontFamilyAt | src/json/generate.ts:46-54 | after a group's loop its `font-family` variable holds the resolved family and a `ref` to the font variable |
| JsonGenerate.GroupEntriesFontFamily | src/json/generate.ts:40-59 | after the group section each group's `font-family` variable holds its entry |
| JsonGenerate.FontEntriesOnly | src/json/generate.ts:35-38 | the font section writes a font variable only for a listed font |
| JsonGenerate.GroupSectionFontFamily | src/json/generate.ts:40-59 | a group's `font-family` entry carries the CSS family of the font it names, or the name itself when no such font exists, and a `ref` to `--g-font-family-<name>` (`Typography.FontVar`) |
| JsonGenerate.FontEntriesValid | src/json/generate.ts:35-38 | the font section keeps the document well formed |
| JsonGenerate.GroupEntriesValid | src/json/generate.ts:40-59 | the group section keeps the document well formed |
| JsonGenerate.VariantEntriesValid | src/json/generate.ts:61-72 | the variant section keeps the document well formed |
| JsonGenerate.PrivateEntriesValid | src/json/generate.ts:74-92 | the private section keeps the document well formed |
| JsonGenerate.UtilityEntriesValid | src/json/generate.ts:94-97 | the utility section keeps the document well formed |
| JsonGenerate.BorderEntriesValid | src/json/generate.ts:99-104 | the border section keeps the document well formed |
| JsonGenerate.JsonUtilityRoundTrip | src/json/generate.ts:94-97 | `parseJSON` of `generateJSON` of a theme gives back every utility colour the default theme also defines |
| Defaults.DefaultPrivates | src/constants.ts:68-72 | the default private colours exist exactly when every default base colour's ramp can be computed, and then have one entry per base token |
| Defaults.DefaultTheme | src/constants.ts:134-140 | the default theme takes the default base colours, their generated private colours, the default borders and the given typography, and its utility colours are the thirteen default roles |
| Defaults.DefaultRoles | src/constants.ts:74-127 | the default utility colours define thirteen distinct known roles |
| Defaults.SeedFacts | src/constants.ts:74-127 | each default role refers to a shade its base colour's ramp generates, or holds a literal `rgb…` colour |
| Defaults.DefaultNoUtilityRefs | src/constants.ts:74-127 | no default utility colour refers to another utility colour |
| Defaults.DefaultThemeExists | src/constants.ts:129-140 | building the default theme succeeds exactly when the ramps can be computed, and otherwise fails with an invalid colour |
| Defaults.DefaultSeedResolves | src/constants.ts:129-132 | in the default theme each role's value is the shade it refers to, with the reference kept, or its literal colour |

## Left out

- chroma-js colour arithmetic (`valid`, `mix`, `alpha`, `css`) is floating-point work in a foreign library. It is the parameter `PrivateColors.ColorAlgebra`, and nothing is proved about its results.
- Common.InvalidColor: both chroma failures, the rejected input colour ("Not valid color for chroma") and a failing mix, are this one error; the message text is not modelled.
- Common.UndefinedSlot: a `TypeError` from reading or writing a property of `undefined` becomes this error value; the JavaScript message text is not modelled. Examples are a utility role with no slot, or a missing private entry during a `base-background` update.
- `console.error` logging is dropped: every logged-and-skipped entry is a skip that leaves the theme as it was.
- Themes.StringField: a JSON field that holds something other than a string is read as `''`. For colour and typography entries the source would store the value as it is; the one exception the model keeps is a numeric `font-weight`, which `JsonParse.WeightOf` keeps as a number.
- Themes.StringField, font-family entries: the source passes a font entry's `value` to `parseCssFontFamily` (src/json/parse.ts:84), whose `regex.exec` turns any non-string into text (src/typography/utils.ts:36-40). So `{"value": 12}` stores the main font `12`, `null` stores `null`, and an object stores `[object` with the fallback `Object]`. The model reads such a value as `''`, which parses to no font, so the entry is skipped.
- Strings are sequences of Unicode scalar values, not UTF-16 code units. `parsePrivateColorCssVariable` (src/utils.ts:154) and `parseTextCssVariable` (src/typography/utils.ts:169) skip the character after the prefix with `slice(prefix.length + 1)`, which skips one code unit. The model (`References.ParsePrivateVar`, `Typography.ParseTextVar` and `Typography.ContentUnder`) skips one whole character. When that character lies outside the Basic Multilingual Plane, as in the JSON key `--g-text😀body-font-weight` or `--g-color-private😀white-1000-solid`, the source keeps a lone low surrogate in front of the key: the text entry is rejected and the private entry goes to a different token. The model parses `body`/`font-weight` and `white`/`1000-solid`. Only JSON keys reach this, since the CSS scanner admits only `[\w-]` name characters.
- Themes.ToColorOptions: the source keeps a parsed JSON colour object as it is. The model reads it as `{value, ref}`: a `ref` that is not a string becomes undefined, and keys other than `value` and `ref` are dropped. Those keys would show again in `generateJSON` and in `isEqual` comparisons.
- Themes.Weight: JSON numbers are integers in this model (`Themes.Json`), so a fractional `font-weight` is not represented.
- Dicts.Dict: keeps plain insertion order for every key. JavaScript lists integer-like keys first, in ascending order, and a key naming an `Object.prototype` member (`constructor`, `toString`, `__proto__`, …) reads as that member. For a colour token such as `constructor`, the private parsers find the inherited member instead of `undefined`, throw when writing into it, and the declaration is skipped, leaving the theme unchanged (src/css/parse.ts:69-93, src/json/parse.ts:36-54). The model creates the entries.
- CssParse.ApplyPrivateSetsShade: states entry creation for every token name. For a name that is an `Object.prototype` member (see Dicts.Dict), the source skips the declaration instead.
- Resolver.Work: visits dark before light, the key order of every utility slot the engine builds (the defaults list `dark` first, and parsing writes into the existing slots). A slot built light first by an outside caller would be visited light first. The visit order decides which of two circular references is reported, and what a chained reference reads.
- Resolver.ResolveUtilityRefs: walks each slot dark then light for the same reason, whatever the key order of a slot passed in from outside.
- Edits.RegenerateAll: regenerates each base colour dark then light, the order of the default base colours. A base colour that `updateBaseColor` created, or wrote with both variants, lists `light` first, and the source regenerates it light first. The order shows only in which error is reported. Take such a token with no private entry (a theme built outside the engine), an invalid light colour and a valid dark one: the source reports the invalid colour and the model the missing slot.
- The default theme is passed to the codecs as a parameter. `Defaults.DefaultTheme` builds it from the colour algebra, with the typography defaults (`DEFAULT_TYPOGRAPHY_OPTIONS`) as a parameter, because their values are seed data.
- CssGenerate.ShadeLines: emits a token's shades in `ALL_PRIVATE_VARIABLES` order over an unordered shade map. JavaScript enumerates the integer-like keys (`20`, `50`, …, `950`) first, ascending, then the `-solid` keys in insertion order, so the text of a ramp can list the same declarations in another order.
- JsonGenerate.GenerateJson: the shades of a token are walked in the order given as `order`, for the same reason.
- JsonGenerate.TokenEntriesShape: states the shape of a private entry for one token, assuming the entry was not already in the document; two tokens whose variable names collide are not covered.
- JsonGenerate.GroupSectionFontFamily: requires text-group names without a dash (true of all six groups), so that no two groups' variables collide.
- JsonGenerate.VariantEntriesOneWalk: requires non-empty variant names (true of every variant), because only then does a variant's variable ignore the group.
- JsonGenerate.JsonUtilityRoundTrip: the parse-after-generate round trip is proved for utility colours. For private shades, typography and borders, the generation lemmas (`TokenEntriesShape`, `GroupSectionFontFamily`, `GenerateJsonFont`, `GenerateJsonBorder`) and the parse lemmas (`ParseJsonShade`, `StepFont`, `StepGroupProperty`, `StepBorder`) are proved separately.
- The regular expressions of `parseThemeTokens`, `parseCssFontFamily` and `parseCssReferenceVariable` are hand-written scanners for the behaviours those expressions have on the inputs described. No general CSS parser is modelled.
- src/converter.ts, src/index.ts, the build scripts and the test files are not part of this model. The converter passes a theme where `generateCSS` expects an options object, so no end-to-end CSS round trip through it is stated.
- Integers are unbounded; the engine does no arithmetic where JavaScript number precision matters, apart from chroma's.

## Findings

| source | as written | input that shows it | evidently intended | confidence | as-written member | corrected member |
|---|---|---|---|---|---|---|
| src/css/parse.ts:227-259 | `variablesWithUtilityRefs` is declared once, before the loop over the light and dark blocks, and is replayed after each block, so the utility-to-utility declarations deferred in the light block are applied to the dark variant as well | `.g-root_theme_light { --g-color-text-brand: var(--g-color-text-link); }` with an empty dark block: dark `text-brand` becomes `utility.text-link` (then resolved to the dark link colour) instead of keeping its default | one deferred list per block, so a block only affects its own variant | not executed | CssParse.AsWrittenLeaksLightDeferral | CssParse.SchemesKeepUndeclared |
