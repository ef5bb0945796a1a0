# Theme token generator (util/main.js), modelled in Dafny

`util/main.js` builds the colour tokens of a Material-style design system from a handful of base
colours. It does four things:

- `generateThemeTokens(baseColors, isDark)` parses seven of the base colours into palettes. It
  builds a light or a dark scheme from them. It returns a flat object of 42 semantic tokens:
  - sixteen tokens for the primary, secondary, tertiary and error families;
  - four custom warning tokens, read from a warning palette at mode-dependent tones;
  - the background, surface, surface-level, outline and other scheme roles;
  - `inactive`, passed through from the input, and `onInactive`, which is white when dark and
    black when light.
- `generateTonalVariations(hexColor, name)` maps `name + tone` to the palette's colour at each of
  13 tones.
- `convertToJson` renames the keys of the dark theme from camelCase to snake_case with
  `camelToSnake` (a regex replace followed by `toLowerCase`). It then rebuilds the object with
  `Object.fromEntries`.
- The top-level script generates both themes, converts the dark one and writes it to
  `dark-theme.json`.

The colour library (`argbFromHex`, `hexFromArgb`, `TonalPalette.tone` and the role accessors of
`Scheme`) is a parameter of the model, a `ColorLibrary` whose functions are left uninterpreted.
`argbFromHex` may reject a string. The library signals that by throwing, and the model returns
`Failure(InvalidColorFormat(hex))` instead. A scheme role is identified by the words of its
name, for example `[On, Primary, Container]`. The key of a role is the camelCase spelling of
those words, and its snake_case key is the underscore-joined spelling.

Modules:

- `Results` (results.dfy): the Option and Result wrappers.
- `JsObject` (js_object.dfy): an object as its ordered list of entries, with property read,
  assignment `o[k] = v` and `Object.fromEntries`.
- `SnakeCase` (snake_case.dfy): `camelToSnake`, modelled as the regex scan (`ReplaceMatches`)
  followed by ASCII lower-casing. It is compared against an independent reference rule
  (`InsertUnderscores`).
- `TokenNames` (token_names.dfy): the words of token names, their camelCase and snake_case
  spellings, and the proof that the first renames to the second.
- `ThemeTokens` (theme_tokens.dfy): `generateThemeTokens` and the facts about the object it
  builds.
- `ThemeGeneration` (theme_generation.dfy): when `generateThemeTokens` throws, and what it returns
  otherwise.
- `TonalVariations` (tonal_variations.dfy): `generateTonalVariations`, as a method with a loop.
- `Serializer` (serializer.dfy): the rename pass, the script's state as a class with `lightTheme`
  and `darkTheme` fields, `convertToJson`, and the script run.

## Model

| member | source | states |
|---|---|---|
| SnakeCase.ReplaceMatches | util/main.js:184 | the `/([a-z0-9])([A-Z])/g` replace; its behaviour is stated by ReplaceMatchesSplit and ReplaceMatchesIsReference |
| SnakeCase.ToLowerCase | util/main.js:184 | `toLowerCase` keeps the length and leaves no uppercase letter |
| SnakeCase.CamelToSnake | util/main.js:183-185 | the output of camelToSnake holds no uppercase letter |
| SnakeCase.ReplaceMatchesSplit | util/main.js:184 | the global regex replace, run on a + b, is its run on a, then `_` exactly when a lowercase letter or digit meets an uppercase letter at the join, then its run on b |
| SnakeCase.ReplaceMatchesIsReference | util/main.js:184 | the left-to-right regex scan inserts `_` exactly where the independent reference rule puts one: before every uppercase letter that follows a lowercase letter or digit |
| SnakeCase.CamelToSnakeSplit | util/main.js:183-185 | camelToSnake of a + b is camelToSnake(a), then `_` only when a word starts at the join, then camelToSnake(b) |
| SnakeCase.CamelToSnakeIsReference | util/main.js:183-185 | camelToSnake is the reference underscore insertion followed by lower-casing |
| SnakeCase.CamelToSnakeLength | util/main.js:183-185 | the output is longer than the input by exactly the number of word starts |
| SnakeCase.UpperRunNotSplit | util/main.js:184 | no `_` is put between two uppercase letters, so an uppercase run stays together |
| SnakeCase.CamelToSnakeNoUpper | util/main.js:183-185 | a string without uppercase letters is returned unchanged |
| SnakeCase.CamelToSnakeIdempotent | util/main.js:183-185 | converting an already converted key changes nothing |
| SnakeCase.CamelToSnakeNoBoundary | util/main.js:183-185 | where no lowercase-or-digit to uppercase boundary exists, camelToSnake only lower-cases |
| TokenNames.CamelToSnakeName | util/main.js:186 | for every token name, camelToSnake turns its camelCase key into the underscore-joined lowercase words |
| TokenNames.SnakeNameInjective | util/main.js:186 | different token names have different snake_case keys |
| TokenNames.CamelNameInjective | util/main.js:78-142 | different token names have different camelCase keys |
| JsObject.Get | util/main.js:186 | the property read `o[k]`; its behaviour is stated by GetFinds, SetGet, FromEntriesGet and GetAt |
| JsObject.FromEntries | util/main.js:186 | `Object.fromEntries`; its behaviour is stated by FromEntriesGet, FromEntriesDistinct and FromEntriesOfDistinct |
| JsObject.GetFinds | util/main.js:186 | a property read finds a value exactly when the key is present, and the value is stored under that key |
| JsObject.Set | util/main.js:164 | assigning an existing key keeps the key order; assigning a new key appends the entry |
| JsObject.SetGet | util/main.js:164 | after `o[k] = v`, reading k gives v and every other key reads as before |
| JsObject.SetKeepsDistinct | util/main.js:164 | assignment never creates a duplicate key |
| JsObject.FromEntriesDistinct | util/main.js:186 | the object `Object.fromEntries` builds has no duplicate key |
| JsObject.FromEntriesOfDistinct | util/main.js:186 | when the entries' keys are pairwise distinct, `Object.fromEntries` keeps every entry, in order |
| JsObject.FromEntriesGet | util/main.js:186 | reading key k of `Object.fromEntries(entries)` gives the value of the last entry with key k |
| JsObject.GetAt | util/main.js:186 | in an object with distinct keys, reading the key at position i gives the value at position i |
| ThemeTokens.HexToArgb | util/main.js:34-36 | succeeds exactly when the library accepts the string, and then returns the library's parse of it; otherwise fails with InvalidColorFormat of that string |
| ThemeTokens.WarningTonesFor | util/main.js:72-75 | the four warning tones of each mode; stated as token values by ThemeWarningTones |
| ThemeTokens.SemanticTokens | util/main.js:78-142 | the object literal as named tokens; stated by SemanticTokensNames and SemanticTokensFollowRule |
| ThemeTokens.Theme | util/main.js:78-142 | the object literal with camelCase keys; stated by ThemeKeysFixed, ThemeValues and ThemeIsTheme |
| ThemeTokens.GenerateThemeTokens | util/main.js:39-145 | the generator; stated by ThemeGeneration.GenerateThemeTokensOutcome and GenerateThemeTokensIsTheme |
| ThemeTokens.ThemeKeysDistinct | util/main.js:78-142 | the theme has 42 keys, pairwise different |
| ThemeTokens.ThemeKeyWordsDistinct | util/main.js:78-142 | the 42 property names of the object literal are pairwise different |
| ThemeTokens.SemanticTokensNames | util/main.js:78-142 | the object literal names its properties in the fixed order, in either mode and for any colours |
| ThemeTokens.SemanticTokensFollowRule | util/main.js:78-142 | every property holds the value the reference rule assigns to its name: a scheme role, a warning-palette tone, the passed-through inactive colour or the contrast literal |
| ThemeTokens.ThemeKeysFixed | util/main.js:78-142 | a theme's keys are the 42 fixed camelCase keys, in order and distinct, whatever the mode and the colours |
| ThemeTokens.ThemeValues | util/main.js:78-142 | the i-th entry of a theme is the i-th key with the value the reference rule gives that name |
| ThemeTokens.ThemeIsTheme | util/main.js:78-142 | the object the generator builds satisfies IsTheme |
| ThemeTokens.ThemeGet | util/main.js:78-142 | reading a theme at the camelCase key of any of its names gives the value the reference rule gives that name |
| ThemeTokens.ThemeGetAt | util/main.js:78-142 | reading a theme at its i-th key gives the i-th value |
| ThemeTokens.ThemeSchemeRoles | util/main.js:80-137 | every token other than the warning and inactive ones is `hexFromArgb` of the scheme role with the same name |
| ThemeTokens.ThemeWarningTones | util/main.js:72-107 | warning, onWarning, warningContainer and onWarningContainer are the warning palette at tones 80, 20, 30, 90 when dark and 40, 100, 90, 10 when light |
| ThemeTokens.ThemeInactive | util/main.js:140-141 | `inactive` is the input colour unchanged; `onInactive` is `#FFFFFF` when dark and `#000000` when light |
| ThemeGeneration.FirstRejected | util/main.js:41-71 | None exactly when the library accepts every colour; otherwise the first rejected colour, with all earlier ones accepted |
| ThemeGeneration.GenerateThemeTokensOutcome | util/main.js:39-145 | the generator fails exactly when one of the seven parsed colours is rejected, and then with the first rejected one in source order; otherwise it returns the theme of the scheme built on the six parsed palettes, with the parsed warning palette and the given inactive colour |
| ThemeGeneration.GenerateThemeTokensIsTheme | util/main.js:39-145 | a successful result is a theme: 42 distinct keys, each holding the value the reference rule gives it |
| ThemeGeneration.BothModesSameKeys | util/main.js:148-149 | the light and the dark theme of the same colours both succeed or both fail, and have the same 42 keys in the same order |
| ThemeGeneration.SurfaceIgnored | util/main.js:39-145 | the `surface` base colour is never read: changing it leaves the result unchanged |
| ThemeGeneration.InactiveNotValidated | util/main.js:140 | the `inactive` colour is never parsed: success does not depend on it, and on success it is the `inactive` token verbatim |
| TonalVariations.TonesIncreasing | util/main.js:160 | the 13 tones strictly increase, so none repeats |
| TonalVariations.DecimalString | util/main.js:164 | a tone is written as decimal digits without a leading zero |
| TonalVariations.DecimalRoundTrip | util/main.js:164 | reading back the decimal spelling of a tone gives the tone |
| TonalVariations.VariationKey | util/main.js:164 | the template literal `${name}${tone}`: the name followed by the tone's decimal digits; stated by VariationKeyInjective and VariationKeysSpelled |
| TonalVariations.VariationKeyInjective | util/main.js:164 | different tones give different property names under the same prefix |
| TonalVariations.GenerateTonalVariations | util/main.js:155-168 | fails exactly when the library rejects the colour, with that colour; otherwise 13 entries with pairwise distinct keys, the i-th being `name + tone_i` with the palette's colour at tone_i |
| TonalVariations.VariationKeysSpelled | util/main.js:160-164 | the property names are `name0`, `name10`, ..., `name95`, `name99`, `name100` |
| Serializer.RenameKeys | util/main.js:186 | the renamed entries keep count, order and values; each key is camelToSnake of the original key |
| Serializer.RenameKeysValues | util/main.js:186 | renaming keeps the values, in order |
| Serializer.SnakeKeysDistinct | util/main.js:186 | the 42 snake_case keys are pairwise different |
| Serializer.RenameTheme | util/main.js:186 | renaming a theme's keys loses no entry in `Object.fromEntries`, and yields the 42 snake_case keys in order, each with its original value |
| Serializer.SnakeThemeGet | util/main.js:186 | reading a converted theme at a snake_case key gives the value its name had before conversion |
| Serializer.ThemeScript.constructor | util/main.js:148-149 | the script's state holds the light and the dark theme |
| Serializer.ThemeScript.ConvertToJson | util/main.js:182-191 | replaces the dark theme by `Object.fromEntries` of its renamed entries, leaves the light theme unchanged, and returns the converted dark theme |
| Serializer.RunScript | util/main.js:148-194 | the script stops at the first colour the library rejects; otherwise what it writes is the dark theme with the 42 snake_case keys, each holding the value the reference rule gives it in dark mode |
| Serializer.DefaultDarkThemeInactive | util/main.js:21-31 | with the script's own base colours, a library that accepts them yields a dark-theme file whose `inactive` is "#CAC4D0" and whose `on_inactive` is "#FFFFFF" |
| Serializer.ExampleOnPrimaryContainer | util/main.js:183-185 | "onPrimaryContainer" becomes "on_primary_container" |
| Serializer.ExampleSurfaceContainerLowest | util/main.js:183-185 | "surfaceContainerLowest" becomes "surface_container_lowest" |
| Serializer.ExampleOutline | util/main.js:183-185 | "outline" is left unchanged |

## Left out

- kb_text_shape_example.h is not part of this model. It is a C text-shaping header and unrelated to the theme script.
- Colour maths (HCT, `TonalPalette` tone computation, `CorePalette.of`, the `Scheme` constructors) is left out. It sits in the colour library, which is a parameter with uninterpreted functions. Which strings `argbFromHex` rejects is part of that parameter.
- `CorePalette.of(primaryArgb)` (util/main.js:56) computes palettes that util/main.js:58-63 overwrites at once. The model builds the core palette from the six overriding palettes directly.
- ThemeTokens.ThemeSchemeRoles: states only that each role token is `hexFromArgb` of the library's role colour. It does not check that the `Scheme` class has an accessor for every name. Some names (for example `surfaceDim` and the `surfaceContainer*` levels) are not accessors of the legacy `Scheme` class, so the source would pass `undefined` to `hexFromArgb`. The model takes every role to be defined.
- `console.log` of both themes (util/main.js:151-152) is output only and is left out.
- `JSON.stringify(darkTheme, null, 2)` (util/main.js:190): ThemeScript.ConvertToJson returns the object that is serialised, not its text. Indentation and escaping are not modelled.
- `writeFile` (util/main.js:194) is file I/O. RunScript returns the object whose JSON is written. The unawaited promise and write errors are not modelled.
- `toLowerCase` and the regex classes are modelled on ASCII letters only. Full Unicode case mapping is not modelled, and no key contains a non-ASCII letter.
- JavaScript orders integer-like property keys before the other keys. That rule is not modelled, because no key the script creates is integer-like (tone keys always start with the name).
- The commented-out `tonalVariations` object (util/main.js:170-178) and the commented-out light-theme conversion (util/main.js:188) are not code and are not modelled.
- The default argument `isDark = false` of `generateThemeTokens` is not modelled separately. Every call in the script passes the mode explicitly.
