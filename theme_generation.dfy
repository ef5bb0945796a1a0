/**
  What a call of `generateThemeTokens` (util/main.js:39-145) yields as a whole:
  which inputs make it throw, what it returns otherwise, and which inputs it
  never looks at.
*/
module ThemeGeneration {
  import opened Results
  import opened JsObject
  import opened TokenNames
  import opened ThemeTokens

  /** The hex strings the generator parses, in the order it parses them (util/main.js:41-45, 53, 71). */
  function ConvertedHexes(base: BaseColors): seq<string> {
    [base.primary, base.secondary, base.tertiary, base.neutral, base.error, base.surfaceVariant, base.warning]
  }

  predicate AllConvert(lib: ColorLibrary, hexes: seq<string>) {
    forall i :: 0 <= i < |hexes| ==> lib.argbFromHex(hexes[i]).Some?
  }

  /** The first hex string the library rejects, if any. */
  function FirstRejected(lib: ColorLibrary, hexes: seq<string>): (r: Option<string>)
    ensures r.None? <==> AllConvert(lib, hexes)
    ensures r.Some? ==> exists i :: 0 <= i < |hexes| && hexes[i] == r.value
                                    && lib.argbFromHex(r.value).None? && AllConvert(lib, hexes[..i])
  {
    if hexes == [] then None
    else if lib.argbFromHex(hexes[0]).None? then
      assert AllConvert(lib, hexes[..0]);
      Some(hexes[0])
    else
      var r := FirstRejected(lib, hexes[1..]);
      if r.Some? then
        var i :| 0 <= i < |hexes[1..]| && hexes[1..][i] == r.value
                 && lib.argbFromHex(r.value).None? && AllConvert(lib, hexes[1..][..i]);
        assert hexes[..i + 1] == [hexes[0]] + hexes[1..][..i];
        assert AllConvert(lib, hexes[..i + 1]);
        r
      else
        r
  }

  /** `TonalPalette.fromInt(hexToArgb(hex))` for a hex string the library accepts. */
  function PaletteOf(lib: ColorLibrary, hex: string): TonalPalette
    requires lib.argbFromHex(hex).Some?
  {
    FromInt(lib.argbFromHex(hex).value)
  }

  /** The core palette the generator assembles (util/main.js:48-63). */
  function CoreOf(lib: ColorLibrary, base: BaseColors): CorePalette
    requires AllConvert(lib, ConvertedHexes(base))
  {
    var h := ConvertedHexes(base);
    assert h[0] == base.primary && h[1] == base.secondary && h[2] == base.tertiary;
    assert h[3] == base.neutral && h[4] == base.error && h[5] == base.surfaceVariant;
    CorePalette(PaletteOf(lib, base.primary), PaletteOf(lib, base.secondary), PaletteOf(lib, base.tertiary),
                PaletteOf(lib, base.neutral), PaletteOf(lib, base.surfaceVariant), PaletteOf(lib, base.error))
  }

  lemma ConvertsWarning(lib: ColorLibrary, base: BaseColors)
    requires AllConvert(lib, ConvertedHexes(base))
    ensures lib.argbFromHex(base.warning).Some?
  {
    assert ConvertedHexes(base)[6] == base.warning;
  }

  /**
    The generator throws exactly when one of the seven colours it parses is
    rejected, and then with the first rejected one; otherwise it returns the
    theme of the scheme built on the parsed palettes, in the requested mode.
  */
  lemma {:induction false} GenerateThemeTokensOutcome(lib: ColorLibrary, base: BaseColors, isDark: bool)
    ensures GenerateThemeTokens(lib, base, isDark).Success? <==> AllConvert(lib, ConvertedHexes(base))
    ensures GenerateThemeTokens(lib, base, isDark).Failure? ==>
              FirstRejected(lib, ConvertedHexes(base)).Some? &&
              GenerateThemeTokens(lib, base, isDark).error
                == InvalidColorFormat(FirstRejected(lib, ConvertedHexes(base)).value)
    ensures AllConvert(lib, ConvertedHexes(base)) ==>
              lib.argbFromHex(base.warning).Some? &&
              GenerateThemeTokens(lib, base, isDark)
                == Success(Theme(lib, Scheme(CoreOf(lib, base), isDark), PaletteOf(lib, base.warning), base.inactive))
  {
    var h := ConvertedHexes(base);
    var p := lib.argbFromHex;
    var g := GenerateThemeTokens(lib, base, isDark);
    ConvertedHexesCons(base);
    FirstRejectedCons(lib, base.primary, h[1..]);
    FirstRejectedCons(lib, base.secondary, h[2..]);
    FirstRejectedCons(lib, base.tertiary, h[3..]);
    FirstRejectedCons(lib, base.neutral, h[4..]);
    FirstRejectedCons(lib, base.error, h[5..]);
    FirstRejectedCons(lib, base.surfaceVariant, h[6..]);
    FirstRejectedCons(lib, base.warning, h[7..]);
    if p(base.primary).None? {
      assert g == Failure(InvalidColorFormat(h[0]));
    } else if p(base.secondary).None? {
      assert g == Failure(InvalidColorFormat(h[1]));
    } else if p(base.tertiary).None? {
      assert g == Failure(InvalidColorFormat(h[2]));
    } else if p(base.neutral).None? {
      assert g == Failure(InvalidColorFormat(h[3]));
    } else if p(base.error).None? {
      assert g == Failure(InvalidColorFormat(h[4]));
    } else if p(base.surfaceVariant).None? {
      assert g == Failure(InvalidColorFormat(h[5]));
    } else if p(base.warning).None? {
      assert g == Failure(InvalidColorFormat(h[6]));
    } else {
      assert AllConvert(lib, h);
      assert g == Success(Theme(lib, Scheme(CoreOf(lib, base), isDark), PaletteOf(lib, base.warning), base.inactive));
    }
  }

  lemma ConvertedHexesCons(base: BaseColors)
    ensures var h := ConvertedHexes(base);
      h == [base.primary] + h[1..] && h[1..] == [base.secondary] + h[2..] &&
      h[2..] == [base.tertiary] + h[3..] && h[3..] == [base.neutral] + h[4..]
    ensures var h := ConvertedHexes(base);
      h[4..] == [base.error] + h[5..] && h[5..] == [base.surfaceVariant] + h[6..] &&
      h[6..] == [base.warning] + h[7..] && h[7..] == []
  {
    var h := ConvertedHexes(base);
    assert h[4..] == [base.error, base.surfaceVariant, base.warning];
  }

  lemma FirstRejectedCons(lib: ColorLibrary, hex: string, rest: seq<string>)
    ensures FirstRejected(lib, [hex] + rest)
         == if lib.argbFromHex(hex).None? then Some(hex) else FirstRejected(lib, rest)
  {
    assert ([hex] + rest)[1..] == rest;
  }

  /** A successful call returns a theme object: 42 distinct keys, each with the value the reference rule gives it. */
  lemma GenerateThemeTokensIsTheme(lib: ColorLibrary, base: BaseColors, isDark: bool)
    requires GenerateThemeTokens(lib, base, isDark).Success?
    ensures AllConvert(lib, ConvertedHexes(base)) && lib.argbFromHex(base.warning).Some?
    ensures IsTheme(GenerateThemeTokens(lib, base, isDark).value, lib, Scheme(CoreOf(lib, base), isDark),
                    PaletteOf(lib, base.warning), base.inactive)
  {
    GenerateThemeTokensOutcome(lib, base, isDark);
    ThemeIsTheme(lib, Scheme(CoreOf(lib, base), isDark), PaletteOf(lib, base.warning), base.inactive);
  }

  /** The light and the dark theme of the same colours both succeed or both fail, and have the same keys in the same order. */
  lemma BothModesSameKeys(lib: ColorLibrary, base: BaseColors)
    ensures GenerateThemeTokens(lib, base, false).Success? <==> GenerateThemeTokens(lib, base, true).Success?
    ensures GenerateThemeTokens(lib, base, false).Success? ==>
              Keys(GenerateThemeTokens(lib, base, false).value) == ThemeKeys() &&
              Keys(GenerateThemeTokens(lib, base, true).value) == ThemeKeys()
  {
    GenerateThemeTokensOutcome(lib, base, false);
    GenerateThemeTokensOutcome(lib, base, true);
    if AllConvert(lib, ConvertedHexes(base)) {
      var w := PaletteOf(lib, base.warning);
      ThemeKeysFixed(lib, Scheme(CoreOf(lib, base), false), w, base.inactive);
      ThemeKeysFixed(lib, Scheme(CoreOf(lib, base), true), w, base.inactive);
    }
  }

  /** The `surface` base colour is never read: changing it changes nothing. */
  lemma {:induction false} SurfaceIgnored(lib: ColorLibrary, base: BaseColors, isDark: bool, surface: string)
    ensures GenerateThemeTokens(lib, base.(surface := surface), isDark) == GenerateThemeTokens(lib, base, isDark)
  {
    var b' := base.(surface := surface);
    assert ConvertedHexes(b') == ConvertedHexes(base);
    GenerateThemeTokensOutcome(lib, base, isDark);
    GenerateThemeTokensOutcome(lib, b', isDark);
    if AllConvert(lib, ConvertedHexes(base)) {
      assert CoreOf(lib, b') == CoreOf(lib, base);
    }
  }

  /**
    The `inactive` base colour is never parsed: whether the call succeeds does not
    depend on it, and on success it is the `inactive` token verbatim.
  */
  lemma InactiveNotValidated(lib: ColorLibrary, base: BaseColors, isDark: bool, inactive: string)
    ensures GenerateThemeTokens(lib, base.(inactive := inactive), isDark).Success?
        <==> GenerateThemeTokens(lib, base, isDark).Success?
    ensures GenerateThemeTokens(lib, base.(inactive := inactive), isDark).Success? ==>
              Get(GenerateThemeTokens(lib, base.(inactive := inactive), isDark).value, CamelName([Inactive]))
                == Some(inactive)
  {
    var b' := base.(inactive := inactive);
    assert ConvertedHexes(b') == ConvertedHexes(base);
    GenerateThemeTokensOutcome(lib, base, isDark);
    if GenerateThemeTokens(lib, b', isDark).Success? {
      GenerateThemeTokensIsTheme(lib, b', isDark);
      ThemeInactive(GenerateThemeTokens(lib, b', isDark).value, lib, Scheme(CoreOf(lib, b'), isDark),
                    PaletteOf(lib, b'.warning), inactive);
    }
  }
}
