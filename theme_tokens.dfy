/**
  `generateThemeTokens` (util/main.js:39-145): turns the base colours into the
  flat object of 42 semantic colour tokens of a light or a dark theme.

  The colour library (`argbFromHex`, `hexFromArgb`, `TonalPalette.tone` and the
  role accessors of `Scheme`) is not modelled: it is a parameter whose functions
  are left uninterpreted. `argbFromHex` may reject its input, which the library
  reports by throwing; here that is `None`.
*/
module ThemeTokens {
  import opened Results
  import opened JsObject
  import opened TokenNames

  /** A colour packed as alpha, red, green, blue. */
  type Argb = int

  /** `TonalPalette.fromInt(argb)`: the palette is determined by its seed colour. */
  datatype TonalPalette = FromInt(seed: Argb)

  /** A CorePalette whose six palettes the source overrides (util/main.js:56-63). */
  datatype CorePalette = CorePalette(a1: TonalPalette, a2: TonalPalette, a3: TonalPalette,
                                     n1: TonalPalette, n2: TonalPalette, error: TonalPalette)

  /** `Scheme.darkFromCorePalette` / `Scheme.lightFromCorePalette`. */
  datatype Scheme = Scheme(core: CorePalette, isDark: bool)

  datatype ColorLibrary = ColorLibrary(
    argbFromHex: string -> Option<Argb>,
    hexFromArgb: Argb -> string,
    tone: (TonalPalette, nat) -> Argb,
    role: (Scheme, seq<Word>) -> Argb)

  datatype ColorError = InvalidColorFormat(hex: string)

  /** The input colours, as `#RRGGBB` strings. */
  datatype BaseColors = BaseColors(primary: string, secondary: string, tertiary: string,
                                   neutral: string, surface: string, surfaceVariant: string,
                                   inactive: string, warning: string, error: string)

  /** The colours the script themes itself with (util/main.js:21-31). */
  const DefaultBaseColors := BaseColors("#6750A4", "#625B71", "#7D5260", "#605D62", "#FFFBFE",
                                        "#E7E0EC", "#CAC4D0", "#F9A825", "#BA1A1A")

  /** `hexToArgb`: the library's parse, failing with InvalidColorFormat. */
  function HexToArgb(lib: ColorLibrary, hex: string): (r: Result<Argb, ColorError>)
    ensures r.Success? <==> lib.argbFromHex(hex).Some?
    ensures r.Failure? ==> r.error == InvalidColorFormat(hex)
    ensures r.Success? ==> r.value == lib.argbFromHex(hex).value
  {
    match lib.argbFromHex(hex)
    case Some(argb) => Success(argb)
    case None => Failure(InvalidColorFormat(hex))
  }

  /** The tones of the warning palette used for the four warning tokens. */
  datatype WarningTones = WarningTones(warning: nat, onWarning: nat, warningContainer: nat,
                                       onWarningContainer: nat)

  /** `warningTone`, `onWarningTone`, `warningContainerTone`, `onWarningContainerTone`. */
  function WarningTonesFor(isDark: bool): WarningTones {
    if isDark then WarningTones(80, 20, 30, 90) else WarningTones(40, 100, 90, 10)
  }

  /** A property name of the object literal, given by its words. */
  type Name = seq<Word>

  /** "Primary colors", "Secondary colors", ...: a colour and its container, each with the colour drawn on it. */
  function FamilyNames(w: Word): seq<Name> {
    [[w], [On, w], [w, Container], [On, w, Container]]
  }

  const BackgroundNames: seq<Name> := [[Background], [On, Background]]

  const SurfaceNames: seq<Name> := [[Surface], [On, Surface], [Surface, Variant], [On, Surface, Variant]]

  /** "Surface levels (elevation)". */
  const SurfaceLevelNames: seq<Name> := [[Surface, Dim], [Surface, Bright], [Surface, Container, Lowest],
    [Surface, Container, Low], [Surface, Container], [Surface, Container, High], [Surface, Container, Highest]]

  const OutlineNames: seq<Name> := [[Outline], [Outline, Variant]]

  /** "Other semantic tokens". */
  const OtherNames: seq<Name> := [[Inverse, Surface], [Inverse, On, Surface], [Inverse, Primary], [Scrim], [Shadow]]

  const InactiveNames: seq<Name> := [[Inactive], [On, Inactive]]

  /** The names of the object literal's properties, in order (util/main.js:78-142). */
  function ThemeKeyWords(): seq<Name> {
    FamilyNames(Primary) + FamilyNames(Secondary) + FamilyNames(Tertiary) + FamilyNames(Error)
    + FamilyNames(Warning) + BackgroundNames + SurfaceNames + SurfaceLevelNames + OutlineNames
    + OtherNames + InactiveNames
  }

  /** The camelCase property names. */
  function CamelNames(names: seq<Name>): seq<string>
    requires forall i :: 0 <= i < |names| ==> names[i] != []
  {
    seq(|names|, i requires 0 <= i < |names| => CamelName(names[i]))
  }

  /** The 42 camelCase keys of a theme. */
  function ThemeKeys(): seq<string> {
    ThemeKeyWordsShape();
    CamelNames(ThemeKeyWords())
  }

  /** A property of the object literal. */
  type Token = (Name, string)

  function Names(tokens: seq<Token>): seq<Name> {
    seq(|tokens|, i requires 0 <= i < |tokens| => tokens[i].0)
  }

  /** The object whose property names are the tokens' camelCase names. */
  function Spelled(tokens: seq<Token>): Object
    requires forall i :: 0 <= i < |tokens| ==> tokens[i].0 != []
  {
    seq(|tokens|, i requires 0 <= i < |tokens| => (CamelName(tokens[i].0), tokens[i].1))
  }

  /** `name: hexFromArgb(scheme.name)` for each of the names. */
  function SchemeTokens(lib: ColorLibrary, scheme: Scheme, names: seq<Name>): (t: seq<Token>)
    ensures Names(t) == names
  {
    seq(|names|, i requires 0 <= i < |names| => (names[i], lib.hexFromArgb(lib.role(scheme, names[i]))))
  }

  /** "Warning colors (custom)": `name: hexFromArgb(warningPalette.tone(tone))`. */
  function WarningTokens(lib: ColorLibrary, warningPalette: TonalPalette, t: WarningTones): seq<Token> {
    [([Warning], lib.hexFromArgb(lib.tone(warningPalette, t.warning))),
     ([On, Warning], lib.hexFromArgb(lib.tone(warningPalette, t.onWarning))),
     ([Warning, Container], lib.hexFromArgb(lib.tone(warningPalette, t.warningContainer))),
     ([On, Warning, Container], lib.hexFromArgb(lib.tone(warningPalette, t.onWarningContainer)))]
  }

  /** "Custom inactive state": the input passed through, and a fixed colour drawn on it. */
  function InactiveTokens(inactive: string, isDark: bool): seq<Token> {
    [([Inactive], inactive), ([On, Inactive], if isDark then "#FFFFFF" else "#000000")]
  }

  /** The object literal `semanticTokens` (util/main.js:78-142), group by group. */
  function SemanticTokens(lib: ColorLibrary, scheme: Scheme, warningPalette: TonalPalette,
                          inactive: string): seq<Token>
  {
    SchemeTokens(lib, scheme, FamilyNames(Primary) + FamilyNames(Secondary) + FamilyNames(Tertiary) + FamilyNames(Error))
    + WarningTokens(lib, warningPalette, WarningTonesFor(scheme.isDark))
    + SchemeTokens(lib, scheme, BackgroundNames + SurfaceNames + SurfaceLevelNames + OutlineNames + OtherNames)
    + InactiveTokens(inactive, scheme.isDark)
  }

  /** `generateThemeTokens(baseColors, isDark)`. */
  function GenerateThemeTokens(lib: ColorLibrary, base: BaseColors, isDark: bool): Result<Object, ColorError> {
    var primaryArgb :- HexToArgb(lib, base.primary);
    var secondaryArgb :- HexToArgb(lib, base.secondary);
    var tertiaryArgb :- HexToArgb(lib, base.tertiary);
    var neutralArgb :- HexToArgb(lib, base.neutral);
    var errorArgb :- HexToArgb(lib, base.error);
    var neutralVariantArgb :- HexToArgb(lib, base.surfaceVariant);
    var core := CorePalette(FromInt(primaryArgb), FromInt(secondaryArgb), FromInt(tertiaryArgb),
                            FromInt(neutralArgb), FromInt(neutralVariantArgb), FromInt(errorArgb));
    var warningArgb :- HexToArgb(lib, base.warning);
    Success(Theme(lib, Scheme(core, isDark), FromInt(warningArgb), base.inactive))
  }

  /** The object literal with its names spelled in camelCase. */
  function Theme(lib: ColorLibrary, scheme: Scheme, warningPalette: TonalPalette, inactive: string): Object {
    SemanticTokensNames(lib, scheme, warningPalette, inactive);
    ThemeKeyWordsShape();
    Spelled(SemanticTokens(lib, scheme, warningPalette, inactive))
  }

  // ---------------------------------------------------------------------------
  // The names

  /**
    The position of a name in the object literal, or -1: the inverse of
    ThemeKeyWords, read off the name's words.
  */
  function Position(ws: Name): int {
    if |ws| == 1 then
      match ws[0]
      case Primary => 0 case Secondary => 4 case Tertiary => 8 case Error => 12 case Warning => 16
      case Background => 20 case Surface => 22 case Outline => 33 case Scrim => 38 case Shadow => 39
      case Inactive => 40 case _ => -1
    else if |ws| == 2 then
      match (ws[0], ws[1])
      case (On, Primary) => 1 case (Primary, Container) => 2
      case (On, Secondary) => 5 case (Secondary, Container) => 6
      case (On, Tertiary) => 9 case (Tertiary, Container) => 10
      case (On, Error) => 13 case (Error, Container) => 14
      case (On, Warning) => 17 case (Warning, Container) => 18
      case (On, Background) => 21 case (On, Surface) => 23 case (Surface, Variant) => 24
      case (Surface, Dim) => 26 case (Surface, Bright) => 27 case (Surface, Container) => 30
      case (Outline, Variant) => 34 case (Inverse, Surface) => 35 case (Inverse, Primary) => 37
      case (On, Inactive) => 41 case _ => -1
    else if |ws| == 3 then
      match (ws[0], ws[1], ws[2])
      case (On, Primary, Container) => 3 case (On, Secondary, Container) => 7
      case (On, Tertiary, Container) => 11 case (On, Error, Container) => 15
      case (On, Warning, Container) => 19 case (On, Surface, Variant) => 25
      case (Surface, Container, Lowest) => 28 case (Surface, Container, Low) => 29
      case (Surface, Container, High) => 31 case (Surface, Container, Highest) => 32
      case (Inverse, On, Surface) => 36 case _ => -1
    else -1
  }

  /** The names sit at positions offset, offset + 1, ... */
  predicate AtPositions(names: seq<Name>, offset: int) {
    forall i :: 0 <= i < |names| ==> names[i] != [] && Position(names[i]) == offset + i
  }

  lemma AtPositionsConcat(a: seq<Name>, b: seq<Name>, offset: int)
    requires AtPositions(a, offset) && AtPositions(b, offset + |a|)
    ensures AtPositions(a + b, offset)
  {
    forall i | 0 <= i < |a + b| ensures (a + b)[i] != [] && Position((a + b)[i]) == offset + i {
      if i >= |a| {
        assert (a + b)[i] == b[i - |a|];
      }
    }
  }

  lemma FamilyPositions(w: Word, offset: int)
    requires (w == Primary && offset == 0) || (w == Secondary && offset == 4) || (w == Tertiary && offset == 8)
          || (w == Error && offset == 12) || (w == Warning && offset == 16)
    ensures |FamilyNames(w)| == 4 && AtPositions(FamilyNames(w), offset)
  {
    var ns := FamilyNames(w);
    assert ns[0] == [w] && ns[1] == [On, w] && ns[2] == [w, Container] && ns[3] == [On, w, Container];
  }

  lemma FamiliesPositions()
    ensures AtPositions(FamilyNames(Primary) + FamilyNames(Secondary) + FamilyNames(Tertiary) + FamilyNames(Error)
                        + FamilyNames(Warning), 0)
  {
    FamilyPositions(Primary, 0);
    FamilyPositions(Secondary, 4);
    FamilyPositions(Tertiary, 8);
    FamilyPositions(Error, 12);
    FamilyPositions(Warning, 16);
    AtPositionsConcat5(FamilyNames(Primary), FamilyNames(Secondary), FamilyNames(Tertiary), FamilyNames(Error),
                       FamilyNames(Warning), 4);
  }

  lemma AtPositionsConcat5(a: seq<Name>, b: seq<Name>, c: seq<Name>, d: seq<Name>, e: seq<Name>, n: nat)
    requires |a| == |b| == |c| == |d| == n
    requires AtPositions(a, 0) && AtPositions(b, n) && AtPositions(c, 2 * n) && AtPositions(d, 3 * n)
    requires AtPositions(e, 4 * n)
    ensures AtPositions(a + b + c + d + e, 0)
  {
    AtPositionsConcat(a, b, 0);
    AtPositionsConcat(a + b, c, 0);
    AtPositionsConcat(a + b + c, d, 0);
    AtPositionsConcat(a + b + c + d, e, 0);
  }

  lemma BackgroundAndSurfacePositions()
    ensures AtPositions(BackgroundNames, 20) && AtPositions(SurfaceNames, 22)
  {
  }

  lemma SurfaceLevelPositions()
    ensures AtPositions(SurfaceLevelNames, 26)
  {
  }

  lemma OutlineAndOtherPositions()
    ensures AtPositions(OutlineNames, 33) && AtPositions(OtherNames, 35)
  {
  }

  lemma InactivePositions()
    ensures AtPositions(InactiveNames, 40)
  {
  }

  /** The object literal has 42 nonempty names, the i-th at position i. */
  lemma ThemeKeyWordsShape()
    ensures |ThemeKeyWords()| == 42 && AtPositions(ThemeKeyWords(), 0)
  {
    BackgroundAndSurfacePositions();
    SurfaceLevelPositions();
    OutlineAndOtherPositions();
    InactivePositions();
    FamiliesPositions();
    var ns := FamilyNames(Primary) + FamilyNames(Secondary) + FamilyNames(Tertiary) + FamilyNames(Error)
      + FamilyNames(Warning);
    AtPositionsConcat(ns, BackgroundNames, 0);
    ns := ns + BackgroundNames;
    AtPositionsConcat(ns, SurfaceNames, 0);
    ns := ns + SurfaceNames;
    AtPositionsConcat(ns, SurfaceLevelNames, 0);
    ns := ns + SurfaceLevelNames;
    AtPositionsConcat(ns, OutlineNames, 0);
    ns := ns + OutlineNames;
    AtPositionsConcat(ns, OtherNames, 0);
    ns := ns + OtherNames;
    AtPositionsConcat(ns, InactiveNames, 0);
  }

  /** No two properties of the object literal have the same name. */
  lemma ThemeKeyWordsDistinct()
    ensures Distinct(ThemeKeyWords())
  {
    ThemeKeyWordsShape();
    var ns := ThemeKeyWords();
    forall i, j | 0 <= i < j < |ns| ensures ns[i] != ns[j] {
      assert Position(ns[i]) == i && Position(ns[j]) == j;
    }
  }

  /** Distinct names have distinct camelCase spellings. */
  lemma CamelNamesDistinct(names: seq<Name>)
    requires forall i :: 0 <= i < |names| ==> names[i] != []
    requires Distinct(names)
    ensures Distinct(CamelNames(names))
  {
    var ks := CamelNames(names);
    forall i, j | 0 <= i < j < |names| ensures ks[i] != ks[j] {
      if ks[i] == ks[j] {
        CamelNameInjective(names[i], names[j]);
      }
    }
  }

  /** The 42 keys of a theme are pairwise different. */
  lemma ThemeKeysDistinct()
    ensures |ThemeKeys()| == 42 && Distinct(ThemeKeys())
  {
    ThemeKeyWordsShape();
    ThemeKeyWordsDistinct();
    CamelNamesDistinct(ThemeKeyWords());
  }

  lemma NamesConcat(a: seq<Token>, b: seq<Token>)
    ensures Names(a + b) == Names(a) + Names(b)
  {
  }

  /** The object literal names its properties as ThemeKeyWords does, in both modes. */
  lemma SemanticTokensNames(lib: ColorLibrary, scheme: Scheme, warningPalette: TonalPalette, inactive: string)
    ensures Names(SemanticTokens(lib, scheme, warningPalette, inactive)) == ThemeKeyWords()
  {
    var a := SchemeTokens(lib, scheme, FamilyNames(Primary) + FamilyNames(Secondary) + FamilyNames(Tertiary) + FamilyNames(Error));
    var b := WarningTokens(lib, warningPalette, WarningTonesFor(scheme.isDark));
    var c := SchemeTokens(lib, scheme, BackgroundNames + SurfaceNames + SurfaceLevelNames + OutlineNames + OtherNames);
    var d := InactiveTokens(inactive, scheme.isDark);
    NamesConcat(a, b);
    NamesConcat(a + b, c);
    NamesConcat(a + b + c, d);
    assert Names(b) == FamilyNames(Warning);
    assert Names(d) == InactiveNames;
  }

  // ---------------------------------------------------------------------------
  // The values

  /** Where the value of a token comes from. */
  datatype TokenSource = SchemeRole | WarningPaletteTone(tone: nat) | PassedThrough | ContrastLiteral

  /**
    Reference rule, read off a token's name: the four warning tokens read the
    warning palette at the tone the mode gives them, `inactive` is the input
    passed through, `onInactive` is a fixed literal, and every other token reads
    the scheme role of the same name.
  */
  function SourceOf(ws: Name, isDark: bool): TokenSource {
    var t := WarningTonesFor(isDark);
    if |ws| == 1 then
      match ws[0]
      case Warning => WarningPaletteTone(t.warning)
      case Inactive => PassedThrough
      case _ => SchemeRole
    else if |ws| == 2 then
      match (ws[0], ws[1])
      case (On, Warning) => WarningPaletteTone(t.onWarning)
      case (Warning, Container) => WarningPaletteTone(t.warningContainer)
      case (On, Inactive) => ContrastLiteral
      case _ => SchemeRole
    else if |ws| == 3 then
      match (ws[0], ws[1], ws[2])
      case (On, Warning, Container) => WarningPaletteTone(t.onWarningContainer)
      case _ => SchemeRole
    else SchemeRole
  }

  /** The value the reference rule gives the token named ws. */
  function TokenValue(lib: ColorLibrary, scheme: Scheme, warningPalette: TonalPalette, inactive: string,
                      ws: Name): string
  {
    match SourceOf(ws, scheme.isDark)
    case SchemeRole => lib.hexFromArgb(lib.role(scheme, ws))
    case WarningPaletteTone(tone) => lib.hexFromArgb(lib.tone(warningPalette, tone))
    case PassedThrough => inactive
    case ContrastLiteral => if scheme.isDark then "#FFFFFF" else "#000000"
  }

  /** Every token has the value the reference rule gives its name. */
  predicate FollowsRule(tokens: seq<Token>, lib: ColorLibrary, scheme: Scheme, warningPalette: TonalPalette,
                        inactive: string)
  {
    forall i :: 0 <= i < |tokens| ==> tokens[i].1 == TokenValue(lib, scheme, warningPalette, inactive, tokens[i].0)
  }

  lemma FollowsRuleConcat(a: seq<Token>, b: seq<Token>, lib: ColorLibrary, scheme: Scheme,
                          warningPalette: TonalPalette, inactive: string)
    requires FollowsRule(a, lib, scheme, warningPalette, inactive)
    requires FollowsRule(b, lib, scheme, warningPalette, inactive)
    ensures FollowsRule(a + b, lib, scheme, warningPalette, inactive)
  {
    forall i | 0 <= i < |a + b|
      ensures (a + b)[i].1 == TokenValue(lib, scheme, warningPalette, inactive, (a + b)[i].0)
    {
      if i >= |a| {
        assert (a + b)[i] == b[i - |a|];
      }
    }
  }

  /** None of the names is a warning or inactive token. */
  predicate AllSchemeRoles(names: seq<Name>, isDark: bool) {
    forall i :: 0 <= i < |names| ==> SourceOf(names[i], isDark) == SchemeRole
  }

  lemma SchemeTokensFollowRule(lib: ColorLibrary, scheme: Scheme, warningPalette: TonalPalette, inactive: string,
                               names: seq<Name>)
    requires AllSchemeRoles(names, scheme.isDark)
    ensures FollowsRule(SchemeTokens(lib, scheme, names), lib, scheme, warningPalette, inactive)
  {
  }

  lemma FamiliesAreSchemeRoles(isDark: bool)
    ensures AllSchemeRoles(FamilyNames(Primary) + FamilyNames(Secondary) + FamilyNames(Tertiary) + FamilyNames(Error), isDark)
  {
    var ns := FamilyNames(Primary) + FamilyNames(Secondary) + FamilyNames(Tertiary) + FamilyNames(Error);
    forall i | 0 <= i < |ns| ensures SourceOf(ns[i], isDark) == SchemeRole {
      assert ns[i][0] != Warning && ns[i][|ns[i]| - 1] != Warning && Inactive !in ns[i];
    }
  }

  lemma GroupsAreSchemeRoles(isDark: bool)
    ensures AllSchemeRoles(BackgroundNames + SurfaceNames + SurfaceLevelNames + OutlineNames + OtherNames, isDark)
  {
  }

  /** The object literal gives every property the value the reference rule gives its name. */
  lemma SemanticTokensFollowRule(lib: ColorLibrary, scheme: Scheme, warningPalette: TonalPalette, inactive: string)
    ensures FollowsRule(SemanticTokens(lib, scheme, warningPalette, inactive), lib, scheme, warningPalette, inactive)
  {
    var l, s, w, v := lib, scheme, warningPalette, inactive;
    var a := SchemeTokens(l, s, FamilyNames(Primary) + FamilyNames(Secondary) + FamilyNames(Tertiary) + FamilyNames(Error));
    var b := WarningTokens(l, w, WarningTonesFor(s.isDark));
    var c := SchemeTokens(l, s, BackgroundNames + SurfaceNames + SurfaceLevelNames + OutlineNames + OtherNames);
    var d := InactiveTokens(v, s.isDark);
    FamiliesAreSchemeRoles(s.isDark);
    GroupsAreSchemeRoles(s.isDark);
    SchemeTokensFollowRule(l, s, w, v, FamilyNames(Primary) + FamilyNames(Secondary) + FamilyNames(Tertiary) + FamilyNames(Error));
    SchemeTokensFollowRule(l, s, w, v, BackgroundNames + SurfaceNames + SurfaceLevelNames + OutlineNames + OtherNames);
    assert FollowsRule(b, l, s, w, v);
    assert FollowsRule(d, l, s, w, v);
    FollowsRuleConcat(a, b, l, s, w, v);
    FollowsRuleConcat(a + b, c, l, s, w, v);
    FollowsRuleConcat(a + b + c, d, l, s, w, v);
  }

  // ---------------------------------------------------------------------------
  // The theme object

  /** A theme has the same 42 keys in the same order whatever the mode and the colours. */
  lemma ThemeKeysFixed(lib: ColorLibrary, scheme: Scheme, warningPalette: TonalPalette, inactive: string)
    ensures Keys(Theme(lib, scheme, warningPalette, inactive)) == ThemeKeys()
    ensures DistinctKeys(Theme(lib, scheme, warningPalette, inactive))
  {
    SemanticTokensNames(lib, scheme, warningPalette, inactive);
    ThemeKeysDistinct();
    var o, t := Theme(lib, scheme, warningPalette, inactive), SemanticTokens(lib, scheme, warningPalette, inactive);
    assert |Keys(o)| == |t| == |Names(t)| == 42;
    forall i | 0 <= i < 42 ensures Keys(o)[i] == ThemeKeys()[i] {
      assert t[i].0 == Names(t)[i];
    }
  }

  /** Each property of a theme has the value the reference rule gives its name. */
  lemma ThemeValues(lib: ColorLibrary, scheme: Scheme, warningPalette: TonalPalette, inactive: string, i: nat)
    requires i < 42
    ensures |Theme(lib, scheme, warningPalette, inactive)| == 42
    ensures Theme(lib, scheme, warningPalette, inactive)[i]
         == (ThemeKeys()[i], TokenValue(lib, scheme, warningPalette, inactive, ThemeKeyWords()[i]))
  {
    var t := SemanticTokens(lib, scheme, warningPalette, inactive);
    SemanticTokensNames(lib, scheme, warningPalette, inactive);
    SemanticTokensFollowRule(lib, scheme, warningPalette, inactive);
    ThemeKeyWordsShape();
    assert t[i].0 == Names(t)[i];
  }

  /**
    What a theme object is: the 42 keys of ThemeKeys in order, pairwise
    distinct, each with the value the reference rule gives its name.
  */
  predicate IsTheme(o: Object, lib: ColorLibrary, scheme: Scheme, warningPalette: TonalPalette, inactive: string) {
    |o| == 42 && DistinctKeys(o) &&
    forall i :: 0 <= i < 42 ==> o[i] == (ThemeKeys()[i], TokenValue(lib, scheme, warningPalette, inactive, ThemeKeyWords()[i]))
  }

  /** The object the source builds is a theme. */
  lemma ThemeIsTheme(lib: ColorLibrary, scheme: Scheme, warningPalette: TonalPalette, inactive: string)
    ensures IsTheme(Theme(lib, scheme, warningPalette, inactive), lib, scheme, warningPalette, inactive)
  {
    ThemeKeysFixed(lib, scheme, warningPalette, inactive);
    forall i | 0 <= i < 42
      ensures Theme(lib, scheme, warningPalette, inactive)[i]
           == (ThemeKeys()[i], TokenValue(lib, scheme, warningPalette, inactive, ThemeKeyWords()[i]))
    {
      ThemeValues(lib, scheme, warningPalette, inactive, i);
    }
  }

  /** Reading a theme at the camelCase spelling of one of its names gives the value the reference rule gives that name. */
  lemma ThemeGet(o: Object, lib: ColorLibrary, scheme: Scheme, warningPalette: TonalPalette, inactive: string, ws: Name)
    requires IsTheme(o, lib, scheme, warningPalette, inactive)
    requires ws in ThemeKeyWords()
    ensures ws != []
    ensures Get(o, CamelName(ws)) == Some(TokenValue(lib, scheme, warningPalette, inactive, ws))
  {
    ThemeKeyWordsShape();
    var i :| 0 <= i < |ThemeKeyWords()| && ThemeKeyWords()[i] == ws;
    ThemeGetAt(o, lib, scheme, warningPalette, inactive, i);
  }

  lemma ThemeGetAt(o: Object, lib: ColorLibrary, scheme: Scheme, warningPalette: TonalPalette, inactive: string, i: nat)
    requires IsTheme(o, lib, scheme, warningPalette, inactive) && i < 42
    ensures ThemeKeyWords()[i] != []
    ensures Get(o, CamelName(ThemeKeyWords()[i])) == Some(TokenValue(lib, scheme, warningPalette, inactive, ThemeKeyWords()[i]))
  {
    ThemeKeyWordsShape();
    GetAt(o, i);
  }

  /** Every token other than the warning and inactive ones reads the scheme role of the same name. */
  lemma ThemeSchemeRoles(o: Object, lib: ColorLibrary, scheme: Scheme, warningPalette: TonalPalette, inactive: string,
                         ws: Name)
    requires IsTheme(o, lib, scheme, warningPalette, inactive)
    requires ws in ThemeKeyWords() && Warning !in ws && Inactive !in ws
    ensures ws != []
    ensures Get(o, CamelName(ws)) == Some(lib.hexFromArgb(lib.role(scheme, ws)))
  {
    ThemeGet(o, lib, scheme, warningPalette, inactive, ws);
    assert SourceOf(ws, scheme.isDark) == SchemeRole by {
      ThemeKeyWordsShape();
      if |ws| == 2 {
        assert ws[0] != Warning && ws[1] != Warning && ws[1] != Inactive;
      } else if |ws| == 3 {
        assert ws[2] != Warning;
      }
    }
  }

  lemma WarningAndInactiveNames()
    ensures ThemeKeyWords()[16] == [Warning] && ThemeKeyWords()[17] == [On, Warning]
    ensures ThemeKeyWords()[18] == [Warning, Container] && ThemeKeyWords()[19] == [On, Warning, Container]
    ensures ThemeKeyWords()[40] == [Inactive] && ThemeKeyWords()[41] == [On, Inactive]
  {
    ThemeKeyWordsShape();
  }

  /** The warning tokens read the warning palette at tones 80, 20, 30, 90 when dark and 40, 100, 90, 10 when light. */
  lemma ThemeWarningTones(o: Object, lib: ColorLibrary, scheme: Scheme, warningPalette: TonalPalette, inactive: string)
    requires IsTheme(o, lib, scheme, warningPalette, inactive)
    ensures var d := scheme.isDark;
      Get(o, CamelName([Warning])) == Some(lib.hexFromArgb(lib.tone(warningPalette, if d then 80 else 40))) &&
      Get(o, CamelName([On, Warning])) == Some(lib.hexFromArgb(lib.tone(warningPalette, if d then 20 else 100))) &&
      Get(o, CamelName([Warning, Container])) == Some(lib.hexFromArgb(lib.tone(warningPalette, if d then 30 else 90))) &&
      Get(o, CamelName([On, Warning, Container])) == Some(lib.hexFromArgb(lib.tone(warningPalette, if d then 90 else 10)))
  {
    WarningAndInactiveNames();
    WarningValues(lib, scheme, warningPalette, inactive);
    ThemeGetAt(o, lib, scheme, warningPalette, inactive, 16);
    ThemeGetAt(o, lib, scheme, warningPalette, inactive, 17);
    ThemeGetAt(o, lib, scheme, warningPalette, inactive, 18);
    ThemeGetAt(o, lib, scheme, warningPalette, inactive, 19);
  }

  /** `inactive` is the input passed through; `onInactive` is white when dark and black when light. */
  lemma ThemeInactive(o: Object, lib: ColorLibrary, scheme: Scheme, warningPalette: TonalPalette, inactive: string)
    requires IsTheme(o, lib, scheme, warningPalette, inactive)
    ensures Get(o, CamelName([Inactive])) == Some(inactive)
    ensures Get(o, CamelName([On, Inactive])) == Some(if scheme.isDark then "#FFFFFF" else "#000000")
  {
    WarningAndInactiveNames();
    InactiveValues(lib, scheme, warningPalette, inactive);
    ThemeGetAt(o, lib, scheme, warningPalette, inactive, 40);
    ThemeGetAt(o, lib, scheme, warningPalette, inactive, 41);
  }

  lemma InactiveValues(lib: ColorLibrary, scheme: Scheme, warningPalette: TonalPalette, inactive: string)
    ensures TokenValue(lib, scheme, warningPalette, inactive, [Inactive]) == inactive
    ensures TokenValue(lib, scheme, warningPalette, inactive, [On, Inactive])
         == if scheme.isDark then "#FFFFFF" else "#000000"
  {
  }

  lemma WarningValues(lib: ColorLibrary, scheme: Scheme, warningPalette: TonalPalette, inactive: string)
    ensures var d, v := scheme.isDark, (ws: Name) => TokenValue(lib, scheme, warningPalette, inactive, ws);
      v([Warning]) == lib.hexFromArgb(lib.tone(warningPalette, if d then 80 else 40)) &&
      v([On, Warning]) == lib.hexFromArgb(lib.tone(warningPalette, if d then 20 else 100)) &&
      v([Warning, Container]) == lib.hexFromArgb(lib.tone(warningPalette, if d then 30 else 90)) &&
      v([On, Warning, Container]) == lib.hexFromArgb(lib.tone(warningPalette, if d then 90 else 10))
  {
  }
}
