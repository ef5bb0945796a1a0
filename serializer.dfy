/**
  `convertToJson` (util/main.js:182-191) and the top-level script around it
  (util/main.js:148-149, 193-194): both themes are generated, the dark theme's
  keys are renamed to snake_case, and the renamed dark theme is what the script
  writes out.
*/
module Serializer {
  import opened Results
  import opened JsObject
  import opened SnakeCase
  import opened TokenNames
  import opened ThemeTokens
  import opened ThemeGeneration

  /** `Object.entries(o).map(([k, v]) => [camelToSnake(k), v])`. */
  function RenameKeys(o: Object): (r: seq<Entry>)
    ensures |r| == |o|
    ensures forall i :: 0 <= i < |o| ==> r[i].0 == CamelToSnake(o[i].0) && r[i].1 == o[i].1
    decreases |o|
  {
    if o == [] then []
    else
      var rest := RenameKeys(o[1..]);
      var r := [(CamelToSnake(o[0].0), o[0].1)] + rest;
      assert forall i :: 1 <= i < |o| ==> r[i] == rest[i - 1] && o[i] == o[1..][i - 1];
      r
  }

  /** Renaming keeps the values, in order. */
  lemma RenameKeysValues(o: Object)
    ensures Values(RenameKeys(o)) == Values(o)
  {
  }

  /** The 42 snake_case keys of a converted theme. */
  function SnakeKeys(): (ks: seq<string>)
    ensures |ks| == 42
  {
    ThemeKeyWordsShape();
    seq(42, i requires 0 <= i < 42 => SnakeName(ThemeKeyWords()[i]))
  }

  /** No two theme names have the same snake_case spelling. */
  lemma SnakeKeysDistinct()
    ensures Distinct(SnakeKeys())
  {
    ThemeKeyWordsShape();
    ThemeKeyWordsDistinct();
    forall i, j | 0 <= i < j < 42 ensures SnakeKeys()[i] != SnakeKeys()[j] {
      if SnakeKeys()[i] == SnakeKeys()[j] {
        SnakeNameInjective(ThemeKeyWords()[i], ThemeKeyWords()[j]);
      }
    }
  }

  /**
    What a converted theme is: the 42 snake_case keys in the order of the
    original, pairwise distinct, each with the value its name had before.
  */
  predicate IsSnakeTheme(o: Object, lib: ColorLibrary, scheme: Scheme, warningPalette: TonalPalette, inactive: string) {
    |o| == 42 && DistinctKeys(o) &&
    forall i :: 0 <= i < 42 ==> o[i] == (SnakeKeys()[i], TokenValue(lib, scheme, warningPalette, inactive, ThemeKeyWords()[i]))
  }

  /**
    Renaming the keys of a theme gives its snake_case form; the renamed keys
    are distinct, so `Object.fromEntries` loses no entry and keeps the order.
  */
  lemma RenameTheme(o: Object, lib: ColorLibrary, scheme: Scheme, warningPalette: TonalPalette, inactive: string)
    requires IsTheme(o, lib, scheme, warningPalette, inactive)
    ensures FromEntries(RenameKeys(o)) == RenameKeys(o)
    ensures IsSnakeTheme(RenameKeys(o), lib, scheme, warningPalette, inactive)
  {
    var r := RenameKeys(o);
    ThemeKeyWordsShape();
    forall i | 0 <= i < 42
      ensures r[i] == (SnakeKeys()[i], TokenValue(lib, scheme, warningPalette, inactive, ThemeKeyWords()[i]))
    {
      assert o[i].0 == CamelName(ThemeKeyWords()[i]);
      CamelToSnakeName(ThemeKeyWords()[i]);
    }
    SnakeKeysDistinct();
    assert Keys(r) == SnakeKeys();
    FromEntriesOfDistinct(r);
  }

  /** Reading a converted theme at a snake_case name gives the value the reference rule gives that name. */
  lemma SnakeThemeGet(o: Object, lib: ColorLibrary, scheme: Scheme, warningPalette: TonalPalette, inactive: string, i: nat)
    requires IsSnakeTheme(o, lib, scheme, warningPalette, inactive) && i < 42
    ensures ThemeKeyWords()[i] != []
    ensures Get(o, SnakeName(ThemeKeyWords()[i])) == Some(TokenValue(lib, scheme, warningPalette, inactive, ThemeKeyWords()[i]))
  {
    ThemeKeyWordsShape();
    GetAt(o, i);
  }

  /** The script's two module-level theme variables. */
  class ThemeScript {
    var lightTheme: Object
    var darkTheme: Object

    /** util/main.js:148-149. */
    constructor(light: Object, dark: Object)
      ensures lightTheme == light && darkTheme == dark
    {
      lightTheme := light;
      darkTheme := dark;
    }

    /**
      Replaces the dark theme by its snake_case form and returns it for
      serialisation; the light theme is left as it was.
    */
    method ConvertToJson() returns (json: Object)
      modifies this
      ensures darkTheme == FromEntries(RenameKeys(old(darkTheme)))
      ensures lightTheme == old(lightTheme)
      ensures json == darkTheme
    {
      darkTheme := FromEntries(RenameKeys(darkTheme));
      json := darkTheme;
    }
  }

  /**
    The script: generate the light and then the dark theme of the base
    colours, convert the dark theme, and yield what is written to
    `dark-theme.json`. It stops at the first colour the library rejects;
    otherwise the file holds the 42 snake_case tokens of the dark theme.
  */
  method RunScript(lib: ColorLibrary, base: BaseColors) returns (r: Result<Object, ColorError>)
    ensures r.Failure? <==> FirstRejected(lib, ConvertedHexes(base)).Some?
    ensures r.Failure? ==> r.error == InvalidColorFormat(FirstRejected(lib, ConvertedHexes(base)).value)
    ensures r.Success? ==>
              AllConvert(lib, ConvertedHexes(base)) && lib.argbFromHex(base.warning).Some? &&
              IsSnakeTheme(r.value, lib, Scheme(CoreOf(lib, base), true), PaletteOf(lib, base.warning), base.inactive)
  {
    GenerateThemeTokensOutcome(lib, base, false);
    GenerateThemeTokensOutcome(lib, base, true);
    var light :- GenerateThemeTokens(lib, base, false);
    var dark := GenerateThemeTokens(lib, base, true).value;
    GenerateThemeTokensIsTheme(lib, base, true);
    RenameTheme(dark, lib, Scheme(CoreOf(lib, base), true), PaletteOf(lib, base.warning), base.inactive);
    var script := new ThemeScript(light, dark);
    var json := script.ConvertToJson();
    return Success(json);
  }

  /** "onPrimaryContainer" becomes "on_primary_container". */
  lemma ExampleOnPrimaryContainer()
    ensures CamelToSnake("onPrimaryContainer") == "on_primary_container"
  {
    OnPrimaryContainerCamel();
    OnPrimaryContainerSnake();
    CamelToSnakeName([On, Primary, Container]);
  }

  lemma OnPrimaryContainerCamel()
    ensures CamelName([On, Primary, Container]) == "onPrimaryContainer"
  {
    CapitalizedSpellings();
    assert CapitalizedWords([Container]) == "Container";
    assert CapitalizedWords([Primary, Container]) == "PrimaryContainer" by {
      assert [Primary, Container][1..] == [Container];
      assert "Primary" + "Container" == "PrimaryContainer";
    }
    assert [On, Primary, Container][1..] == [Primary, Container];
  }

  lemma OnPrimaryContainerSnake()
    ensures SnakeName([On, Primary, Container]) == "on_primary_container"
  {
    assert [Primary, Container][1..] == [Container];
    assert SnakeName([Primary, Container]) == "primary_container" by {
      assert "primary" + "_" + "container" == "primary_container";
    }
    assert [On, Primary, Container][1..] == [Primary, Container];
    assert "on" + "_" + "primary_container" == "on_primary_container";
  }

  /** "surfaceContainerLowest" becomes "surface_container_lowest". */
  lemma ExampleSurfaceContainerLowest()
    ensures CamelToSnake("surfaceContainerLowest") == "surface_container_lowest"
  {
    SurfaceContainerLowestCamel();
    SurfaceContainerLowestSnake();
    CamelToSnakeName([Surface, Container, Lowest]);
  }

  lemma SurfaceContainerLowestCamel()
    ensures CamelName([Surface, Container, Lowest]) == "surfaceContainerLowest"
  {
    CapitalizedSpellings();
    assert CapitalizedWords([Lowest]) == "Lowest";
    assert CapitalizedWords([Container, Lowest]) == "ContainerLowest" by {
      assert [Container, Lowest][1..] == [Lowest];
      assert "Container" + "Lowest" == "ContainerLowest";
    }
    assert [Surface, Container, Lowest][1..] == [Container, Lowest];
  }

  lemma SurfaceContainerLowestSnake()
    ensures SnakeName([Surface, Container, Lowest]) == "surface_container_lowest"
  {
    assert [Container, Lowest][1..] == [Lowest];
    assert SnakeName([Container, Lowest]) == "container_lowest" by {
      assert "container" + "_" + "lowest" == "container_lowest";
    }
    assert [Surface, Container, Lowest][1..] == [Container, Lowest];
    assert "surface" + "_" + "container_lowest" == "surface_container_lowest";
  }

  lemma CapitalizedSpellings()
    ensures Capitalize(Spelling(Primary)) == "Primary"
    ensures Capitalize(Spelling(Container)) == "Container"
    ensures Capitalize(Spelling(Lowest)) == "Lowest"
  {
    assert Spelling(Primary) == "primary" && Spelling(Container) == "container" && Spelling(Lowest) == "lowest";
  }

  /** A name without a lower-to-upper boundary, such as "outline", is unchanged. */
  lemma ExampleOutline()
    ensures CamelToSnake("outline") == "outline"
  {
    CamelToSnakeName([Outline]);
  }

  /**
    With the script's own base colours, the file written holds `inactive`
    as "#CAC4D0" and `on_inactive` as "#FFFFFF", whatever the library makes
    of the other colours, provided it accepts them.
  */
  lemma DefaultDarkThemeInactive(lib: ColorLibrary)
    requires AllConvert(lib, ConvertedHexes(DefaultBaseColors))
    ensures GenerateThemeTokens(lib, DefaultBaseColors, true).Success?
    ensures var json := FromEntries(RenameKeys(GenerateThemeTokens(lib, DefaultBaseColors, true).value));
      Get(json, "inactive") == Some("#CAC4D0") && Get(json, "on_inactive") == Some("#FFFFFF")
  {
    var base := DefaultBaseColors;
    GenerateThemeTokensOutcome(lib, base, true);
    GenerateThemeTokensIsTheme(lib, base, true);
    var scheme, w := Scheme(CoreOf(lib, base), true), PaletteOf(lib, base.warning);
    var o := GenerateThemeTokens(lib, base, true).value;
    RenameTheme(o, lib, scheme, w, base.inactive);
    WarningAndInactiveNames();
    InactiveValues(lib, scheme, w, base.inactive);
    SnakeThemeGet(RenameKeys(o), lib, scheme, w, base.inactive, 40);
    SnakeThemeGet(RenameKeys(o), lib, scheme, w, base.inactive, 41);
    InactiveSnakeNames();
  }

  lemma InactiveSnakeNames()
    ensures SnakeName([Inactive]) == "inactive"
    ensures SnakeName([On, Inactive]) == "on_inactive"
  {
    assert [On, Inactive][1..] == [Inactive];
    assert "on" + "_" + "inactive" == "on_inactive";
  }
}
