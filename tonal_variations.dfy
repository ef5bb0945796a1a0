/**
  `generateTonalVariations(hexColor, name)` (util/main.js:155-168): the object
  mapping `name + tone` to the hex colour of that tone of the palette seeded by
  `hexColor`, for the thirteen tones from black (0) to white (100).
*/
module TonalVariations {
  import opened Results
  import opened JsObject
  import opened ThemeTokens

  /** The tones the variations cover, from 0 (black) to 100 (white). */
  const Tones: seq<nat> := [0, 10, 20, 30, 40, 50, 60, 70, 80, 90, 95, 99, 100]

  /** The tones strictly increase, so no tone occurs twice. */
  lemma TonesIncreasing()
    ensures |Tones| == 13
    ensures forall i, j :: 0 <= i < j < |Tones| ==> Tones[i] < Tones[j]
  {
    forall i, j | 0 <= i < j < |Tones| ensures Tones[i] < Tones[j] {
      assert Tones[i] <= Tones[j - 1] by {
        if i < j - 1 {
          TonesStep(i, j - 1);
        }
      }
      TonesStep(j - 1, j);
    }
  }

  lemma TonesStep(i: nat, j: nat)
    requires i < j < |Tones|
    ensures Tones[i] < Tones[j]
    decreases j - i
  {
    if i + 1 < j {
      TonesStep(i, j - 1);
      TonesStep(j - 1, j);
    }
  }

  predicate IsDigit(c: char) {
    '0' <= c <= '9'
  }

  predicate AllDigits(s: string) {
    forall i :: 0 <= i < |s| ==> IsDigit(s[i])
  }

  function DigitChar(d: nat): (c: char)
    requires d < 10
    ensures IsDigit(c) && c as int - '0' as int == d
  {
    ('0' as int + d) as char
  }

  /** How a template literal writes a non-negative integer: decimal digits, no leading zero. */
  function DecimalString(n: nat): (s: string)
    ensures s != [] && AllDigits(s)
    ensures |s| > 1 ==> s[0] != '0'
  {
    if n < 10 then [DigitChar(n)]
    else
      var p := DecimalString(n / 10);
      var s := p + [DigitChar(n % 10)];
      assert s[0] == p[0];
      s
  }

  /** The number a string of decimal digits denotes. */
  function DecimalValue(s: string): nat
    requires AllDigits(s)
  {
    if s == [] then 0
    else DecimalValue(s[..|s| - 1]) * 10 + (s[|s| - 1] as int - '0' as int)
  }

  /** Reading back the decimal spelling of a tone gives the tone. */
  lemma {:induction false} DecimalRoundTrip(n: nat)
    ensures DecimalValue(DecimalString(n)) == n
  {
    if n >= 10 {
      var p := DecimalString(n / 10);
      var s := p + [DigitChar(n % 10)];
      assert s[..|s| - 1] == p;
      DecimalRoundTrip(n / 10);
    }
  }

  /** The property name of one variation: `${name}${tone}`. */
  function VariationKey(name: string, tone: nat): (k: string)
    ensures |k| > |name| && k[..|name|] == name && AllDigits(k[|name|..])
  {
    name + DecimalString(tone)
  }

  /** Different tones give different property names under the same prefix. */
  lemma VariationKeyInjective(name: string, t: nat, t': nat)
    ensures VariationKey(name, t) == VariationKey(name, t') ==> t == t'
  {
    if VariationKey(name, t) == VariationKey(name, t') {
      assert DecimalString(t) == VariationKey(name, t)[|name|..];
      assert DecimalString(t') == VariationKey(name, t')[|name|..];
      DecimalRoundTrip(t);
      DecimalRoundTrip(t');
    }
  }

  /** The entry for one tone: its property name and the hex colour of that tone. */
  function Variation(lib: ColorLibrary, palette: TonalPalette, name: string, tone: nat): Entry {
    (VariationKey(name, tone), lib.hexFromArgb(lib.tone(palette, tone)))
  }

  /**
    Fails exactly when the library rejects `hexColor`. Otherwise yields one
    property per tone, in the order of Tones, each holding that tone of the
    palette seeded by the parsed colour, under pairwise distinct names.
  */
  method GenerateTonalVariations(lib: ColorLibrary, hexColor: string, name: string)
    returns (r: Result<Object, ColorError>)
    ensures r.Failure? <==> lib.argbFromHex(hexColor).None?
    ensures r.Failure? ==> r.error == InvalidColorFormat(hexColor)
    ensures r.Success? ==> |r.value| == |Tones| && DistinctKeys(r.value)
    ensures r.Success? ==> forall i :: 0 <= i < |Tones| ==>
              r.value[i] == Variation(lib, FromInt(lib.argbFromHex(hexColor).value), name, Tones[i])
  {
    var argb :- HexToArgb(lib, hexColor);
    var palette := FromInt(argb);
    var tones := Tones;
    TonesIncreasing();
    var variations: Object := [];
    for k := 0 to |tones|
      invariant |variations| == k
      invariant forall i :: 0 <= i < k ==> variations[i] == Variation(lib, palette, name, tones[i])
      invariant DistinctKeys(variations)
    {
      var key := name + DecimalString(tones[k]);
      assert key !in Keys(variations) by {
        forall i | 0 <= i < k ensures Keys(variations)[i] != key {
          VariationKeyInjective(name, tones[i], tones[k]);
        }
      }
      SetKeepsDistinct(variations, key, lib.hexFromArgb(lib.tone(palette, tones[k])));
      variations := Set(variations, key, lib.hexFromArgb(lib.tone(palette, tones[k])));
    }
    return Success(variations);
  }

  /** The decimal spellings of the tones, as they appear in the property names. */
  const ToneNames: seq<string> := ["0", "10", "20", "30", "40", "50", "60", "70", "80", "90", "95", "99", "100"]

  /** The thirteen property names are `name0`, `name10`, ..., `name99`, `name100`. */
  lemma VariationKeysSpelled(name: string)
    ensures forall i :: 0 <= i < |Tones| ==> VariationKey(name, Tones[i]) == name + ToneNames[i]
  {
    TwoDigitSpellings();
    assert DecimalString(0) == "0";
    assert DecimalString(100) == "100" by {
      assert DecimalString(10) == "10";
    }
  }

  lemma TwoDigitSpellings()
    ensures DecimalString(10) == "10" && DecimalString(20) == "20" && DecimalString(30) == "30"
    ensures DecimalString(40) == "40" && DecimalString(50) == "50" && DecimalString(60) == "60"
    ensures DecimalString(70) == "70" && DecimalString(80) == "80" && DecimalString(90) == "90"
    ensures DecimalString(95) == "95" && DecimalString(99) == "99"
  {
  }
}
