/**
 * `compareFormats`: the token estimates of the JSON text and of the TOON
 * text with default options, and the savings percentage between them.
 */
module ToonCompare {
  import opened Wrappers
  import opened ToonValue
  import opened ToonTokens
  import opened ToonEncoder
  import ToonUniform

  datatype Measured = Measured(text: string, tokens: nat)

  /** `savings` is absent where JavaScript divides by zero tokens. */
  datatype Comparison = Comparison(json: Measured, toon: Measured, savings: Option<real>)

  /**
   * `(jsonTokens - toonTokens) / jsonTokens * 100`: negative exactly when
   * TOON costs more, zero exactly when both cost the same, and never more
   * than 100.
   */
  function SavingsPercent(jsonTokens: nat, toonTokens: nat): (p: real)
    requires jsonTokens > 0
    ensures p < 0.0 <==> toonTokens > jsonTokens
    ensures p == 0.0 <==> toonTokens == jsonTokens
    ensures p <= 100.0
  {
    var d := (jsonTokens - toonTokens) as real;
    var j := jsonTokens as real;
    var q := d / j;
    assert q * j == d;
    assert d <= j;
    q * 100.0
  }

  /**
   * `compareFormats(data)`, given `jsonText = JSON.stringify(data)`. The
   * savings are computed exactly; JavaScript rounds them to a double.
   */
  function CompareFormats(v: Value, jsonText: string): (r: Comparison)
    ensures r.json.text == jsonText && r.json.tokens == EstimateTokens(jsonText)
    ensures r.toon.text == EncodeValue(v, 0, 2) && r.toon.tokens == EstimateTokens(r.toon.text)
    ensures r.savings.Some? <==> r.json.tokens > 0
    ensures r.savings.Some? ==> (r.savings.value < 0.0 <==> r.toon.tokens > r.json.tokens)
    ensures r.savings.Some? ==> (r.savings.value == 0.0 <==> r.toon.tokens == r.json.tokens)
  {
    // Default options never print the banner, so the savings formatter is unused.
    var toonText := EncodeToToon(v, Options(None, None), jsonText, (_, _) => "");
    var jsonTokens := EstimateTokens(jsonText);
    var toonTokens := EstimateTokens(toonText);
    var savings :=
      if jsonTokens == 0 then None
      else Some(SavingsPercent(jsonTokens, toonTokens));
    Comparison(Measured(jsonText, jsonTokens), Measured(toonText, toonTokens), savings)
  }

  /** The text of `[[], []]`: a bulleted list of two empty arrays. */
  lemma TwoEmptyArrays()
    ensures EncodeValue(Arr([Arr([]), Arr([])]), 0, 2) == "\n- []\n- []"
  {
    var arr := [Arr([]), Arr([])];
    assert !ToonUniform.IsUniformObjectArray(arr);
    assert Indent(0, 2) == "" && EncodeValue(arr[0], 1, 2) == "[]" && EncodeValue(arr[1], 1, 2) == "[]";
    assert "" + "- " + "[]" == "- []";
    assert BulletItems(arr, 0, 2) == ["- []", "- []"];
    assert JsText.Join(["- []", "- []"], "\n") == "- []\n- []";
  }

  /** Both texts are ASCII, so their lengths count characters. */
  lemma TwoEmptyArraysLength()
    ensures Utf16Length("\n- []\n- []") == 10 && EstimateTokens("\n- []\n- []") == 3
  {
    Utf16Bmp("\n- []\n- []");
  }

  lemma TwoEmptyArraysJsonLength()
    ensures Utf16Length("[[],[]]") == 7 && EstimateTokens("[[],[]]") == 2
  {
    Utf16Bmp("[[],[]]");
  }

  /** The empty object saves nothing: both texts are `{}`. */
  lemma EmptyObjectSavings()
    ensures CompareFormats(Obj([]), "{}").savings == Some(0.0)
  {
  }

  /** Savings are not clamped: two empty arrays cost more in TOON than in JSON. */
  lemma NegativeSavings()
    ensures var r := CompareFormats(Arr([Arr([]), Arr([])]), "[[],[]]");
      r.savings.Some? && r.savings.value < 0.0
  {
    TwoEmptyArrays();
    TwoEmptyArraysLength();
    TwoEmptyArraysJsonLength();
    MoreTokensNegative(Arr([Arr([]), Arr([])]), "[[],[]]");
  }

  /** The savings are negative exactly when the TOON text has more tokens. */
  lemma MoreTokensNegative(v: Value, jsonText: string)
    requires EstimateTokens(EncodeValue(v, 0, 2)) > EstimateTokens(jsonText) > 0
    ensures var r := CompareFormats(v, jsonText); r.savings.Some? && r.savings.value < 0.0
  {
  }
}
