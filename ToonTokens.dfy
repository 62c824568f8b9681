/**
 * `estimateTokens`: roughly one token per four UTF-16 code units of the
 * text, rounded up.
 */
module ToonTokens {

  /** The UTF-16 code units of one character: two for a surrogate pair. */
  function Utf16Units(c: char): nat
  {
    if c as int >= 0x1_0000 then 2 else 1
  }

  /** `text.length`: JavaScript counts UTF-16 code units, not characters. */
  function Utf16Length(s: string): nat
  {
    if |s| == 0 then 0 else Utf16Units(s[0]) + Utf16Length(s[1..])
  }

  /** Each character takes one or two code units. */
  lemma {:induction false} Utf16Bounds(s: string)
    ensures |s| <= Utf16Length(s) <= 2 * |s|
  {
    if |s| > 0 {
      Utf16Bounds(s[1..]);
    }
  }

  /** The length of a concatenation is the sum of the lengths. */
  lemma {:induction false} Utf16Append(a: string, b: string)
    ensures Utf16Length(a + b) == Utf16Length(a) + Utf16Length(b)
  {
    if |a| > 0 {
      assert (a + b)[1..] == a[1..] + b;
      Utf16Append(a[1..], b);
    } else {
      assert a + b == b;
    }
  }

  /** In the Basic Multilingual Plane the two lengths agree. */
  lemma {:induction false} Utf16Bmp(s: string)
    requires forall i :: 0 <= i < |s| ==> s[i] as int < 0x1_0000
    ensures Utf16Length(s) == |s|
  {
    if |s| > 0 {
      Utf16Bmp(s[1..]);
    }
  }

  /** `Math.ceil(text.length / 4)`: the least `t` with `4 * t >= text.length`. */
  function EstimateTokens(text: string): (t: nat)
    ensures 4 * t >= Utf16Length(text)
    ensures 4 * (t - 1) < Utf16Length(text)
  {
    (Utf16Length(text) + 3) / 4
  }

  /** A text with more code units never has a smaller estimate. */
  lemma EstimateMonotone(a: string, b: string)
    requires Utf16Length(a) <= Utf16Length(b)
    ensures EstimateTokens(a) <= EstimateTokens(b)
  {
  }

  /** Appending text never lowers the estimate. */
  lemma EstimateAppend(a: string, b: string)
    ensures EstimateTokens(a) <= EstimateTokens(a + b)
  {
    Utf16Append(a, b);
  }

  /** Only the empty text is estimated at zero tokens. */
  lemma EstimateZero(text: string)
    ensures EstimateTokens(text) == 0 <==> |text| == 0
  {
    Utf16Bounds(text);
  }
}
