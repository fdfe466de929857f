/**
 * The string helper of src/lib/utils.ts: `capitalizeFirstLetter`, which the
 * viewer applies to every key label it draws.
 *
 * JavaScript's `toUpperCase` is modelled on ASCII only: a lower-case letter
 * 'a'..'z' maps to its upper-case partner, every other character to itself.
 */
module Utils {

  predicate IsLowerAscii(c: char) {
    'a' <= c <= 'z'
  }

  /** `toUpperCase` of a one-character string, restricted to ASCII. */
  function UpperAscii(c: char): (u: char)
    ensures IsLowerAscii(c) ==> u as int == c as int - 32
    ensures !IsLowerAscii(c) ==> u == c
    ensures !IsLowerAscii(u)
  {
    if IsLowerAscii(c) then (c as int - 32) as char else c
  }

  /**
   * `key.charAt(0).toUpperCase() + key.slice(1)`. On the empty string both
   * `charAt(0)` and `slice(1)` are empty, so the result is empty.
   */
  function CapitalizeFirstLetter(key: string): (r: string)
    ensures |r| == |key|
    ensures forall i :: 1 <= i < |key| ==> r[i] == key[i]
    ensures key != [] ==> r[0] == UpperAscii(key[0])
  {
    if key == [] then [] else [UpperAscii(key[0])] + key[1..]
  }

  /** The empty key is returned as it is. */
  lemma CapitalizeEmpty()
    ensures CapitalizeFirstLetter("") == ""
  {
  }

  /** After capitalizing, the first character is never a lower-case letter. */
  lemma CapitalizeFirstNotLower(key: string)
    requires key != []
    ensures !IsLowerAscii(CapitalizeFirstLetter(key)[0])
  {
  }

  /**
   * The function changes its input exactly when the input starts with a
   * lower-case letter.
   */
  lemma CapitalizeFixedPoints(key: string)
    ensures CapitalizeFirstLetter(key) == key <==> key == [] || !IsLowerAscii(key[0])
  {
    var r := CapitalizeFirstLetter(key);
    if key != [] && IsLowerAscii(key[0]) {
      assert r[0] != key[0];
    }
  }

  /** Capitalizing twice is the same as capitalizing once. */
  lemma CapitalizeIdempotent(key: string)
    ensures CapitalizeFirstLetter(CapitalizeFirstLetter(key)) == CapitalizeFirstLetter(key)
  {
    var r := CapitalizeFirstLetter(key);
    if key != [] {
      CapitalizeFirstNotLower(key);
    }
    CapitalizeFixedPoints(r);
  }
}
