/**
 * The I Ching search page: the typed text is read as a decimal integer the
 * way `parseInt(text, 10)` reads it, checked against the range 1..64, and
 * looked up in the hexagram table; the page then shows either an error text
 * or the hexagram found.
 */
module IchingSearch {
  import opened Wrappers
  import opened Text

  /** A hexagram of the table; only the number and name are read by the search. */
  datatype Hexagram = Hexagram(numero: int, name: string, judgment: string)

  const RangeError: string := "Por favor, introduce un número de hexagrama válido (del 1 al 64)."
  const NotFoundError: string :=
    "Hexagrama no encontrado. Parece que el número no corresponde a un hexagrama en nuestros datos."

  /** The number of leading characters of `s` satisfying `IsSpace`. */
  function LeadingSpaces(s: string): (k: nat)
    ensures k <= |s|
    ensures forall i :: 0 <= i < k ==> IsSpace(s[i])
    ensures k < |s| ==> !IsSpace(s[k])
  {
    if |s| == 0 || !IsSpace(s[0]) then 0 else 1 + LeadingSpaces(s[1..])
  }

  /** The number of leading decimal digits of `s`. */
  function DigitRun(s: string): (k: nat)
    ensures k <= |s|
    ensures forall i :: 0 <= i < k ==> IsDigit(s[i])
    ensures k < |s| ==> !IsDigit(s[k])
  {
    if |s| == 0 || !IsDigit(s[0]) then 0 else 1 + DigitRun(s[1..])
  }

  /** The value of a string of decimal digits, most significant first. */
  function DigitsValue(d: string): nat
    requires forall i :: 0 <= i < |d| ==> IsDigit(d[i])
  {
    if |d| == 0 then 0
    else
      assert IsDigit(d[|d| - 1]);
      DigitsValue(d[..|d| - 1]) * 10 + (d[|d| - 1] as int - '0' as int)
  }

  /**
   * `parseInt(s, 10)`: leading white space is skipped, one optional sign is
   * read, then the longest run of digits; without a digit the result is NaN
   * (`None`). Whatever follows the digits is ignored.
   */
  function ParseInt(s: string): Option<int>
  {
    var t := s[LeadingSpaces(s)..];
    var negative := |t| > 0 && t[0] == '-';
    var u := if |t| > 0 && (t[0] == '-' || t[0] == '+') then t[1..] else t;
    match ParseDigits(u)
    case None => None
    case Some(v) => Some(if negative then -(v as int) else v)
  }

  /** The value of the longest run of digits at the start of `u`; `None` when there is none. */
  function ParseDigits(u: string): (r: Option<nat>)
    ensures r.None? <==> |u| == 0 || !IsDigit(u[0])
  {
    var k := DigitRun(u);
    if k == 0 then None else Some(DigitsValue(u[..k]))
  }

  /** NaN exactly when no digit follows the white space and the optional sign. */
  lemma ParseIntNone(s: string)
    ensures ParseInt(s).None? <==>
      var t := s[LeadingSpaces(s)..];
      var u := if |t| > 0 && (t[0] == '-' || t[0] == '+') then t[1..] else t;
      |u| == 0 || !IsDigit(u[0])
  {
  }

  lemma ParseDigitsAll(d: string)
    requires |d| >= 1 && forall i :: 0 <= i < |d| ==> IsDigit(d[i])
    ensures ParseDigits(d) == Some(DigitsValue(d))
  {
    DigitRunAll(d);
    assert d[..|d|] == d;
  }

  lemma {:induction false} DigitsValueSnoc(d: string, c: char)
    requires forall i :: 0 <= i < |d| ==> IsDigit(d[i])
    requires IsDigit(c)
    ensures forall i :: 0 <= i < |d + [c]| ==> IsDigit((d + [c])[i])
    ensures DigitsValue(d + [c]) == DigitsValue(d) * 10 + (c as int - '0' as int)
  {
    assert (d + [c])[..|d|] == d;
  }

  /** Reading back the decimal rendering of a natural number gives the number. */
  lemma {:induction false} DigitsValueOfNat(n: nat)
    ensures DigitsValue(NatToString(n)) == n
    decreases n
  {
    if n >= 10 {
      DigitsValueOfNat(n / 10);
      DigitsValueSnoc(NatToString(n / 10), DigitChar(n % 10));
    }
  }

  /** `parseInt` reads back exactly the integer a template literal prints. */
  lemma ParseIntOfString(n: int)
    ensures ParseInt(IntToString(n)) == Some(n)
  {
    if n < 0 {
      assert DigitsValue(NatToString(-n)) == -n by {
        DigitsValueOfNat(-n);
      }
      assert IntToString(n)[1..] == NatToString(-n);
      ParseIntOfNegative(IntToString(n));
    } else {
      assert DigitsValue(NatToString(n)) == n by {
        DigitsValueOfNat(n);
      }
      ParseIntOfDigits(NatToString(n));
    }
  }

  /** A string of digits is read as its value. */
  lemma ParseIntOfDigits(d: string)
    requires |d| >= 1 && forall i :: 0 <= i < |d| ==> IsDigit(d[i])
    ensures ParseInt(d) == Some(DigitsValue(d))
  {
    assert IsDigit(d[0]);
    assert d[0] != '-' && d[0] != '+' && !IsSpace(d[0]);
    assert LeadingSpaces(d) == 0;
    assert d[0..] == d;
    ParseDigitsAll(d);
  }

  /** A minus sign followed by digits is read as the negated value. */
  lemma ParseIntOfNegative(s: string)
    requires |s| >= 2 && s[0] == '-' && forall i :: 1 <= i < |s| ==> IsDigit(s[i])
    ensures forall i :: 0 <= i < |s[1..]| ==> IsDigit(s[1..][i])
    ensures ParseInt(s) == Some(-(DigitsValue(s[1..]) as int))
  {
    var d := s[1..];
    assert forall i :: 0 <= i < |d| ==> IsDigit(d[i]);
    assert ParseInt(s) == (match ParseDigits(d) case None => None case Some(v) => Some(-(v as int))) by {
      assert LeadingSpaces(s) == 0;
      assert s[0..] == s;
    }
    ParseDigitsAll(d);
  }

  lemma DigitRunAll(d: string)
    requires forall i :: 0 <= i < |d| ==> IsDigit(d[i])
    ensures DigitRun(d) == |d|
  {
    if |d| > 0 {
      DigitRunAll(d[1..]);
    }
  }

  /** The first hexagram of the table with the given number (the source's `find`). */
  function FindHexagram(data: seq<Hexagram>, n: int): (r: Option<Hexagram>)
    ensures r.None? <==> forall i :: 0 <= i < |data| ==> data[i].numero != n
    ensures r.Some? ==> exists i :: (0 <= i < |data| && data[i] == r.value && r.value.numero == n
      && forall j :: 0 <= j < i ==> data[j].numero != n)
  {
    if |data| == 0 then None
    else if data[0].numero == n then Some(data[0])
    else
      var r := FindHexagram(data[1..], n);
      assert forall i :: 1 <= i < |data| ==> data[i] == data[1..][i - 1];
      r
  }

  /** What a search leaves on the page: the error text and the hexagram shown. */
  datatype Outcome = Outcome(error: string, hexagram: Option<Hexagram>)

  /**
   * The outcome of searching for `input`: the range error for text that is
   * not a number or is outside 1..64, the hexagram found with no error, or
   * the not-found error. Exactly one of "an error is shown" and "a hexagram
   * is shown" holds.
   */
  function Search(data: seq<Hexagram>, input: string): (r: Outcome)
    ensures (r.error != "") <==> r.hexagram.None?
    ensures r.error == RangeError <==>
      ParseInt(input).None? || ParseInt(input).value < 1 || ParseInt(input).value > 64
    ensures r.hexagram.Some? ==>
      ParseInt(input) == Some(r.hexagram.value.numero) && 1 <= r.hexagram.value.numero <= 64
      && r.hexagram == FindHexagram(data, r.hexagram.value.numero)
    ensures r.error == NotFoundError <==>
      ParseInt(input).Some? && 1 <= ParseInt(input).value <= 64
      && forall i :: 0 <= i < |data| ==> data[i].numero != ParseInt(input).value
    ensures r.error == "" || r.error == RangeError || r.error == NotFoundError
    ensures (&& ParseInt(input).Some? && 1 <= ParseInt(input).value <= 64
             && exists i :: 0 <= i < |data| && data[i].numero == ParseInt(input).value)
      ==> r.error == "" && r.hexagram == FindHexagram(data, ParseInt(input).value)
  {
    var num := ParseInt(input);
    if num.None? || num.value < 1 || num.value > 64 then Outcome(RangeError, None)
    else
      match FindHexagram(data, num.value)
      case Some(h) => Outcome("", Some(h))
      case None => Outcome(NotFoundError, None)
  }

  /** Searching for a number printed in decimal finds that number's hexagram when it is in range. */
  lemma SearchNumber(data: seq<Hexagram>, n: int)
    requires 1 <= n <= 64
    requires exists i :: 0 <= i < |data| && data[i].numero == n
    ensures Search(data, IntToString(n)).hexagram == FindHexagram(data, n)
    ensures Search(data, IntToString(n)).hexagram.value.numero == n
  {
    ParseIntOfString(n);
  }

  /** The search page: the typed text, the error shown and the hexagram shown. */
  class IchingSearchPage {
    const data: seq<Hexagram>
    var hexagramNumber: string
    var hexagramInterpretation: Option<Hexagram>
    var error: string

    constructor(data: seq<Hexagram>)
      ensures this.data == data
      ensures hexagramNumber == "" && hexagramInterpretation.None? && error == ""
    {
      this.data := data;
      hexagramNumber := "";
      hexagramInterpretation := None;
      error := "";
    }

    method SetHexagramNumber(text: string)
      modifies this
      ensures hexagramNumber == text
      ensures hexagramInterpretation == old(hexagramInterpretation) && error == old(error)
    {
      hexagramNumber := text;
    }

    /**
     * Clears the previous outcome, then sets the error or the hexagram. The
     * typed text is kept.
     */
    method HandleSearch()
      modifies this
      ensures hexagramNumber == old(hexagramNumber)
      ensures Outcome(error, hexagramInterpretation) == Search(data, hexagramNumber)
    {
      error := "";
      hexagramInterpretation := None;
      var num := ParseInt(hexagramNumber);
      if num.None? || num.value < 1 || num.value > 64 {
        error := RangeError;
        return;
      }
      var found := FindHexagram(data, num.value);
      if found.Some? {
        hexagramInterpretation := found;
      } else {
        error := NotFoundError;
      }
    }
  }
}
