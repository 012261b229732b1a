/**
 * The dashboard's byte formatter (public/app.js `humanBytes`): the unit a
 * count is shown in, the scaled value and the number of decimals. Numbers
 * are exact reals; the rounding of `toFixed` is not modelled.
 */
module HumanBytes {
  import opened Wrappers

  const Units: seq<string> := ["B", "KB", "MB", "GB", "TB"]

  /** The index of the largest unit ("TB"). */
  const LastUnit: nat := 4

  /** `1024^n`. */
  function Pow1024(n: nat): (p: real)
    ensures p >= 1.0
  {
    if n == 0 then 1.0 else 1024.0 * Pow1024(n - 1)
  }

  /** `Number(bytes) || 0`: a value that is not a number (NaN; here None) counts as 0. */
  function Coerce(bytes: Option<real>): real
  {
    match bytes
    case None => 0.0
    case Some(v) => v
  }

  /** The unit index for `v`: the largest `i <= 4` with `1024^i <= v`, or 0 (reference definition). */
  function UnitIndex(v: real): (i: nat)
    ensures i <= LastUnit
  {
    if v < Pow1024(1) then 0
    else if v < Pow1024(2) then 1
    else if v < Pow1024(3) then 2
    else if v < Pow1024(4) then 3
    else 4
  }

  /** The unit index brackets the value: `1024^i <= v` (for `i > 0`) and `v < 1024^(i+1)` below the last unit. */
  lemma {:induction false} UnitIndexBrackets(v: real)
    ensures UnitIndex(v) > 0 ==> Pow1024(UnitIndex(v)) <= v
    ensures UnitIndex(v) < LastUnit ==> v < Pow1024(UnitIndex(v) + 1)
    ensures v < 1024.0 ==> UnitIndex(v) == 0
  {
  }

  /** What `humanBytes` shows: `scaled.toFixed(decimals) + ' ' + unit`. */
  datatype Shown = Shown(scaled: real, decimals: nat, unit: string)

  /**
   * `humanBytes(bytes)`: divides by 1024 while the value is at least 1024
   * and a larger unit remains; no decimals for plain bytes, two otherwise.
   */
  method Format(bytes: Option<real>) returns (s: Shown)
    ensures var v := Coerce(bytes); var i := UnitIndex(v);
      s.unit == Units[i] && s.scaled * Pow1024(i) == v && s.decimals == (if i == 0 then 0 else 2)
    ensures var v := Coerce(bytes); var i := UnitIndex(v);
      (i > 0 ==> 1.0 <= s.scaled) && (i < LastUnit ==> s.scaled < 1024.0)
  {
    var v := Coerce(bytes);
    var val := v;
    var i: nat := 0;
    while val >= 1024.0 && i < |Units| - 1
      invariant i <= LastUnit
      invariant val * Pow1024(i) == v
      invariant i > 0 ==> val >= 1.0
      invariant i <= UnitIndex(v)
    {
      val := val / 1024.0;
      i := i + 1;
    }
    s := Shown(val, if i == 0 then 0 else 2, Units[i]);
  }
}
