/**
 * Vehicle ids of the form `<type>_<index>`: rendering the fleet ids
 * `idm_0, idm_1, ...` (`f'idm_{cid}'`) and reading the index back
 * (`int(veh_id.split('_')[1])`).
 */
module VehicleIds {
  import opened Kinematics

  predicate IsDigit(c: char)
  {
    '0' <= c <= '9'
  }

  predicate AllDigits(s: string)
  {
    forall i :: 0 <= i < |s| ==> IsDigit(s[i])
  }

  function DigitChar(d: nat): (c: char)
    requires d < 10
    ensures IsDigit(c) && c as int - '0' as int == d
  {
    ('0' as int + d) as char
  }

  /** The decimal rendering of `k`, as Python's `str(k)`. */
  function Decimal(k: nat): (s: string)
    ensures |s| > 0 && AllDigits(s)
    ensures '_' !in s
    decreases k
  {
    if k < 10 then [DigitChar(k)] else Decimal(k / 10) + [DigitChar(k % 10)]
  }

  /** `f'idm_{k}'`: the id the ring experiment gives its k-th vehicle. */
  function IdmId(k: nat): VehicleId
  {
    "idm_" + Decimal(k)
  }

  /** The value of a string of ASCII digits, read left to right. */
  function DigitsValue(s: string): nat
    requires AllDigits(s)
  {
    if s == [] then 0
    else DigitsValue(s[..|s| - 1]) * 10 + (s[|s| - 1] as int - '0' as int)
  }

  /** `int(t)` for a text with no surrounding blanks: an optional sign, then one or more digits. */
  function ParseInt(t: string): (r: Option<int>)
    ensures AllDigits(t) && t != [] ==> r == Some(DigitsValue(t))
    ensures t == [] ==> r.None?
  {
    if t == [] then None
    else if (t[0] == '+' || t[0] == '-') && |t| > 1 && AllDigits(t[1..]) then
      Some(if t[0] == '-' then -(DigitsValue(t[1..]) as int) else DigitsValue(t[1..]))
    else if AllDigits(t) then Some(DigitsValue(t))
    else None
  }

  /** `s.split('_')[0]`: everything before the first underscore. */
  function FirstField(s: string): (f: string)
    ensures '_' !in f
    ensures f <= s
    ensures |f| < |s| ==> s[|f|] == '_'
  {
    if s == [] || s[0] == '_' then [] else [s[0]] + FirstField(s[1..])
  }

  /** `s.split('_')[1]`, or `None` where Python raises IndexError (no underscore). */
  function SecondField(s: string): (r: Option<string>)
    ensures r.None? <==> '_' !in s
    ensures r.Some? ==> '_' !in r.value
  {
    if s == [] then None
    else if s[0] == '_' then Some(FirstField(s[1..]))
    else SecondField(s[1..])
  }

  /** `int(veh_id.split('_')[1])` with the exception each failure raises. */
  function CarIndex(id: VehicleId): (r: Result<int>)
    ensures r == Err(IndexError) <==> '_' !in id
    ensures r.Err? ==> r.error != ZeroDivisionError
  {
    match SecondField(id)
    case None => Err(IndexError)
    case Some(field) =>
      match ParseInt(field)
      case None => Err(ValueError)
      case Some(k) => Ok(k)
  }

  lemma {:induction false} DecimalValue(k: nat)
    ensures DigitsValue(Decimal(k)) == k
    decreases k
  {
    if k >= 10 {
      var s := Decimal(k);
      assert s[..|s| - 1] == Decimal(k / 10);
      DecimalValue(k / 10);
    }
  }

  lemma {:induction false} SecondFieldAfterPrefix(prefix: string, rest: string)
    requires '_' !in prefix
    ensures SecondField(prefix + "_" + rest) == Some(FirstField(rest))
    decreases |prefix|
  {
    var s := prefix + "_" + rest;
    if prefix == [] {
      assert s[0] == '_' && s[1..] == rest;
    } else {
      assert s[0] == prefix[0] && s[0] != '_';
      assert s[1..] == prefix[1..] + "_" + rest;
      SecondFieldAfterPrefix(prefix[1..], rest);
    }
  }

  lemma {:induction false} FirstFieldOfDigits(s: string)
    requires AllDigits(s)
    ensures FirstField(s) == s
  {
    if s != [] {
      FirstFieldOfDigits(s[1..]);
    }
  }

  /** Reading the index back from `<type>_<k>` gives `k`. */
  lemma CarIndexRoundTrip(prefix: string, k: nat)
    requires '_' !in prefix
    ensures CarIndex(prefix + "_" + Decimal(k)) == Ok(k)
  {
    SecondFieldAfterPrefix(prefix, Decimal(k));
    FirstFieldOfDigits(Decimal(k));
    DecimalValue(k);
  }

  lemma IdmIdIndex(k: nat)
    ensures CarIndex(IdmId(k)) == Ok(k)
  {
    assert IdmId(k) == "idm" + "_" + Decimal(k);
    CarIndexRoundTrip("idm", k);
  }
}
