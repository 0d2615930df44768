/** The query validators of `api/utils/validators.js`, which the API handlers use: total
    functions from an optional query-string value to `Valid(value)` or `Invalid(error)`.
    Where the source returns `{ valid: true }` without a value, the value is `()` or `None`. */
module UtilsValidators {
  import opened Common
  import opened Js
  import opened Patterns

  const StopCodeRequired := "busStopCode parameter is required"
  const StopCodeBlank := "busStopCode must be a non-empty string"
  const StopCodeMalformed := "busStopCode must be a 5-digit number"
  const ServiceBlank := "serviceNo must be a non-empty string"
  const ServiceMalformed := "serviceNo must be 1-4 digits optionally followed by a letter"
  const LimitMalformed := "limit must be a positive number"
  const LimitExceeded := "limit cannot exceed "
  const BboxShape := "bbox must be in format \"lng1,lat1,lng2,lat2\""
  const BboxOrder := "bbox coordinates must form a valid bounding box"
  const SkipMalformed := "skip must be a non-negative number"

  /** The limit `validateLimit` uses when its caller passes none. */
  const DefaultMaxLimit := 1000

  /** `/^[0-9]{1,4}[A-Z]?$/`, matched against the upper-cased service number. */
  const ServicePattern := [Term(Digit, 1, 4), Term(Upper, 0, 1)]

  /** `validateBusStopCode`: a missing code is required, a blank one is refused, and a
      valid code is five digits. */
  function ValidateBusStopCode(busStopCode: Option<string>): (r: Validation<()>)
    ensures !Given(busStopCode) ==> r == Invalid(StopCodeRequired)
    ensures Given(busStopCode) && Trim(busStopCode.value) == "" ==> r == Invalid(StopCodeBlank)
    ensures r.Valid? <==> Given(busStopCode) && |busStopCode.value| == 5 && AllIn(busStopCode.value, Digit)
  {
    if !Given(busStopCode) then Invalid(StopCodeRequired)
    else if Trim(busStopCode.value) == "" then Invalid(StopCodeBlank)
    else
      StopCodeShape(busStopCode.value);
      if !Test(StopCodePattern, busStopCode.value) then Invalid(StopCodeMalformed)
      else Valid(())
  }

  /** A five-digit code is never blank, so the blank check never hides a valid code. */
  lemma StopCodeNotBlank(s: string)
    requires |s| == 5 && AllIn(s, Digit)
    ensures Trim(s) == s
  {
    assert !IsWhiteSpace(s[0]) && !IsWhiteSpace(s[4]);
    assert TrimStart(s) == s;
  }

  /** One to four digits, then possibly one character whose upper case is a letter. */
  predicate ServiceNumberShape(s: string)
  {
    || (1 <= |s| <= 4 && AllIn(s, Digit))
    || (2 <= |s| <= 5 && AllIn(s[..|s| - 1], Digit) && IsUpperAscii(UpperChar(s[|s| - 1])))
  }

  /** The upper-cased service number is one to four digits, then possibly one letter;
      in the original string that letter may be lower case, or a dotless i or long s,
      whose upper cases are `I` and `S`. */
  lemma ServiceShape(s: string)
    ensures Test(ServicePattern, ToUpper(s)) <==> ServiceNumberShape(s)
  {
    var u := ToUpper(s);
    TwoTerms(Term(Digit, 1, 4), Term(Upper, 0, 1), u);
    assert forall i :: 0 <= i < |s| ==> (IsDigit(u[i]) <==> IsDigit(s[i]));
    if Test(ServicePattern, u) {
      var j :| 1 <= j <= 4 && j <= |u| && AllIn(u[..j], Digit) &&
               (j == |u| || (j == |u| - 1 && InClass(u[j], Upper)));
      assert forall i :: 0 <= i < j ==> u[..j][i] == u[i];
      if j == |u| {
        assert AllIn(s, Digit);
      } else {
        assert AllIn(s[..|s| - 1], Digit);
      }
    }
    if 1 <= |s| <= 4 && AllIn(s, Digit) {
      assert u[..|u|] == u;
      assert AllIn(u[..|u|], Digit);
    } else if 2 <= |s| <= 5 && AllIn(s[..|s| - 1], Digit) && IsUpperAscii(UpperChar(s[|s| - 1])) {
      var j := |u| - 1;
      assert forall i :: 0 <= i < j ==> u[..j][i] == u[i] && s[..|s| - 1][i] == s[i];
      assert AllIn(u[..j], Digit);
      assert InClass(u[j], Upper);
    }
  }

  /** `validateServiceNo`: optional; a blank number is refused; otherwise the upper-cased
      number must be one to four digits and at most one letter. */
  function ValidateServiceNo(serviceNo: Option<string>): (r: Validation<()>)
    ensures !Given(serviceNo) ==> r == Valid(())
    ensures Given(serviceNo) && Trim(serviceNo.value) == "" ==> r == Invalid(ServiceBlank)
    ensures Given(serviceNo) && Trim(serviceNo.value) != "" ==> (r.Valid? <==> ServiceNumberShape(serviceNo.value))
  {
    if !Given(serviceNo) then Valid(())
    else if Trim(serviceNo.value) == "" then Invalid(ServiceBlank)
    else
      ServiceShape(serviceNo.value);
      if !Test(ServicePattern, ToUpper(serviceNo.value)) then Invalid(ServiceMalformed)
      else Valid(())
  }

  /** Unlike the other validator, a four-digit number is accepted. */
  lemma FourDigitService()
    ensures ValidateServiceNo(Some("1234")).Valid?
  {
    assert !IsWhiteSpace('1');
    assert Trim("1234") != "";
  }

  /** A lower-case suffix is accepted. */
  lemma LowerCaseSuffix()
    ensures ValidateServiceNo(Some("10e")).Valid?
  {
    assert !IsWhiteSpace('1');
    assert Trim("10e") != "";
    assert "10e"[..2] == "10";
  }

  /** A number that starts with a letter is refused. */
  lemma LetterFirst()
    ensures ValidateServiceNo(Some("NR1")).Invalid?
  {
    assert !IsWhiteSpace('N');
    assert Trim("NR1") != "";
    assert !IsDigit("NR1"[0]) && !IsDigit("NR1"[..2][0]);
  }

  /** `validateLimit(limit, maxLimit)`: absent is 100; otherwise `parseInt(limit)`, which
      must lie in `1..maxLimit`. */
  function ValidateLimit(limit: Option<string>, maxLimit: int): (r: Validation<int>)
    ensures !Given(limit) ==> r == Valid(100)
    ensures Given(limit) && r.Valid? ==> 1 <= r.value <= maxLimit
    ensures r.Invalid? ==> r.error == LimitMalformed || r.error == LimitExceeded + IntString(maxLimit)
  {
    if !Given(limit) then Valid(100)
    else
      var numLimit := ParseInt(limit.value, false);
      if numLimit.None? || numLimit.value < 1 then Invalid(LimitMalformed)
      else if numLimit.value > maxLimit then Invalid(LimitExceeded + IntString(maxLimit))
      else Valid(numLimit.value)
  }

  /** `validateLimit` returns every decimal integer in `1..maxLimit`, names the bound for a
      larger one and refuses the rest. */
  lemma LimitReadsIntString(i: int, maxLimit: int)
    ensures ValidateLimit(Some(IntString(i)), maxLimit) ==
      if i < 1 then Invalid(LimitMalformed)
      else if i > maxLimit then Invalid(LimitExceeded + IntString(maxLimit))
      else Valid(i)
  {
    ParseIntReadsIntString(i, false);
    IntStringShape(i);
  }

  /** Without a radix, `parseInt` reads a hexadecimal limit: `"0x10"` is 16. */
  lemma LimitReadsHex()
    ensures ValidateLimit(Some("0x10"), DefaultMaxLimit) == Valid(16)
  {
    assert TrimStart("0x10") == "0x10";
    assert "0x10"[2..] == "10";
    assert DigitRun("", 16) == 0;
    assert DigitRun("0", 16) == 1;
    assert DigitRun("10", 16) == 2;
    assert "10"[..2] == "10" && "10"[..1] == "1";
    assert DigitsValue("10", 16) == 16;
  }

  /** `validateBbox`: optional; otherwise exactly four parts, each read with `Number`
      (so an empty part is 0), with the first corner strictly west and south of the
      second. Coordinates are not range-checked. */
  function ValidateBbox(bbox: Option<string>): (r: Validation<Option<seq<Number>>>)
    ensures !Given(bbox) ==> r == Valid(None)
    ensures Given(bbox) ==> (r.Valid? <==> r == Valid(Some(Map(Split(bbox.value, ','), ToNumber))))
    ensures r.Valid? && r.value.Some? ==>
      var c := r.value.value;
      |c| == 4 && (forall i :: 0 <= i < 4 ==> !c[i].NaN?) && Less(c[0], c[2]) && Less(c[1], c[3])
  {
    if !Given(bbox) then Valid(None)
    else CheckBox(Map(Split(bbox.value, ','), ToNumber))
  }

  /** The checks `validateBbox` makes on the parsed parts. */
  function CheckBox(coords: seq<Number>): (r: Validation<Option<seq<Number>>>)
    ensures r.Valid? <==> r == Valid(Some(coords))
    ensures r.Valid? <==>
      |coords| == 4 && (forall i :: 0 <= i < 4 ==> !coords[i].NaN?) && Less(coords[0], coords[2]) && Less(coords[1], coords[3])
  {
    if |coords| != 4 || exists i :: 0 <= i < 4 && coords[i].NaN? then Invalid(BboxShape)
    else
      var minLng, minLat, maxLng, maxLat := coords[0], coords[1], coords[2], coords[3];
      if !Less(minLng, maxLng) || !Less(minLat, maxLat) then Invalid(BboxOrder)
      else Valid(Some(coords))
  }

  /** The text `String` gives four integer coordinates, comma-separated. */
  function BboxText(minLng: int, minLat: int, maxLng: int, maxLat: int): string
  {
    Join([IntString(minLng), IntString(minLat), IntString(maxLng), IntString(maxLat)], ",")
  }

  /** Four finite coordinates pass exactly when the first corner is strictly west and
      south of the second. */
  lemma CheckFinite(minLng: real, minLat: real, maxLng: real, maxLat: real)
    ensures var r := CheckBox([Finite(minLng), Finite(minLat), Finite(maxLng), Finite(maxLat)]);
      r.Valid? <==> minLng < maxLng && minLat < maxLat
  {
  }

  lemma PartReadsInteger(v: int)
    ensures ',' !in IntString(v)
    ensures ToNumber(IntString(v)) == Finite(v as real)
  {
    NumberReadsIntString(v);
    IntStringDigits(v);
  }

  /** Four integer coordinates are read back, and accepted exactly when the first corner
      is strictly west and south of the second, whatever their range. */
  lemma BboxReadsIntegers(minLng: int, minLat: int, maxLng: int, maxLat: int)
    ensures var r := ValidateBbox(Some(BboxText(minLng, minLat, maxLng, maxLat)));
      && (r.Valid? <==> minLng < maxLng && minLat < maxLat)
      && (r.Valid? ==>
            r.value == Some([Finite(minLng as real), Finite(minLat as real), Finite(maxLng as real), Finite(maxLat as real)]))
  {
    var a, b, c, d := IntString(minLng), IntString(minLat), IntString(maxLng), IntString(maxLat);
    PartReadsInteger(minLng);
    PartReadsInteger(minLat);
    PartReadsInteger(maxLng);
    PartReadsInteger(maxLat);
    SplitFour(a, b, c, d);
    assert BboxText(minLng, minLat, maxLng, maxLat) == Join([a, b, c, d], ",");
    MapFour(a, b, c, d, ToNumber);
    CheckFinite(minLng as real, minLat as real, maxLng as real, maxLat as real);
  }

  /** An empty part reads as 0: leaving out the minimum latitude is the same as writing 0. */
  lemma EmptyPartIsZero(minLng: int, maxLng: int, maxLat: int)
    ensures ValidateBbox(Some(Join([IntString(minLng), "", IntString(maxLng), IntString(maxLat)], ","))) ==
            ValidateBbox(Some(BboxText(minLng, 0, maxLng, maxLat)))
  {
    var a, c, d := IntString(minLng), IntString(maxLng), IntString(maxLat);
    PartReadsInteger(minLng);
    PartReadsInteger(0);
    PartReadsInteger(maxLng);
    PartReadsInteger(maxLat);
    NumberOfBlank();
    SplitFour(a, "", c, d);
    SplitFour(a, IntString(0), c, d);
    assert BboxText(minLng, 0, maxLng, maxLat) == Join([a, IntString(0), c, d], ",");
    MapFour(a, "", c, d, ToNumber);
    MapFour(a, IntString(0), c, d, ToNumber);
  }

  /** `validateSkip`: absent is 0, otherwise `parseInt(skip)`, which must be a
      non-negative number. */
  function ValidateSkip(skip: Option<string>): (r: Validation<int>)
    ensures r.Valid? ==> r.value >= 0
    ensures !Given(skip) ==> r == Valid(0)
    ensures r.Invalid? ==> r.error == SkipMalformed
  {
    if !Given(skip) then Valid(0)
    else
      var numSkip := ParseInt(skip.value, false);
      if numSkip.None? || numSkip.value < 0 then Invalid(SkipMalformed)
      else Valid(numSkip.value)
  }

  /** `validateSkip` accepts every non-negative integer written in decimal and returns it,
      and rejects every negative one. */
  lemma SkipReadsIntString(i: int)
    ensures ValidateSkip(Some(IntString(i))) == if i >= 0 then Valid(i) else Invalid(SkipMalformed)
  {
    ParseIntReadsIntString(i, false);
    IntStringShape(i);
  }

  /** How the handlers read a validated box `[minLng, minLat, maxLng, maxLat]`: a point
      is inside when it lies within the bounds on every side, bounds included. */
  predicate InBox(lng: real, lat: real, box: seq<Number>)
    requires |box| == 4
  {
    AtMost(box[0], Finite(lng)) && AtMost(Finite(lng), box[2]) &&
    AtMost(box[1], Finite(lat)) && AtMost(Finite(lat), box[3])
  }
}
