/** The query validators of `api/lib/validators.js`: total functions from an optional
    query-string value to `Valid(value)` or `Invalid(error)`. */
module LibValidators {
  import opened Common
  import opened Js
  import opened Patterns

  const StopCodeRequired := "Bus stop code is required"
  const StopCodeMalformed := "Invalid bus stop code. It should be a 5-digit number"
  const ServiceMalformed := "Invalid service number format"
  const SkipMalformed := "Skip parameter must be a non-negative integer"
  const LimitMalformed := "Limit parameter must be a positive integer"
  const LimitExceeded := "Limit parameter cannot exceed "
  const BboxShape := "Bbox parameter must be 4 comma-separated numbers: lng1,lat1,lng2,lat2"
  const BboxNumbers := "Bbox parameter must contain valid numbers"
  const LongitudeRange := "Longitude values must be between -180 and 180"
  const LatitudeRange := "Latitude values must be between -90 and 90"

  /** The limit `validateLimit` uses when its caller passes none. */
  const DefaultMaxLimit := 100

  /** `/^[a-zA-Z0-9]{1,3}[a-zA-Z]?$/`. */
  const ServicePattern := [Term(Alphanumeric, 1, 3), Term(Letter, 0, 1)]

  /** `validateBusStopCode`: a missing code is required; a valid code is five digits and
      is returned unchanged. */
  function ValidateBusStopCode(busStopCode: Option<string>): (r: Validation<string>)
    ensures !Given(busStopCode) ==> r == Invalid(StopCodeRequired)
    ensures r.Valid? <==> Given(busStopCode) && |busStopCode.value| == 5 && AllIn(busStopCode.value, Digit)
    ensures r.Valid? ==> r.value == busStopCode.value
    ensures Given(busStopCode) && r.Invalid? ==> r.error == StopCodeMalformed
  {
    if !Given(busStopCode) then Invalid(StopCodeRequired)
    else
      StopCodeShape(busStopCode.value);
      if !Test(StopCodePattern, busStopCode.value) then Invalid(StopCodeMalformed)
      else Valid(busStopCode.value)
  }

  /** A service number has one to three ASCII letters or digits, then possibly one letter. */
  lemma ServiceShape(s: string)
    ensures Test(ServicePattern, s) <==>
      1 <= |s| <= 4 && AllIn(s, Alphanumeric) && (|s| == 4 ==> IsAsciiLetter(s[3]))
  {
    TwoTerms(Term(Alphanumeric, 1, 3), Term(Letter, 0, 1), s);
    if Test(ServicePattern, s) {
      var j :| 1 <= j <= 3 && j <= |s| && AllIn(s[..j], Alphanumeric) &&
               (j == |s| || (j == |s| - 1 && InClass(s[j], Letter)));
      forall i | 0 <= i < |s|
        ensures InClass(s[i], Alphanumeric)
      {
        if i < j {
          assert s[..j][i] == s[i];
        }
      }
    }
    if 1 <= |s| <= 4 && AllIn(s, Alphanumeric) && (|s| == 4 ==> IsAsciiLetter(s[3])) {
      var j := if |s| <= 3 then |s| else 3;
      assert AllIn(s[..j], Alphanumeric);
      assert j == |s| || (j == |s| - 1 && InClass(s[j], Letter));
    }
  }

  /** `validateServiceNo`: optional (absent gives `null`); a valid number is returned
      unchanged and has at most four characters. */
  function ValidateServiceNo(serviceNo: Option<string>): (r: Validation<Option<string>>)
    ensures !Given(serviceNo) ==> r == Valid(None)
    ensures Given(serviceNo) ==>
      (r.Valid? <==> var s := serviceNo.value;
                     |s| <= 4 && AllIn(s, Alphanumeric) && (|s| == 4 ==> IsAsciiLetter(s[3])))
    ensures Given(serviceNo) && r.Valid? ==> r.value == serviceNo && |serviceNo.value| <= 4
    ensures r.Invalid? ==> r.error == ServiceMalformed
  {
    if !Given(serviceNo) then Valid(None)
    else
      ServiceShape(serviceNo.value);
      if !Test(ServicePattern, serviceNo.value) then Invalid(ServiceMalformed)
      else Valid(serviceNo)
  }

  /** `validateSkip`: absent is 0, otherwise `parseInt(skip, 10)`, which must be a
      non-negative number. */
  function ValidateSkip(skip: Option<string>): (r: Validation<int>)
    ensures r.Valid? ==> r.value >= 0
    ensures !Given(skip) ==> r == Valid(0)
    ensures r.Invalid? ==> r.error == SkipMalformed
  {
    if !Given(skip) then Valid(0)
    else
      var skipNumber := ParseInt(skip.value, true);
      if skipNumber.None? || skipNumber.value < 0 then Invalid(SkipMalformed)
      else Valid(skipNumber.value)
  }

  /** `validateSkip` accepts every non-negative integer written in decimal and returns it,
      and rejects every negative one. */
  lemma SkipReadsIntString(i: int)
    ensures ValidateSkip(Some(IntString(i))) == if i >= 0 then Valid(i) else Invalid(SkipMalformed)
  {
    ParseIntReadsIntString(i, true);
  }

  /** `validateLimit(limit, maxLimit)`: absent is 100 whatever `maxLimit` is; otherwise
      `parseInt(limit, 10)`, which must lie in `1..maxLimit`. */
  function ValidateLimit(limit: Option<string>, maxLimit: int): (r: Validation<int>)
    ensures !Given(limit) ==> r == Valid(100)
    ensures Given(limit) && r.Valid? ==> 1 <= r.value <= maxLimit
    ensures r.Invalid? ==> r.error == LimitMalformed || r.error == LimitExceeded + IntString(maxLimit)
  {
    if !Given(limit) then Valid(100)
    else
      var limitNumber := ParseInt(limit.value, true);
      if limitNumber.None? || limitNumber.value <= 0 then Invalid(LimitMalformed)
      else if limitNumber.value > maxLimit then Invalid(LimitExceeded + IntString(maxLimit))
      else Valid(limitNumber.value)
  }

  /** `validateLimit` returns every decimal integer in `1..maxLimit`, names the bound for a
      larger one and refuses the rest. */
  lemma LimitReadsIntString(i: int, maxLimit: int)
    ensures ValidateLimit(Some(IntString(i)), maxLimit) ==
      if i <= 0 then Invalid(LimitMalformed)
      else if i > maxLimit then Invalid(LimitExceeded + IntString(maxLimit))
      else Valid(i)
  {
    ParseIntReadsIntString(i, true);
  }

  /** `parseInt` with radix 10 stops at the `x` of a hexadecimal literal, which then
      reads as 0 and is refused. */
  lemma LimitIgnoresHex(rest: string, maxLimit: int)
    ensures ValidateLimit(Some("0x" + rest), maxLimit) == Invalid(LimitMalformed)
  {
    ParseIntDecimalHex(rest);
  }

  /** Text after the digits is ignored: `"50abc"` is read as 50. */
  lemma LimitIgnoresSuffix(i: int, rest: string, maxLimit: int)
    requires rest == [] || !IsDigit(rest[0])
    ensures ValidateLimit(Some(IntString(i) + rest), maxLimit) == ValidateLimit(Some(IntString(i)), maxLimit)
  {
    ParseIntIgnoresSuffix(i, rest);
    ParseIntReadsIntString(i, true);
    IntStringShape(i);
  }

  /** A parsed coordinate is usable: a number, not NaN. */
  predicate Coordinates(coordinates: seq<Number>)
  {
    |coordinates| == 4 && forall i :: 0 <= i < 4 ==> !coordinates[i].NaN?
  }

  predicate InRange(x: Number, bound: real)
  {
    AtMost(Finite(-bound), x) && AtMost(x, Finite(bound))
  }

  function ParseCoordinate(part: string): Number
  {
    ParseFloat(Trim(part))
  }

  /** The checks `validateBbox` makes on the four parsed coordinates. */
  function CheckCoordinates(coordinates: seq<Number>): (r: Validation<Option<seq<Number>>>)
    requires |coordinates| == 4
    ensures r.Valid? <==> r == Valid(Some(coordinates))
    ensures r.Valid? ==>
      && Coordinates(coordinates)
      && InRange(coordinates[0], 180.0) && InRange(coordinates[2], 180.0)
      && InRange(coordinates[1], 90.0) && InRange(coordinates[3], 90.0)
  {
    if exists i :: 0 <= i < 4 && coordinates[i].NaN? then Invalid(BboxNumbers)
    else
      var lng1, lat1, lng2, lat2 := coordinates[0], coordinates[1], coordinates[2], coordinates[3];
      if Less(lng1, Finite(-180.0)) || Less(Finite(180.0), lng1) ||
         Less(lng2, Finite(-180.0)) || Less(Finite(180.0), lng2) then Invalid(LongitudeRange)
      else if Less(lat1, Finite(-90.0)) || Less(Finite(90.0), lat1) ||
              Less(lat2, Finite(-90.0)) || Less(Finite(90.0), lat2) then Invalid(LatitudeRange)
      else Valid(Some(coordinates))
  }

  /** `validateBbox`: absent gives `null`; otherwise four comma-separated numbers read with
      `parseFloat`, longitudes (first and third) within 180 and latitudes (second and
      fourth) within 90 of 0. The order of the corners is not checked. */
  function ValidateBbox(bbox: Option<string>): (r: Validation<Option<seq<Number>>>)
    ensures !Given(bbox) ==> r == Valid(None)
    ensures Given(bbox) ==> (r.Valid? <==> r == Valid(Some(Map(Split(bbox.value, ','), ParseCoordinate))))
    ensures r.Valid? && r.value.Some? ==>
      var c := r.value.value;
      && Coordinates(c)
      && InRange(c[0], 180.0) && InRange(c[2], 180.0)
      && InRange(c[1], 90.0) && InRange(c[3], 90.0)
  {
    if !Given(bbox) then Valid(None)
    else
      var bboxParts := Split(bbox.value, ',');
      if |bboxParts| != 4 then Invalid(BboxShape)
      else CheckCoordinates(Map(bboxParts, ParseCoordinate))
  }

  /** The text `String` gives four integer coordinates, comma-separated. */
  function BboxText(lng1: int, lat1: int, lng2: int, lat2: int): string
  {
    Join([IntString(lng1), IntString(lat1), IntString(lng2), IntString(lat2)], ",")
  }

  /** An integer's text is one comma-free part read back as that integer. */
  lemma PartReadsInteger(v: int)
    ensures ',' !in IntString(v)
    ensures ParseCoordinate(IntString(v)) == Finite(v as real)
  {
    IntStringShape(v);
    ParseFloatReadsIntString(v);
    IntStringDigits(v);
  }

  /** The four parts of the text are read back as the four integers. */
  lemma BboxTextCoordinates(lng1: int, lat1: int, lng2: int, lat2: int)
    ensures Map(Split(BboxText(lng1, lat1, lng2, lat2), ','), ParseCoordinate) ==
      [Finite(lng1 as real), Finite(lat1 as real), Finite(lng2 as real), Finite(lat2 as real)]
  {
    var a, b, c, d := IntString(lng1), IntString(lat1), IntString(lng2), IntString(lat2);
    PartReadsInteger(lng1);
    PartReadsInteger(lat1);
    PartReadsInteger(lng2);
    PartReadsInteger(lat2);
    SplitFour(a, b, c, d);
    assert BboxText(lng1, lat1, lng2, lat2) == Join([a, b, c, d], ",");
    MapFour(a, b, c, d, ParseCoordinate);
  }

  /** Four finite coordinates pass exactly when they are in range. */
  lemma CheckFinite(lng1: real, lat1: real, lng2: real, lat2: real)
    ensures CheckCoordinates([Finite(lng1), Finite(lat1), Finite(lng2), Finite(lat2)]) ==
      if !(-180.0 <= lng1 <= 180.0 && -180.0 <= lng2 <= 180.0) then Invalid(LongitudeRange)
      else if !(-90.0 <= lat1 <= 90.0 && -90.0 <= lat2 <= 90.0) then Invalid(LatitudeRange)
      else Valid(Some([Finite(lng1), Finite(lat1), Finite(lng2), Finite(lat2)]))
  {
    var cs := [Finite(lng1), Finite(lat1), Finite(lng2), Finite(lat2)];
    assert !exists i :: 0 <= i < 4 && cs[i].NaN?;
  }

  /** A text that reads as four finite coordinates is accepted exactly when they are in range. */
  lemma BboxOfCoordinates(text: string, lng1: real, lat1: real, lng2: real, lat2: real)
    requires text != ""
    requires Map(Split(text, ','), ParseCoordinate) == [Finite(lng1), Finite(lat1), Finite(lng2), Finite(lat2)]
    ensures ValidateBbox(Some(text)) ==
      CheckCoordinates([Finite(lng1), Finite(lat1), Finite(lng2), Finite(lat2)])
  {
    assert |Split(text, ',')| == 4;
  }

  /** Four integer coordinates in range are read back, in whichever corner order; one
      longitude out of range is refused. */
  lemma BboxReadsIntegers(lng1: int, lat1: int, lng2: int, lat2: int)
    requires -90 <= lat1 <= 90 && -90 <= lat2 <= 90 && -180 <= lng2 <= 180
    ensures -180 <= lng1 <= 180 ==>
      ValidateBbox(Some(BboxText(lng1, lat1, lng2, lat2))) ==
        Valid(Some([Finite(lng1 as real), Finite(lat1 as real), Finite(lng2 as real), Finite(lat2 as real)]))
    ensures !(-180 <= lng1 <= 180) ==>
      ValidateBbox(Some(BboxText(lng1, lat1, lng2, lat2))) == Invalid(LongitudeRange)
  {
    var text := BboxText(lng1, lat1, lng2, lat2);
    BboxTextCoordinates(lng1, lat1, lng2, lat2);
    BboxOfCoordinates(text, lng1 as real, lat1 as real, lng2 as real, lat2 as real);
    CheckFinite(lng1 as real, lat1 as real, lng2 as real, lat2 as real);
  }
}
