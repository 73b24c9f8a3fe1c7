/**
 The street-crime script's per-record field extraction: the outcome label,
 the fields that default to "Unknown", and the category with its hyphens
 turned into spaces.
 */
module StreetCrime {
  import opened Json
  import MarkerPlacement

  /** `crime['location']`: its own scalar fields, its `street` field, and the coordinate. */
  datatype Location = Location(fields: Object, street: Nested<Object>, point: MarkerPlacement.GeoPoint)

  /**
   One decoded crime: its scalar fields, its `outcome_status` field (an object
   such as {"category": …, "date": …}, or `null`), and its `location` field.
   */
  datatype Crime = Crime(fields: Object, outcomeStatus: Nested<Object>, location: Nested<Location>)

  /** What the popup shows of one crime, before title-casing. */
  datatype Summary = Summary(
    category: string,
    locationType: string,
    streetId: Value,
    streetName: Value,
    outcome: Value,
    month: Value)

  const NoOutcome: Value := Text("No outcome available")

  /** Python truthiness of a present `outcome_status`: `{}` and falsy scalars such as `null` are false. */
  predicate StatusTruthy(st: Nested<Object>)
  {
    match st
    case Missing => false
    case Scalar(v) => Truthy(v)
    case Present(fields) => fields != map[]
  }

  /** Line 59 evaluates without raising: the status is there and, when truthy, is an object with a category. */
  predicate OutcomeReadable(st: Nested<Object>)
  {
    !st.Missing? && (StatusTruthy(st) ==> st.Present? && "category" in st.value)
  }

  /** `s.replace('-', ' ')`. */
  function ReplaceHyphens(s: string): (r: string)
    ensures |r| == |s|
    ensures forall i :: 0 <= i < |s| ==> r[i] == (if s[i] == '-' then ' ' else s[i])
    ensures '-' !in r
  {
    if |s| == 0 then ""
    else
      var init := ReplaceHyphens(s[..|s| - 1]);
      init + [if s[|s| - 1] == '-' then ' ' else s[|s| - 1]]
  }

  /** A category without hyphens is shown as it is. */
  lemma ReplaceHyphensKeepsPlain(s: string)
    requires '-' !in s
    ensures ReplaceHyphens(s) == s
  {
  }

  /**
   The first exception evaluating one record raises, if any; `Ok` otherwise.
   The checks come in the order the record's fields are read.
   */
  function Summarize(c: Crime): (r: Result<Summary>)
    ensures r.Ok? <==>
              && c.location.Present?
              && OutcomeReadable(c.outcomeStatus)
              && c.location.value.street.Present?
              && "category" in c.fields && c.fields["category"].Text?
              && Get(c.location.value.fields, "location_type", Unknown).Text?
    ensures c.location.Missing? ==> r == Err(KeyError("location"))
    ensures !c.location.Missing? && c.outcomeStatus.Missing? ==> r == Err(KeyError("outcome_status"))
    ensures !c.location.Missing? && c.outcomeStatus.Scalar? && StatusTruthy(c.outcomeStatus)
            ==> r == Err(TypeError("outcome_status"))
    ensures (!c.location.Missing? && c.outcomeStatus.Present? && StatusTruthy(c.outcomeStatus)
             && "category" !in c.outcomeStatus.value) ==> r == Err(KeyError("category"))
    ensures c.location.Scalar? && OutcomeReadable(c.outcomeStatus) ==> r == Err(AttributeError("location"))
    ensures c.location.Present? && OutcomeReadable(c.outcomeStatus) && c.location.value.street.Missing?
            ==> r == Err(KeyError("street"))
    ensures c.location.Present? && OutcomeReadable(c.outcomeStatus) && c.location.value.street.Scalar?
            ==> r == Err(AttributeError("street"))
    ensures (c.location.Present? && OutcomeReadable(c.outcomeStatus) && c.location.value.street.Present?
             && "category" !in c.fields) ==> r == Err(KeyError("category"))
    ensures r.Ok? && StatusTruthy(c.outcomeStatus) ==> r.value.outcome == c.outcomeStatus.value["category"]
    ensures r.Ok? && !StatusTruthy(c.outcomeStatus) ==> r.value.outcome == NoOutcome
    ensures r.Ok? ==> '-' !in r.value.category && |r.value.category| == |c.fields["category"].s|
    ensures r.Ok? && '-' !in c.fields["category"].s ==> r.value.category == c.fields["category"].s
    ensures r.Ok? && "location_type" !in c.location.value.fields ==> r.value.locationType == "Unknown"
    ensures r.Ok? && "location_type" in c.location.value.fields ==>
              Text(r.value.locationType) == c.location.value.fields["location_type"]
    ensures r.Ok? ==> r.value.streetId == Get(c.location.value.street.value, "id", Unknown)
    ensures r.Ok? ==> r.value.streetName == Get(c.location.value.street.value, "name", Unknown)
    ensures r.Ok? && "month" !in c.fields ==> r.value.month == Unknown
    ensures r.Ok? && "month" in c.fields ==> r.value.month == c.fields["month"]
  {
    if c.location.Missing? then Err(KeyError("location"))
    else
      var outcome :=
        match c.outcomeStatus
        case Missing => Err(KeyError("outcome_status"))
        case Scalar(v) => if Truthy(v) then Err(TypeError("outcome_status")) else Ok(NoOutcome)
        case Present(fields) =>
          if fields == map[] then Ok(NoOutcome)
          else if "category" in fields then Ok(fields["category"])
          else Err(KeyError("category"));
      if outcome.Err? then Err(outcome.error)
      else if c.location.Scalar? then Err(AttributeError("location"))
      else
        var location := c.location.value;
        var locationType := Get(location.fields, "location_type", Unknown);
        match location.street
        case Missing => Err(KeyError("street"))
        case Scalar(_) => Err(AttributeError("street"))
        case Present(street) =>
          var streetId := Get(street, "id", Unknown);
          var streetName := Get(street, "name", Unknown);
          var month := Get(c.fields, "month", Unknown);
          if "category" !in c.fields then Err(KeyError("category"))
          else if !c.fields["category"].Text? then Err(AttributeError("category"))
          else if !locationType.Text? then Err(AttributeError("location_type"))
          else
            Ok(Summary(ReplaceHyphens(c.fields["category"].s), locationType.s, streetId, streetName,
                       outcome.value, month))
  }
}
