/** How the services read Airtable fields: the back end's lookup over lists of
    alternative field names (`getFieldValue` in
    functions/src/services/airtableService.ts) and the number coercion of the
    offer amount that both services share. */
module AirtableFields {

  import opened JsValues

  /** The value under the first name whose key is present; null if none is.
      A key holding `null` is present: only `undefined` (an absent key) is
      skipped. */
  function FirstDefined(fields: map<string, Value>, names: seq<string>): Value
    decreases |names|
  {
    if |names| == 0 then Null
    else if names[0] in fields then fields[names[0]]
    else FirstDefined(fields, names[1..])
  }

  /** The for-loop of `getFieldValue`, returning at the first defined name. */
  method GetFieldValue(fields: map<string, Value>, names: seq<string>) returns (v: Value)
    ensures v == FirstDefined(fields, names)
  {
    for i := 0 to |names|
      invariant FirstDefined(fields, names) == FirstDefined(fields, names[i..])
    {
      if names[i] in fields {
        return fields[names[i]];
      }
      assert names[i..][1..] == names[i + 1..];
    }
    assert names[|names|..] == [];
    return Null;
  }

  /** Earlier names win: the lookup yields the value under name i when i is
      the first present name. */
  lemma {:induction false} FirstDefinedPicksFirstPresent(fields: map<string, Value>, names: seq<string>, i: nat)
    requires i < |names| && names[i] in fields
    requires forall j :: 0 <= j < i ==> names[j] !in fields
    ensures FirstDefined(fields, names) == fields[names[i]]
    decreases i
  {
    if i > 0 {
      FirstDefinedPicksFirstPresent(fields, names[1..], i - 1);
    }
  }

  /** With no name present the lookup yields null. */
  lemma {:induction false} FirstDefinedAbsent(fields: map<string, Value>, names: seq<string>)
    requires forall j :: 0 <= j < |names| ==> names[j] !in fields
    ensures FirstDefined(fields, names) == Null
    decreases |names|
  {
    if |names| > 0 {
      FirstDefinedAbsent(fields, names[1..]);
    }
  }

  /** The offer amount: a number is kept, a string is parsed (0 when
      `parseFloat` gives NaN, modelled as None), anything else is 0. */
  function OfferAmount(raw: Value, parseFloat: string -> Option<real>): (amount: real)
    ensures raw.Num? ==> amount == raw.n
    ensures raw.Str? ==> amount == (if parseFloat(raw.s).Some? then parseFloat(raw.s).value else 0.0)
    ensures !raw.Num? && !raw.Str? ==> amount == 0.0
  {
    match raw
    case Num(n) => n
    case Str(s) =>
      (match parseFloat(s)
       case Some(x) => x
       case None => 0.0)
    case _ => 0.0
  }
}
