/** Where a logged chat-completion record keeps the reason the model stopped:
    either flat, at the top level, or nested as an OpenAI response carries it. */
module FinishReason {
  import opened Json

  /** `extract_finish_reason(entry)`. A value counts as present only when it is
      truthy; an absent or falsy `response`, `choices` or first choice stands
      for `{}`, `[]` and `{}`; `.get` on a truthy value that is not a
      dictionary raises. None is returned as JNull. */
  function ExtractFinishReason(entry: Json): (r: Result<Json>)
    ensures r.Ok? ==> entry.JObject?
    ensures r.Ok? ==> r.value == JNull || Truthy(r.value)
  {
    if !entry.JObject? then Raises(AttributeError)
    else
      var fr := GetOr(entry.fields, "finish_reason", JNull);
      if Truthy(fr) then Ok(fr)
      else
        var resp := Or(GetOr(entry.fields, "response", JNull), JObject([]));
        if !resp.JObject? then Raises(AttributeError)
        else
          var choices := Or(GetOr(resp.fields, "choices", JNull), JArray([]));
          if Truthy(choices) && choices.JArray? then
            var ch0 := Or(choices.items[0], JObject([]));
            if !ch0.JObject? then Raises(AttributeError)
            else
              var nested := GetOr(ch0.fields, "finish_reason", JNull);
              if Truthy(nested) then Ok(nested) else Ok(JNull)
          else Ok(JNull)
  }

  /** The flat reason: a truthy top-level `finish_reason`. */
  function TopLevelReason(entry: Json): Option<Json> {
    if entry.JObject? && Get(entry.fields, "finish_reason").Some?
       && Truthy(Get(entry.fields, "finish_reason").value)
    then Some(Get(entry.fields, "finish_reason").value)
    else None
  }

  /** The nested reason: `response` is an object whose `choices` is a non-empty
      list whose first element is an object with a truthy `finish_reason`. */
  function NestedReason(entry: Json): Option<Json> {
    if !entry.JObject? then None
    else match Get(entry.fields, "response")
      case Some(JObject(resp)) =>
        (match Get(resp, "choices")
         case Some(JArray(choices)) =>
           if choices != [] && choices[0].JObject? && Get(choices[0].fields, "finish_reason").Some?
              && Truthy(Get(choices[0].fields, "finish_reason").value)
           then Some(Get(choices[0].fields, "finish_reason").value)
           else None
         case _ => None)
      case _ => None
  }

  /** The record shapes on which the lookup crashes: the record is not a
      dictionary; or there is no flat reason and either `response` is truthy
      but not a dictionary, or its `choices` is a non-empty list whose first
      element is truthy but not a dictionary. */
  predicate Crashes(entry: Json) {
    !entry.JObject?
    || (TopLevelReason(entry).None?
        && match Get(entry.fields, "response")
           case Some(JObject(resp)) =>
             (match Get(resp, "choices")
              case Some(JArray(choices)) =>
                choices != [] && Truthy(choices[0]) && !choices[0].JObject?
              case _ => false)
           case Some(v) => Truthy(v)
           case None => false)
  }

  /** The lookup priority: the flat reason wins, then the nested one, then
      None; it raises exactly on the crashing shapes. */
  lemma FinishReasonPriority(entry: Json)
    ensures Crashes(entry) <==> ExtractFinishReason(entry).Raises?
    ensures !Crashes(entry) && TopLevelReason(entry).Some? ==>
              ExtractFinishReason(entry) == Ok(TopLevelReason(entry).value)
    ensures !Crashes(entry) && TopLevelReason(entry).None? && NestedReason(entry).Some? ==>
              ExtractFinishReason(entry) == Ok(NestedReason(entry).value)
    ensures !Crashes(entry) && TopLevelReason(entry).None? && NestedReason(entry).None? ==>
              ExtractFinishReason(entry) == Ok(JNull)
  {
    if entry.JObject? && TopLevelReason(entry).None? {
      var resp := GetOr(entry.fields, "response", JNull);
      if resp.JObject? {
        var choices := GetOr(resp.fields, "choices", JNull);
        if choices.JArray? && choices.items != [] {
          assert Or(choices, JArray([])) == choices;
        }
      }
    }
  }

  /** A truthy top-level `finish_reason` is returned whatever `response`
      holds, even a value the nested lookup would crash on. */
  lemma TopLevelOverridesResponse(fields: seq<Field>, response: Json)
    requires Truthy(GetOr(fields, "finish_reason", JNull))
    ensures ExtractFinishReason(JObject(Put(fields, "response", response)))
         == ExtractFinishReason(JObject(fields))
         == Ok(GetOr(fields, "finish_reason", JNull))
  {
    assert Get(Put(fields, "response", response), "finish_reason") == Get(fields, "finish_reason");
  }

  /** `is_tool_calls(fr)`: the value is the string "tool_calls". The test
      holds for exactly one value, which is truthy, and never for a missing
      reason. */
  predicate IsToolCalls(fr: Json)
    ensures IsToolCalls(fr) <==> fr == JString("tool_calls")
    ensures IsToolCalls(fr) ==> Truthy(fr)
  {
    fr.JString? && fr.s == "tool_calls"
  }
}
