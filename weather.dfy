/** The function-calling demo: a local `get_current_weather` with canned data for
    three cities, and the loop that runs each tool call the model proposes and
    appends its result to the conversation. JSON encoding of arguments and
    results is abstracted: arguments arrive already decoded, results stay records. */
module Weather {
  import opened Wrappers
  import opened Text

  /** The returned dict `{"location", "temperature", "unit"}`; `unit` is `None`
      when the caller passed `None`. */
  datatype WeatherReport = WeatherReport(location: string, temperature: string, unit: Option<string>)

  /** The unit used when the caller leaves it out. */
  const DefaultUnit: string := "fahrenheit"

  /** The report of a known city, or `None` if `lowered` names none of them. The
      cities are tried in the order of the `if`/`elif` chain. */
  function KnownCity(lowered: string): Option<(string, string)> {
    if Contains(lowered, "tokyo") then Some(("Tokyo", "10"))
    else if Contains(lowered, "san francisco") then Some(("San Francisco", "72"))
    else if Contains(lowered, "paris") then Some(("Paris", "22"))
    else None
  }

  /** `get_current_weather(location, unit)`. */
  function GetCurrentWeather(location: string, unit: Option<string>): (r: WeatherReport)
    ensures r.unit == unit
    ensures r.temperature == "unknown" <==> KnownCity(Lower(location)).None?
    ensures r.temperature == "unknown" ==> r.location == location
    ensures r.temperature != "unknown" ==> r.location in {"Tokyo", "San Francisco", "Paris"}
  {
    match KnownCity(Lower(location))
    case Some((name, temperature)) => WeatherReport(name, temperature, unit)
    case None => WeatherReport(location, "unknown", unit)
  }

  /** `get_current_weather(location)` with the unit left out. */
  function GetCurrentWeatherDefault(location: string): (r: WeatherReport)
    ensures r.unit == Some(DefaultUnit)
  {
    GetCurrentWeather(location, Some(DefaultUnit))
  }

  /** Matching ignores case: two spellings that differ only in letter case get the
      same city, temperature and unit (an unknown place keeps its own spelling). */
  lemma CaseInsensitive(a: string, b: string, unit: Option<string>)
    requires EqualIgnoringCase(a, b)
    ensures GetCurrentWeather(a, unit).temperature == GetCurrentWeather(b, unit).temperature
    ensures GetCurrentWeather(a, unit).temperature != "unknown" ==> GetCurrentWeather(a, unit) == GetCurrentWeather(b, unit)
  {
    EqualIgnoringCaseLower(a, b);
  }

  /** The lookup is a substring test on the lower-cased location, so any text around
      the city name is ignored. */
  lemma {:induction false} SurroundingTextIgnored(prefix: string, city: string, suffix: string)
    ensures Contains(Lower(prefix + city + suffix), Lower(city))
  {
    var s := prefix + city + suffix;
    var l := Lower(s);
    var lc := Lower(city);
    forall i | 0 <= i < |city| ensures l[|prefix| + i] == lc[i] {
      assert s[|prefix| + i] == city[i];
    }
    assert l[|prefix|..|prefix| + |city|] == lc;
    assert OccursAt(l, lc, |prefix|);
  }

  /** The first city in the chain wins: "tokyo" beats the others, "san francisco"
      beats "paris". */
  lemma FirstMatchWins(location: string, unit: Option<string>)
    ensures Contains(Lower(location), "tokyo") ==> GetCurrentWeather(location, unit) == WeatherReport("Tokyo", "10", unit)
    ensures !Contains(Lower(location), "tokyo") && Contains(Lower(location), "san francisco")
            ==> GetCurrentWeather(location, unit) == WeatherReport("San Francisco", "72", unit)
    ensures !Contains(Lower(location), "tokyo") && !Contains(Lower(location), "san francisco")
            && Contains(Lower(location), "paris")
            ==> GetCurrentWeather(location, unit) == WeatherReport("Paris", "22", unit)
  {
  }

  /** "Paris or Tokyo?" is answered for Tokyo, though Paris comes first in the text. */
  lemma TokyoBeforeParis(unit: Option<string>)
    ensures GetCurrentWeather("Paris or Tokyo?", unit) == WeatherReport("Tokyo", "10", unit)
  {
    assert "Paris or Tokyo?" == "Paris or " + "Tokyo" + "?";
    SurroundingTextIgnored("Paris or ", "Tokyo", "?");
    assert Lower("Tokyo") == "tokyo";
  }

  /** Capitals and trailing text do not stop "PARIS, FR" from matching Paris. */
  lemma ParisUpperCase(unit: Option<string>)
    ensures GetCurrentWeather("PARIS, FR", unit) == WeatherReport("Paris", "22", unit)
  {
    ParisFound();
    NoTokyoInParis();
    FirstMatchWins("PARIS, FR", unit);
  }

  lemma ParisFound()
    ensures Contains(Lower("PARIS, FR"), "paris")
  {
    assert "PARIS, FR" == "" + "PARIS" + ", FR";
    SurroundingTextIgnored("", "PARIS", ", FR");
    assert Lower("PARIS") == "paris";
  }

  lemma NoTokyoInParis()
    ensures !Contains(Lower("PARIS, FR"), "tokyo")
  {
    var location := "PARIS, FR";
    var l := Lower(location);
    forall i | 0 <= i < |l| ensures l[i] != 't' {
      assert l[i] == LowerChar(location[i]);
    }
    NotContainsWithoutFirst(l, "tokyo");
  }

  /** A place none of the three names keeps its own spelling. */
  lemma UnknownPlace(unit: Option<string>)
    ensures GetCurrentWeather("Osaka", unit) == WeatherReport("Osaka", "unknown", unit)
  {
    var l := Lower("Osaka");
    assert l == "osaka";
    NotContainsWithoutFirst(l, "tokyo");
    NotContainsWithoutFirst(l, "paris");
  }

  // ---------------------------------------------------------------------------
  // The tool-call loop
  // ---------------------------------------------------------------------------

  /** One proposed call: its id, the function name, and the decoded arguments. */
  datatype ToolCall = ToolCall(id: string, name: string, arguments: map<string, string>)

  datatype Message =
    | UserMessage(text: string)
    | AssistantMessage(reply: Option<string>, toolCalls: Option<seq<ToolCall>>)
    | ToolMessage(toolCallId: string, name: string, report: WeatherReport)

  /** `dict.get(key)`: the value, or `None` when the key is missing. */
  function Get(m: map<string, string>, key: string): (r: Option<string>)
    ensures r.Some? <==> key in m
    ensures r.Some? ==> r.value == m[key]
  {
    if key in m then Some(m[key]) else None
  }

  /** The `available_functions` table has exactly this one name. */
  const WeatherToolName: string := "get_current_weather"

  /** The call can run: it names the one available function and has a location. */
  predicate Runs(call: ToolCall) {
    call.name == WeatherToolName && "location" in call.arguments
  }

  /** One iteration of the loop: look the function up (KeyError for another name),
      call it with `location=args.get("location")` and `unit=args.get("unit")`
      (a missing location is `None`, whose `.lower()` raises AttributeError), and
      build the tool message. */

  function RunToolCall(call: ToolCall): (r: Result<Message>)
    ensures call.name != WeatherToolName ==> r == Err(KeyError)
    ensures call.name == WeatherToolName && "location" !in call.arguments ==> r == Err(AttributeError)
    ensures r.Ok? <==> Runs(call)
    ensures r.Ok? ==> r.value.ToolMessage? && r.value.toolCallId == call.id && r.value.name == call.name
    ensures r.Ok? ==> r.value.report == GetCurrentWeather(call.arguments["location"], Get(call.arguments, "unit"))
  {
    if call.name != WeatherToolName then Err(KeyError)
    else
      var location := Get(call.arguments, "location");
      if location.None? then Err(AttributeError)
      else Ok(ToolMessage(call.id, call.name, GetCurrentWeather(location.value, Get(call.arguments, "unit"))))
  }

  /** The number of leading calls that run without raising. */
  function Succeeding(calls: seq<ToolCall>): (n: nat)
    ensures n <= |calls|
    ensures forall i :: 0 <= i < n ==> Runs(calls[i])
    ensures n < |calls| ==> !Runs(calls[n])
  {
    if |calls| == 0 || !Runs(calls[0]) then 0 else 1 + Succeeding(calls[1..])
  }

  /** The tool messages of calls that all run without raising, in call order. */
  function Replies(calls: seq<ToolCall>): (r: seq<Message>)
    requires forall i :: 0 <= i < |calls| ==> Runs(calls[i])
    ensures |r| == |calls|
    decreases |calls|
  {
    if |calls| == 0 then []
    else Replies(calls[..|calls| - 1]) + [RunToolCall(calls[|calls| - 1]).value]
  }

  /** Reply `i` answers call `i`: a tool message with that call's id and name,
      reporting the weather for that call's location and unit. */
  lemma {:induction false} RepliesMatchCalls(calls: seq<ToolCall>)
    requires forall i :: 0 <= i < |calls| ==> Runs(calls[i])
    ensures forall i :: 0 <= i < |calls| ==>
              Replies(calls)[i] == RunToolCall(calls[i]).value
              && Replies(calls)[i].ToolMessage?
              && Replies(calls)[i].toolCallId == calls[i].id && Replies(calls)[i].name == calls[i].name
              && Replies(calls)[i].report == GetCurrentWeather(calls[i].arguments["location"], Get(calls[i].arguments, "unit"))
    decreases |calls|
  {
    if |calls| > 0 {
      RepliesMatchCalls(calls[..|calls| - 1]);
    }
  }

  /** A missing `unit` argument reaches the report as `None`: the function's
      "fahrenheit" default is not used, because `.get` passes `None` explicitly. */
  lemma MissingUnitIsNone(call: ToolCall)
    requires Runs(call) && "unit" !in call.arguments
    ensures RunToolCall(call).value.report.unit == None
  {
  }

  /** The conversation history, a list the script appends to in place. */
  class Conversation {
    var messages: seq<Message>

    constructor (userContent: string)
      ensures messages == [UserMessage(userContent)]
    {
      messages := [UserMessage(userContent)];
    }

    /** Append the assistant's message, then run its tool calls in order, appending
        one tool message each. The first call that raises stops the loop, with the
        messages of the earlier calls already appended; `tool_calls` being `None`
        raises TypeError when the loop starts. */
    method HandleResponse(responseMessage: Message) returns (r: Result<()>)
      requires responseMessage.AssistantMessage?
      modifies this
      ensures responseMessage.toolCalls.None? ==>
                messages == old(messages) + [responseMessage] && r == Err(TypeError)
      ensures responseMessage.toolCalls.Some? ==>
                var calls := responseMessage.toolCalls.value;
                var n := Succeeding(calls);
                messages == old(messages) + [responseMessage] + Replies(calls[..n])
                && (r.Ok? <==> n == |calls|)
                && (r.Err? ==> r.error == RunToolCall(calls[n]).error)
    {
      messages := messages + [responseMessage];
      if responseMessage.toolCalls.None? {
        return Err(TypeError);
      }
      var calls := responseMessage.toolCalls.value;
      var n := Succeeding(calls);
      SucceedingPrefix(calls);
      var start := messages;
      var i := 0;
      while i < |calls|
        invariant 0 <= i <= n
        invariant messages == start + Replies(calls[..i])
      {
        var reply := RunToolCall(calls[i]);
        if reply.Err? {
          assert n == i;
          return Err(reply.error);
        }
        RepliesSnoc(calls, i);
        messages := messages + [reply.value];
        i := i + 1;
      }
      assert calls[..i] == calls;
      r := Ok(());
    }
  }

  lemma RepliesSnoc(calls: seq<ToolCall>, i: int)
    requires 0 <= i < |calls| && forall j :: 0 <= j <= i ==> Runs(calls[j])
    ensures Replies(calls[..i + 1]) == Replies(calls[..i]) + [RunToolCall(calls[i]).value]
  {
    assert calls[..i + 1][..i] == calls[..i];
  }

  /** `Succeeding` stops exactly at the first call that raises. */
  lemma {:induction false} SucceedingPrefix(calls: seq<ToolCall>)
    ensures forall i :: 0 <= i < |calls| && !Runs(calls[i]) ==> Succeeding(calls) <= i
    decreases |calls|
  {
    if |calls| > 0 && Runs(calls[0]) {
      SucceedingPrefix(calls[1..]);
      forall i | 0 <= i < |calls| && !Runs(calls[i]) ensures Succeeding(calls) <= i {
        assert calls[1..][i - 1] == calls[i];
      }
    }
  }

  /** When every call names the weather function with a location, the history
      grows by the assistant message plus exactly one tool message per call. */
  lemma AllCallsAnswered(calls: seq<ToolCall>)
    requires forall i :: 0 <= i < |calls| ==> calls[i].name == WeatherToolName && "location" in calls[i].arguments
    ensures Succeeding(calls) == |calls|
    ensures |Replies(calls[..Succeeding(calls)])| == |calls|
  {
    SucceedingAll(calls);
    assert calls[..|calls|] == calls;
  }

  lemma {:induction false} SucceedingAll(calls: seq<ToolCall>)
    requires forall i :: 0 <= i < |calls| ==> Runs(calls[i])
    ensures Succeeding(calls) == |calls|
    decreases |calls|
  {
    if |calls| > 0 {
      SucceedingAll(calls[1..]);
    }
  }
}
