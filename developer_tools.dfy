/** The developer tools panel: the console log with its input line, the network request
    list, and the colour classifiers for HTTP status codes and request methods. The clock is
    a parameter; the simulated console response, which the panel schedules on a timer, is
    returned to the caller to deliver. */
module DeveloperTools {
  import opened Options
  import opened JsString

  datatype ConsoleLog = ConsoleLog(id: int, kind: string, message: string, level: string)

  datatype NetworkRequest = NetworkRequest(id: int, httpMethod: string, url: string, status: int,
                                           size: string, time: string, kind: string)

  /** The console tab: its log and what is typed in its input line. */
  datatype ConsoleState = ConsoleState(logs: seq<ConsoleLog>, input: string)

  /** `handleConsoleSubmit`: a blank input (empty or only white space) changes nothing and
      schedules nothing. Otherwise one `input` entry reading `> ` and the input as typed is
      appended, the input line clears, and a response entry echoing the input is scheduled. */
  function ConsoleSubmit(s: ConsoleState, now: int): (r: (ConsoleState, Option<ConsoleLog>))
    ensures Trim(s.input) == "" ==> r == (s, None)
    ensures Trim(s.input) != "" ==>
              && r.0.logs == s.logs + [ConsoleLog(now, "input", "> " + s.input, "input")]
              && r.0.input == ""
              && r.1 == Some(ConsoleLog(now + 1, "output", "// Result: " + s.input, "output"))
  {
    if Trim(s.input) != "" then
      (ConsoleState(s.logs + [ConsoleLog(now, "input", "> " + s.input, "input")], ""),
       Some(ConsoleLog(now + 1, "output", "// Result: " + s.input, "output")))
    else (s, None)
  }

  /** The scheduled response arrives: it is appended to the log as it is then, whatever
      happened to the log in between. */
  function DeliverResponse(s: ConsoleState, response: ConsoleLog): (r: ConsoleState)
    ensures r.logs == s.logs + [response] && r.input == s.input
  {
    s.(logs := s.logs + [response])
  }

  /** A submitted command and its response are the last two log entries, in that order, and
      every earlier entry is kept. */
  lemma SubmitThenRespond(s: ConsoleState, now: int)
    requires Trim(s.input) != ""
    ensures var (t, pending) := ConsoleSubmit(s, now);
            && pending.Some?
            && var logs := DeliverResponse(t, pending.value).logs;
            && |logs| == |s.logs| + 2
            && logs[..|s.logs|] == s.logs
            && logs[|s.logs|].message == "> " + s.input
            && logs[|s.logs| + 1].message == "// Result: " + s.input
  {
    var (t, pending) := ConsoleSubmit(s, now);
    var logs := DeliverResponse(t, pending.value).logs;
    assert logs[..|s.logs|] == s.logs;
  }

  /** Submitting twice without typing in between is submitting once: the input is blank the
      second time. */
  lemma SubmitTwiceIsSubmitOnce(s: ConsoleState, now: int, later: int)
    ensures var t := ConsoleSubmit(s, now).0;
            ConsoleSubmit(t, later) == (t, None)
  {
    var t := ConsoleSubmit(s, now).0;
    if Trim(s.input) != "" {
      assert t.input == "";
    }
  }

  /** `clearConsole`: the log empties; the input line is kept. */
  function ClearConsole(s: ConsoleState): (r: ConsoleState)
    ensures |r.logs| == 0 && r.input == s.input
  {
    s.(logs := [])
  }

  /** A response still pending when the console is cleared lands in the empty log. */
  lemma ClearBeforeResponse(s: ConsoleState, now: int)
    requires Trim(s.input) != ""
    ensures var (t, pending) := ConsoleSubmit(s, now);
            DeliverResponse(ClearConsole(t), pending.value).logs == [pending.value]
  {
  }

  /** The network tab's Clear button. */
  function ClearNetwork(requests: seq<NetworkRequest>): (r: seq<NetworkRequest>)
    ensures |r| == 0
  {
    []
  }

  const GREEN: string := "text-green-400"
  const YELLOW: string := "text-yellow-400"
  const ORANGE: string := "text-orange-400"
  const RED: string := "text-red-400"

  /** `getStatusColor`: success codes (200-299) green, redirects (300-399) yellow, client
      errors (400-499) orange, and everything else, informational codes included, red. */
  function StatusColor(status: int): (r: string)
    ensures r == GREEN <==> 200 <= status < 300
    ensures r == YELLOW <==> 300 <= status < 400
    ensures r == ORANGE <==> 400 <= status < 500
    ensures r == RED <==> status < 200 || 500 <= status
  {
    if 200 <= status < 300 then GREEN
    else if 300 <= status < 400 then YELLOW
    else if 400 <= status < 500 then ORANGE
    else RED
  }

  /** For a non-negative code the colour depends only on its hundreds digit (its class in
      section 15 of RFC 9110): 2 is green, 3 yellow, 4 orange, any other red. */
  lemma StatusColorByClass(status: int)
    requires 0 <= status
    ensures StatusColor(status) == match status / 100
                                   case 2 => GREEN
                                   case 3 => YELLOW
                                   case 4 => ORANGE
                                   case _ => RED
  {
  }

  /** `getMethodColor`: GET, POST, PUT and DELETE each have their own colour (the method name
      is compared exactly, so `get` is not GET); any other method is gray. */
  function MethodColor(httpMethod: string): (r: string)
    ensures httpMethod == "GET" <==> r == "bg-blue-500"
    ensures httpMethod == "POST" <==> r == "bg-green-500"
    ensures httpMethod == "PUT" <==> r == "bg-yellow-500"
    ensures httpMethod == "DELETE" <==> r == "bg-red-500"
    ensures httpMethod !in {"GET", "POST", "PUT", "DELETE"} <==> r == "bg-gray-500"
  {
    match httpMethod
    case "GET" => "bg-blue-500"
    case "POST" => "bg-green-500"
    case "PUT" => "bg-yellow-500"
    case "DELETE" => "bg-red-500"
    case _ => "bg-gray-500"
  }

  /** Two methods share a colour exactly when they are the same known method or both unknown. */
  lemma MethodColorsDistinguishKnownMethods(a: string, b: string)
    ensures MethodColor(a) == MethodColor(b) <==>
              a == b || (a !in {"GET", "POST", "PUT", "DELETE"} && b !in {"GET", "POST", "PUT", "DELETE"})
  {
  }
}
