/** The data exchanged with the native runtime: mappings, requests, responses and
    journal events. A URL is represented by its split form, the path and the last
    value of every query parameter. */
module RuntimeModel {
  import opened Wrappers
  import opened Json

  datatype ValueMatcher = ValueMatcher(equalTo: Option<string>, absent: bool)

  datatype RequestMatcher = RequestMatcher(
    verb: string,
    path: Option<string>,
    pathPattern: Option<string>,
    query: map<string, ValueMatcher>,
    headers: seq<(string, ValueMatcher)>,
    matchBody: bool,
    jsonBody: Json)

  datatype ResponseDefinition = ResponseDefinition(
    status: int,
    headers: map<string, string>,
    jsonBody: Json,
    delayMs: int,
    fault: Option<string>)

  datatype RuntimeMapping = RuntimeMapping(
    name: string,
    priority: int,
    request: RequestMatcher,
    response: ResponseDefinition,
    metadata: map<string, Json>,
    scenarioName: Option<string>,
    requiredState: Option<string>,
    newState: Option<string>)

  datatype Url = Url(path: string, query: map<string, string>)

  datatype Request = Request(verb: string, url: Url, headers: seq<(string, string)>, body: Json)

  datatype Response = Response(status: int, body: Json, headers: map<string, string>)

  datatype Event = Event(
    simulationId: string,
    verb: string,
    url: Url,
    wasMatched: bool,
    mappingName: Option<string>)
}
