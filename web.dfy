/**
 * The network as the protocol sees it. Every HTTP request is answered by an oracle
 * keyed by the request URL, so a run of the protocol is a deterministic function of
 * the oracle; the order in which URLs are requested is recorded as a trace.
 */
module Web {
  import opened Wrappers

  type Url = string

  /** A value inside a decoded JSON object. `JOther` covers numbers with a fraction, nested
      objects and arrays, carrying the text String.valueOf gives for them. */
  datatype JsonValue = JNull | JBool(b: bool) | JString(s: string) | JInt(n: int) | JOther(text: string)

  /** A decoded JSON object: its keys and their values. */
  type JsonObject = map<string, JsonValue>

  /** What `new BufferedReader(...url.openStream()).readLine()` produces: an exception,
      null (an empty body) or the first line. */
  datatype LineReply = Thrown | NoLine | Line(text: string)

  /** The outside world. `readLine` answers plain-text endpoints (IP services, the session
      service); `fetchJson` answers node endpoints, `None` standing for any transport, timeout
      or parse failure; `encode` is URLEncoder.encode with UTF-8, `None` when it throws. */
  datatype Env = Env(
    readLine: Url -> LineReply,
    fetchJson: Url -> Option<JsonObject>,
    encode: string -> Option<string>)

  /** encodeString: the encoded text, or null (concatenated as "null") when encoding throws. */
  function Encoded(env: Env, s: string): (r: string)
    ensures env.encode(s).Some? ==> r == env.encode(s).value
    ensures r == "null" <==> env.encode(s).None? || env.encode(s).value == "null"
  {
    match env.encode(s)
    case Some(e) => e
    case None => "null"
  }

  /** Every listed key is present in the object. */
  predicate AllPresent(obj: JsonObject, keys: seq<string>)
  {
    forall k :: k in keys ==> k in obj
  }

  /** The IP address a lookup service gave, or null. */
  function LineOrNull(reply: LineReply): (r: Option<string>)
    ensures r.Some? <==> reply.Line?
    ensures r.Some? ==> r.value == reply.text
  {
    match reply
    case Line(text) => Some(text)
    case _ => None
  }

  datatype IpLookup = IpLookup(ip: Option<string>, trace: seq<Url>)

  /** getExternalIP: ask `primary`; only when it yields null ask `fallback`. */
  function LookupWithFallback(env: Env, primary: Url, fallback: Url): (r: IpLookup)
    ensures |r.trace| >= 1 && r.trace[0] == primary
    ensures env.readLine(primary).Line? ==> r == IpLookup(Some(env.readLine(primary).text), [primary])
    ensures !env.readLine(primary).Line? ==>
      r.trace == [primary, fallback] && r.ip == LineOrNull(env.readLine(fallback))
    ensures r.ip.None? <==> !env.readLine(primary).Line? && !env.readLine(fallback).Line?
  {
    match LineOrNull(env.readLine(primary))
    case Some(ip) => IpLookup(Some(ip), [primary])
    case None => IpLookup(LineOrNull(env.readLine(fallback)), [primary, fallback])
  }
}
