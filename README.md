# BEVOAuthOSS authentication core in Dafny

Beta Evolutions lets a legacy Minecraft server tell whether a joining player holds a real
session. Each authentication node is asked in three stages:

1. a challenge (`serverId` in the client's V1, `serverID` otherwise) is requested from the node;
2. the Mojang session service is asked to confirm the join with that challenge;
3. the node is asked for the verdict.

Each node's answer is a nullable Boolean. The orchestrator folds the answers into a
`VerificationResults` tally of successful, failed and errored nodes.

This project models three files:

- the client copy of `BetaEvolutionsUtils`. It has protocol versions V1 and V2_PLAINTEXT,
  a HashMap of nodes, and json-simple responses. It also has `verifyUser`, a check a server
  runs on a user with one request per node.
- the core copy of `BetaEvolutionsUtils`. It has version 2 only, an array of nodes, and
  org.json with typed getters that can throw.
- the vendored json-simple `JSONArray` writer.

The modules are:

- `Web` (web.dfy) models the network as an oracle `Env`. The oracle answers a URL with a
  first line of text (`readLine`) or a decoded JSON object (`fetchJson`). It also gives the
  URL-encoding of a string (`encode`), keyed by that string. A run of the protocol is then a function of the oracle. Every
  operation also returns its *trace*: the URLs it requested, in order. This is how "stage 3
  is never requested" and "no node is contacted" are stated.
- `Verification` (verification.dfy) holds the outcome of a node (`Verified | Rejected |
  Indeterminate`, for true, false and null), the fold of outcomes into a tally, and the
  `VerificationResults` class with its counters.
- `ClientAuth` (client_auth.dfy) and `CoreAuth` (core_auth.dfy) hold the per-node
  functions and the orchestrator loops. Each loop is a method proved against a pure
  function of the oracle and the node list.
- `JsonArray` (json_array.dfy) holds the writers as methods appending to a
  `StringWriter` class. They are proved against `ArrayText`, the bracketed comma-joined
  element texts. A decoder is proved to read the texts back.
- `JavaText` (java_text.dfy) models the JDK text behaviour the code relies on:
  `equalsIgnoreCase`, `Boolean.valueOf(String)`, and `String.valueOf` of integers and
  Booleans.
- `Seqs` (seqs.dfy) and `Wrappers` (wrappers.dfy) are sequence helpers.

The client's node table is a `HashMap`, whose iteration order is unspecified. The model
takes the nodes as a sequence in some order and proves that the tally does not depend on
that order.

Behaviours of the code that are easy to misread, kept as written:

- A URL-encoding failure does not end the call. `encodeString` returns null, which is
  concatenated into the URL as "null".
- A session-service reply with no line at all (`readLine` gives null) is null, not false.
  `response.equalsIgnoreCase` throws and the exception is caught.
- The client reads the stage-3 `result` and the `verified` field with
  `Boolean.valueOf(String.valueOf(v))`. Any present value that is not a "true" spelling
  is false, never null.
- In the core copy, `getString("serverID")` and `getBoolean("result")` throw
  JSONException on a value of the wrong type. Nothing in the class catches it, so it
  leaves `authenticateUser`. The orchestrator can therefore end without a result. The
  model returns null for that case, and the node is not counted as errored.
- The client's V1 stage 1 does not send the caller's IP, and the client talks to the
  session service over plain http.
- The core's `verifyJSONArguments` has the opposite sense to the client's: it returns
  true when a key is missing.

## Model

| member | source | states |
|---|---|---|
| Verification.SessionVerdict | client/src/main/java/com/legacyminecraft/authentication/BetaEvolutionsUtils.java:109-120 | the session reply is true exactly for a first line spelling "ok" in any case (the four spellings), null exactly when there is no line or the request threw, false otherwise |
| Verification.TallyTotal | client/src/main/java/com/legacyminecraft/authentication/BetaEvolutionsUtils.java:361-363 | each folded outcome adds one to exactly one counter, so getTotal() is the number of outcomes |
| Verification.TallyCountsOutcomes | client/src/main/java/com/legacyminecraft/authentication/BetaEvolutionsUtils.java:38-46 | successful, failed and errored are the numbers of true, false and null outcomes |
| Verification.TallyOrderIndependent | client/src/main/java/com/legacyminecraft/authentication/BetaEvolutionsUtils.java:38-46 | outcomes that are a permutation of each other give the same tally |
| Verification.AttemptsTotal | client/src/main/java/com/legacyminecraft/authentication/BetaEvolutionsUtils.java:36-49 | a loop over n attempts ends with getTotal() == n |
| Verification.AttemptsOrderIndependent | client/src/main/java/com/legacyminecraft/authentication/BetaEvolutionsUtils.java:38-47 | reordering the node attempts leaves the counters unchanged |
| Verification.CountOutcome | client/src/main/java/com/legacyminecraft/authentication/BetaEvolutionsUtils.java:40-46 | the branch on the returned Boolean: null adds one to errored, true to successful, false to failed, and nothing else changes |
| Verification.VerificationResults.constructor | client/src/main/java/com/legacyminecraft/authentication/BetaEvolutionsUtils.java:328-329 | a new result starts at zero on all three counters |
| Verification.VerificationResults.WithCounts | client/src/main/java/com/legacyminecraft/authentication/BetaEvolutionsUtils.java:331-335 | the three-argument constructor stores the given counts |
| Verification.VerificationResults.SetSuccessful | client/src/main/java/com/legacyminecraft/authentication/BetaEvolutionsUtils.java:341-343 | only the successful counter changes, to the given value |
| Verification.VerificationResults.SetFailed | client/src/main/java/com/legacyminecraft/authentication/BetaEvolutionsUtils.java:349-351 | only the failed counter changes, to the given value |
| Verification.VerificationResults.SetErrored | client/src/main/java/com/legacyminecraft/authentication/BetaEvolutionsUtils.java:357-359 | only the errored counter changes, to the given value |
| Verification.VerificationResults.GetSuccessful | client/src/main/java/com/legacyminecraft/authentication/BetaEvolutionsUtils.java:337-339 | reads the successful counter |
| Verification.VerificationResults.GetFailed | client/src/main/java/com/legacyminecraft/authentication/BetaEvolutionsUtils.java:345-347 | reads the failed counter |
| Verification.VerificationResults.GetErrored | client/src/main/java/com/legacyminecraft/authentication/BetaEvolutionsUtils.java:353-355 | reads the errored counter |
| Verification.VerificationResults.GetTotal | client/src/main/java/com/legacyminecraft/authentication/BetaEvolutionsUtils.java:361-363 | the total is the sum of the three counters |
| Web.Encoded | client/src/main/java/com/legacyminecraft/authentication/BetaEvolutionsUtils.java:291-299 | the encoder's text when encoding succeeds; the text "null" exactly when encoding fails or itself yields "null" |
| Web.LineOrNull | client/src/main/java/com/legacyminecraft/authentication/BetaEvolutionsUtils.java:212-240 | an IP lookup service yields a text exactly when its first line could be read, and then that line |
| Web.LookupWithFallback | client/src/main/java/com/legacyminecraft/authentication/BetaEvolutionsUtils.java:203-210 | the primary service is always asked first; its line is the IP when there is one, and only then is the fallback skipped; the IP is null exactly when both services yield no line |
| JavaText.OkIgnoringCase | client/src/main/java/com/legacyminecraft/authentication/BetaEvolutionsUtils.java:112 | equalsIgnoreCase("ok") holds for exactly the four spellings ok, oK, Ok, OK |
| JavaText.ParseBooleanSpellings | client/src/main/java/com/legacyminecraft/authentication/BetaEvolutionsUtils.java:152 | Boolean.valueOf(String) is true for exactly the sixteen case spellings of "true" |
| JavaText.IntTextRoundTrip | client/src/main/java/com/johnymuffin/evolutions/beta/simplejson/JSONArray.java:128 | the decimal text String.valueOf writes for an integer reads back as the same integer |
| ClientAuth.VerifyJsonArguments | client/src/main/java/com/legacyminecraft/authentication/BetaEvolutionsUtils.java:301-309 | true iff every listed key is present in the object, checked for every key |
| ClientAuth.BooleanValueOf | client/src/main/java/com/legacyminecraft/authentication/BetaEvolutionsUtils.java:152 | Boolean.valueOf(String.valueOf(v)) is true iff v is the boolean true or a text spelling "true" in some case; null, numbers and other texts give false |
| ClientAuth.AuthenticateWithMojang | client/src/main/java/com/legacyminecraft/authentication/BetaEvolutionsUtils.java:100-121 | exactly one request, to the join URL; true iff its first line is "ok" in any case, null iff there is no line or the request threw |
| ClientAuth.Stage1Url | client/src/main/java/com/legacyminecraft/authentication/BetaEvolutionsUtils.java:159 | in V2_PLAINTEXT the stage-1 URL ends with the caller's IP as it is, not encoded |
| ClientAuth.Stage3Url | client/src/main/java/com/legacyminecraft/authentication/BetaEvolutionsUtils.java:183-190 | in V2_PLAINTEXT the stage-3 URL ends with the URL-encoded caller's IP |
| ClientAuth.ChallengeKey | client/src/main/java/com/legacyminecraft/authentication/BetaEvolutionsUtils.java:134 | the challenge key is one of the version's required stage-1 keys: serverId in V1, serverID in V2 |
| ClientAuth.Challenge | client/src/main/java/com/legacyminecraft/authentication/BetaEvolutionsUtils.java:126-134 | a challenge exists iff the stage-1 fetch succeeded and every required key of the version is present, and it is String.valueOf of serverId (V1) or serverID (V2) |
| ClientAuth.Stage3Outcome | client/src/main/java/com/legacyminecraft/authentication/BetaEvolutionsUtils.java:144-154 | null iff the stage-3 fetch failed or result is missing; otherwise true iff result reads as Boolean true, and false for any other present value |
| ClientAuth.AuthenticateWithBetaEvolutions | client/src/main/java/com/legacyminecraft/authentication/BetaEvolutionsUtils.java:123-201 | an unknown version contacts nobody and is null; a failed or malformed stage 1 is null after one request; Mojang null gives null and Mojang false gives false, both after two requests with stage 3 never requested; otherwise the stage-3 reading decides after three requests; true needs Mojang "ok" and a result reading true |
| ClientAuth.VerifyUserWithNode | client/src/main/java/com/legacyminecraft/authentication/BetaEvolutionsUtils.java:70-98 | an unknown version contacts nobody and is null; otherwise exactly one request, null iff the fetch failed or a version key is missing, and true iff the answer is well formed and its verified value reads as true |
| ClientAuth.GetExternalIP | client/src/main/java/com/legacyminecraft/authentication/BetaEvolutionsUtils.java:203-210 | Amazon's line is the IP when there is one; only otherwise is WhatIsMyIpAddress asked, and its line (or null) is the IP |
| ClientAuth.AuthenticateUser | client/src/main/java/com/legacyminecraft/authentication/BetaEvolutionsUtils.java:30-51 | the loop's results and requested URLs are those of the specification run: the IP lookup, then every node once in table order, each outcome counted |
| ClientAuth.VerifyUser | client/src/main/java/com/legacyminecraft/authentication/BetaEvolutionsUtils.java:53-68 | the loop's results and requested URLs are those of the specification run over every node once |
| ClientAuth.AuthenticateUserTally | client/src/main/java/com/legacyminecraft/authentication/BetaEvolutionsUtils.java:36-49 | getTotal() is the number of configured nodes, and with an IP each counter is the number of nodes with that outcome |
| ClientAuth.AuthenticateUserOffline | client/src/main/java/com/legacyminecraft/authentication/BetaEvolutionsUtils.java:31-34 | with no IP from either service the result is (0, 0, node count) and only the two IP services were asked |
| ClientAuth.AuthenticateUserOrderIndependent | client/src/main/java/com/legacyminecraft/authentication/BetaEvolutionsUtils.java:38-47 | the HashMap's iteration order does not change the counters |
| ClientAuth.VerifyUserTally | client/src/main/java/com/legacyminecraft/authentication/BetaEvolutionsUtils.java:56-65 | getTotal() is the number of nodes and each counter is the number of nodes with that outcome |
| ClientAuth.VerifyUserOrderIndependent | client/src/main/java/com/legacyminecraft/authentication/BetaEvolutionsUtils.java:56-65 | the HashMap's iteration order does not change the counters |
| CoreAuth.VerifyJsonArguments | src/main/java/com/johnymuffin/evolutions/core/BetaEvolutionsUtils.java:245-250 | true iff some listed key is missing, the opposite sense to the client copy |
| CoreAuth.GetString | src/main/java/com/johnymuffin/evolutions/core/BetaEvolutionsUtils.java:116 | getString gives the stored text exactly when the key is present with a string value, and throws otherwise |
| CoreAuth.GetBoolean | src/main/java/com/johnymuffin/evolutions/core/BetaEvolutionsUtils.java:137 | getBoolean is true for the boolean true or a text "true" in any case, false for the boolean false or a text "false" in any case, and throws otherwise |
| CoreAuth.AuthenticateWithMojang | src/main/java/com/johnymuffin/evolutions/core/BetaEvolutionsUtils.java:86-101 | exactly one request, over https; true iff the first line is "ok" in any case, null iff there is no line or the request threw |
| CoreAuth.Stage1Url | src/main/java/com/johnymuffin/evolutions/core/BetaEvolutionsUtils.java:106 | the stage-1 URL ends with the caller's IP as it is, not encoded |
| CoreAuth.Stage3Url | src/main/java/com/johnymuffin/evolutions/core/BetaEvolutionsUtils.java:127 | the stage-3 URL ends with the URL-encoded caller's IP |
| CoreAuth.ReadChallenge | src/main/java/com/johnymuffin/evolutions/core/BetaEvolutionsUtils.java:107-116 | stage 1 is null iff the fetch failed or a key of {userIP, error, serverID, username} is missing; getString throws iff all are present and serverID is not a string; otherwise the challenge is serverID's text |
| CoreAuth.Stage3Completion | src/main/java/com/johnymuffin/evolutions/core/BetaEvolutionsUtils.java:128-137 | stage 3 is null iff the fetch failed or result is missing; otherwise true iff getBoolean reads true, false iff it reads false, and an exception iff it can read neither |
| CoreAuth.AuthenticateWithBetaEvolutions | src/main/java/com/johnymuffin/evolutions/core/BetaEvolutionsUtils.java:103-139 | one stage-1 request, then the session service only with a readable challenge, then stage 3 only after the session service's "ok"; the outcome is the stage that ended the attempt |
| CoreAuth.AuthenticateWithBetaEvolutionsEndings | src/main/java/com/johnymuffin/evolutions/core/BetaEvolutionsUtils.java:103-139 | one to three requests, the first always stage 1; an exception comes only from getString on the challenge or getBoolean on the result; true needs "ok" and a result read as true; false needs a line other than "ok" or a result read as false |
| CoreAuth.GetExternalIP | src/main/java/com/johnymuffin/evolutions/core/BetaEvolutionsUtils.java:141-148 | Amazon's line is the IP when there is one; only otherwise is ICanHazIP asked |
| CoreAuth.EscapeIsFinal | src/main/java/com/johnymuffin/evolutions/core/BetaEvolutionsUtils.java:71-80 | once a node's attempt throws, later nodes change nothing: the exception ends the loop |
| CoreAuth.RunNodesFinishes | src/main/java/com/johnymuffin/evolutions/core/BetaEvolutionsUtils.java:71-80 | the loop over the nodes completes iff no node's attempt throws |
| CoreAuth.RunNodesTally | src/main/java/com/johnymuffin/evolutions/core/BetaEvolutionsUtils.java:71-80 | in a completed loop every node returned, the counters are the fold of the nodes' outcomes in order (each node adds one to the counter its outcome names), and the total is the node count |
| CoreAuth.AuthenticateUserTally | src/main/java/com/johnymuffin/evolutions/core/BetaEvolutionsUtils.java:62-83 | a returned result has getTotal() == beServers.length; with no IP it is (0, 0, node count) and no node is contacted; with an IP a result is returned iff no node throws, and then each counter is the number of nodes whose outcome it names |
| CoreAuth.AuthenticateUser | src/main/java/com/johnymuffin/evolutions/core/BetaEvolutionsUtils.java:62-83 | the method returns the specification run's counters and requests its URLs, or ends without a result (null) exactly when the run escapes with an exception |
| JsonArray.WriteArray | client/src/main/java/com/johnymuffin/evolutions/beta/simplejson/JSONArray.java:121-137 | null writes "null", an empty array "[]", otherwise "[" then the element texts in index order joined by "," then "]"; the same shape for byte[], short[], long[], boolean[] and Object[] |
| JsonArray.ToJsonString | client/src/main/java/com/johnymuffin/evolutions/beta/simplejson/JSONArray.java:139-148 | toJSONString is exactly what the writer puts into a fresh StringWriter |
| JsonArray.CharFraming | client/src/main/java/com/johnymuffin/evolutions/beta/simplejson/JSONArray.java:272-280 | the char writer's quotes-with-separators framing is the bracketed comma-joined list of quoted chars |
| JsonArray.WriteCharArray | client/src/main/java/com/johnymuffin/evolutions/beta/simplejson/JSONArray.java:266-282 | null writes "null", empty "[]", otherwise each char between double quotes, unescaped, comma-separated, in brackets |
| JsonArray.ToJsonStringChars | client/src/main/java/com/johnymuffin/evolutions/beta/simplejson/JSONArray.java:284-293 | toJSONString(char[]) is what the char writer puts into a fresh StringWriter |
| JsonArray.WriteCollection | client/src/main/java/com/johnymuffin/evolutions/beta/simplejson/JSONArray.java:20-45 | null writes "null"; otherwise "[" first, "]" last, a comma before every element but the first, "null" for a null element, elements in iteration order |
| JsonArray.ToJsonStringCollection | client/src/main/java/com/johnymuffin/evolutions/beta/simplejson/JSONArray.java:52-61 | toJSONString(Collection) is what the collection writer puts into a fresh StringWriter |
| JsonArray.ArrayRoundTrip | client/src/main/java/com/johnymuffin/evolutions/beta/simplejson/JSONArray.java:126-136 | when element texts are non-empty, comma-free and readable, the written array reads back as the same elements in the same order |
| JsonArray.IntArrayRoundTrip | client/src/main/java/com/johnymuffin/evolutions/beta/simplejson/JSONArray.java:121-137 | a written int[] (long[], short[], byte[]) reads back as the same numbers in index order |
| JsonArray.IntArrayCommas | client/src/main/java/com/johnymuffin/evolutions/beta/simplejson/JSONArray.java:126-136 | a non-empty written int[] holds exactly n - 1 commas |
| JsonArray.CommaCount | client/src/main/java/com/johnymuffin/evolutions/beta/simplejson/JSONArray.java:126-136 | exactly one comma between consecutive elements and none elsewhere when no element text has a comma |
| JsonArray.BooleanArrayRoundTrip | client/src/main/java/com/johnymuffin/evolutions/beta/simplejson/JSONArray.java:237-253 | a written boolean[] consists of the tokens true and false and reads back in order |
| JsonArray.NullableIntCollectionRoundTrip | client/src/main/java/com/johnymuffin/evolutions/beta/simplejson/JSONArray.java:20-45 | null elements come back as null and numbers as the same numbers, in iteration order |
| JsonArray.CharArrayLayout | client/src/main/java/com/johnymuffin/evolutions/beta/simplejson/JSONArray.java:266-282 | a written char[] of n chars has length 4n + 1, each char verbatim at position 4i + 2 between quotes, commas between elements, brackets around |
| JsonArray.CharArrayRoundTrip | client/src/main/java/com/johnymuffin/evolutions/beta/simplejson/JSONArray.java:266-282 | a written char[] reads back by position alone, whatever the chars, including quotes and backslashes |

## Left out

- HTTP, sockets, timeouts and JSON parsing are not modelled. The oracle `Env` stands for them, and every request is answered by a function of its URL.
- readJsonFromUrl, readAll and getJSONFromURL are not modelled: any failure to fetch or decode is `fetchJson` returning None.
- JSONObject.java is not part of this model. The writer for `Object` elements (JSONValue.writeJSONString) is the `show` parameter.
- Logging, the debug flag and printStackTrace are left out because they do not affect any result.
- The hard-coded node tables are not modelled: the nodes are a parameter.
- The json-simple writer's float[] and double[] overloads are left out because their text is floating-point String.valueOf.
- JSONArray's instance writeJSONString(Writer), toJSONString() and toString() are left out: they call the Collection writer on the list itself.
- Writers other than StringWriter are left out, and so is IOException. toJSONString's RuntimeException wrapping is therefore unreachable.
- JsonArray.WriteArray: byte, short, int and long elements are unbounded integers. String.valueOf writes the same decimal text at every width, so the width's range is not enforced.
- JsonArray.WriteCharArray: elements are Dafny chars, which are Unicode scalar values, while a Java `char` is a UTF-16 code unit. A `char[]` holding surrogate halves (such as the two halves of an emoji) cannot be expressed, and a supplementary Dafny char stands for an element no Java `char` can hold. The writer copies each char verbatim, so the layout `JsonArray.CharArrayLayout` proves is the layout Java gives per code unit.
- JavaText.OkIgnoringCase: equalsIgnoreCase is modelled with ASCII case mapping only. Non-ASCII characters whose case mapping reaches an ASCII letter (such as the Kelvin sign, whose lower case is k) are not covered.
- Verification.SessionVerdict: inherits the ASCII-only case mapping, so a session-service line of "o" followed by the Kelvin sign (U+212A) is read as false, where Java reads it as true.
- ClientAuth.AuthenticateWithMojang: the same ASCII-only reading of the session service's line as Verification.SessionVerdict.
- CoreAuth.AuthenticateWithMojang: the same ASCII-only reading of the session service's line as Verification.SessionVerdict.
- CoreAuth.GetBoolean: text values are compared with ASCII case mapping only. Java's getBoolean also reads "falſe" (with U+017F, whose upper case is S) as false, where the model throws.
- VerificationResults counters are unbounded integers. 32-bit overflow would need more than 2^31 nodes.
- The org.json library is not part of this model; the getters getString and getBoolean are modelled after their documented behaviour.
