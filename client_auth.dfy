/**
 * The client copy of BetaEvolutionsUtils (package com.legacyminecraft.authentication):
 * the three-stage node authentication in protocol versions V1 and V2_PLAINTEXT, the
 * one-stage user verification, and the loops that fold per-node outcomes into a tally.
 */
module ClientAuth {
  import opened Wrappers
  import opened Web
  import opened JavaText
  import opened Seqs
  import opened Verification

  datatype BEVersion = V1 | V2Plaintext

  /** An entry of the beServers table: a node's base URL and the version it maps to
      (None when the table holds a null version). */
  datatype Node = Node(url: Url, version: Option<BEVersion>)

  const MojangJoinUrl: string := "http://session.minecraft.net/game/joinserver.jsp?user="
  const AmazonUrl: Url := "http://checkip.amazonaws.com"
  const WhatIsMyIpAddressUrl: Url := "https://ipv4bot.whatismyipaddress.com/"

  /** verifyJSONArguments: true iff every listed key is present, giving up at the first missing one. */
  method VerifyJsonArguments(obj: JsonObject, arguments: seq<string>) returns (present: bool)
    ensures present == AllPresent(obj, arguments)
  {
    for i := 0 to |arguments|
      invariant forall j :: 0 <= j < i ==> arguments[j] in obj
    {
      if arguments[i] !in obj {
        return false;
      }
    }
    return true;
  }

  /** String.valueOf applied to a value of the client's JSON library. */
  function ValueText(v: JsonValue): string
  {
    match v
    case JNull => "null"
    case JBool(b) => BoolText(b)
    case JString(s) => s
    case JInt(n) => IntText(n)
    case JOther(text) => text
  }

  /** Boolean.valueOf(String.valueOf(v)): true for the boolean true and for any text spelling
      "true" in some case; false for everything else, including null and numbers. */
  function BooleanValueOf(v: JsonValue): (b: bool)
    ensures b <==> v == JBool(true) || (v.JString? && ParseBoolean(v.s)) || (v.JOther? && ParseBoolean(v.text))
  {
    ParseBooleanSpellings(ValueText(v));
    if v.JInt? then IntTextIsNotTrue(v.n); ParseBoolean(ValueText(v))
    else ParseBoolean(ValueText(v))
  }

  function MojangUrl(env: Env, username: string, sessionID: string, serverID: string): Url
  {
    MojangJoinUrl + Encoded(env, username) + "&sessionId=" + Encoded(env, sessionID)
      + "&serverId=" + Encoded(env, serverID)
  }

  /** authenticateWithMojang: one request to the session service over plain http, its first line
      classified by SessionVerdict. */
  function AuthenticateWithMojang(env: Env, username: string, sessionID: string, serverID: string): (a: Attempt)
    ensures a.trace == [MojangUrl(env, username, sessionID, serverID)]
    ensures a.outcome == Verified <==> env.readLine(a.trace[0]) in {Line("ok"), Line("oK"), Line("Ok"), Line("OK")}
    ensures a.outcome == Indeterminate <==> !env.readLine(a.trace[0]).Line?
  {
    var url := MojangUrl(env, username, sessionID, serverID);
    Attempt(SessionVerdict(env.readLine(url)), [url])
  }

  /** The stage-1 URL. V2 appends the caller's IP without encoding it. */
  function Stage1Url(env: Env, v: BEVersion, node: Url, username: string, ip: string): (url: Url)
    ensures v == V2Plaintext ==> |url| >= |ip| && url[|url| - |ip|..] == ip
  {
    match v
    case V1 => node + "/userAuth.php?method=1&username=" + Encoded(env, username)
    case V2Plaintext => node + "/user/getServerID?username=" + Encoded(env, username) + "&userip=" + ip
  }

  /** The stage-3 URL. V2 encodes the caller's IP here. */
  function Stage3Url(env: Env, v: BEVersion, node: Url, username: string, serverID: string, ip: string): (url: Url)
    ensures v == V2Plaintext ==> var e := Encoded(env, ip); |url| >= |e| && url[|url| - |e|..] == e
  {
    match v
    case V1 =>
      node + "/userAuth.php?method=2&username=" + Encoded(env, username) + "&serverId=" + Encoded(env, serverID)
    case V2Plaintext =>
      node + "/user/successfulAuth?username=" + Encoded(env, username) + "&serverid=" + Encoded(env, serverID)
      + "&userip=" + Encoded(env, ip)
  }

  /** The keys a well-formed stage-1 response carries. */
  function Stage1Keys(v: BEVersion): seq<string>
  {
    match v
    case V1 => ["result", "username", "userip", "serverId"]
    case V2Plaintext => ["userIP", "error", "serverID", "username"]
  }

  /** The stage-1 key holding the challenge: serverId in V1, serverID in V2. */
  function ChallengeKey(v: BEVersion): (k: string)
    ensures k in Stage1Keys(v)
    ensures v == V1 ==> k == "serverId"
    ensures v == V2Plaintext ==> k == "serverID"
  {
    match v
    case V1 => "serverId"
    case V2Plaintext => "serverID"
  }

  /** The challenge of a fetched, well-formed stage-1 response; None when the fetch failed or a key is missing. */
  function Challenge(stage1: Option<JsonObject>, v: BEVersion): (c: Option<string>)
    ensures c.Some? <==> stage1.Some? && AllPresent(stage1.value, Stage1Keys(v))
    // the challenge is String.valueOf of serverId (V1) or serverID (V2)
    ensures c.Some? ==>
      var key := if v == V1 then "serverId" else "serverID";
      key in stage1.value && c.value == ValueText(stage1.value[key])
  {
    match stage1
    case None => None
    case Some(obj) =>
      if AllPresent(obj, Stage1Keys(v)) then Some(ValueText(obj[ChallengeKey(v)])) else None
  }

  /** The stage-3 verdict: null when the fetch failed or `result` is missing, otherwise
      Boolean.valueOf(String.valueOf(result)), which is never null. */
  function Stage3Outcome(stage3: Option<JsonObject>): (o: Outcome)
    ensures o == Indeterminate <==> stage3.None? || "result" !in stage3.value
    ensures o == Verified <==> stage3.Some? && "result" in stage3.value && BooleanValueOf(stage3.value["result"])
  {
    match stage3
    case None => Indeterminate
    case Some(obj) =>
      if "result" !in obj then Indeterminate
      else if BooleanValueOf(obj["result"]) then Verified
      else Rejected
  }

  /** authenticateWithBetaEvolutions: challenge, session confirmation, result. */
  function AuthenticateWithBetaEvolutions(
    env: Env, username: string, node: Url, version: Option<BEVersion>, sessionToken: string, ip: string): (a: Attempt)
    // a null version contacts nobody and is an error
    ensures version.None? ==> a == Attempt(Indeterminate, [])
    ensures version.Some? ==>
      var v := version.value;
      var url1 := Stage1Url(env, v, node, username, ip);
      match Challenge(env.fetchJson(url1), v)
      case None => a == Attempt(Indeterminate, [url1])
      case Some(serverID) =>
        var url2 := MojangUrl(env, username, sessionToken, serverID);
        if SessionVerdict(env.readLine(url2)) == Verified then
          a.trace == [url1, url2, Stage3Url(env, v, node, username, serverID, ip)]
          && a.outcome == Stage3Outcome(env.fetchJson(a.trace[2]))
        else
          a.trace == [url1, url2] && (a.outcome == Indeterminate <==> !env.readLine(url2).Line?)
    // success needs the session service's "ok" and a result reading true
    ensures a.outcome == Verified ==>
      |a.trace| == 3 && SessionVerdict(env.readLine(a.trace[1])) == Verified && env.fetchJson(a.trace[2]).Some?
      && "result" in env.fetchJson(a.trace[2]).value && BooleanValueOf(env.fetchJson(a.trace[2]).value["result"])
    // a rejection is an explicit answer: a line other than "ok", or a result not reading true
    ensures a.outcome == Rejected ==>
      (|a.trace| == 2 && SessionVerdict(env.readLine(a.trace[1])) == Rejected)
      || (|a.trace| == 3 && env.fetchJson(a.trace[2]).Some? && "result" in env.fetchJson(a.trace[2]).value
          && !BooleanValueOf(env.fetchJson(a.trace[2]).value["result"]))
  {
    match version
    case None => Attempt(Indeterminate, [])
    case Some(v) =>
      var url1 := Stage1Url(env, v, node, username, ip);
      match Challenge(env.fetchJson(url1), v)
      case None => Attempt(Indeterminate, [url1])
      case Some(serverID) =>
        var mojang := AuthenticateWithMojang(env, username, sessionToken, serverID);
        if mojang.outcome != Verified then Attempt(mojang.outcome, [url1] + mojang.trace)
        else
          var url3 := Stage3Url(env, v, node, username, serverID, ip);
          Attempt(Stage3Outcome(env.fetchJson(url3)), [url1] + mojang.trace + [url3])
  }

  /** The single URL verifyUserWithNode requests; both of the user's fields are encoded. */
  function VerifyUrl(env: Env, v: BEVersion, node: Url, username: string, userIP: string): Url
  {
    match v
    case V1 =>
      node + "/serverAuth.php?method=1&username=" + Encoded(env, username) + "&userip=" + Encoded(env, userIP)
    case V2Plaintext =>
      node + "/server/getVerification?username=" + Encoded(env, username) + "&userip=" + Encoded(env, userIP)
  }

  /** The keys verifyUserWithNode requires before it reads the answer; `verified` is among them. */
  function VerifyKeys(v: BEVersion): (keys: seq<string>)
    ensures "verified" in keys
  {
    match v
    case V1 => ["result", "verified"]
    case V2Plaintext => ["verified", "error"]
  }

  /** verifyUserWithNode: one request; the answer's `verified` value read as a Boolean. */
  function VerifyUserWithNode(env: Env, username: string, userIP: string, node: Url, version: Option<BEVersion>): (a: Attempt)
    ensures version.None? ==> a == Attempt(Indeterminate, [])
    ensures version.Some? ==> a.trace == [VerifyUrl(env, version.value, node, username, userIP)]
    ensures a.outcome == Indeterminate <==>
      version.None? || env.fetchJson(a.trace[0]).None? || !AllPresent(env.fetchJson(a.trace[0]).value, VerifyKeys(version.value))
    // a well-formed answer is true exactly when its `verified` value reads true
    ensures a.outcome == Verified <==>
      version.Some? && env.fetchJson(a.trace[0]).Some?
      && AllPresent(env.fetchJson(a.trace[0]).value, VerifyKeys(version.value))
      && BooleanValueOf(env.fetchJson(a.trace[0]).value["verified"])
  {
    match version
    case None => Attempt(Indeterminate, [])
    case Some(v) =>
      var url := VerifyUrl(env, v, node, username, userIP);
      match env.fetchJson(url)
      case None => Attempt(Indeterminate, [url])
      case Some(obj) =>
        if !AllPresent(obj, VerifyKeys(v)) then Attempt(Indeterminate, [url])
        else
          assert "verified" in VerifyKeys(v);
          Attempt(if BooleanValueOf(obj["verified"]) then Verified else Rejected, [url])
  }

  /** getExternalIP: Amazon first, WhatIsMyIpAddress only when Amazon yields null. */
  function GetExternalIP(env: Env): (r: IpLookup)
    ensures env.readLine(AmazonUrl).Line? ==> r == IpLookup(Some(env.readLine(AmazonUrl).text), [AmazonUrl])
    ensures !env.readLine(AmazonUrl).Line? ==>
      r == IpLookup(LineOrNull(env.readLine(WhatIsMyIpAddressUrl)), [AmazonUrl, WhatIsMyIpAddressUrl])
  {
    LookupWithFallback(env, AmazonUrl, WhatIsMyIpAddressUrl)
  }

  function AuthenticateStep(env: Env, username: string, sessionID: string, ip: string): Node -> Attempt
  {
    (n: Node) => AuthenticateWithBetaEvolutions(env, username, n.url, n.version, sessionID, ip)
  }

  function VerifyStep(env: Env, username: string, userIP: string): Node -> Attempt
  {
    (n: Node) => VerifyUserWithNode(env, username, userIP, n.url, n.version)
  }

  /** What authenticateUser computes: no node is contacted when the IP is unknown. */
  function AuthenticateUserRun(env: Env, username: string, sessionID: string, nodes: seq<Node>): Run
  {
    var lookup := GetExternalIP(env);
    match lookup.ip
    case None => Run(Tally(0, 0, |nodes|), lookup.trace)
    case Some(ip) =>
      var attempts := MapSeq(AuthenticateStep(env, username, sessionID, ip), nodes);
      Run(TallyOf(OutcomesOf(attempts)), lookup.trace + TraceOf(attempts))
  }

  /** What verifyUser computes. */
  function VerifyUserRun(env: Env, username: string, userIP: string, nodes: seq<Node>): Run
  {
    var attempts := MapSeq(VerifyStep(env, username, userIP), nodes);
    Run(TallyOf(OutcomesOf(attempts)), TraceOf(attempts))
  }

  /** authenticateUser: resolve the IP once, then try every node in the table's iteration order. */
  method AuthenticateUser(env: Env, username: string, sessionID: string, nodes: seq<Node>)
    returns (results: VerificationResults, trace: seq<Url>)
    ensures fresh(results)
    ensures Run(results.Counts(), trace) == AuthenticateUserRun(env, username, sessionID, nodes)
  {
    var lookup := GetExternalIP(env);
    trace := lookup.trace;
    if lookup.ip.None? {
      results := new VerificationResults.WithCounts(0, 0, |nodes|);
      return;
    }
    var ip := lookup.ip.value;
    results := new VerificationResults();
    ghost var step := AuthenticateStep(env, username, sessionID, ip);
    ghost var done: seq<Attempt> := [];
    for i := 0 to |nodes|
      invariant done == MapSeq(step, nodes[..i])
      invariant results.Counts() == TallyOf(OutcomesOf(done))
      invariant trace == lookup.trace + TraceOf(done)
    {
      var node := nodes[i];
      // the step function is authenticateWithBetaEvolutions on this node
      var attempt := AuthenticateStep(env, username, sessionID, ip)(node);
      var result := attempt.outcome;
      trace := trace + attempt.trace;
      CountOutcome(results, result);
      AppendAttempt(done, attempt);
      ConcatAssociative(lookup.trace, TraceOf(done), attempt.trace);
      MapSeqPrefix(step, nodes, i);
      done := done + [attempt];
    }
    assert nodes[..|nodes|] == nodes;
  }

  /** verifyUser: ask every node about the user, no IP lookup. */
  method VerifyUser(env: Env, username: string, userIP: string, nodes: seq<Node>)
    returns (results: VerificationResults, trace: seq<Url>)
    ensures fresh(results)
    ensures Run(results.Counts(), trace) == VerifyUserRun(env, username, userIP, nodes)
  {
    results := new VerificationResults();
    trace := [];
    ghost var step := VerifyStep(env, username, userIP);
    ghost var done: seq<Attempt> := [];
    for i := 0 to |nodes|
      invariant done == MapSeq(step, nodes[..i])
      invariant results.Counts() == TallyOf(OutcomesOf(done))
      invariant trace == TraceOf(done)
    {
      var node := nodes[i];
      // the step function is verifyUserWithNode on this node
      var attempt := VerifyStep(env, username, userIP)(node);
      var result := attempt.outcome;
      trace := trace + attempt.trace;
      CountOutcome(results, result);
      AppendAttempt(done, attempt);
      MapSeqPrefix(step, nodes, i);
      done := done + [attempt];
    }
    assert nodes[..|nodes|] == nodes;
  }

  /** getTotal() is the number of configured nodes, whether or not the IP was found, and each
      counter is the number of nodes with that outcome. */
  lemma AuthenticateUserTally(env: Env, username: string, sessionID: string, nodes: seq<Node>)
    ensures AuthenticateUserRun(env, username, sessionID, nodes).tally.Total() == |nodes|
    ensures GetExternalIP(env).ip.Some? ==>
      var outcomes := OutcomesOf(MapSeq(AuthenticateStep(env, username, sessionID, GetExternalIP(env).ip.value), nodes));
      AuthenticateUserRun(env, username, sessionID, nodes).tally
        == Tally(multiset(outcomes)[Verified], multiset(outcomes)[Rejected], multiset(outcomes)[Indeterminate])
  {
    match GetExternalIP(env).ip
    case None =>
    case Some(ip) =>
      var attempts := MapSeq(AuthenticateStep(env, username, sessionID, ip), nodes);
      AttemptsTotal(attempts);
      TallyCountsOutcomes(OutcomesOf(attempts));
  }

  /** Without an IP the tally is (0, 0, node count) and only the two IP services were asked. */
  lemma AuthenticateUserOffline(env: Env, username: string, sessionID: string, nodes: seq<Node>)
    requires !env.readLine(AmazonUrl).Line? && !env.readLine(WhatIsMyIpAddressUrl).Line?
    ensures AuthenticateUserRun(env, username, sessionID, nodes)
      == Run(Tally(0, 0, |nodes|), [AmazonUrl, WhatIsMyIpAddressUrl])
  {
  }

  /** The table's iteration order does not change the tally. */
  lemma AuthenticateUserOrderIndependent(env: Env, username: string, sessionID: string, nodes: seq<Node>, reordered: seq<Node>)
    requires multiset(nodes) == multiset(reordered)
    ensures AuthenticateUserRun(env, username, sessionID, nodes).tally
      == AuthenticateUserRun(env, username, sessionID, reordered).tally
  {
    assert |nodes| == |multiset(nodes)| == |reordered|;
    match GetExternalIP(env).ip
    case None =>
    case Some(ip) =>
      var step := AuthenticateStep(env, username, sessionID, ip);
      MapPermutation(step, nodes, reordered);
      AttemptsOrderIndependent(MapSeq(step, nodes), MapSeq(step, reordered));
  }

  /** verifyUser: getTotal() is the number of nodes and each counter counts its outcome. */
  lemma VerifyUserTally(env: Env, username: string, userIP: string, nodes: seq<Node>)
    ensures var outcomes := OutcomesOf(MapSeq(VerifyStep(env, username, userIP), nodes));
      && VerifyUserRun(env, username, userIP, nodes).tally.Total() == |nodes|
      && VerifyUserRun(env, username, userIP, nodes).tally
        == Tally(multiset(outcomes)[Verified], multiset(outcomes)[Rejected], multiset(outcomes)[Indeterminate])
  {
    var attempts := MapSeq(VerifyStep(env, username, userIP), nodes);
    AttemptsTotal(attempts);
    TallyCountsOutcomes(OutcomesOf(attempts));
  }

  /** verifyUser: the table's iteration order does not change the tally. */
  lemma VerifyUserOrderIndependent(env: Env, username: string, userIP: string, nodes: seq<Node>, reordered: seq<Node>)
    requires multiset(nodes) == multiset(reordered)
    ensures VerifyUserRun(env, username, userIP, nodes).tally == VerifyUserRun(env, username, userIP, reordered).tally
  {
    var step := VerifyStep(env, username, userIP);
    MapPermutation(step, nodes, reordered);
    AttemptsOrderIndependent(MapSeq(step, nodes), MapSeq(step, reordered));
  }
}
