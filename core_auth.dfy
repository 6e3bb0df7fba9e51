/**
 * The core copy of BetaEvolutionsUtils (package com.johnymuffin.evolutions.core): the
 * version-2 three-stage node authentication over org.json, and the loop over the
 * beServers array that folds per-node outcomes into a tally.
 */
module CoreAuth {
  import opened Wrappers
  import opened Web
  import opened JavaText
  import opened Seqs
  import opened Verification

  const MojangJoinUrl: string := "https://session.minecraft.net/game/joinserver.jsp?user="
  const AmazonUrl: Url := "https://checkip.amazonaws.com"
  const ICanHazIpUrl: Url := "https://icanhazip.com/"

  /** The keys a well-formed stage-1 response carries. */
  const Stage1Keys: seq<string> := ["userIP", "error", "serverID", "username"]

  /** verifyJSONArguments, with this copy's sense: true iff some listed key is MISSING,
      returning at the first missing one. */
  method VerifyJsonArguments(obj: JsonObject, arguments: seq<string>) returns (missing: bool)
    ensures missing <==> exists i :: 0 <= i < |arguments| && arguments[i] !in obj
    ensures missing == !AllPresent(obj, arguments)
  {
    for i := 0 to |arguments|
      invariant forall j :: 0 <= j < i ==> arguments[j] in obj
    {
      if arguments[i] !in obj {
        return true;
      }
    }
    return false;
  }

  /** JSONObject.getString: the text of a string value; a missing key or any other value
      throws (None). */
  function GetString(obj: JsonObject, key: string): (r: Option<string>)
    ensures r.Some? <==> key in obj && obj[key].JString?
    ensures r.Some? ==> r.value == obj[key].s
  {
    if key !in obj then None
    else
      match obj[key]
      case JString(s) => Some(s)
      case _ => None
  }

  /** JSONObject.getBoolean: a boolean, or a string spelling "true" or "false" in any case;
      a missing key or any other value throws (None). */
  function GetBoolean(obj: JsonObject, key: string): (r: Option<bool>)
    ensures r == Some(true) <==>
      key in obj && (obj[key] == JBool(true) || (obj[key].JString? && ParseBoolean(obj[key].s)))
    ensures r == Some(false) <==>
      key in obj && (obj[key] == JBool(false) || (obj[key].JString? && EqualsIgnoreCase(obj[key].s, "false")))
  {
    if key !in obj then None
    else
      match obj[key]
      case JBool(b) => Some(b)
      case JString(s) =>
        if EqualsIgnoreCase(s, "false") then Some(false)
        else if EqualsIgnoreCase(s, "true") then Some(true)
        else None
      case _ => None
  }

  function MojangUrl(env: Env, username: string, sessionID: string, serverID: string): Url
  {
    MojangJoinUrl + Encoded(env, username) + "&sessionId=" + Encoded(env, sessionID)
      + "&serverId=" + Encoded(env, serverID)
  }

  /** authenticateWithMojang: one request to the session service over https, its first line
      classified by SessionVerdict. */
  function AuthenticateWithMojang(env: Env, username: string, sessionID: string, serverID: string): (a: Attempt)
    ensures a.trace == [MojangUrl(env, username, sessionID, serverID)]
    ensures a.outcome == Verified <==> env.readLine(a.trace[0]) in {Line("ok"), Line("oK"), Line("Ok"), Line("OK")}
    ensures a.outcome == Indeterminate <==> !env.readLine(a.trace[0]).Line?
  {
    var url := MojangUrl(env, username, sessionID, serverID);
    Attempt(SessionVerdict(env.readLine(url)), [url])
  }

  /** The stage-1 URL: the caller's IP is appended without encoding. */
  function Stage1Url(env: Env, node: Url, username: string, ip: string): (url: Url)
    ensures |url| >= |ip| && url[|url| - |ip|..] == ip
  {
    node + "/user/getServerID?username=" + Encoded(env, username) + "&userip=" + ip
  }

  /** The stage-3 URL: here the caller's IP is encoded. */
  function Stage3Url(env: Env, node: Url, username: string, serverID: string, ip: string): (url: Url)
    ensures var e := Encoded(env, ip); |url| >= |e| && url[|url| - |e|..] == e
  {
    node + "/user/successfulAuth?username=" + Encoded(env, username) + "&serverid=" + Encoded(env, serverID)
      + "&userip=" + Encoded(env, ip)
  }

  /** How a call ends: with a returned Boolean, or with a JSONException from a typed getter
      that no one in this class catches. */
  datatype Completion = Returned(outcome: Outcome) | Threw

  /** One node attempt: how it ended and the URLs it requested. */
  datatype NodeResult = NodeResult(completion: Completion, trace: seq<Url>)

  /** What stage 1 yields: no usable response, a serverID that getString cannot read, or the
      challenge. */
  datatype ChallengeReply = NoChallenge | ChallengeThrew | Challenge(serverID: string)

  /** Stage 1: a failed fetch or a missing key is null; otherwise getString("serverID"). */
  function ReadChallenge(stage1: Option<JsonObject>): (c: ChallengeReply)
    ensures c == NoChallenge <==> stage1.None? || !AllPresent(stage1.value, Stage1Keys)
    ensures c == ChallengeThrew <==>
      stage1.Some? && AllPresent(stage1.value, Stage1Keys) && !stage1.value["serverID"].JString?
    ensures c.Challenge? ==> stage1.Some? && "serverID" in stage1.value && stage1.value["serverID"] == JString(c.serverID)
  {
    match stage1
    case None => NoChallenge
    case Some(obj) =>
      if !AllPresent(obj, Stage1Keys) then NoChallenge
      else
        assert "serverID" in Stage1Keys;
        match GetString(obj, "serverID")
        case None => ChallengeThrew
        case Some(serverID) => Challenge(serverID)
  }

  /** Stage 3: a failed fetch or a missing `result` is null; otherwise getBoolean("result"),
      which throws on anything but a boolean or a "true"/"false" text. */
  function Stage3Completion(stage3: Option<JsonObject>): (c: Completion)
    ensures c == Returned(Indeterminate) <==> stage3.None? || "result" !in stage3.value
    ensures c == Returned(Verified) <==> stage3.Some? && GetBoolean(stage3.value, "result") == Some(true)
    ensures c == Returned(Rejected) <==> stage3.Some? && GetBoolean(stage3.value, "result") == Some(false)
    ensures c == Threw <==> stage3.Some? && "result" in stage3.value && GetBoolean(stage3.value, "result").None?
  {
    match stage3
    case None => Returned(Indeterminate)
    case Some(obj) =>
      if "result" !in obj then Returned(Indeterminate)
      else
        match GetBoolean(obj, "result")
        case None => Threw
        case Some(b) => Returned(if b then Verified else Rejected)
  }

  /** authenticateWithBetaEvolutions: challenge, session confirmation, result. The session
      service is asked only with a readable challenge, and stage 3 only after its "ok". */
  function AuthenticateWithBetaEvolutions(env: Env, username: string, node: Url, sessionToken: string, ip: string): (r: NodeResult)
    ensures
      var url1 := Stage1Url(env, node, username, ip);
      match ReadChallenge(env.fetchJson(url1))
      case NoChallenge => r == NodeResult(Returned(Indeterminate), [url1])
      case ChallengeThrew => r == NodeResult(Threw, [url1])
      case Challenge(serverID) =>
        var url2 := MojangUrl(env, username, sessionToken, serverID);
        var verdict := SessionVerdict(env.readLine(url2));
        if verdict == Verified then
          var url3 := Stage3Url(env, node, username, serverID, ip);
          r == NodeResult(Stage3Completion(env.fetchJson(url3)), [url1, url2, url3])
        else
          r == NodeResult(Returned(verdict), [url1, url2])
  {
    var url1 := Stage1Url(env, node, username, ip);
    match ReadChallenge(env.fetchJson(url1))
    case NoChallenge => NodeResult(Returned(Indeterminate), [url1])
    case ChallengeThrew => NodeResult(Threw, [url1])
    case Challenge(serverID) =>
      var mojang := AuthenticateWithMojang(env, username, sessionToken, serverID);
      if mojang.outcome != Verified then NodeResult(Returned(mojang.outcome), [url1] + mojang.trace)
      else
        var url3 := Stage3Url(env, node, username, serverID, ip);
        NodeResult(Stage3Completion(env.fetchJson(url3)), [url1] + mojang.trace + [url3])
  }

  /** What each ending of a node attempt requires: an exception comes only from getString on
      the challenge or getBoolean on the result; true needs the session service's "ok" and a
      result read as true; false needs a line other than "ok" or a result read as false. */
  lemma AuthenticateWithBetaEvolutionsEndings(env: Env, username: string, node: Url, sessionToken: string, ip: string)
    ensures var r := AuthenticateWithBetaEvolutions(env, username, node, sessionToken, ip);
      && 1 <= |r.trace| <= 3
      && r.trace[0] == Stage1Url(env, node, username, ip)
      && (|r.trace| >= 2 <==> ReadChallenge(env.fetchJson(r.trace[0])).Challenge?)
      && (|r.trace| == 3 <==> |r.trace| >= 2 && SessionVerdict(env.readLine(r.trace[1])) == Verified)
      && (r.completion == Threw ==>
        ReadChallenge(env.fetchJson(r.trace[0])) == ChallengeThrew
        || (|r.trace| == 3 && Stage3Completion(env.fetchJson(r.trace[2])) == Threw))
      && (r.completion == Returned(Verified) ==>
        |r.trace| == 3 && env.fetchJson(r.trace[2]).Some?
        && GetBoolean(env.fetchJson(r.trace[2]).value, "result") == Some(true))
      && (r.completion == Returned(Rejected) ==>
        (|r.trace| == 2 && SessionVerdict(env.readLine(r.trace[1])) == Rejected)
        || (|r.trace| == 3 && env.fetchJson(r.trace[2]).Some?
            && GetBoolean(env.fetchJson(r.trace[2]).value, "result") == Some(false)))
  {
  }

  /** getExternalIP: Amazon first, ICanHazIP only when Amazon yields null. */
  function GetExternalIP(env: Env): (r: IpLookup)
    ensures env.readLine(AmazonUrl).Line? ==> r == IpLookup(Some(env.readLine(AmazonUrl).text), [AmazonUrl])
    ensures !env.readLine(AmazonUrl).Line? ==>
      r == IpLookup(LineOrNull(env.readLine(ICanHazIpUrl)), [AmazonUrl, ICanHazIpUrl])
  {
    LookupWithFallback(env, AmazonUrl, ICanHazIpUrl)
  }

  function AuthenticateStep(env: Env, username: string, sessionID: string, ip: string): Url -> NodeResult
  {
    (node: Url) => AuthenticateWithBetaEvolutions(env, username, node, sessionID, ip)
  }

  /** What a run of authenticateUser ends with: a tally, or the exception of the first node
      whose attempt threw; with every URL requested on the way. */
  datatype CoreRun = Finished(tally: Tally, trace: seq<Url>) | Escaped(trace: seq<Url>)

  /** The loop over the nodes, one `step` after the other; an exception ends the loop. */
  function RunNodes(step: Url -> NodeResult, nodes: seq<Url>): CoreRun
  {
    if |nodes| == 0 then Finished(Tally(0, 0, 0), [])
    else
      match RunNodes(step, nodes[..|nodes| - 1])
      case Escaped(trace) => Escaped(trace)
      case Finished(tally, trace) =>
        var r := step(nodes[|nodes| - 1]);
        match r.completion
        case Threw => Escaped(trace + r.trace)
        case Returned(result) => Finished(Record(tally, result), trace + r.trace)
  }

  /** What authenticateUser computes: no node is contacted when the IP is unknown. */
  function AuthenticateUserRun(env: Env, username: string, sessionID: string, nodes: seq<Url>): CoreRun
  {
    var lookup := GetExternalIP(env);
    match lookup.ip
    case None => Finished(Tally(0, 0, |nodes|), lookup.trace)
    case Some(ip) =>
      match RunNodes(AuthenticateStep(env, username, sessionID, ip), nodes)
      case Finished(tally, trace) => Finished(tally, lookup.trace + trace)
      case Escaped(trace) => Escaped(lookup.trace + trace)
  }

  /** Once a node has thrown, the nodes after it change nothing. */
  lemma {:induction false} EscapeIsFinal(step: Url -> NodeResult, nodes: seq<Url>, k: nat)
    requires k <= |nodes|
    requires RunNodes(step, nodes[..k]).Escaped?
    ensures RunNodes(step, nodes) == RunNodes(step, nodes[..k])
    decreases |nodes|
  {
    if k < |nodes| {
      var init := nodes[..|nodes| - 1];
      assert init[..k] == nodes[..k];
      EscapeIsFinal(step, init, k);
    } else {
      assert nodes[..k] == nodes;
    }
  }

  /** The prefix of the loop that ran up to node i, extended by node i. */
  lemma RunNodesPrefix(step: Url -> NodeResult, nodes: seq<Url>, i: nat)
    requires i < |nodes|
    ensures RunNodes(step, nodes[..i + 1]) ==
      match RunNodes(step, nodes[..i])
      case Escaped(trace) => Escaped(trace)
      case Finished(tally, trace) =>
        match step(nodes[i]).completion
        case Threw => Escaped(trace + step(nodes[i]).trace)
        case Returned(result) => Finished(Record(tally, result), trace + step(nodes[i]).trace)
  {
    assert nodes[..i + 1][..i] == nodes[..i];
  }

  /** The loop finishes exactly when no node's attempt throws. */
  lemma {:induction false} RunNodesFinishes(step: Url -> NodeResult, nodes: seq<Url>)
    ensures RunNodes(step, nodes).Finished? <==> forall i :: 0 <= i < |nodes| ==> step(nodes[i]).completion.Returned?
    decreases |nodes|
  {
    if |nodes| > 0 {
      var n := |nodes| - 1;
      var init := nodes[..n];
      RunNodesFinishes(step, init);
      if RunNodes(step, init).Escaped? {
        var j :| 0 <= j < n && !step(init[j]).completion.Returned?;
        assert init[j] == nodes[j];
      } else {
        assert forall i :: 0 <= i < n ==> init[i] == nodes[i];
      }
    }
  }

  /** The outcomes of the nodes whose attempts returned, in node order. */
  function ReturnedOutcomes(step: Url -> NodeResult, nodes: seq<Url>): seq<Outcome>
    decreases |nodes|
  {
    if |nodes| == 0 then []
    else
      ReturnedOutcomes(step, nodes[..|nodes| - 1]) +
        match step(nodes[|nodes| - 1]).completion
        case Returned(result) => [result]
        case Threw => []
  }

  /** In a loop that finishes, every node adds one to exactly one counter: the one its own
      outcome names, so the tally is the fold of the nodes' outcomes and the total the node count. */
  lemma {:induction false} RunNodesTally(step: Url -> NodeResult, nodes: seq<Url>)
    ensures RunNodes(step, nodes).Finished? ==>
      |ReturnedOutcomes(step, nodes)| == |nodes|
      && RunNodes(step, nodes).tally == TallyOf(ReturnedOutcomes(step, nodes))
      && RunNodes(step, nodes).tally.Total() == |nodes|
    decreases |nodes|
  {
    if |nodes| > 0 && RunNodes(step, nodes).Finished? {
      var init := nodes[..|nodes| - 1];
      RunNodesTally(step, init);
      var outs := ReturnedOutcomes(step, init);
      match step(nodes[|nodes| - 1]).completion
      case Returned(result) =>
        assert ReturnedOutcomes(step, nodes) == outs + [result];
        assert (outs + [result])[..|outs|] == outs;
        TallyTotal(outs + [result]);
      case Threw =>
        assert false;
    }
  }

  /** getTotal() of a result that authenticateUser returns is the number of nodes, whether or
      not the IP was found; a result is returned unless some node's attempt throws, and no node
      is contacted when the IP is unknown. */
  lemma AuthenticateUserTally(env: Env, username: string, sessionID: string, nodes: seq<Url>)
    ensures AuthenticateUserRun(env, username, sessionID, nodes).Finished? ==>
      AuthenticateUserRun(env, username, sessionID, nodes).tally.Total() == |nodes|
    ensures GetExternalIP(env).ip.None? ==>
      AuthenticateUserRun(env, username, sessionID, nodes) == Finished(Tally(0, 0, |nodes|), GetExternalIP(env).trace)
    ensures GetExternalIP(env).ip.Some? ==>
      (AuthenticateUserRun(env, username, sessionID, nodes).Finished? <==>
        forall i :: 0 <= i < |nodes| ==>
          AuthenticateStep(env, username, sessionID, GetExternalIP(env).ip.value)(nodes[i]).completion.Returned?)
    // each counter of a returned result is the number of nodes that gave its outcome
    ensures GetExternalIP(env).ip.Some? && AuthenticateUserRun(env, username, sessionID, nodes).Finished? ==>
      var outs := ReturnedOutcomes(AuthenticateStep(env, username, sessionID, GetExternalIP(env).ip.value), nodes);
      AuthenticateUserRun(env, username, sessionID, nodes).tally ==
        Tally(multiset(outs)[Verified], multiset(outs)[Rejected], multiset(outs)[Indeterminate])
  {
    if GetExternalIP(env).ip.Some? {
      var step := AuthenticateStep(env, username, sessionID, GetExternalIP(env).ip.value);
      RunNodesFinishes(step, nodes);
      RunNodesTally(step, nodes);
      TallyCountsOutcomes(ReturnedOutcomes(step, nodes));
    }
  }

  /** authenticateUser: resolve the IP once, then try every node in array order. A JSONException
      from a node leaves the method without a result (null here). */
  method AuthenticateUser(env: Env, username: string, sessionID: string, nodes: seq<Url>)
    returns (results: VerificationResults?, trace: seq<Url>)
    ensures results != null ==> fresh(results)
    ensures match AuthenticateUserRun(env, username, sessionID, nodes)
      case Finished(tally, t) => results != null && results.Counts() == tally && trace == t
      case Escaped(t) => results == null && trace == t
  {
    var lookup := GetExternalIP(env);
    trace := lookup.trace;
    if lookup.ip.None? {
      results := new VerificationResults.WithCounts(0, 0, |nodes|);
      return;
    }
    var ip := lookup.ip.value;
    var verificationResults := new VerificationResults();
    ghost var step := AuthenticateStep(env, username, sessionID, ip);
    ghost var nodeTrace: seq<Url> := [];
    for i := 0 to |nodes|
      invariant trace == lookup.trace + nodeTrace
      invariant RunNodes(step, nodes[..i]) == Finished(verificationResults.Counts(), nodeTrace)
    {
      RunNodesPrefix(step, nodes, i);
      var attempt := AuthenticateStep(env, username, sessionID, ip)(nodes[i]);
      ConcatAssociative(lookup.trace, nodeTrace, attempt.trace);
      trace := trace + attempt.trace;
      nodeTrace := nodeTrace + attempt.trace;
      match attempt.completion {
        case Threw =>
          EscapeIsFinal(step, nodes, i + 1);
          results := null;
          return;
        case Returned(result) =>
          // the if / else-if / else on the Boolean; over three values it is the same branch as the client's
          CountOutcome(verificationResults, result);
      }
    }
    assert nodes[..|nodes|] == nodes;
    results := verificationResults;
  }
}
