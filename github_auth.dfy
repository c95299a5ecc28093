/**
 * The GitHub account-linking tracker: `/gh verify` mints a pending
 * authorization-code flow `(timestamp, discord id)` under a fresh `state`
 * (section 4.1 of RFC 6749) in the "github_auth_flows" mapping of the JSON
 * cache, and the OAuth callback claims it.
 */
module GithubAuth {
  import opened Wrappers
  import opened Json
  import opened AuthFlows
  import JsonCache

  const CacheName: string := "github_auth_flows"

  const LinkMicrosoftFirstMessage: string := "Please link your Microsoft email first, by running `/ms verify`!"
  const AlreadyLinkedMessage: string := "You have already linked your GitHub account!"
  const NotFoundMessage: string := "Not found in pending requests, try running <code>/gh verify</code> again"
  const ProviderErrorPrefix: string := "Github returned an error: "
  const RetrySuffix: string := "\nTry running <code>/gh verify</code> again"
  const SuccessMessage: string := "Successfully linked with Github!"

  /** A stored flow: the tuple `(int(time.time()), member.id)` as `orjson` writes it. */
  function GhRecord(createdAt: int, memberId: int): Json {
    JArr([JInt(createdAt), JInt(memberId)])
  }

  predicate IsGhRecord(v: Json) {
    v.JArr? && |v.items| == 2 && v.items[0].JInt? && v.items[1].JInt?
  }

  /** Every stored value unpacks as `_, member_id`. */
  predicate AllGhRecords(flows: map<string, Json>)
    ensures AllGhRecords(flows) ==> AllStamped(flows)
  {
    forall k :: k in flows ==> IsGhRecord(flows[k])
  }

  /** The GitHub authorization URL for a client id and a state. */
  function OAuthUrl(clientId: string, state: string): string {
    "https://github.com/login/oauth/authorize?client_id=" + clientId + "&state=" + state
  }

  /** What `/gh verify` answers: an error message, or the link of the button it sends. */
  datatype VerifyAnswer = Refuse(message: string) | Link(url: string)

  /**
   * The eligibility checks of `verify`: a holder of the member role needs a
   * database row (a linked Microsoft account), and a GitHub name already on
   * record (truthy) refuses; `None` means the user may link.
   */
  function Refusal(hasMemberRole: bool, inDatabase: bool, githubName: Option<string>): (r: Option<string>)
    ensures r == Some(LinkMicrosoftFirstMessage) <==> hasMemberRole && !inDatabase
    ensures r == Some(AlreadyLinkedMessage) <==>
              !(hasMemberRole && !inDatabase) && githubName.Some? && githubName.value != ""
    ensures r.None? <==> (!hasMemberRole || inDatabase) && (githubName.None? || githubName.value == "")
  {
    if hasMemberRole && !inDatabase then Some(LinkMicrosoftFirstMessage)
    else if githubName.Some? && githubName.value != "" then Some(AlreadyLinkedMessage)
    else None
  }

  /**
   * The token endpoint's answer: `response.ok`, `response.text`, and the
   * `access_token` field of its JSON body, absent when GitHub reports an
   * error such as a bad code in a 200 answer.
   */
  datatype Exchange = Exchange(ok: bool, text: string, accessToken: Option<string>)

  /**
   * The claim branches of `on_gh_auth_response`: an unknown state, a falsy
   * member id or a missing or empty `code` is a 404; a failed exchange is a
   * 500 that keeps the entry; otherwise the entry is deleted, then a body
   * without `access_token` raises `KeyError`, and the guild membership
   * decides between 400 and success.
   */
  function GhClaim(flows: map<string, Json>, params: map<string, string>, exchange: Exchange, guild: set<int>): Claim
    requires AllGhRecords(flows)
  {
    var state := StateParam(params);
    if state !in flows || flows[state].items[1].i == 0 || "code" !in params || params["code"] == "" then
      Claim(Refused(NotFoundMessage, 404), flows)
    else if !exchange.ok then
      Claim(Refused(ProviderErrorPrefix + exchange.text + RetrySuffix, 500), flows)
    else if "state" !in params then
      Claim(Raised("KeyError"), flows)
    else
      var rest := flows - {params["state"]};
      if exchange.accessToken.None? then Claim(Raised("KeyError"), rest)
      else if flows[state].items[1].i !in guild then Claim(Refused(NotInServerMessage, 400), rest)
      else Claim(Done(SuccessMessage), rest)
  }

  /** A 404 answers exactly an unknown state, a zero member id or a missing code, and changes nothing. */
  lemma GhClaimNotFound(flows: map<string, Json>, params: map<string, string>, exchange: Exchange, guild: set<int>)
    requires AllGhRecords(flows)
    ensures var c := GhClaim(flows, params, exchange, guild);
            (c.reply.Refused? && c.reply.status == 404) <==>
              (StateParam(params) !in flows || flows[StateParam(params)].items[1].i == 0 ||
               "code" !in params || params["code"] == "")
    ensures var c := GhClaim(flows, params, exchange, guild);
            c.reply.Refused? && c.reply.status == 404 ==> c.flows == flows
  {
  }

  /** A failed exchange answers 500 with GitHub's text and keeps the entry. */
  lemma GhClaimProviderErrorKeeps(flows: map<string, Json>, params: map<string, string>, text: string,
                                  token: Option<string>, guild: set<int>)
    requires AllGhRecords(flows)
    requires StateParam(params) in flows && flows[StateParam(params)].items[1].i != 0
    requires "code" in params && params["code"] != ""
    ensures GhClaim(flows, params, Exchange(false, text, token), guild) ==
              Claim(Refused(ProviderErrorPrefix + text + RetrySuffix, 500), flows)
  {
  }

  /** A successful exchange uses the state up before the 400/200 decision, and touches nothing else. */
  lemma GhClaimSuccessConsumes(flows: map<string, Json>, params: map<string, string>, text: string, token: string, guild: set<int>)
    requires AllGhRecords(flows)
    requires "state" in params && params["state"] in flows && flows[params["state"]].items[1].i != 0
    requires "code" in params && params["code"] != ""
    ensures var c := GhClaim(flows, params, Exchange(true, text, Some(token)), guild);
            c.flows == flows - {params["state"]} &&
            c.reply == (if flows[params["state"]].items[1].i in guild then Done(SuccessMessage) else Refused(NotInServerMessage, 400))
  {
  }

  /**
   * An ok answer without `access_token` still uses the state up: the entry
   * is deleted before the token is read, and the handler raises `KeyError`.
   */
  lemma GhClaimTokenlessConsumes(flows: map<string, Json>, params: map<string, string>, text: string, guild: set<int>)
    requires AllGhRecords(flows)
    requires "state" in params && params["state"] in flows && flows[params["state"]].items[1].i != 0
    requires "code" in params && params["code"] != ""
    ensures GhClaim(flows, params, Exchange(true, text, None), guild) == Claim(Raised("KeyError"), flows - {params["state"]})
  {
  }

  /** A used-up state answers 404 to a replay, and a claim removes at most its own state. */
  lemma {:induction false} GhClaimNoReplay(flows: map<string, Json>, params: map<string, string>, exchange: Exchange, guild: set<int>,
                                           exchange2: Exchange, guild2: set<int>)
    requires AllGhRecords(flows)
    ensures var c := GhClaim(flows, params, exchange, guild);
            AllGhRecords(c.flows) && (c.flows == flows || c.flows == flows - {StateParam(params)})
    ensures var c := GhClaim(flows, params, exchange, guild);
            c.flows != flows ==> GhClaim(c.flows, params, exchange2, guild2).reply == Refused(NotFoundMessage, 404)
  {
    var c := GhClaim(flows, params, exchange, guild);
    assert c.flows == flows || c.flows == flows - {StateParam(params)};
    if c.flows != flows {
      assert StateParam(params) !in c.flows;
    }
  }

  class GithubAuth {
    const clientId: string
    /** The very mapping the JSON cache holds under "github_auth_flows". */
    const flows: Mapping

    ghost predicate Valid()
      reads this, flows
    {
      AllGhRecords(flows.entries)
    }

    constructor (flows: Mapping, clientId: string)
      requires AllGhRecords(flows.entries)
      ensures this.flows == flows && this.clientId == clientId
      ensures Valid()
    {
      this.flows := flows;
      this.clientId := clientId;
    }

    /**
     * `/gh verify`: refuse a member-role holder without a database row and
     * a user whose GitHub account is already linked, both without adding a
     * flow; otherwise store `(int(now), member id)` under the state
     * `uuid.uuid4().hex` gave (no collision check) and answer the link.
     */
    method Verify(memberId: int, hasMemberRole: bool, inDatabase: bool, githubName: Option<string>,
                  state: string, now: real) returns (answer: VerifyAnswer)
      requires Valid()
      modifies flows
      ensures Valid()
      ensures Refusal(hasMemberRole, inDatabase, githubName).Some? ==>
                answer == Refuse(Refusal(hasMemberRole, inDatabase, githubName).value) && flows.entries == old(flows.entries)
      ensures Refusal(hasMemberRole, inDatabase, githubName).None? ==>
                answer == Link(OAuthUrl(clientId, state)) &&
                flows.entries == old(flows.entries)[state := GhRecord(Trunc(now), memberId)]
    {
      if hasMemberRole && !inDatabase {
        return Refuse(LinkMicrosoftFirstMessage);
      }
      if githubName.Some? && githubName.value != "" {
        return Refuse(AlreadyLinkedMessage);
      }
      var link := OAuthUrl(clientId, state);
      flows.entries := flows.entries[state := GhRecord(Trunc(now), memberId)];
      answer := Link(link);
    }

    /**
     * `on_gh_auth_response`: a request without `response` is an IPC error;
     * otherwise the claim branches decide the answer and what is deleted.
     */
    method OnGhAuthResponse(request: IpcRequest, exchange: Exchange, guild: set<int>) returns (reply: Reply)
      requires Valid()
      modifies flows
      ensures Valid()
      ensures request.response.None? ==> reply == Refused(IpcErrorMessage, 500) && flows.entries == old(flows.entries)
      ensures request.response.Some? ==>
                GhClaim(old(flows.entries), request.response.value, exchange, guild) == Claim(reply, flows.entries)
    {
      if request.response.None? {
        return Refused(IpcErrorMessage, 500);
      }
      var params := request.response.value;
      var state := StateParam(params);
      var memberId := if state in flows.entries then flows.entries[state].items[1].i else 0;
      if memberId == 0 || "code" !in params || params["code"] == "" {
        return Refused(NotFoundMessage, 404);
      }
      if !exchange.ok {
        return Refused(ProviderErrorPrefix + exchange.text + RetrySuffix, 500);
      }
      if "state" !in params {
        return Raised("KeyError");
      }
      flows.entries := flows.entries - {params["state"]};
      if exchange.accessToken.None? {
        return Raised("KeyError");
      }
      if memberId !in guild {
        return Refused(NotInServerMessage, 400);
      }
      reply := Done(SuccessMessage);
    }
  }

  /**
   * `GithubAuth.__init__`: register the "github_auth_flows" cache with the
   * prune hook and keep the very mapping it returns. A stored file that is
   * not an object of flows fails here.
   */
  method Create(cache: JsonCache.JsonCache, clientId: string) returns (r: Result<GithubAuth>)
    requires cache.Valid()
    modifies cache`caches
    ensures cache.Valid()
    ensures r.Ok? ==> && fresh(r.value) && r.value.Valid() && r.value.clientId == clientId
                      && CacheName in cache.caches
                      && cache.caches[CacheName] == JsonCache.Registration(JsonCache.PruneExpired, r.value.flows)
                      && LoadObject(cache.disk.files, cache.Path(CacheName)) == Some(r.value.flows.entries)
    ensures r.Ok? ==> cache.caches == old(cache.caches)[CacheName := JsonCache.Registration(JsonCache.PruneExpired, r.value.flows)]
  {
    var registered := cache.RegisterCache(CacheName, Some(JsonCache.PruneExpired));
    if registered.None? {
      return Err("JSONDecodeError");
    }
    if !AllGhRecords(registered.value.entries) {
      return Err("malformed auth flows");
    }
    var tracker := new GithubAuth(registered.value, clientId);
    r := Ok(tracker);
  }
}
