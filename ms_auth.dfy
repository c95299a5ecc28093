/**
 * The current Microsoft sign-in tracker: pending OAuth 2.0
 * authorization-code flows keyed by their `state` token (the correlation
 * value of section 4.1 of RFC 6749), kept in the "auth_flows" mapping of
 * the JSON cache, plus the argument checks of the join-request button
 * factories it registers with the UI helper.
 */
module MsAuth {
  import opened Wrappers
  import opened Json
  import opened AuthFlows
  import JsonCache
  import UiHelper
  import Fresh

  const CacheName: string := "auth_flows"

  const NotFoundMessage: string := "Not found in pending requests, try running <code>/ms verify</code> again"
  const UnknownErrorMessage: string := "Unknown Microsoft error"
  const RetrySuffix: string := "\nTry running <code>/ms verify</code> again"
  const NoEmailMessage: string := "Could not get your email from Microsoft, try running <code>/ms verify</code> again"
  const NoNameMessage: string := "Could not get your name from Microsoft, try running <code>/ms verify</code> again"
  const SuccessMessage: string := "Successfully linked with Microsoft!"

  /** A stored flow: the tuple `(int(time.time()), member_id, flow)` as `orjson` writes it. */
  function MsRecord(createdAt: int, memberId: int, flow: map<string, Json>): Json {
    JArr([JInt(createdAt), JInt(memberId), JObj(flow)])
  }

  predicate IsMsRecord(v: Json) {
    v.JArr? && |v.items| == 3 && v.items[0].JInt? && v.items[1].JInt? && v.items[2].JObj?
  }

  /** Every stored value unpacks as `_, member_id, auth_flow` with a dictionary flow. */
  predicate AllMsRecords(flows: map<string, Json>)
    ensures AllMsRecords(flows) ==> AllStamped(flows)
  {
    forall k :: k in flows ==> IsMsRecord(flows[k])
  }

  /** The link handed to the user: `<redirect domain>ms_auth?state=<state>`. */
  function AuthLink(redirectDomain: string, state: string): string {
    redirectDomain + "ms_auth?state=" + state
  }

  /** The IPC request of `get_real_ms_auth_link`: `data.state` may be missing. */
  datatype LinkRequest = LinkRequest(state: Option<string>)

  /** `False` for a request without a state, otherwise the flow's "auth_uri" (`None` when absent). */
  datatype LinkAnswer = NoState | AuthUri(uri: Option<Json>)

  /**
   * `get_real_ms_auth_link`: the Microsoft URL stored in the flow of the
   * given state; an unknown state reads the default `{}` flow and so gives
   * `None`.
   */
  function RealMsAuthLink(flows: map<string, Json>, request: LinkRequest): (a: LinkAnswer)
    requires AllMsRecords(flows)
    ensures request.state.None? <==> a == NoState
    ensures request.state.Some? && request.state.value !in flows ==> a == AuthUri(None)
    ensures request.state.Some? && request.state.value in flows ==>
              a == AuthUri(Get(flows[request.state.value].items[2].fields, "auth_uri"))
  {
    match request.state
    case None => NoState
    case Some(state) =>
      var flow := if state in flows then flows[state].items[2] else JObj(map[]);
      AuthUri(Get(flow.fields, "auth_uri"))
  }

  /** Whether the token endpoint answered with a truthy "error", and its "error_description" if any. */
  datatype TokenResponse = TokenError(description: Option<string>) | Token

  /** The Graph profile's "mail" and "displayName" (either may be missing). */
  datatype Profile = Profile(mail: Option<string>, displayName: Option<string>)

  /**
   * The claim branches of `on_ms_auth_response` on the flows and the
   * callback's form parameters, given the token endpoint's answer, the
   * profile, and the ids of the guild's members. The entry is deleted once
   * the token exchange succeeded, before the profile is looked at.
   */
  function MsClaim(flows: map<string, Json>, params: map<string, string>, token: TokenResponse,
                   profile: Profile, guild: set<int>): Claim
    requires AllMsRecords(flows)
  {
    var state := StateParam(params);
    if state !in flows || !Truthy(flows[state].items[2]) then
      Claim(Refused(NotFoundMessage, 404), flows)
    else if token.TokenError? then
      Claim(Refused(token.description.GetOr(UnknownErrorMessage) + RetrySuffix, 500), flows)
    else if "state" !in params then
      Claim(Raised("KeyError"), flows)
    else
      var rest := flows - {params["state"]};
      if profile.mail.None? || profile.mail.value == "" then Claim(Refused(NoEmailMessage, 500), rest)
      else if profile.displayName.None? then Claim(Raised("AttributeError"), rest)
      else if profile.displayName.value == "" then Claim(Refused(NoNameMessage, 500), rest)
      else if flows[state].items[1].i !in guild then Claim(Refused(NotInServerMessage, 400), rest)
      else Claim(Done(SuccessMessage), rest)
  }

  /** A 404 answers exactly an unknown state (or an empty flow), and then nothing changes. */
  lemma ClaimNotFound(flows: map<string, Json>, params: map<string, string>, token: TokenResponse, profile: Profile, guild: set<int>)
    requires AllMsRecords(flows)
    ensures var c := MsClaim(flows, params, token, profile, guild);
            (c.reply.Refused? && c.reply.status == 404) <==>
              (StateParam(params) !in flows || flows[StateParam(params)].items[2] == JObj(map[]))
    ensures var c := MsClaim(flows, params, token, profile, guild);
            c.reply.Refused? && c.reply.status == 404 ==> c.flows == flows
  {
  }

  /** A provider error answers 500 and keeps the entry, so the same link can be retried. */
  lemma ClaimProviderErrorKeeps(flows: map<string, Json>, params: map<string, string>, description: Option<string>, profile: Profile, guild: set<int>)
    requires AllMsRecords(flows)
    requires StateParam(params) in flows && Truthy(flows[StateParam(params)].items[2])
    ensures MsClaim(flows, params, TokenError(description), profile, guild) ==
              Claim(Refused(description.GetOr(UnknownErrorMessage) + RetrySuffix, 500), flows)
  {
  }

  /**
   * Once the exchange succeeded the state is used up, whatever the profile
   * and the guild say afterwards; no other entry is touched.
   */
  lemma ClaimSuccessConsumes(flows: map<string, Json>, params: map<string, string>, profile: Profile, guild: set<int>)
    requires AllMsRecords(flows)
    requires "state" in params && params["state"] in flows && Truthy(flows[params["state"]].items[2])
    ensures var c := MsClaim(flows, params, Token, profile, guild);
            c.flows == flows - {params["state"]} && params["state"] !in c.flows
    ensures var c := MsClaim(flows, params, Token, profile, guild);
            c.reply == Done(SuccessMessage) <==>
              profile.mail.Some? && profile.mail.value != "" && profile.displayName.Some? && profile.displayName.value != "" &&
              flows[params["state"]].items[1].i in guild
  {
  }

  /** A claim removes at most its own state. */
  lemma ClaimRemovesAtMostState(flows: map<string, Json>, params: map<string, string>, token: TokenResponse, profile: Profile, guild: set<int>)
    requires AllMsRecords(flows)
    ensures var c := MsClaim(flows, params, token, profile, guild);
            c.flows == flows || c.flows == flows - {StateParam(params)}
    ensures AllMsRecords(MsClaim(flows, params, token, profile, guild).flows)
  {
  }

  /** A state that has been used up answers 404 to any replay of the callback. */
  lemma {:induction false} ClaimNoReplay(flows: map<string, Json>, params: map<string, string>, token: TokenResponse, profile: Profile, guild: set<int>,
                                         token2: TokenResponse, profile2: Profile, guild2: set<int>)
    requires AllMsRecords(flows)
    requires MsClaim(flows, params, token, profile, guild).flows != flows
    ensures AllMsRecords(MsClaim(flows, params, token, profile, guild).flows)
    ensures MsClaim(MsClaim(flows, params, token, profile, guild).flows, params, token2, profile2, guild2).reply ==
              Refused(NotFoundMessage, 404)
  {
    var c := MsClaim(flows, params, token, profile, guild);
    ClaimRemovesAtMostState(flows, params, token, profile, guild);
    assert StateParam(params) !in c.flows;
  }

  /** A freshly minted flow with a non-empty flow dictionary is claimable: its callback is never a 404. */
  lemma MintedClaimable(flows: map<string, Json>, state: string, createdAt: int, memberId: int, flow: map<string, Json>,
                        params: map<string, string>, token: TokenResponse, profile: Profile, guild: set<int>)
    requires AllMsRecords(flows) && flow != map[]
    requires "state" in params && params["state"] == state
    ensures AllMsRecords(flows[state := MsRecord(createdAt, memberId, flow)])
    ensures MsClaim(flows[state := MsRecord(createdAt, memberId, flow)], params, token, profile, guild).reply != Refused(NotFoundMessage, 404)
  {
  }

  // ---------------------------------------------------------------------
  // The join-request button factories
  // ---------------------------------------------------------------------

  datatype JoinAction = AcceptAlumni | AcceptGuest | Reject

  /** The callback a factory returns: which action, on which requester. */
  datatype JoinCallback = JoinCallback(action: JoinAction, requesterId: int)

  /** The callback names the tracker registers, each with its factory. */
  function ActionOf(callbackName: string): (a: Option<JoinAction>)
    ensures a.Some? <==> callbackName in {"accept-join-alumni", "accept-join-guest", "reject-join"}
  {
    if callbackName == "accept-join-alumni" then Some(AcceptAlumni)
    else if callbackName == "accept-join-guest" then Some(AcceptGuest)
    else if callbackName == "reject-join" then Some(Reject)
    else None
  }

  /**
   * `accept_as_alumni_wrapper`, `accept_as_guest_wrapper`, `reject_wrapper`
   * called with the stored args splatted: one argument is expected
   * (`TypeError` otherwise) and it must be an `int` (`ValueError` otherwise;
   * a boolean is an `int` to Python, worth 0 or 1).
   */
  function JoinWrapper(action: JoinAction, args: seq<Json>): (r: Result<JoinCallback>)
    ensures |args| != 1 ==> r == Err("TypeError")
    ensures |args| == 1 ==> (r.Ok? <==> args[0].JInt? || args[0].JBool?)
    ensures |args| == 1 && r.Err? ==> r.error == "ValueError: Invalid values passed!"
    ensures r.Ok? ==> r.value.action == action
    ensures r.Ok? && args[0].JInt? ==> r.value.requesterId == args[0].i
    ensures r.Ok? && args[0].JBool? ==> r.value.requesterId == (if args[0].b then 1 else 0)
  {
    if |args| != 1 then Err("TypeError")
    else match args[0]
      case JInt(i) => Ok(JoinCallback(action, i))
      case JBool(b) => Ok(JoinCallback(action, if b then 1 else 0))
      case _ => Err("ValueError: Invalid values passed!")
  }

  /** The buttons `do_verification` attaches carry `(member.id,)`, which every factory accepts. */
  lemma JoinButtonsAccepted(action: JoinAction, memberId: int)
    ensures JoinWrapper(action, [JInt(memberId)]) == Ok(JoinCallback(action, memberId))
  {
  }

  class MSAuth {
    const redirectDomain: string
    /** The very mapping the JSON cache holds under "auth_flows". */
    const flows: Mapping

    ghost predicate Valid()
      reads this, flows
    {
      AllMsRecords(flows.entries)
    }

    constructor (flows: Mapping, redirectDomain: string)
      requires AllMsRecords(flows.entries)
      ensures this.flows == flows && this.redirectDomain == redirectDomain
      ensures Valid()
    {
      this.flows := flows;
      this.redirectDomain := redirectDomain;
    }

    /**
     * `get_ms_auth_link`: draw state tokens until one is not pending, store
     * `(int(now), member_id, flow)` under it and return the redirect link.
     */
    method GetMsAuthLink(memberId: int, candidates: seq<string>, now: real, flow: map<string, Json>) returns (link: string)
      requires Valid()
      requires Fresh.SomeFree(candidates, flows.entries.Keys)
      modifies flows
      ensures Valid()
      ensures var state := candidates[Fresh.FirstFree(candidates, old(flows.entries).Keys)];
              && state !in old(flows.entries)
              && flows.entries == old(flows.entries)[state := MsRecord(Trunc(now), memberId, flow)]
              && link == AuthLink(redirectDomain, state)
    {
      var i := 0;
      while candidates[i] in flows.entries
        invariant 0 <= i <= Fresh.FirstFree(candidates, flows.entries.Keys)
        decreases Fresh.FirstFree(candidates, flows.entries.Keys) - i
      {
        i := i + 1;
      }
      var state := candidates[i];
      flows.entries := flows.entries[state := MsRecord(Trunc(now), memberId, flow)];
      link := AuthLink(redirectDomain, state);
    }

    /**
     * `on_ms_auth_response`: a request without `response` is an IPC error;
     * otherwise the claim branches decide the answer and what is deleted.
     */
    method OnMsAuthResponse(request: IpcRequest, token: TokenResponse, profile: Profile, guild: set<int>) returns (reply: Reply)
      requires Valid()
      modifies flows
      ensures Valid()
      ensures request.response.None? ==> reply == Refused(IpcErrorMessage, 500) && flows.entries == old(flows.entries)
      ensures request.response.Some? ==>
                MsClaim(old(flows.entries), request.response.value, token, profile, guild) == Claim(reply, flows.entries)
    {
      if request.response.None? {
        return Refused(IpcErrorMessage, 500);
      }
      var params := request.response.value;
      var state := StateParam(params);
      var authFlow := if state in flows.entries then flows.entries[state].items[2] else JNull;
      if !Truthy(authFlow) {
        return Refused(NotFoundMessage, 404);
      }
      var memberId := flows.entries[state].items[1].i;
      if token.TokenError? {
        return Refused(token.description.GetOr(UnknownErrorMessage) + RetrySuffix, 500);
      }
      if "state" !in params {
        return Raised("KeyError");
      }
      flows.entries := flows.entries - {params["state"]};
      if profile.mail.None? || profile.mail.value == "" {
        return Refused(NoEmailMessage, 500);
      }
      if profile.displayName.None? {
        return Raised("AttributeError");
      }
      if profile.displayName.value == "" {
        return Refused(NoNameMessage, 500);
      }
      if memberId !in guild {
        return Refused(NotInServerMessage, 400);
      }
      reply := Done(SuccessMessage);
    }
  }

  /**
   * `MSAuth.__init__`: register the "auth_flows" cache with the prune hook
   * and keep the very mapping it returns, then register the three join
   * factories (a name already registered raises `ValueError`). A stored
   * file that is not an object of flows fails here.
   */
  method Create(cache: JsonCache.JsonCache, ui: UiHelper.UIHelper, redirectDomain: string) returns (r: Result<MSAuth>)
    requires cache.Valid()
    modifies cache`caches, ui`callbacks
    ensures cache.Valid()
    ensures r.Ok? ==> && fresh(r.value) && r.value.Valid() && r.value.redirectDomain == redirectDomain
                      && CacheName in cache.caches
                      && cache.caches[CacheName] == JsonCache.Registration(JsonCache.PruneExpired, r.value.flows)
                      && ui.callbacks == old(ui.callbacks) + {"accept-join-alumni", "accept-join-guest", "reject-join"}
    ensures r.Ok? ==> cache.caches == old(cache.caches)[CacheName := JsonCache.Registration(JsonCache.PruneExpired, r.value.flows)]
    ensures r.Ok? ==> LoadObject(cache.disk.files, cache.Path(CacheName)) == Some(r.value.flows.entries)
    ensures {"accept-join-alumni", "accept-join-guest", "reject-join"} * old(ui.callbacks) != {} ==> r.Err?
  {
    var registered := cache.RegisterCache(CacheName, Some(JsonCache.PruneExpired));
    if registered.None? {
      return Err("JSONDecodeError");
    }
    var flows := registered.value;
    if !AllMsRecords(flows.entries) {
      return Err("malformed auth flows");
    }
    var outcome := ui.RegisterCallback("accept-join-alumni");
    if outcome.Fail? {
      return Err(outcome.error);
    }
    outcome := ui.RegisterCallback("accept-join-guest");
    if outcome.Fail? {
      return Err(outcome.error);
    }
    outcome := ui.RegisterCallback("reject-join");
    if outcome.Fail? {
      return Err(outcome.error);
    }
    var tracker := new MSAuth(flows, redirectDomain);
    r := Ok(tracker);
  }
}
