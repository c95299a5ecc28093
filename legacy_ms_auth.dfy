/**
 * The earlier Microsoft sign-in tracker: it owns its dictionary of flows,
 * loads it from "storage/auth_flows.json", saves it there (pruned) from its
 * own loop, mints states without a collision check, and prunes by building
 * a new dictionary.
 */
module LegacyMsAuth {
  import opened Wrappers
  import opened Json
  import opened AuthFlows
  import MsAuth
  import LegacyUiHelper

  const FlowsPath: string := "storage/auth_flows.json"

  /** `get_real_ms_auth_link(state)`: the stored flow's "auth_uri", `None` for an unknown state. */
  function RealMsAuthLink(flows: map<string, Json>, state: string): (uri: Option<Json>)
    requires MsAuth.AllMsRecords(flows)
    ensures state !in flows ==> uri.None?
    ensures MsAuth.RealMsAuthLink(flows, MsAuth.LinkRequest(Some(state))) == MsAuth.AuthUri(uri)
  {
    var flow := if state in flows then flows[state].items[2] else JObj(map[]);
    Get(flow.fields, "auth_uri")
  }

  /** A save writes a file that reads back as the pruned flows, none of them expired. */
  lemma SavedFileHoldsNoExpired(files: map<string, Blob>, flows: map<string, Json>, now: real)
    requires AllStamped(flows)
    ensures var saved := files[FlowsPath := Dumps(JObj(Unexpired(flows, now)))];
            && LoadObject(saved, FlowsPath) == Some(Unexpired(flows, now))
            && forall k :: k in LoadObject(saved, FlowsPath).value ==>
                 k in flows && now - CreatedAt(flows[k]) as real < 86400.0
  {
    ReloadAfterWrite(files, FlowsPath, Unexpired(flows, now));
  }

  class MSAuth {
    const redirectDomain: string
    const disk: Disk
    var flows: map<string, Json>
    /** Whether `save_auth_flows_loop` has been started and not stopped. */
    var looping: bool

    ghost predicate Valid()
      reads this
    {
      MsAuth.AllMsRecords(flows)
    }

    constructor (disk: Disk, redirectDomain: string)
      ensures this.disk == disk && this.redirectDomain == redirectDomain
      ensures flows == map[] && !looping && Valid()
    {
      this.disk := disk;
      this.redirectDomain := redirectDomain;
      flows := map[];
      looping := false;
    }

    /**
     * `get_ms_auth_link`: store `(int(now), member_id, flow)` under the
     * state `uuid.uuid4().hex` gave, overwriting any flow already there.
     */
    method GetMsAuthLink(memberId: int, state: string, now: real, flow: map<string, Json>) returns (link: string)
      requires Valid()
      modifies this`flows
      ensures Valid()
      ensures flows == old(flows)[state := MsAuth.MsRecord(Trunc(now), memberId, flow)]
      ensures link == MsAuth.AuthLink(redirectDomain, state)
    {
      flows := flows[state := MsAuth.MsRecord(Trunc(now), memberId, flow)];
      link := MsAuth.AuthLink(redirectDomain, state);
    }

    /** `on_ms_auth_response`: the same claim branches as the current tracker, without the IPC wrapper. */
    method OnMsAuthResponse(params: map<string, string>, token: MsAuth.TokenResponse, profile: MsAuth.Profile, guild: set<int>)
      returns (reply: Reply)
      requires Valid()
      modifies this`flows
      ensures Valid()
      ensures MsAuth.MsClaim(old(flows), params, token, profile, guild) == Claim(reply, flows)
    {
      var state := StateParam(params);
      var authFlow := if state in flows then flows[state].items[2] else JNull;
      if !Truthy(authFlow) {
        return Refused(MsAuth.NotFoundMessage, 404);
      }
      var memberId := flows[state].items[1].i;
      if token.TokenError? {
        return Refused(token.description.GetOr(MsAuth.UnknownErrorMessage) + MsAuth.RetrySuffix, 500);
      }
      if "state" !in params {
        return Raised("KeyError");
      }
      flows := flows - {params["state"]};
      if profile.mail.None? || profile.mail.value == "" {
        return Refused(MsAuth.NoEmailMessage, 500);
      }
      if profile.displayName.None? {
        return Raised("AttributeError");
      }
      if profile.displayName.value == "" {
        return Refused(MsAuth.NoNameMessage, 500);
      }
      if memberId !in guild {
        return Refused(NotInServerMessage, 400);
      }
      reply := Done(MsAuth.SuccessMessage);
    }

    /**
     * `load_auth_flows`: read the file (a missing file is `{}`), replace the
     * flows with it and start the save loop, which raises when already
     * running. A file that is not an object of flows fails before anything
     * changes.
     */
    method LoadAuthFlows() returns (r: Outcome)
      requires Valid()
      modifies this`flows, this`looping
      ensures Valid()
      ensures var stored := LoadObject(disk.files, FlowsPath);
              if stored.None? || !MsAuth.AllMsRecords(stored.value) then
                r.Fail? && flows == old(flows) && looping == old(looping)
              else
                flows == stored.value && looping && r == (if old(looping) then Fail("RuntimeError") else Pass)
    {
      var stored := LoadObject(disk.files, FlowsPath);
      if stored.None? {
        return Fail("JSONDecodeError");
      }
      if !MsAuth.AllMsRecords(stored.value) {
        return Fail("malformed auth flows");
      }
      flows := stored.value;
      if looping {
        return Fail("RuntimeError");
      }
      looping := true;
      r := Pass;
    }

    /** `prune_auth_flows`: build a new dictionary of the flows younger than 86400 s and replace the old one. */
    method PruneAuthFlows(now: real)
      requires Valid()
      modifies this`flows
      ensures Valid()
      ensures flows == Unexpired(old(flows), now)
    {
      var kept: map<string, Json> := map[];
      var todo := flows.Keys;
      while todo != {}
        invariant todo <= flows.Keys
        invariant kept == map k | k in flows && k !in todo && !Expired(flows[k], now) :: flows[k]
        decreases todo
      {
        var key :| key in todo;
        if now - CreatedAt(flows[key]) as real < Lifetime as real {
          kept := kept[key := flows[key]];
        }
        todo := todo - {key};
      }
      flows := kept;
    }

    /** `save_auth_flows`: prune, then overwrite the file with what is left. */
    method SaveAuthFlows(now: real)
      requires Valid()
      modifies this`flows, disk
      ensures Valid()
      ensures flows == Unexpired(old(flows), now)
      ensures disk.files == old(disk.files)[FlowsPath := Dumps(JObj(flows))]
    {
      PruneAuthFlows(now);
      disk.files := disk.files[FlowsPath := Dumps(JObj(flows))];
    }

    /** `cog_unload` stops the loop; its `after_loop` saves once more. */
    method CogUnload(now: real)
      requires Valid()
      modifies this`flows, this`looping, disk
      ensures Valid() && !looping
      ensures old(looping) ==> flows == Unexpired(old(flows), now) &&
                               disk.files == old(disk.files)[FlowsPath := Dumps(JObj(flows))]
      ensures !old(looping) ==> flows == old(flows) && disk.files == old(disk.files)
    {
      if looping {
        looping := false;
        SaveAuthFlows(now);
      }
    }
  }

  /**
   * `MSAuth.__init__`: start from `{}`, register the three join factories
   * with the UI helper (a repeated name raises `ValueError`), then load the
   * stored flows.
   */
  method Create(disk: Disk, ui: LegacyUiHelper.UIHelper, redirectDomain: string) returns (r: Result<MSAuth>)
    modifies ui`callbacks
    ensures r.Ok? ==> && fresh(r.value) && r.value.Valid() && r.value.disk == disk
                      && LoadObject(disk.files, FlowsPath) == Some(r.value.flows) && r.value.looping
                      && ui.callbacks == old(ui.callbacks) + {"accept-join-alumni", "accept-join-guest", "reject-join"}
    ensures {"accept-join-alumni", "accept-join-guest", "reject-join"} * old(ui.callbacks) != {} ==> r.Err?
  {
    var tracker := new MSAuth(disk, redirectDomain);
    var outcome := ui.RegisterCallback("accept-join-alumni");
    if outcome.Fail? {
      return Err(outcome.error);
    }
    outcome := ui.RegisterCallback("accept-join-guest");
    if outcome.Fail? {
      return Err(outcome.error);
    }
    outcome := ui.RegisterCallback("reject-join");
    if outcome.Fail? {
      return Err(outcome.error);
    }
    outcome := tracker.LoadAuthFlows();
    if outcome.Fail? {
      return Err(outcome.error);
    }
    r := Ok(tracker);
  }
}
