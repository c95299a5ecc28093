/**
 * What the Microsoft and GitHub trackers share: a flow is a JSON array whose
 * first element is its creation time in whole seconds, a flow lives 86400
 * seconds, pruning drops the flows that have lived that long, and the
 * inter-process handlers answer with a message or a (message, status) pair.
 */
module AuthFlows {
  import opened Wrappers
  import opened Json

  /** Seconds a flow stays claimable. */
  const Lifetime: int := 86400

  /** Python's `int(x)` on a float: truncation toward zero. */
  function Trunc(x: real): (r: int)
    ensures 0.0 <= x ==> r as real <= x < r as real + 1.0
    ensures x < 0.0 ==> r as real - 1.0 < x <= r as real
  {
    if 0.0 <= x then x.Floor else -((-x).Floor)
  }

  /** A stored flow `[created_at, ...]`, read with `auth_flow_data[0]`. */
  predicate Stamped(v: Json) {
    v.JArr? && |v.items| >= 1 && v.items[0].JInt?
  }

  predicate AllStamped(flows: map<string, Json>) {
    forall k :: k in flows ==> Stamped(flows[k])
  }

  function CreatedAt(v: Json): int
    requires Stamped(v)
  {
    v.items[0].i
  }

  /** `current_time - auth_flow_data[0] >= 86400`. */
  predicate Expired(v: Json, now: real)
    requires Stamped(v)
  {
    now - CreatedAt(v) as real >= Lifetime as real
  }

  /** The flows a prune at `now` keeps. */
  function Unexpired(flows: map<string, Json>, now: real): (r: map<string, Json>)
    requires AllStamped(flows)
    ensures AllStamped(r)
    ensures forall k :: k in r ==> k in flows && r[k] == flows[k]
  {
    map k | k in flows && !Expired(flows[k], now) :: flows[k]
  }

  /** Pruning removes exactly the expired flows and keeps every other flow unchanged. */
  lemma UnexpiredExactly(flows: map<string, Json>, now: real, k: string)
    requires AllStamped(flows)
    ensures k in Unexpired(flows, now) <==> k in flows && now - CreatedAt(flows[k]) as real < 86400.0
    ensures k in Unexpired(flows, now) ==> Unexpired(flows, now)[k] == flows[k]
  {
  }

  /** A second prune at the same time removes nothing more. */
  lemma UnexpiredIdempotent(flows: map<string, Json>, now: real)
    requires AllStamped(flows)
    ensures Unexpired(Unexpired(flows, now), now) == Unexpired(flows, now)
  {
  }

  /** A later prune keeps no flow that an earlier one dropped. */
  lemma UnexpiredAntitone(flows: map<string, Json>, earlier: real, later: real)
    requires AllStamped(flows) && earlier <= later
    ensures Unexpired(flows, later).Keys <= Unexpired(flows, earlier).Keys
  {
  }

  /**
   * A flow stamped with `int(time.time())` at `minted` survives every prune
   * before `minted` has been truncated and 86400 s have passed, and no prune
   * from `minted + 86400` on: its lifetime is between 86399 and 86400 s.
   */
  lemma MintedLifetime(minted: real, rest: seq<Json>, now: real)
    requires 0.0 <= minted
    ensures Stamped(JArr([JInt(Trunc(minted))] + rest))
    ensures now < minted + 86399.0 ==> !Expired(JArr([JInt(Trunc(minted))] + rest), now)
    ensures minted + 86400.0 <= now ==> Expired(JArr([JInt(Trunc(minted))] + rest), now)
  {
  }

  /**
   * `prune_auth_flows` of the current trackers: walk a copy of the items
   * and `del` each expired key from the live dictionary.
   */
  method PruneInPlace(flows: Mapping, now: real)
    requires AllStamped(flows.entries)
    modifies flows
    ensures flows.entries == Unexpired(old(flows.entries), now)
  {
    var snapshot := flows.entries;
    var todo := snapshot.Keys;
    while todo != {}
      invariant todo <= snapshot.Keys
      invariant flows.entries.Keys <= snapshot.Keys
      invariant forall k :: k in flows.entries ==> flows.entries[k] == snapshot[k]
      invariant forall k :: k in todo ==> k in flows.entries
      invariant forall k :: k in snapshot && k !in todo ==> (k in flows.entries <==> !Expired(snapshot[k], now))
      decreases todo
    {
      var key :| key in todo;
      if now - CreatedAt(snapshot[key]) as real >= Lifetime as real {
        flows.entries := flows.entries - {key};
      }
      todo := todo - {key};
    }
  }

  /** The payload of an inter-process request: `data.response` may be missing. */
  datatype IpcRequest = IpcRequest(response: Option<map<string, string>>)

  /** A handler's answer: a plain message, a (message, status) pair, or an exception. */
  datatype Reply = Done(message: string) | Refused(message: string, status: int) | Raised(exception: string)

  /** What claiming a flow answers and which flows remain afterwards. */
  datatype Claim = Claim(reply: Reply, flows: map<string, Json>)

  const IpcErrorMessage: string := "Internal IPC error, contact exco"
  const NotInServerMessage: string := "You're not in the AppVenture server, please join and try again"

  /** `params.get("state", "")`. */
  function StateParam(params: map<string, string>): string {
    if "state" in params then params["state"] else ""
  }
}
