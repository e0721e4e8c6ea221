/** Reconciliation of a batch of requested changes against a post's connection snapshot:
    the lookup tables, the service-name pass, the id pass and the guard of `update`,
    each written as the function the corresponding loop computes, together with an
    independent description of the outcome (`Intended`) and the lemmas tying them. */
module Reconcile {
  import opened Connections

  // ---------------------------------------------------------------------------
  // Lookup tables

  /** The table keyed by unique id: a later entry with the same id replaces an earlier one. */
  function ByUniqueId(available: seq<Connection>): map<string, Connection>
  {
    if available == [] then map[]
    else
      var c := available[|available| - 1];
      ByUniqueId(available[..|available| - 1])[c.uniqueId := c]
  }

  /** The connections of service `s`, in snapshot order. */
  function OfService(available: seq<Connection>, s: string): (group: seq<Connection>)
    ensures forall c :: c in group <==> c in available && c.serviceName == s
  {
    if available == [] then []
    else
      var init := available[..|available| - 1];
      var c := available[|available| - 1];
      assert available == init + [c];
      OfService(init, s) + (if c.serviceName == s then [c] else [])
  }

  /** The table keyed by service name: each service maps to its connections, in snapshot order. */
  function ByServiceName(available: seq<Connection>): map<string, seq<Connection>>
  {
    if available == [] then map[]
    else
      var init := available[..|available| - 1];
      var c := available[|available| - 1];
      var byService := ByServiceName(init);
      var group := if c.serviceName in byService then byService[c.serviceName] else [];
      byService[c.serviceName := group + [c]]
  }

  /** The table by unique id has exactly the snapshot's ids as keys. */
  lemma {:induction false} ByUniqueIdKeys(available: seq<Connection>)
    ensures ByUniqueId(available).Keys == IdSet(available)
    decreases |available|
  {
    if available != [] {
      var init, c := available[..|available| - 1], available[|available| - 1];
      ByUniqueIdKeys(init);
      IdSetSnoc(init, c);
      assert available == init + [c];
    }
  }

  /** With distinct ids, each id maps to the connection that carries it. */
  lemma {:induction false} ByUniqueIdAt(available: seq<Connection>, i: int)
    requires UniqueIds(available) && 0 <= i < |available|
    ensures available[i].uniqueId in ByUniqueId(available)
    ensures ByUniqueId(available)[available[i].uniqueId] == available[i]
    decreases |available|
  {
    var init := available[..|available| - 1];
    if i < |available| - 1 {
      ByUniqueIdAt(init, i);
    }
  }

  /** Each service of the snapshot maps to its connections, in snapshot order, and no other
      name is a key. */
  lemma {:induction false} ByServiceNameSpec(available: seq<Connection>)
    ensures forall s :: s in ByServiceName(available) <==> OfService(available, s) != []
    ensures forall s :: s in ByServiceName(available) ==> ByServiceName(available)[s] == OfService(available, s)
    decreases |available|
  {
    if available != [] {
      ByServiceNameSpec(available[..|available| - 1]);
    }
  }

  /** Appending one connection to the snapshot extends both tables the way one iteration
      of the lookup loop does. */
  lemma LookupsSnoc(s: seq<Connection>, c: Connection)
    ensures ByUniqueId(s + [c]) == ByUniqueId(s)[c.uniqueId := c]
    ensures var byService := ByServiceName(s);
      ByServiceName(s + [c]) ==
        byService[c.serviceName := (if c.serviceName in byService then byService[c.serviceName] else []) + [c]]
  {
  }

  // ---------------------------------------------------------------------------
  // The two request passes

  /** Records the pending value `enabled` for every connection in `targets`. */
  function WriteAll(changed: map<string, bool>, targets: seq<Connection>, enabled: bool): (r: map<string, bool>)
    ensures r.Keys == changed.Keys + IdSet(targets)
    ensures forall uid :: uid in r ==> r[uid] == if uid in IdSet(targets) then enabled else changed[uid]
  {
    if targets == [] then changed
    else
      var init := targets[..|targets| - 1];
      var c := targets[|targets| - 1];
      IdSetSnoc(init, c);
      assert targets == init + [c];
      WriteAll(changed, init, enabled)[c.uniqueId := enabled]
  }

  /** One iteration of the service-name pass: an item without a service name, or naming a
      service with no connection, records nothing. */
  function ServiceStep(changed: map<string, bool>, byService: map<string, seq<Connection>>, r: Request): map<string, bool>
  {
    match r.serviceName
    case None => changed
    case Some(s) => if s in byService then WriteAll(changed, byService[s], r.enabled) else changed
  }

  /** The pending changes after the service-name pass over `requests`, starting from none. */
  function ServicePass(requests: seq<Request>, byService: map<string, seq<Connection>>): map<string, bool>
  {
    if requests == [] then map[]
    else ServiceStep(ServicePass(requests[..|requests| - 1], byService), byService, requests[|requests| - 1])
  }

  /** One iteration of the id pass: an item without an id, or naming an unknown id, records nothing. */
  function IdStep(changed: map<string, bool>, byId: map<string, Connection>, r: Request): map<string, bool>
  {
    match r.id
    case None => changed
    case Some(uid) => if uid in byId then changed[uid := r.enabled] else changed
  }

  /** The pending changes after the id pass over `requests`, starting from `changed`. */
  function IdPass(requests: seq<Request>, byId: map<string, Connection>, changed: map<string, bool>): map<string, bool>
  {
    if requests == [] then changed
    else IdStep(IdPass(requests[..|requests| - 1], byId, changed), byId, requests[|requests| - 1])
  }

  // ---------------------------------------------------------------------------
  // The guard and the reconciled table

  /** A pending value reaches a connection only when it is neither done nor locked. */
  function Applied(c: Connection, enabled: bool): Connection
  {
    if c.done || !c.toggleable then c else c.(enabled := enabled)
  }

  /** The table keyed by unique id once every pending change has passed the guard. */
  function ApplyChanges(byId: map<string, Connection>, changed: map<string, bool>): map<string, Connection>
  {
    map uid | uid in byId :: if uid in changed then Applied(byId[uid], changed[uid]) else byId[uid]
  }

  /** The pending changes of both passes. */
  function Pending(available: seq<Connection>, requests: seq<Request>): map<string, bool>
  {
    IdPass(requests, ByUniqueId(available), ServicePass(requests, ByServiceName(available)))
  }

  /** The table keyed by unique id as `update` leaves it before writing the skip markers. */
  function Reconciled(available: seq<Connection>, requests: seq<Request>): (final: map<string, Connection>)
    ensures final.Keys == IdSet(available)
  {
    ByUniqueIdKeys(available);
    ApplyChanges(ByUniqueId(available), Pending(available, requests))
  }

  // ---------------------------------------------------------------------------
  // Reference description of the outcome

  /** What a request item may be scoped to. */
  datatype Scope = IdScope(uid: string) | ServiceScope(name: string)

  predicate Targets(r: Request, scope: Scope)
  {
    match scope
    case IdScope(uid) => r.id == Some(uid)
    case ServiceScope(s) => r.serviceName == Some(s)
  }

  /** The `enabled` of the last item of `requests` scoped to `scope`, if there is one. */
  function LastMatch(requests: seq<Request>, scope: Scope): Option<bool>
  {
    if requests == [] then None
    else if Targets(requests[|requests| - 1], scope) then Some(requests[|requests| - 1].enabled)
    else LastMatch(requests[..|requests| - 1], scope)
  }

  /** The final `enabled` of connection `c`: a done or locked connection keeps its value;
      otherwise the last item naming its id decides, failing that the last item naming its
      service, failing that it keeps its value. */
  function Intended(c: Connection, requests: seq<Request>): bool
  {
    if c.done || !c.toggleable then c.enabled
    else match LastMatch(requests, IdScope(c.uniqueId))
      case Some(e) => e
      case None =>
        match LastMatch(requests, ServiceScope(c.serviceName))
        case Some(e) => e
        case None => c.enabled
  }

  // ---------------------------------------------------------------------------
  // Facts about the last matching item

  lemma {:induction false} LastMatchConcat(a: seq<Request>, b: seq<Request>, scope: Scope)
    ensures LastMatch(a + b, scope) == if LastMatch(b, scope).Some? then LastMatch(b, scope) else LastMatch(a, scope)
    decreases |b|
  {
    if b == [] {
      assert a + b == a;
    } else {
      var init := b[..|b| - 1];
      assert (a + b)[..|a + b| - 1] == a + init;
      assert (a + b)[|a + b| - 1] == b[|b| - 1];
      LastMatchConcat(a, init, scope);
    }
  }

  /** The item at `k` decides when no later item has the same scope. */
  lemma {:induction false} LastMatchAt(requests: seq<Request>, k: nat, scope: Scope)
    requires k < |requests| && Targets(requests[k], scope)
    requires forall j :: k < j < |requests| ==> !Targets(requests[j], scope)
    ensures LastMatch(requests, scope) == Some(requests[k].enabled)
    decreases |requests|
  {
    if k < |requests| - 1 {
      var init := requests[..|requests| - 1];
      LastMatchAt(init, k, scope);
    }
  }

  /** With no item of that scope, nothing decides. */
  lemma {:induction false} LastMatchNone(requests: seq<Request>, scope: Scope)
    requires forall j :: 0 <= j < |requests| ==> !Targets(requests[j], scope)
    ensures LastMatch(requests, scope) == None
    decreases |requests|
  {
    if requests != [] {
      LastMatchNone(requests[..|requests| - 1], scope);
    }
  }

  /** Inserting an item that is not scoped to `scope` does not change what decides it. */
  lemma LastMatchInsert(requests: seq<Request>, k: nat, r: Request, scope: Scope)
    requires k <= |requests| && !Targets(r, scope)
    ensures LastMatch(requests[..k] + [r] + requests[k..], scope) == LastMatch(requests, scope)
  {
    var a, b := requests[..k], requests[k..];
    assert (a + [r])[..|a + [r]| - 1] == a;
    LastMatchConcat(a + [r], b, scope);
    LastMatchConcat(a, b, scope);
    assert a + b == requests;
  }

  // ---------------------------------------------------------------------------
  // What each pass records

  /** With distinct ids, the ids of a service's group are exactly those of its connections. */
  lemma OfServiceIds(available: seq<Connection>, s: string, i: int)
    requires UniqueIds(available) && 0 <= i < |available|
    ensures available[i].uniqueId in IdSet(OfService(available, s)) <==> available[i].serviceName == s
  {
  }

  lemma OfServiceIdsKnown(available: seq<Connection>, s: string)
    ensures IdSet(OfService(available, s)) <= IdSet(available)
  {
  }

  /** The service-name pass records values for connections of the snapshot only. */
  lemma {:induction false} ServicePassKnown(available: seq<Connection>, requests: seq<Request>)
    ensures ServicePass(requests, ByServiceName(available)).Keys <= IdSet(available)
    decreases |requests|
  {
    if requests != [] {
      ServicePassKnown(available, requests[..|requests| - 1]);
      ByServiceNameSpec(available);
      match requests[|requests| - 1].serviceName
      case None =>
      case Some(s) => OfServiceIdsKnown(available, s);
    }
  }

  /** After the service-name pass, a connection has a pending value exactly when some item
      names its service, and that value is the last such item's. */
  lemma {:induction false} ServicePassAt(available: seq<Connection>, requests: seq<Request>, i: int)
    requires UniqueIds(available) && 0 <= i < |available|
    ensures var p, uid, last := ServicePass(requests, ByServiceName(available)), available[i].uniqueId,
                                LastMatch(requests, ServiceScope(available[i].serviceName));
      (uid in p <==> last.Some?) && (uid in p ==> p[uid] == last.value)
    decreases |requests|
  {
    if requests != [] {
      var byService := ByServiceName(available);
      var init := requests[..|requests| - 1];
      var r := requests[|requests| - 1];
      ServicePassAt(available, init, i);
      match r.serviceName
      case None =>
      case Some(s) =>
        ByServiceNameSpec(available);
        if s in byService {
          OfServiceIds(available, s, i);
        }
    }
  }

  /** After the id pass, a known id has a pending value exactly when it had one before or some
      item names it; an item naming it decides over the value from before. */
  lemma {:induction false} IdPassAt(requests: seq<Request>, byId: map<string, Connection>,
                                    changed: map<string, bool>, uid: string)
    ensures var p, last := IdPass(requests, byId, changed), LastMatch(requests, IdScope(uid));
      (uid in p <==> uid in changed || (uid in byId && last.Some?)) &&
      (uid in p ==> p[uid] == if uid in byId && last.Some? then last.value else changed[uid])
    decreases |requests|
  {
    if requests != [] {
      IdPassAt(requests[..|requests| - 1], byId, changed, uid);
    }
  }

  /** The id pass records values for known ids only. */
  lemma {:induction false} IdPassKnown(requests: seq<Request>, byId: map<string, Connection>, changed: map<string, bool>)
    ensures IdPass(requests, byId, changed).Keys <= changed.Keys + byId.Keys
    decreases |requests|
  {
    if requests != [] {
      IdPassKnown(requests[..|requests| - 1], byId, changed);
    }
  }

  /** Every pending value belongs to a connection of the snapshot, so the lookup of the guard
      loop always succeeds. */
  lemma PendingKnown(available: seq<Connection>, requests: seq<Request>)
    ensures Pending(available, requests).Keys <= ByUniqueId(available).Keys
  {
    ByUniqueIdKeys(available);
    ServicePassKnown(available, requests);
    IdPassKnown(requests, ByUniqueId(available), ServicePass(requests, ByServiceName(available)));
  }

  // ---------------------------------------------------------------------------
  // The outcome of reconciliation

  /** One connection of the snapshot comes out with only its `enabled` replaced, by the
      value `Intended` describes. */
  lemma ReconciledAt(available: seq<Connection>, requests: seq<Request>, i: int)
    requires UniqueIds(available) && 0 <= i < |available|
    ensures available[i].uniqueId in Reconciled(available, requests)
    ensures Reconciled(available, requests)[available[i].uniqueId] == available[i].(enabled := Intended(available[i], requests))
  {
    var byId := ByUniqueId(available);
    ByUniqueIdAt(available, i);
    ServicePassAt(available, requests, i);
    IdPassAt(requests, byId, ServicePass(requests, ByServiceName(available)), available[i].uniqueId);
  }

  /** The reconciled table holds exactly the snapshot's connections, each with only its
      `enabled` replaced, by the value `Intended` describes. */
  lemma ReconciledMatchesIntended(available: seq<Connection>, requests: seq<Request>)
    requires UniqueIds(available)
    ensures Reconciled(available, requests).Keys == IdSet(available)
    ensures forall i :: 0 <= i < |available| ==>
      Reconciled(available, requests)[available[i].uniqueId] == available[i].(enabled := Intended(available[i], requests))
  {
    ByUniqueIdKeys(available);
    forall i | 0 <= i < |available|
      ensures Reconciled(available, requests)[available[i].uniqueId] == available[i].(enabled := Intended(available[i], requests))
    {
      ReconciledAt(available, requests, i);
    }
  }

  /** An item scoped to a connection's id decides its final value when no later item names
      the same id, wherever service-scoped items sit in the batch. */
  lemma IdRequestWins(available: seq<Connection>, requests: seq<Request>, i: int, k: nat)
    requires UniqueIds(available) && 0 <= i < |available| && !available[i].done && available[i].toggleable
    requires k < |requests| && requests[k].id == Some(available[i].uniqueId)
    requires forall j :: k < j < |requests| ==> requests[j].id != Some(available[i].uniqueId)
    ensures Reconciled(available, requests)[available[i].uniqueId].enabled == requests[k].enabled
  {
    LastMatchAt(requests, k, IdScope(available[i].uniqueId));
    ReconciledAt(available, requests, i);
  }

  /** Without an item naming its id, a connection takes the value of the last item naming
      its service. */
  lemma ServiceRequestWins(available: seq<Connection>, requests: seq<Request>, i: int, k: nat)
    requires UniqueIds(available) && 0 <= i < |available| && !available[i].done && available[i].toggleable
    requires forall j :: 0 <= j < |requests| ==> requests[j].id != Some(available[i].uniqueId)
    requires k < |requests| && requests[k].serviceName == Some(available[i].serviceName)
    requires forall j :: k < j < |requests| ==> requests[j].serviceName != Some(available[i].serviceName)
    ensures Reconciled(available, requests)[available[i].uniqueId].enabled == requests[k].enabled
  {
    LastMatchNone(requests, IdScope(available[i].uniqueId));
    LastMatchAt(requests, k, ServiceScope(available[i].serviceName));
    ReconciledAt(available, requests, i);
  }

  /** A done or locked connection comes out exactly as it went in. */
  lemma GuardKeepsConnection(available: seq<Connection>, requests: seq<Request>, i: int)
    requires UniqueIds(available) && 0 <= i < |available|
    requires available[i].done || !available[i].toggleable
    ensures Reconciled(available, requests)[available[i].uniqueId] == available[i]
  {
    ReconciledAt(available, requests, i);
  }

  /** A connection no item names, by id or by service, comes out exactly as it went in. */
  lemma UntargetedKeepsConnection(available: seq<Connection>, requests: seq<Request>, i: int)
    requires UniqueIds(available) && 0 <= i < |available|
    requires forall j :: 0 <= j < |requests| ==>
      requests[j].id != Some(available[i].uniqueId) && requests[j].serviceName != Some(available[i].serviceName)
    ensures Reconciled(available, requests)[available[i].uniqueId] == available[i]
  {
    LastMatchNone(requests, IdScope(available[i].uniqueId));
    LastMatchNone(requests, ServiceScope(available[i].serviceName));
    ReconciledAt(available, requests, i);
  }

  /** An item that names neither a known service nor a known id. */
  predicate Ignored(available: seq<Connection>, r: Request)
  {
    (r.serviceName.None? || r.serviceName.value !in ServiceSet(available)) &&
    (r.id.None? || r.id.value !in IdSet(available))
  }

  lemma IgnoredKeepsIntended(available: seq<Connection>, requests: seq<Request>, k: nat, r: Request, i: int)
    requires k <= |requests| && Ignored(available, r) && 0 <= i < |available|
    ensures Intended(available[i], requests[..k] + [r] + requests[k..]) == Intended(available[i], requests)
  {
    assert available[i].uniqueId in IdSet(available);
    assert available[i].serviceName in ServiceSet(available);
    LastMatchInsert(requests, k, r, IdScope(available[i].uniqueId));
    LastMatchInsert(requests, k, r, ServiceScope(available[i].serviceName));
  }

  /** Such an item, wherever it is inserted into a batch, changes nothing. */
  lemma IgnoredRequestChangesNothing(available: seq<Connection>, requests: seq<Request>, k: nat, r: Request)
    requires UniqueIds(available) && k <= |requests| && Ignored(available, r)
    ensures Reconciled(available, requests[..k] + [r] + requests[k..]) == Reconciled(available, requests)
  {
    var batch := requests[..k] + [r] + requests[k..];
    var after, before := Reconciled(available, batch), Reconciled(available, requests);
    ReconciledMatchesIntended(available, requests);
    ReconciledMatchesIntended(available, batch);
    assert after.Keys == before.Keys;
    forall uid | uid in after
      ensures after[uid] == before[uid]
    {
      var c :| c in available && c.uniqueId == uid;
      var i :| 0 <= i < |available| && available[i] == c;
      IgnoredKeepsIntended(available, requests, k, r, i);
    }
  }

  /** A service-wide disable and an id-scoped enable of one connection, with a second
      connection of the same service already done. */
  lemma WorkedExample()
    ensures var a1 := Connection("A1", "twitter", "", true, false, true);
            var a2 := Connection("A2", "twitter", "", true, true, true);
            var requests := [Request(Some("twitter"), None, false), Request(None, Some("A1"), true)];
            Reconciled([a1, a2], requests)["A1"].enabled && Reconciled([a1, a2], requests)["A2"] == a2
  {
  }
}
