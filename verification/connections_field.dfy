/** The two operations of the `jetpack_publicize_connections` post field: `Get`, which
    lists a post's connections, and `Update`, which reconciles a requested batch against
    them and rewrites the post's skip markers. The connection reader's answer, the post id
    and the `POST_SKIP` prefix are parameters; post meta is a `PostMetaStore`. */
module ConnectionsField {
  import opened Connections
  import opened Reconcile
  import opened SkipMeta
  import opened ReadProjection

  /** Lists the reader's connections in order, each cut down to the schema's properties with
      `id` set from `unique_id`. */
  method Get(connections: seq<Record>) returns (output: seq<Record>)
    ensures |output| == |connections|
    ensures forall i :: 0 <= i < |output| ==> output[i] == Project(connections[i])
    ensures forall i, p :: 0 <= i < |output| && p in output[i] ==> p in Properties
    ensures forall i :: 0 <= i < |output| ==> "id" in output[i] && output[i]["id"] == Str(UniqueIdString(connections[i]))
  {
    output := [];
    for i := 0 to |connections|
      invariant |output| == i
      invariant forall k :: 0 <= k < i ==> output[k] == Project(connections[k])
    {
      var connection := connections[i];
      var outputConnection: Record := map[];
      for j := 0 to |Properties|
        invariant outputConnection == CopySet(connection, Properties[..j])
      {
        var property := Properties[j];
        assert Properties[..j + 1][..j] == Properties[..j];
        if property in connection {
          outputConnection := outputConnection[property := connection[property]];
        }
      }
      assert Properties[..|Properties|] == Properties;
      outputConnection := outputConnection["id" := Str(UniqueIdString(connection))];
      output := output + [outputConnection];
    }
  }

  /** Reconciles `requested` against the snapshot `available` of post `postId` and rewrites
      the skip marker of every connection of the snapshot. */
  method Update(requested: seq<Request>, postId: int, available: seq<Connection>,
                skipPrefix: string, store: PostMetaStore)
    modifies store
    ensures store.meta == Resync(old(store.meta), postId, skipPrefix, Reconciled(available, requested), Ids(available))
  {
    var byId, byService := BuildLookups(available);
    var changed := RecordServiceRequests(requested, byService);
    changed := RecordIdRequests(requested, byId, changed);
    PendingKnown(available, requested);
    byId := ApplyPending(byId, changed);
    assert byId == Reconciled(available, requested);
    WriteSkipMarkers(store, postId, skipPrefix, byId, Ids(available));
  }

  /** The lookup tables by unique id and by service name. */
  method BuildLookups(available: seq<Connection>)
    returns (byId: map<string, Connection>, byService: map<string, seq<Connection>>)
    ensures byId == ByUniqueId(available) && byService == ByServiceName(available)
  {
    byId, byService := map[], map[];
    for i := 0 to |available|
      invariant byId == ByUniqueId(available[..i])
      invariant byService == ByServiceName(available[..i])
    {
      var c := available[i];
      assert available[..i + 1] == available[..i] + [c];
      LookupsSnoc(available[..i], c);
      byId := byId[c.uniqueId := c];
      if c.serviceName !in byService {
        byService := byService[c.serviceName := []];
      }
      byService := byService[c.serviceName := byService[c.serviceName] + [c]];
    }
    assert available[..|available|] == available;
  }

  /** The pass over items scoped by service name. */
  method RecordServiceRequests(requested: seq<Request>, byService: map<string, seq<Connection>>)
    returns (changed: map<string, bool>)
    ensures changed == ServicePass(requested, byService)
  {
    changed := map[];
    for i := 0 to |requested|
      invariant changed == ServicePass(requested[..i], byService)
    {
      var r := requested[i];
      assert requested[..i + 1][..i] == requested[..i];
      if r.serviceName.None? {
        continue;
      }
      if r.serviceName.value !in byService {
        continue;
      }
      var group := byService[r.serviceName.value];
      ghost var before := changed;
      for j := 0 to |group|
        invariant changed == WriteAll(before, group[..j], r.enabled)
      {
        assert group[..j + 1][..j] == group[..j];
        changed := changed[group[j].uniqueId := r.enabled];
      }
      assert group[..|group|] == group;
    }
    assert requested[..|requested|] == requested;
  }

  /** The pass over items scoped by id; these override the service-name settings. */
  method RecordIdRequests(requested: seq<Request>, byId: map<string, Connection>, afterServices: map<string, bool>)
    returns (changed: map<string, bool>)
    ensures changed == IdPass(requested, byId, afterServices)
  {
    changed := afterServices;
    for i := 0 to |requested|
      invariant changed == IdPass(requested[..i], byId, afterServices)
    {
      var r := requested[i];
      assert requested[..i + 1][..i] == requested[..i];
      if r.id.None? {
        continue;
      }
      if r.id.value !in byId {
        continue;
      }
      changed := changed[r.id.value := r.enabled];
    }
    assert requested[..|requested|] == requested;
  }

  /** Sets every pending value that passes the guard, in place in the table by unique id. */
  method ApplyPending(original: map<string, Connection>, changed: map<string, bool>)
    returns (byId: map<string, Connection>)
    requires changed.Keys <= original.Keys
    ensures byId == ApplyChanges(original, changed)
  {
    byId := original;
    var todo := changed.Keys;
    while todo != {}
      invariant todo <= changed.Keys
      invariant byId.Keys == original.Keys
      invariant forall uid :: uid in byId ==>
        byId[uid] == if uid in changed && uid !in todo then Applied(original[uid], changed[uid]) else original[uid]
      decreases todo
    {
      var uid :| uid in todo;
      var connection := byId[uid];
      todo := todo - {uid};
      if connection.done || !connection.toggleable {
        continue;
      }
      byId := byId[uid := connection.(enabled := changed[uid])];
    }
  }

  /** Rewrites the skip marker of every connection of `order`. */
  method WriteSkipMarkers(store: PostMetaStore, postId: int, skipPrefix: string,
                          final: map<string, Connection>, order: seq<string>)
    requires forall uid :: uid in order ==> uid in final
    modifies store
    ensures store.meta == Resync(old(store.meta), postId, skipPrefix, final, order)
  {
    for i := 0 to |order|
      invariant store.meta == Resync(old(store.meta), postId, skipPrefix, final, order[..i])
    {
      var uid := order[i];
      assert order[..i + 1][..i] == order[..i];
      if final[uid].enabled {
        store.Delete(postId, SkipKey(skipPrefix, uid));
      } else {
        store.Update(postId, SkipKey(skipPrefix, uid), SkipMarker);
      }
    }
    assert order[..|order|] == order;
  }

  /** After `Update`, every connection of the snapshot has a skip marker, equal to 1, exactly
      when its reconciled `enabled` is false. */
  lemma UpdateMarksSkipped(meta: map<MetaKey, int>, postId: int, skipPrefix: string,
                           available: seq<Connection>, requested: seq<Request>, i: int)
    requires UniqueIds(available) && 0 <= i < |available|
    ensures forall uid :: uid in Ids(available) ==> uid in Reconciled(available, requested)
    ensures var r := Resync(meta, postId, skipPrefix, Reconciled(available, requested), Ids(available));
      var key := (postId, SkipKey(skipPrefix, available[i].uniqueId));
      (key in r <==> !Intended(available[i], requested)) && (key in r ==> r[key] == SkipMarker)
  {
    var final := Reconciled(available, requested);
    ReconciledMatchesIntended(available, requested);
    forall uid | uid in Ids(available)
      ensures uid in final
    {
      var k :| 0 <= k < |available| && Ids(available)[k] == uid;
      assert available[k] in available;
    }
    assert Ids(available)[i] == available[i].uniqueId;
    ResyncMarks(meta, postId, skipPrefix, final, Ids(available));
  }
}
