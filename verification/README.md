# Publicize connections post field, modelled in Dafny

Jetpack's `jetpack_publicize_connections` REST field lists, for one post, the social
sharing connections (linked accounts on sharing services) that post may be shared to.
It also lets a caller switch sharing on or off per connection. This project models the
field's two operations:

- **`get`** lists the connections that the connection reader returns for the post. Each
  connection is cut down to the property names of the per-connection schema (`id`,
  `service_name`, `display_name`, `enabled`, `done`, `toggleable`). Its `id` is forced to
  the string form of its `unique_id`.
- **`update`** reconciles a batch of requested changes against the post's connection
  snapshot. Items are scoped either to a service name (every connection of that service)
  or to a connection id.
  1. It builds a lookup table by unique id and one by service name.
  2. It records pending values in a pass over service-scoped items.
  3. It records pending values in a second pass over id-scoped items, which override the
     first pass.
  4. It drops the pending values of connections that are `done` or not `toggleable`.
  5. It rewrites the post's skip marker of every connection: the marker is deleted for an
     enabled connection and set to 1 for a disabled one.

Modules:

- `Connections` (connections.dfy): the connection and request records.
- `Reconcile` (reconcile.dfy): each loop of `update` written as the function it computes,
  plus `Intended`, an independent description of each connection's final `enabled`:
  - a done or locked connection keeps its value;
  - otherwise the last item naming its id decides;
  - failing that, the last item naming its service decides;
  - failing that, it keeps its value.

  The lemmas prove that the two agree and derive the precedence, guard and no-op rules.
- `SkipMeta` (skip_meta.dfy): the skip-marker resync over a post meta table, and the
  table itself as a class.
- `ReadProjection` (read_projection.dfy): the projection `get` applies to each record.
- `ConnectionsField` (connections_field.dfy): `Get` and `Update` as imperative methods
  with the source's loops, each proved equal to the functions above.

Inputs that come from outside the field are parameters:

- the connection reader's snapshot, i.e. what `get_filtered_connection_data` returns;
- the post id;
- the `POST_SKIP` prefix of the skip-marker meta keys.

Three behaviours of `update` worth noting:

- A request item that carries both `service_name` and `id` is applied in both passes. The
  service-name pass applies it to every connection of that service. The id pass then
  applies it to the one connection it names.
- `update` writes a marker for every connection of the snapshot, not only for the
  connections whose value changed.
- An item that lacks `enabled` is not ignored by the code (see "Left out").

## Model

| member | source | states |
|---|---|---|
| `ConnectionsField.Get` | _inc/lib/core-api/wpcom-fields/post-fields-publicize-connections.php:153-176 | one output entry per reader connection, in the same order, each equal to `Project` of that connection; every key of every entry is a schema property and `id` is the string form of its `unique_id` |
| `ReadProjection.Project` | _inc/lib/core-api/wpcom-fields/post-fields-publicize-connections.php:156-172 | allow-list projection: keys only among the six schema properties; `id` always present and equal to the cast `unique_id`; every other schema property is present exactly when the record sets it, with the record's value |
| `ReadProjection.CopySet` | _inc/lib/core-api/wpcom-fields/post-fields-publicize-connections.php:164-168 | the inner loop keeps exactly the listed properties the record sets, with their values unchanged |
| `ReadProjection.NatDecimalValue` | _inc/lib/core-api/wpcom-fields/post-fields-publicize-connections.php:170 | the digits `(string)` gives a numeric `unique_id` denote that number, with no leading zero |
| `ConnectionsField.Update` | _inc/lib/core-api/wpcom-fields/post-fields-publicize-connections.php:186-253 | the post meta afterwards is the resync of the old meta with the reconciled table, over the snapshot's ids in order |
| `ConnectionsField.BuildLookups` | _inc/lib/core-api/wpcom-fields/post-fields-publicize-connections.php:194-203 | the loop builds exactly the table by unique id and the table by service name |
| `ConnectionsField.RecordServiceRequests` | _inc/lib/core-api/wpcom-fields/post-fields-publicize-connections.php:205-218 | the first pass yields exactly the pending values of the service-name pass |
| `ConnectionsField.RecordIdRequests` | _inc/lib/core-api/wpcom-fields/post-fields-publicize-connections.php:220-232 | the second pass yields exactly the id pass applied on top of the first pass's values |
| `ConnectionsField.ApplyPending` | _inc/lib/core-api/wpcom-fields/post-fields-publicize-connections.php:234-243 | updating the table by unique id in place yields every pending value applied through the done/toggleable guard, and nothing else changed |
| `ConnectionsField.WriteSkipMarkers` | _inc/lib/core-api/wpcom-fields/post-fields-publicize-connections.php:245-252 | the delete/set calls leave post meta equal to the resync of the given order |
| `ConnectionsField.UpdateMarksSkipped` | _inc/lib/core-api/wpcom-fields/post-fields-publicize-connections.php:245-252 | after `update`, a connection has a skip marker, equal to 1, exactly when its intended final `enabled` is false |
| `Reconcile.ByUniqueIdKeys` | _inc/lib/core-api/wpcom-fields/post-fields-publicize-connections.php:196-197 | the table by unique id has exactly the snapshot's ids as keys |
| `Reconcile.ByUniqueIdAt` | _inc/lib/core-api/wpcom-fields/post-fields-publicize-connections.php:196-197 | with distinct ids, each connection is found under its own id |
| `Reconcile.ByServiceNameSpec` | _inc/lib/core-api/wpcom-fields/post-fields-publicize-connections.php:199-202 | a name is a key exactly when some connection has that service, and it maps to that service's connections in snapshot order |
| `Reconcile.WriteAll` | _inc/lib/core-api/wpcom-fields/post-fields-publicize-connections.php:215-216 | the inner loop records the item's value for exactly the group's ids and keeps every other pending value |
| `Reconcile.ServicePassAt` | _inc/lib/core-api/wpcom-fields/post-fields-publicize-connections.php:206-218 | after the first pass a connection has a pending value exactly when some item names its service, and the value is the last such item's (last write wins) |
| `Reconcile.IdPassAt` | _inc/lib/core-api/wpcom-fields/post-fields-publicize-connections.php:220-232 | after the second pass a known id has a pending value exactly when it had one or some item names it; the last item naming it overrides the first pass; unknown ids gain nothing |
| `Reconcile.PendingKnown` | _inc/lib/core-api/wpcom-fields/post-fields-publicize-connections.php:235-236 | every pending key is a snapshot id, so the lookup of the guard loop always succeeds |
| `Reconcile.Reconciled` | _inc/lib/core-api/wpcom-fields/post-fields-publicize-connections.php:194-243 | the reconciled table covers exactly the snapshot's ids |
| `Reconcile.ReconciledAt` | _inc/lib/core-api/wpcom-fields/post-fields-publicize-connections.php:186-243 | each snapshot connection comes out with only `enabled` replaced, by its `Intended` value |
| `Reconcile.ReconciledMatchesIntended` | _inc/lib/core-api/wpcom-fields/post-fields-publicize-connections.php:186-243 | the reconciled table equals the reference description on every connection of the snapshot |
| `Reconcile.IdRequestWins` | _inc/lib/core-api/wpcom-fields/post-fields-publicize-connections.php:220-232 | the last item naming a changeable connection's id decides its final value, wherever service-scoped items sit in the batch |
| `Reconcile.ServiceRequestWins` | _inc/lib/core-api/wpcom-fields/post-fields-publicize-connections.php:206-218 | with no item naming its id, a changeable connection takes the value of the last item naming its service |
| `Reconcile.GuardKeepsConnection` | _inc/lib/core-api/wpcom-fields/post-fields-publicize-connections.php:238-240 | a connection that is done or not toggleable comes out unchanged, whatever the batch says |
| `Reconcile.UntargetedKeepsConnection` | _inc/lib/core-api/wpcom-fields/post-fields-publicize-connections.php:234-243 | a connection that no item names, by id or by service, comes out unchanged |
| `Reconcile.IgnoredRequestChangesNothing` | _inc/lib/core-api/wpcom-fields/post-fields-publicize-connections.php:206-232 | an item with no service name or an unknown one, and with no id or an unknown one, inserted anywhere in the batch, leaves the result unchanged |
| `Reconcile.WorkedExample` | _inc/lib/core-api/wpcom-fields/post-fields-publicize-connections.php:206-243 | service-wide disable of "twitter" plus an id-scoped enable of A1: A1 ends enabled, and A2, already done, is unchanged |
| `SkipMeta.ResyncMarks` | _inc/lib/core-api/wpcom-fields/post-fields-publicize-connections.php:246-252 | every visited connection has a marker, equal to 1, exactly when it is disabled |
| `SkipMeta.ResyncFrame` | _inc/lib/core-api/wpcom-fields/post-fields-publicize-connections.php:246-252 | every meta entry other than the visited connections' markers keeps its presence and value |
| `SkipMeta.ResyncLeavesOthers` | _inc/lib/core-api/wpcom-fields/post-fields-publicize-connections.php:246-252 | the skip key of another post, or of an id outside the snapshot, is untouched |
| `SkipMeta.ResyncIdempotent` | _inc/lib/core-api/wpcom-fields/post-fields-publicize-connections.php:246-252 | running the resync again with the same reconciled table leaves post meta unchanged |
| `SkipMeta.PostMetaStore.Delete` | _inc/lib/core-api/wpcom-fields/post-fields-publicize-connections.php:248 | `delete_post_meta` removes the post's entry for that key and nothing else |
| `SkipMeta.PostMetaStore.Update` | _inc/lib/core-api/wpcom-fields/post-fields-publicize-connections.php:250 | `update_post_meta` creates or replaces the post's entry for that key and nothing else |

## Left out

- `register_fields` (lines 33-45) is not modelled: it picks the post types that support Publicize, adds custom-fields support to them, and registers the field through the parent controller.
- `permission_check`, `get_permission_check` and `update_permission_check` (lines 110-141) are not modelled. The REST framework consults them before `get` or `update` runs, and they depend on the global Publicize object.
- The schema literals and their translated descriptions (lines 50-104) are not modelled. Only the list of property names is kept, as `ReadProjection.Properties`. Per-context visibility (`view`/`edit`) is applied by the REST framework, outside this field.
- Plugin loading (line 256) is not modelled.
- `get_filtered_connection_data` (lines 159, 189) becomes an input sequence. The post id and the `POST_SKIP` prefix become parameters.
- `delete_post_meta` and `update_post_meta` are modelled as a single-valued map from (post id, key) to an integer. WordPress's multiple values per meta key are not modelled.
- `ConnectionsField.Update` handles duplicate unique ids as the code does: the table by unique id keeps the last entry per id. With duplicates it writes a repeated id's marker once per occurrence instead of once. Every write of an id carries the same final value, so the resulting post meta is the same.
- `Reconcile.IdRequestWins`, `Reconcile.ReconciledMatchesIntended` and the other batch lemmas require distinct unique ids in the snapshot. The model assumes the connection reader returns distinct ids; otherwise line 197 keeps only the last entry per id. With duplicates, `Intended` of an earlier, replaced entry does not describe the table.
- A request item's `enabled` is a required boolean. A missing one reads as null in the code and is written as a pending value; that case is not modelled.
- PHP coercions are not modelled: numeric-string array keys turning into integers, and `isset` treating a null value as absent. Record values are strings, integers or booleans. Floats, arrays and null values are not modelled.
- `ConnectionsField.ApplyPending` visits the pending keys in an unspecified order, not PHP's insertion order. Each key is visited once and writes only its own entry, so the resulting table is the same.
- `ConnectionsField.Update` writes markers in snapshot order. With distinct ids this is the insertion order of the PHP table by unique id.
- `ReadProjection.Project` returns a map. The key order of each PHP output entry is not modelled.
