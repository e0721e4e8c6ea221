/** The skip markers `update` keeps in post meta: for every connection of the snapshot the
    marker `POST_SKIP . unique_id` of the post is deleted when the connection is enabled and
    set to 1 when it is disabled. */
module SkipMeta {
  import opened Connections

  /** A post meta entry is addressed by the post id and the meta key. */
  type MetaKey = (int, string)

  /** The marker value written for a skipped connection. */
  const SkipMarker: int := 1

  /** The meta key of the skip marker of connection `uid`. */
  function SkipKey(prefix: string, uid: string): string
  {
    prefix + uid
  }

  lemma SkipKeyInjective(prefix: string, a: string, b: string)
    requires SkipKey(prefix, a) == SkipKey(prefix, b)
    ensures a == b
  {
    assert a == SkipKey(prefix, a)[|prefix|..];
    assert b == SkipKey(prefix, b)[|prefix|..];
  }

  /** One iteration of the resync loop: delete the marker of an enabled connection, set it
      for a disabled one. */
  function ResyncOne(meta: map<MetaKey, int>, postId: int, key: string, enabled: bool): map<MetaKey, int>
  {
    if enabled then meta - {(postId, key)} else meta[(postId, key) := SkipMarker]
  }

  /** The post meta after the resync loop has visited the ids of `order`, in order, reading
      each connection's final state from `final`. */
  function Resync(meta: map<MetaKey, int>, postId: int, prefix: string,
                  final: map<string, Connection>, order: seq<string>): map<MetaKey, int>
    requires forall uid :: uid in order ==> uid in final
  {
    if order == [] then meta
    else
      var uid := order[|order| - 1];
      ResyncOne(Resync(meta, postId, prefix, final, order[..|order| - 1]), postId, SkipKey(prefix, uid), final[uid].enabled)
  }

  /** The meta entries the resync loop may write. */
  function SkipKeys(postId: int, prefix: string, order: seq<string>): set<MetaKey>
  {
    set uid | uid in order :: (postId, SkipKey(prefix, uid))
  }

  /** After the resync every visited connection has a marker, equal to 1, exactly when it is
      disabled. */
  lemma {:induction false} ResyncMarks(meta: map<MetaKey, int>, postId: int, prefix: string,
                                       final: map<string, Connection>, order: seq<string>)
    requires forall uid :: uid in order ==> uid in final
    ensures forall uid :: uid in order ==>
      var r, key := Resync(meta, postId, prefix, final, order), (postId, SkipKey(prefix, uid));
      (key in r <==> !final[uid].enabled) && (key in r ==> r[key] == SkipMarker)
    decreases |order|
  {
    if order != [] {
      var init, last := order[..|order| - 1], order[|order| - 1];
      ResyncMarks(meta, postId, prefix, final, init);
      forall uid | uid in order && uid != last
        ensures SkipKey(prefix, uid) != SkipKey(prefix, last) && uid in init
      {
        if SkipKey(prefix, uid) == SkipKey(prefix, last) {
          SkipKeyInjective(prefix, uid, last);
        }
        assert order == init + [last];
      }
    }
  }

  /** The resync leaves every other meta entry, of this post or another, as it was. */
  lemma {:induction false} ResyncFrame(meta: map<MetaKey, int>, postId: int, prefix: string,
                                       final: map<string, Connection>, order: seq<string>)
    requires forall uid :: uid in order ==> uid in final
    ensures forall k :: k !in SkipKeys(postId, prefix, order) ==>
      var r := Resync(meta, postId, prefix, final, order);
      (k in r <==> k in meta) && (k in r ==> r[k] == meta[k])
    decreases |order|
  {
    if order != [] {
      var init, last := order[..|order| - 1], order[|order| - 1];
      ResyncFrame(meta, postId, prefix, final, init);
      assert order == init + [last];
      assert SkipKeys(postId, prefix, order) == SkipKeys(postId, prefix, init) + {(postId, SkipKey(prefix, last))};
    }
  }

  /** In particular the marker of a connection outside `order`, or of another post, is untouched. */
  lemma ResyncLeavesOthers(meta: map<MetaKey, int>, postId: int, prefix: string,
                           final: map<string, Connection>, order: seq<string>, otherPost: int, uid: string)
    requires forall u :: u in order ==> u in final
    requires otherPost != postId || uid !in order
    ensures var r, key := Resync(meta, postId, prefix, final, order), (otherPost, SkipKey(prefix, uid));
      (key in r <==> key in meta) && (key in r ==> r[key] == meta[key])
  {
    if (otherPost, SkipKey(prefix, uid)) in SkipKeys(postId, prefix, order) {
      var u :| u in order && (otherPost, SkipKey(prefix, uid)) == (postId, SkipKey(prefix, u));
      SkipKeyInjective(prefix, uid, u);
    }
    ResyncFrame(meta, postId, prefix, final, order);
  }

  /** Running the resync again with the same final state changes nothing. */
  lemma ResyncIdempotent(meta: map<MetaKey, int>, postId: int, prefix: string,
                         final: map<string, Connection>, order: seq<string>)
    requires forall uid :: uid in order ==> uid in final
    ensures var once := Resync(meta, postId, prefix, final, order);
      Resync(once, postId, prefix, final, order) == once
  {
    var once := Resync(meta, postId, prefix, final, order);
    var twice := Resync(once, postId, prefix, final, order);
    ResyncMarks(meta, postId, prefix, final, order);
    ResyncMarks(once, postId, prefix, final, order);
    ResyncFrame(once, postId, prefix, final, order);
    forall k
      ensures (k in twice <==> k in once) && (k in twice ==> twice[k] == once[k])
    {
      if k in SkipKeys(postId, prefix, order) {
        var uid :| uid in order && k == (postId, SkipKey(prefix, uid));
      }
    }
    assert twice.Keys == once.Keys;
  }

  /** The post meta table behind `delete_post_meta` and `update_post_meta`. */
  class PostMetaStore {
    var meta: map<MetaKey, int>

    constructor (initial: map<MetaKey, int>)
      ensures meta == initial
    {
      meta := initial;
    }

    /** Removes the entry, if there is one. */
    method Delete(postId: int, key: string)
      modifies this
      ensures meta == old(meta) - {(postId, key)}
    {
      meta := meta - {(postId, key)};
    }

    /** Creates or replaces the entry. */
    method Update(postId: int, key: string, value: int)
      modifies this
      ensures meta == old(meta)[(postId, key) := value]
    {
      meta := meta[(postId, key) := value];
    }
  }
}
