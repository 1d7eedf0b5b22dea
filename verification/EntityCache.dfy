/** Entities as the loader handles them, and the cache that keeps pointers to them. */
module EntityCaches {
  import opened Prelude
  import opened BlockRanges
  import opened VersionedRows

  type TableName = string

  datatype Key = Key(table: TableName, id: Id)

  /** The contents of an entity at one moment. */
  datatype EntityVal = EntityVal(
    key: Key, vid: Vid, range: Option<Bounds>, updated: nat, present: bool, fields: Fields)

  /** An entity of one table; its type, hence its table, never changes. */
  class Entity {
    const table: TableName
    var id: Id
    var vid: Vid
    var range: Option<Bounds>
    var updated: nat
    var present: bool
    var fields: Fields

    /** `Registry.GetInterface` followed by `SetID`: zero fields, nothing loaded. */
    constructor (table: TableName, id: Id, zero: Fields)
      ensures Val() == Blank(Key(table, id), zero)
    {
      this.table, this.id, this.fields := table, id, zero;
      vid, range, updated, present := 0, None, 0, false;
    }

    function FullKey(): Key
      reads this
    {
      Key(table, id)
    }

    function Val(): EntityVal
      reads this
    {
      EntityVal(FullKey(), vid, range, updated, present, fields)
    }

    /** `reflect.ValueOf(out).Elem().Set(reflect.ValueOf(e).Elem())` */
    method CopyFrom(e: Entity)
      requires e.table == table
      modifies this
      ensures Val() == old(e.Val())
    {
      id, vid, range, updated, present, fields := e.id, e.vid, e.range, e.updated, e.present, e.fields;
    }
  }

  function Blank(k: Key, zero: Fields): EntityVal {
    EntityVal(k, 0, None, 0, false, zero)
  }

  /** `entityCache`; its two-level map is keyed here by table and id together. */
  class EntityCache {
    var entityMap: map<Key, Entity>
    var hits: nat
    var misses: nat

    constructor ()
      ensures entityMap == map[] && fresh(this)
    {
      entityMap, hits, misses := map[], 0, 0;
    }

    /** Each pointer is filed under its own key, so no entity is filed twice. */
    ghost predicate Valid()
      reads this, entityMap.Values
    {
      forall k | k in entityMap :: entityMap[k].FullKey() == k
    }

    method GetEntity(k: Key, out: Entity) returns (found: bool)
      requires Valid() && out.FullKey() == k
      modifies this`hits, this`misses, out
      ensures found <==> k in entityMap
      ensures found ==> out.Val() == old(entityMap[k].Val())
      ensures !found ==> out.Val() == old(out.Val())
      ensures Valid() && forall j | j in entityMap :: entityMap[j].Val() == old(entityMap[j].Val())
      ensures hits + misses == old(hits + misses) + 1
    {
      if k in entityMap {
        hits := hits + 1;
        out.CopyFrom(entityMap[k]);
        return true;
      }
      misses := misses + 1;
      return false;
    }

    method SetEntity(e: Entity)
      modifies this`entityMap
      ensures entityMap == old(entityMap)[e.FullKey() := e]
    {
      entityMap := entityMap[e.FullKey() := e];
    }

    method Invalidate(k: Key)
      requires Valid()
      modifies this`entityMap
      ensures Valid() && entityMap == old(entityMap) - {k}
    {
      entityMap := entityMap - {k};
    }

    /** Forgets the entities whose type declares them final. */
    method PurgeCache(final: set<Key>)
      requires Valid()
      modifies this`entityMap
      ensures Valid() && entityMap == old(entityMap) - final
    {
      ghost var before := entityMap;
      var todo := entityMap.Keys;
      while todo != {}
        invariant Valid() && todo <= before.Keys
        invariant entityMap == before - (final - todo)
        invariant forall k | k in todo :: k in entityMap
      {
        var k :| k in todo;
        todo := todo - {k};
        if k in final {
          entityMap := entityMap - {k};
        }
      }
    }
  }
}
