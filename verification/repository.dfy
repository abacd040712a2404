/**
 * The part of the JpaRepository contract the services rely on, for one table
 * whose primary key is an IDENTITY column.
 */
module Repository {
  import opened Options

  /** A primary key or path id (Java Integer); the table only ever hands out positive ones. */
  type Id = nat

  /** A row: the generated primary key (null until first saved) and the entity's other columns. */
  datatype Entity<F> = Entity(id: Option<Id>, fields: F)

  /** One table: its rows by primary key, and the next value of the IDENTITY counter. */
  datatype Store<F> = Store(rows: map<Id, Entity<F>>, nextId: Id)

  /**
   * What the database guarantees of a table: every key was handed out by the
   * counter (which starts at 1), and every row carries its own key as its id.
   */
  ghost predicate Valid<F>(s: Store<F>)
  {
    && 1 <= s.nextId
    && forall k :: k in s.rows ==> 1 <= k < s.nextId && s.rows[k].id == Some(k)
  }

  /** A freshly created table: no rows, and the IDENTITY counter at its seed of 1. */
  function Empty<F>(): (s: Store<F>)
    ensures Valid(s)
    ensures s.rows == map[]
    ensures s.nextId == 1
  {
    Store(map[], 1)
  }

  /** findById: the row under that key, if there is one. */
  function FindById<F>(s: Store<F>, id: Id): (r: Option<Entity<F>>)
    ensures r.Some? <==> id in s.rows
    ensures r.Some? ==> r.value == s.rows[id]
  {
    if id in s.rows then Some(s.rows[id]) else None
  }

  /**
   * save: an entity whose id names an existing row replaces that row;
   * any other entity is inserted under the next IDENTITY value.
   */
  function Save<F>(s: Store<F>, e: Entity<F>): (r: (Entity<F>, Store<F>))
    ensures r.0.fields == e.fields
    ensures r.0.id.Some? && r.1.rows == s.rows[r.0.id.value := r.0]
    ensures e.id.Some? && e.id.value in s.rows ==> r.0.id == e.id && r.1.nextId == s.nextId
    ensures !(e.id.Some? && e.id.value in s.rows) ==> r.0.id == Some(s.nextId) && r.1.nextId == s.nextId + 1
    ensures Valid(s) ==> Valid(r.1)
    ensures Valid(s) && e.id.None? ==> r.0.id.value !in s.rows
  {
    if e.id.Some? && e.id.value in s.rows then
      (e, Store(s.rows[e.id.value := e], s.nextId))
    else
      var saved := e.(id := Some(s.nextId));
      (saved, Store(s.rows[s.nextId := saved], s.nextId + 1))
  }

  /** deleteById: the row under that key is gone and nothing else changes. */
  function DeleteById<F>(s: Store<F>, id: Id): (r: Store<F>)
    ensures id !in r.rows
    ensures forall k :: k in s.rows && k != id ==> k in r.rows && r.rows[k] == s.rows[k]
    ensures forall k :: k in r.rows ==> k in s.rows
    ensures r.nextId == s.nextId
    ensures Valid(s) ==> Valid(r)
  {
    Store(s.rows - {id}, s.nextId)
  }

  /** Some key of a non-empty set. */
  method PickKey(p: set<Id>) returns (k: Id)
    requires p != {}
    ensures k in p
  {
    k :| k in p;
  }

  /**
   * findAll: every row of the table exactly once, in no particular order.
   */
  method FindAll<F(==)>(s: Store<F>) returns (rows: seq<Entity<F>>)
    ensures |rows| == |s.rows|
    ensures forall e :: e in rows <==> e in s.rows.Values
    ensures Valid(s) ==> forall i, j :: 0 <= i < j < |rows| ==> rows[i] != rows[j]
  {
    rows := [];
    ghost var keys: seq<Id> := [];
    var pending := s.rows.Keys;
    while pending != {}
      invariant pending <= s.rows.Keys
      invariant |rows| == |keys|
      invariant |rows| + |pending| == |s.rows|
      invariant forall i :: 0 <= i < |keys| ==> keys[i] in s.rows && keys[i] !in pending && rows[i] == s.rows[keys[i]]
      invariant forall i, j :: 0 <= i < j < |keys| ==> keys[i] != keys[j]
      invariant forall k :: k in s.rows && k !in pending ==> s.rows[k] in rows
      decreases |pending|
    {
      var k: Id := PickKey(pending);
      rows := rows + [s.rows[k]];
      keys := keys + [k];
      pending := pending - {k};
    }
    forall e | e in rows
      ensures e in s.rows.Values
    {
      var i :| 0 <= i < |rows| && rows[i] == e;
      assert s.rows[keys[i]] == e;
    }
    forall e | e in s.rows.Values
      ensures e in rows
    {
      var k: Id :| k in s.rows && s.rows[k] == e;
    }
    if Valid(s) {
      forall i, j | 0 <= i < j < |rows|
        ensures rows[i] != rows[j]
      {
        assert rows[i].id == Some(keys[i]);
        assert rows[j].id == Some(keys[j]);
      }
    }
  }
}
