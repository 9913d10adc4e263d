/**
 * The read side of GenericRepository<T> (GenericRepository.cs): queries over
 * one committed table. The staging operations Add, Update and Delete change
 * the context and live on Persistence.UnitOfWork.
 */
module GenericRepository {
  import opened Wrappers
  import opened Entities

  /** Each entity is stored under its own Id, as read by `idOf`. */
  predicate Keyed<T>(table: map<Guid, T>, idOf: T -> Guid)
  {
    forall k :: k in table ==> idOf(table[k]) == k
  }

  /** Every non-empty set of Guids has a least element. */
  lemma {:induction false} LeastOf(ks: set<Guid>) returns (m: Guid)
    requires ks != {}
    ensures m in ks && forall k :: k in ks ==> m <= k
    decreases |ks|
  {
    var x :| x in ks;
    var rest := ks - {x};
    if rest == {} {
      assert ks == {x};
      m := x;
    } else {
      var least := LeastOf(rest);
      m := if x < least then x else least;
      forall k | k in ks ensures m <= k {
        if k != x { assert k in rest; }
      }
    }
  }

  /** The least Guid of a non-empty set. */
  function Min(ks: set<Guid>): (m: Guid)
    requires ks != {}
    ensures m in ks && forall k :: k in ks ==> m <= k
  {
    assert exists m :: m in ks && forall k :: k in ks ==> m <= k by {
      var w := LeastOf(ks);
    }
    var m :| m in ks && forall k :: k in ks ==> m <= k;
    m
  }

  /** The keys in ascending order, each once. */
  function SortedIds(ks: set<Guid>): (r: seq<Guid>)
    ensures |r| == |ks|
    ensures forall k :: k in r <==> k in ks
    ensures forall i, j :: 0 <= i < j < |r| ==> r[i] < r[j]
    decreases |ks|
  {
    if ks == {} then []
    else
      var m := Min(ks);
      var rest := SortedIds(ks - {m});
      assert forall j :: 0 <= j < |rest| ==> m < rest[j] by {
        forall j | 0 <= j < |rest| ensures m < rest[j] {
          assert rest[j] in ks - {m};
        }
      }
      [m] + rest
  }

  /** GetByIdAsync: FindAsync by primary key. */
  function GetById<T>(table: map<Guid, T>, id: Guid): Option<T>
  {
    if id in table then Some(table[id]) else None
  }

  /** The entities stored under the given keys, in the keys' order. */
  function RowsAt<T>(table: map<Guid, T>, ids: seq<Guid>): (r: seq<T>)
    requires forall k :: k in ids ==> k in table
    ensures |r| == |ids|
    ensures forall i :: 0 <= i < |ids| ==> r[i] == table[ids[i]]
  {
    if ids == [] then [] else [table[ids[0]]] + RowsAt(table, ids[1..])
  }

  /** GetAllAsync: every stored entity, here in ascending Id order. */
  function GetAll<T(==)>(table: map<Guid, T>): (r: seq<T>)
    ensures |r| == |table|
    ensures forall i :: 0 <= i < |r| ==> r[i] in table.Values
    ensures forall k :: k in table ==> table[k] in r
  {
    var ids := SortedIds(table.Keys);
    var r := RowsAt(table, ids);
    assert |table.Keys| == |table|;
    forall i | 0 <= i < |r| ensures r[i] in table.Values {
      assert ids[i] in table && r[i] == table[ids[i]];
    }
    forall k | k in table ensures table[k] in r {
      var i :| 0 <= i < |ids| && ids[i] == k;
      assert r[i] == table[k];
    }
    r
  }

  /** ExistsAsync: AnyAsync(e => e.Id == id). */
  predicate Exists<T>(table: map<Guid, T>, idOf: T -> Guid, id: Guid)
  {
    exists k :: k in table && idOf(table[k]) == id
  }

  /** GetById returns exactly the stored entity whose Id is the argument, or nothing. */
  lemma GetByIdFindsId<T>(table: map<Guid, T>, idOf: T -> Guid, id: Guid)
    requires Keyed(table, idOf)
    ensures GetById(table, id).Some? ==> idOf(GetById(table, id).value) == id && GetById(table, id).value in table.Values
    ensures GetById(table, id).None? ==> forall k :: k in table ==> idOf(table[k]) != id
  {
  }

  /** Exists holds exactly when GetById would return something. */
  lemma ExistsIffGetById<T>(table: map<Guid, T>, idOf: T -> Guid, id: Guid)
    requires Keyed(table, idOf)
    ensures Exists(table, idOf, id) <==> GetById(table, id).Some?
  {
    if GetById(table, id).Some? {
      assert idOf(table[id]) == id;
    }
  }

  /** Once an Id is gone from the table, no query finds it. */
  lemma AbsentIdIsInvisible<T>(table: map<Guid, T>, idOf: T -> Guid, id: Guid)
    requires Keyed(table, idOf) && id !in table
    ensures GetById(table, id).None? && !Exists(table, idOf, id)
    ensures forall i :: 0 <= i < |GetAll(table)| ==> idOf(GetAll(table)[i]) != id
  {
  }
}
