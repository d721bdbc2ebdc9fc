/** A table of the relational store, keyed by its identity column, with the
    two reads every service uses: `findById(id).orElseThrow(...)` and
    `findAll()`. */
module Store {
  import opened Wrappers
  import opened Errors

  /** `findById(id).orElseThrow(() -> new ResourceNotFoundException(...))`. */
  function FindById<T>(table: map<int, T>, kind: Kind, id: int): (r: Result<T, Error>)
    ensures r.Success? <==> id in table
    ensures r.Success? ==> r.value == table[id]
    ensures r.Failure? ==> r.error == NotFound(kind, id)
  {
    if id in table then Success(table[id]) else Failure(NotFound(kind, id))
  }

  lemma {:induction false} LeastExists(ids: set<int>)
    requires ids != {}
    ensures exists m :: m in ids && forall x :: x in ids ==> m <= x
    decreases |ids|
  {
    if forall x :: x !in ids {
      assert false;
    }
    var y :| y in ids;
    var rest := ids - {y};
    if rest == {} {
      forall x | x in ids ensures y <= x {
        assert x !in rest;
      }
    } else {
      LeastExists(rest);
      var m :| m in rest && forall x :: x in rest ==> m <= x;
      var least := if y < m then y else m;
      forall x | x in ids ensures least <= x {
        if x != y {
          assert x in rest;
        }
      }
      assert least in ids;
    }
  }

  /** The smallest id of a non-empty table. */
  function Least(ids: set<int>): (m: int)
    requires ids != {}
    ensures m in ids && forall x :: x in ids ==> m <= x
  {
    LeastExists(ids);
    var m :| m in ids && forall x :: x in ids ==> m <= x;
    m
  }

  /** The order in which `findAll()` returns rows: every id exactly once,
      ascending. (Without a sort, the order is the database's; the model
      fixes it as ascending primary key, the order of a key scan.) */
  function SortedIds(ids: set<int>): (order: seq<int>)
    ensures |order| == |ids|
    ensures forall i :: 0 <= i < |order| ==> order[i] in ids
    ensures forall id :: id in ids ==> id in order
    ensures forall i, j :: 0 <= i < j < |order| ==> order[i] < order[j]
    decreases |ids|
  {
    if ids == {} then []
    else
      var m := Least(ids);
      [m] + SortedIds(ids - {m})
  }

  /** `findAll()`: one row per stored key, in ascending key order. */
  function FindAll<T>(table: map<int, T>): (rows: seq<T>)
    ensures |rows| == |table|
    ensures forall i :: 0 <= i < |rows| ==> rows[i] == table[SortedIds(table.Keys)[i]]
  {
    var order := SortedIds(table.Keys);
    seq(|order|, i requires 0 <= i < |order| => table[order[i]])
  }

  /** Every stored row appears in the listing, at the position of its key. */
  lemma FindAllCovers<T>(table: map<int, T>, id: int)
    requires id in table
    ensures exists i :: 0 <= i < |FindAll(table)| && SortedIds(table.Keys)[i] == id
                        && FindAll(table)[i] == table[id]
  {
    var order := SortedIds(table.Keys);
    assert id in order;
    var i :| 0 <= i < |order| && order[i] == id;
    assert FindAll(table)[i] == table[id];
  }

  /** A service's listing: every stored row through the mapper, in `findAll()` order. */
  function MapAll<T, D>(table: map<int, T>, toDTO: T -> D): (r: seq<D>)
    ensures |r| == |table|
    ensures table == map[] ==> r == []
    ensures forall i :: 0 <= i < |r| ==> r[i] == toDTO(table[SortedIds(table.Keys)[i]])
  {
    var rows := FindAll(table);
    seq(|rows|, i requires 0 <= i < |rows| => toDTO(rows[i]))
  }

  /** A service's lookup: the mapped row, or not-found for an unknown id. */
  function Lookup<T, D>(table: map<int, T>, toDTO: T -> D, kind: Kind, id: int): (r: Result<D, Error>)
    ensures r.Success? <==> id in table
    ensures r.Success? ==> r.value == toDTO(table[id])
    ensures r.Failure? ==> r.error == NotFound(kind, id)
  {
    var row :- FindById(table, kind, id);
    Success(toDTO(row))
  }

  /** The listing holds exactly the records that some lookup by id returns. */
  lemma ListingAgreesWithLookup<T, D>(table: map<int, T>, toDTO: T -> D, kind: Kind)
    ensures forall d :: d in MapAll(table, toDTO) <==> exists id :: Lookup(table, toDTO, kind, id) == Success(d)
  {
    var all := MapAll(table, toDTO);
    var order := SortedIds(table.Keys);
    forall d ensures d in all <==> exists id :: Lookup(table, toDTO, kind, id) == Success(d) {
      if d in all {
        var i :| 0 <= i < |all| && all[i] == d;
        assert Lookup(table, toDTO, kind, order[i]) == Success(d);
      }
      if exists id :: Lookup(table, toDTO, kind, id) == Success(d) {
        var id :| Lookup(table, toDTO, kind, id) == Success(d);
        assert id in order;
        var i :| 0 <= i < |order| && order[i] == id;
        assert all[i] == d;
      }
    }
  }
}
