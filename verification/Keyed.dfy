/** Lists of rows with an id: replacing by id, ordering by id, and merging with conflict detection. */
module Keyed {
  import opened Wrappers
  import opened Text
  import opened Lists

  ghost predicate UniqueIds<T>(rows: seq<T>, id: T -> string) {
    forall i, j :: 0 <= i < j < |rows| ==> id(rows[i]) != id(rows[j])
  }

  ghost predicate InIdOrder<T>(rows: seq<T>, id: T -> string) {
    forall i, j :: 0 <= i < j < |rows| ==> StrLt(id(rows[i]), id(rows[j]))
  }

  /** No id carries two different contents, within the addition or between it and the base. */
  ghost predicate Compatible<T>(base: seq<T>, addition: seq<T>, id: T -> string) {
    && (forall x, y :: x in base && y in addition && id(x) == id(y) ==> x == y)
    && (forall x, y :: x in addition && y in addition && id(x) == id(y) ==> x == y)
  }

  function ById<T>(id: T -> string): (T, T) -> bool { (x, y) => StrLe(id(x), id(y)) }

  function IndexOfId<T>(rows: seq<T>, id: T -> string, key: string): (k: nat)
    ensures k <= |rows|
    ensures k < |rows| ==> id(rows[k]) == key
    ensures forall i :: 0 <= i < k ==> id(rows[i]) != key
  {
    if rows == [] || id(rows[0]) == key then 0
    else
      var k := IndexOfId(rows[1..], id, key);
      assert forall i :: 0 < i < k + 1 ==> rows[i] == rows[1..][i - 1];
      k + 1
  }

  /** `map.set(row.id, row)` on a map kept in insertion order. */
  function Put<T>(rows: seq<T>, row: T, id: T -> string): seq<T> {
    var k := IndexOfId(rows, id, id(row));
    if k < |rows| then rows[k := row] else rows + [row]
  }

  function PutAll<T>(rows: seq<T>, id: T -> string): seq<T> {
    if rows == [] then [] else Put(PutAll(rows[..|rows| - 1], id), rows[|rows| - 1], id)
  }

  /** Adding rows one by one; the first id already carrying other contents is the conflict. */
  function AddAll<T(==)>(rows: seq<T>, addition: seq<T>, id: T -> string): Result<seq<T>, string> {
    if addition == [] then Ok(rows)
    else match AddAll(rows, addition[..|addition| - 1], id)
      case Err(conflict) => Err(conflict)
      case Ok(before) =>
        var row := addition[|addition| - 1];
        var k := IndexOfId(before, id, id(row));
        if k < |before| && before[k] != row then Err(id(row)) else Ok(Put(before, row, id))
  }

  function MergeRows<T(==)>(base: seq<T>, addition: seq<T>, id: T -> string): Result<seq<T>, string> {
    match AddAll(PutAll(base, id), addition, id)
    case Err(conflict) => Err(conflict)
    case Ok(rows) => Ok(Sort(rows, ById(id)))
  }

  // ------------------------------------------------------------------ the loops

  method MergeLists<T(==)>(base: seq<T>, addition: seq<T>, id: T -> string) returns (r: Result<seq<T>, string>)
    ensures r == MergeRows(base, addition, id)
  {
    var rows: seq<T> := [];
    for i := 0 to |base|
      invariant rows == PutAll(base[..i], id)
    {
      assert base[..i + 1][..i] == base[..i];
      rows := Put(rows, base[i], id);
    }
    assert base[..|base|] == base;
    for i := 0 to |addition|
      invariant AddAll(PutAll(base, id), addition[..i], id) == Ok(rows)
    {
      assert addition[..i + 1][..i] == addition[..i];
      var k := IndexOfId(rows, id, id(addition[i]));
      if k < |rows| && rows[k] != addition[i] {
        ConflictStops(PutAll(base, id), addition, id, i + 1);
        return Err(id(addition[i]));
      }
      rows := Put(rows, addition[i], id);
    }
    assert addition[..|addition|] == addition;
    return Ok(Sort(rows, ById(id)));
  }

  lemma {:induction false} ConflictStops<T>(rows: seq<T>, addition: seq<T>, id: T -> string, i: nat)
    requires i <= |addition| && AddAll(rows, addition[..i], id).Err?
    ensures AddAll(rows, addition, id) == AddAll(rows, addition[..i], id)
  {
    if i == |addition| {
      assert addition[..i] == addition;
    } else {
      assert addition[..|addition| - 1][..i] == addition[..i];
      ConflictStops(rows, addition[..|addition| - 1], id, i);
    }
  }

  // ------------------------------------------------------------------ laws

  lemma {:induction false} PutAllKeepsUnique<T>(rows: seq<T>, id: T -> string)
    requires UniqueIds(rows, id)
    ensures PutAll(rows, id) == rows
  {
    if rows != [] {
      var front := rows[..|rows| - 1];
      PutAllKeepsUnique(front, id);
      assert rows == front + [rows[|rows| - 1]];
      assert forall i :: 0 <= i < |front| ==> front[i] == rows[i];
    }
  }

  /** Additions succeed exactly when they are compatible, and then nothing but their rows is gained. */
  lemma {:induction false} AddAllIsUnion<T>(rows: seq<T>, addition: seq<T>, id: T -> string)
    requires UniqueIds(rows, id)
    ensures AddAll(rows, addition, id).Ok? <==> Compatible(rows, addition, id)
    ensures AddAll(rows, addition, id).Ok? ==>
              var r := AddAll(rows, addition, id).value;
              UniqueIds(r, id) && forall x :: x in r <==> x in rows || x in addition
  {
    if addition != [] {
      var front, row := addition[..|addition| - 1], addition[|addition| - 1];
      assert addition == front + [row];
      AddAllIsUnion(rows, front, id);
      assert Compatible(rows, addition, id) ==> Compatible(rows, front, id);
      if Compatible(rows, front, id) {
        AddOne(rows, front, AddAll(rows, front, id).value, row, id);
      }
    }
  }

  lemma PutAgreeing<T>(before: seq<T>, row: T, id: T -> string)
    requires UniqueIds(before, id)
    requires forall x :: x in before && id(x) == id(row) ==> x == row
    ensures UniqueIds(Put(before, row, id), id)
    ensures forall x :: x in Put(before, row, id) <==> x in before || x == row
  {
    var k := IndexOfId(before, id, id(row));
    if k < |before| {
      assert before[k] in before;
      assert Put(before, row, id) == before;
    }
  }

  lemma CompatibleSnoc<T>(rows: seq<T>, front: seq<T>, before: seq<T>, row: T, id: T -> string)
    requires Compatible(rows, front, id) && forall x :: x in before <==> x in rows || x in front
    ensures Compatible(rows, front + [row], id) <==> forall x :: x in before && id(x) == id(row) ==> x == row
  {
    assert forall x :: x in front + [row] <==> x in front || x == row;
  }

  lemma FoundByIdIff<T>(before: seq<T>, row: T, id: T -> string)
    requires UniqueIds(before, id)
    ensures var k := IndexOfId(before, id, id(row));
            (k == |before| || before[k] == row) <==> forall x :: x in before && id(x) == id(row) ==> x == row
  {
    var k := IndexOfId(before, id, id(row));
    assert k < |before| ==> before[k] in before;
    forall x | x in before && id(x) == id(row) && (k == |before| || before[k] == row) ensures x == row {
      var i :| 0 <= i < |before| && before[i] == x;
    }
  }

  lemma AddOne<T>(rows: seq<T>, front: seq<T>, before: seq<T>, row: T, id: T -> string)
    requires Compatible(rows, front, id) && UniqueIds(before, id)
    requires forall x :: x in before <==> x in rows || x in front
    ensures var k := IndexOfId(before, id, id(row));
            (k == |before| || before[k] == row) <==> Compatible(rows, front + [row], id)
    ensures Compatible(rows, front + [row], id) ==>
              UniqueIds(Put(before, row, id), id)
              && forall x :: x in Put(before, row, id) <==> x in rows || x in front + [row]
  {
    CompatibleSnoc(rows, front, before, row, id);
    FoundByIdIff(before, row, id);
    if Compatible(rows, front + [row], id) { PutAgreeing(before, row, id); }
  }

  lemma ByIdIsPreorder<T(!new)>(id: T -> string)
    ensures TotalPreorder(ById(id))
  {
    StrLeIsTotalOrder();
  }

  lemma SortById<T(!new)>(rows: seq<T>, id: T -> string)
    requires UniqueIds(rows, id)
    ensures InIdOrder(Sort(rows, ById(id)), id)
    ensures forall x :: x in Sort(rows, ById(id)) <==> x in rows
  {
    var r := Sort(rows, ById(id));
    ByIdIsPreorder(id);
    SortSorts(rows, ById(id));
    SortPermutes(rows, ById(id));
    SortKeepsDistinct(rows, ById(id));
    forall i, j | 0 <= i < j < |r| ensures StrLt(id(r[i]), id(r[j])) {
      assert r[i] in rows && r[j] in rows && r[i] != r[j];
    }
  }

  /** Merging onto rows with unique ids: when it succeeds, and what it holds. */
  lemma MergeRowsIsSortedUnion<T(!new)>(base: seq<T>, addition: seq<T>, id: T -> string)
    requires UniqueIds(base, id)
    ensures MergeRows(base, addition, id).Ok? <==> Compatible(base, addition, id)
    ensures MergeRows(base, addition, id).Ok? ==>
              var r := MergeRows(base, addition, id).value;
              InIdOrder(r, id) && forall x :: x in r <==> x in base || x in addition
  {
    PutAllKeepsUnique(base, id);
    AddAllIsUnion(base, addition, id);
    if Compatible(base, addition, id) {
      SortById(AddAll(base, addition, id).value, id);
    }
  }

  /** Rows in id order are determined by their set. */
  lemma IdOrderIsCanonical<T(!new)>(a: seq<T>, b: seq<T>, id: T -> string)
    requires InIdOrder(a, id) && InIdOrder(b, id) && forall x :: x in a <==> x in b
    ensures a == b
  {
    forall x, y | x in a && y in a && ById(id)(x, y) && ById(id)(y, x) ensures x == y {
      StrLeAntisymmetric(id(x), id(y));
    }
    SortedIsCanonical(a, b, ById(id));
  }

  lemma IdOrderIsUnique<T>(rows: seq<T>, id: T -> string)
    requires InIdOrder(rows, id)
    ensures UniqueIds(rows, id)
  {
  }
}
