/** An in-memory table, keyed by primary key, and the ORM's single-row
    query: `Query().Where(p).Only(ctx)` fails with "not found" when no row
    matches, returns the row when exactly one matches, and fails with "not
    singular" when several do. */
module Table {
  import opened Common

  datatype Lookup<R> = NoMatch | Single(key: string, row: R) | Several

  /** What `.Only` finds among `rows` for the predicate `p`. */
  ghost function OnlyOf<R>(rows: map<string, R>, p: R -> bool): (r: Lookup<R>)
    ensures r.NoMatch? <==> (forall k :: k in rows ==> !p(rows[k]))
    ensures r.Single? ==> r.key in rows && r.row == rows[r.key] && p(r.row)
    ensures r.Single? ==> forall k :: k in rows && p(rows[k]) ==> k == r.key
    ensures r.Several? <==> (exists a, b :: a in rows && b in rows && a != b && p(rows[a]) && p(rows[b]))
  {
    if forall k :: k in rows ==> !p(rows[k]) then NoMatch
    else if exists a, b :: a in rows && b in rows && a != b && p(rows[a]) && p(rows[b]) then Several
    else
      var k :| k in rows && p(rows[k]);
      Single(k, rows[k])
  }

  /** The query itself: scans the keys until it has seen two matches. */
  method Only<R>(rows: map<string, R>, p: R -> bool) returns (r: Lookup<R>)
    ensures r == OnlyOf(rows, p)
  {
    var pending := rows.Keys;
    var found: seq<string> := [];
    while pending != {} && |found| < 2
      invariant pending <= rows.Keys
      invariant |found| <= 2
      invariant forall k :: k in found <==> k in rows && k !in pending && p(rows[k])
      invariant |found| == 2 ==> found[0] != found[1]
      decreases pending
    {
      var k :| k in pending;
      if p(rows[k]) {
        found := found + [k];
      }
      pending := pending - {k};
    }
    if |found| == 0 {
      r := NoMatch;
    } else if |found| == 1 {
      assert found[0] in found;
      r := Single(found[0], rows[found[0]]);
    } else {
      assert found[0] in found && found[1] in found;
      r := Several;
    }
  }

  /** How a repository reports a lookup: "not found" becomes nil without an
      error, and any other failure is wrapped with `message`. */
  function Reported<R>(l: Lookup<R>, message: string): (r: Result<Option<R>>)
    ensures r == Ok(None) <==> l.NoMatch?
    ensures l.Single? <==> r.Ok? && r.value.Some?
    ensures l.Single? ==> r.value.value == l.row
    ensures l.Several? <==> r == Err(Storage(message))
  {
    match l
    case NoMatch => Ok(None)
    case Single(_, row) => Ok(Some(row))
    case Several => Err(Storage(message))
  }
}
