/** The in-memory balance cache. */
module Cache {
  import opened Domain
  import opened Sums
  import opened Validation
  import opened Updates
  import opened Ledger

  datatype BalanceRow = BalanceRow(id: int, posted: int, pending: int)

  predicate DistinctIds(rows: seq<BalanceRow>) {
    forall i, j | 0 <= i < j < |rows| :: rows[i].id != rows[j].id
  }

  /** The rows list exactly the entries of the map, each once. */
  ghost predicate Lists(rows: seq<BalanceRow>, m: map<int, Cached>) {
    && DistinctIds(rows)
    && (forall i | 0 <= i < |rows| :: rows[i].id in m && m[rows[i].id] == Cached(rows[i].posted, rows[i].pending))
    && (forall a | a in m :: exists i :: 0 <= i < |rows| && rows[i].id == a)
  }

  /** The map after inserting the rows in order; a later row for an id wins. */
  function Overlay(m: map<int, Cached>, rows: seq<BalanceRow>): map<int, Cached> {
    if rows == [] then m
    else
      var row := rows[|rows| - 1];
      Overlay(m, rows[..|rows| - 1])[row.id := Cached(row.posted, row.pending)]
  }

  class BalanceCache {
    var balances: map<int, Cached>

    constructor ()
      ensures balances == map[]
    {
      balances := map[];
    }

    /** Each row in turn overwrites or adds its entry; ids without a row keep theirs. */
    method Rehydrate(data: seq<BalanceRow>)
      modifies this
      ensures balances == Overlay(old(balances), data)
    {
      for n := 0 to |data|
        invariant balances == Overlay(old(balances), data[..n])
      {
        assert data[..n + 1][..n] == data[..n];
        balances := balances[data[n].id := Cached(data[n].posted, data[n].pending)];
      }
      assert data[..|data|] == data;
    }

    method Get(id: int) returns (r: Option<AccountBalance>)
      ensures id !in balances ==> r.None?
      ensures id in balances ==> r == Some(Balance(balances[id]))
    {
      if id in balances {
        var c := balances[id];
        r := Some(AccountBalance(c.posted, c.pending, SatSub(c.posted, c.pending)));
      } else {
        r := None;
      }
    }

    method ApplyDelta(id: int, deltaPosted: int, deltaPending: int)
      modifies this
      ensures balances == Applied(old(balances), Update(id, deltaPosted, deltaPending))
    {
      if id in balances {
        var c := balances[id];
        balances := balances[id := Cached(SatAdd(c.posted, deltaPosted), SatAdd(c.pending, deltaPending))];
      }
    }

    method Set(id: int, posted: int, pending: int)
      modifies this
      ensures balances == old(balances)[id := Cached(posted, pending)]
    {
      balances := balances[id := Cached(posted, pending)];
    }

    /** A snapshot in some order. */
    method Iter() returns (rows: seq<BalanceRow>)
      ensures Lists(rows, balances)
    {
      rows := [];
      var rest := balances.Keys;
      while rest != {}
        invariant rest <= balances.Keys
        invariant DistinctIds(rows)
        invariant forall i | 0 <= i < |rows| ::
                    && rows[i].id in balances && rows[i].id !in rest
                    && balances[rows[i].id] == Cached(rows[i].posted, rows[i].pending)
        invariant forall a | a in balances && a !in rest :: exists i :: 0 <= i < |rows| && rows[i].id == a
        decreases rest
      {
        NonEmpty(rest);
        var a :| a in rest;
        var grown := rows + [BalanceRow(a, balances[a].posted, balances[a].pending)];
        forall b | b in balances && b !in rest - {a}
          ensures exists i :: 0 <= i < |grown| && grown[i].id == b
        {
          if b == a {
            assert grown[|rows|].id == b;
          } else {
            var i :| 0 <= i < |rows| && rows[i].id == b;
            assert grown[i].id == b;
          }
        }
        rows := grown;
        rest := rest - {a};
      }
    }
  }

  lemma {:induction false} OverlayEach(rows: seq<BalanceRow>)
    requires DistinctIds(rows)
    ensures forall i | 0 <= i < |rows| ::
              rows[i].id in Overlay(map[], rows) && Overlay(map[], rows)[rows[i].id] == Cached(rows[i].posted, rows[i].pending)
    ensures forall a | a in Overlay(map[], rows) :: exists i :: 0 <= i < |rows| && rows[i].id == a
  {
    if rows != [] {
      var n := |rows| - 1;
      OverlayEach(rows[..n]);
      assert rows[..n] + [rows[n]] == rows;
    }
  }

  /** Loading a listing of a map into an empty cache gives the map back. */
  lemma RehydrateRoundTrip(rows: seq<BalanceRow>, m: map<int, Cached>)
    requires Lists(rows, m)
    ensures Overlay(map[], rows) == m
  {
    OverlayEach(rows);
    var loaded := Overlay(map[], rows);
    forall a | a in m
      ensures a in loaded && loaded[a] == m[a]
    {
      var i :| 0 <= i < |rows| && rows[i].id == a;
      assert loaded[rows[i].id] == m[a];
    }
    forall a | a in loaded
      ensures a in m
    {
      var i :| 0 <= i < |rows| && rows[i].id == a;
    }
  }
}
