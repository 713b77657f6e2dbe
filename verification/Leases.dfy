/** The leases an apply runs under: minted before it, deleted after it
    (internal/server/apply.go). */
module Leases {
  import opened Text
  import opened Policy
  import opened PlanModel

  const APPLY_PRINCIPAL: string := "operator"

  function Kinds(rows: seq<Row>): set<string> { set row <- rows :: row.op }

  function NewLease(p: Plan, id: string): Lease { Lease(id, p.scope, APPLY_PRINCIPAL, Kinds(p.rows), p.expiresAt) }

  function LeaseIds(rows: seq<Row>): set<string> { set row <- rows :: row.lease }

  /** One lease for every id the rows name, and no other; each covers every kind the
      plan uses, until the plan expires. */
  predicate LeasesFor(p: Plan, rows: seq<Row>, leases: seq<Lease>) {
    && (forall l <- leases :: l.id in LeaseIds(rows) && l == NewLease(p, l.id))
    && (forall row <- rows :: exists l <- leases :: l.id == row.lease)
    && (forall j, k :: 0 <= j < k < |leases| ==> leases[j].id != leases[k].id)
  }

  function Ids(leases: seq<Lease>): set<string> { set l <- leases :: l.id }

  predicate Acceptable(row: Row, bad: string -> bool) { row.lease != "" && !bad(row.lease) }

  /** The stored leases, id to expiry, and the two operations that change them. */
  class Leaser {
    var stored: map<string, Time>

    constructor ()
      ensures stored == map[]
    {
      stored := map[];
    }

    /** `ready`: the grant id and the scope parse; `bad`: an id that does not parse or
        cannot be stored; `stuck`: an id that cannot be deleted. A refusal deletes what it
        had minted. */
    method Acquire(p: Plan, ready: bool, bad: string -> bool, stuck: string -> bool) returns (r: Option<seq<Lease>>)
      modifies this
      ensures r.Some? <==> ready && forall row <- p.rows :: Acceptable(row, bad)
      ensures r.Some? ==> LeasesFor(p, p.rows, r.value)
      ensures r.Some? ==> stored.Keys == old(stored.Keys) + LeaseIds(p.rows) && forall id <- old(stored) :: stored[id] == old(stored)[id]
      ensures r.None? ==> stored.Keys <= old(stored.Keys) + set id <- LeaseIds(p.rows) | stuck(id)
    {
      if !ready {
        return None;
      }
      var minted: seq<Lease> := [];
      for i := 0 to |p.rows|
        invariant LeasesFor(p, p.rows[..i], minted) && forall row <- p.rows[..i] :: Acceptable(row, bad)
        invariant stored.Keys == old(stored.Keys) + LeaseIds(p.rows[..i])
        invariant forall id <- old(stored) :: stored[id] == old(stored)[id]
      {
        var id := p.rows[i].lease;
        assert p.rows[..i + 1] == p.rows[..i] + [p.rows[i]];
        if id == "" || bad(id) {
          var _ := Release(minted, stuck);
          assert !Acceptable(p.rows[i], bad);
          assert LeaseIds(p.rows[..i]) <= LeaseIds(p.rows);
          return None;
        }
        if id in Ids(minted) {
          continue;
        }
        if id !in stored {
          stored := stored[id := p.expiresAt];
        }
        MintOne(p, p.rows[..i], minted, p.rows[i]);
        minted := minted + [NewLease(p, id)];
      }
      assert p.rows[..|p.rows|] == p.rows;
      return Some(minted);
    }

    /** A lease that is gone already counts as released. */
    method Release(leases: seq<Lease>, stuck: string -> bool) returns (ok: bool)
      modifies this
      ensures stored == old(stored) - set l <- leases | !stuck(l.id) :: l.id
      ensures ok <==> forall l <- leases :: !stuck(l.id)
    {
      ok := true;
      var gone: set<string> := {};
      for i := 0 to |leases|
        invariant gone == set l <- leases[..i] | !stuck(l.id) :: l.id
        invariant stored == old(stored) - gone
        invariant ok <==> forall l <- leases[..i] :: !stuck(l.id)
      {
        assert leases[..i + 1] == leases[..i] + [leases[i]];
        if stuck(leases[i].id) {
          ok := false;
        } else {
          stored := stored - {leases[i].id};
          gone := gone + {leases[i].id};
        }
      }
      assert leases[..|leases|] == leases;
    }
  }

  lemma MintOne(p: Plan, rows: seq<Row>, leases: seq<Lease>, row: Row)
    requires LeasesFor(p, rows, leases) && row.lease !in Ids(leases)
    ensures LeasesFor(p, rows + [row], leases + [NewLease(p, row.lease)])
  {
    var more := leases + [NewLease(p, row.lease)];
    forall x | x in rows + [row] ensures exists l <- more :: l.id == x.lease {
      if x in rows {
        var l :| l in leases && l.id == x.lease;
        assert l in more;
      } else {
        assert more[|leases|] in more;
      }
    }
  }
}
