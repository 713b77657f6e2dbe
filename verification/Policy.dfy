/** Instants, leases, and the authorization kernel (internal/policy). */
module Policy {
  import opened Text

  /** A Go time.Time: the zero value, or nanoseconds since the epoch in 64 bits. */
  datatype Time = Zero | At(nanos: int64)

  predicate Before(t: Time, u: Time) {
    u.At? && (t.Zero? || t.nanos < u.nanos)
  }

  function UnixNano(t: Time): int64 {
    if t.Zero? then 0 else t.nanos
  }

  datatype Effect = Effect(kind: string, scope: string, target: string)

  datatype Lease = Lease(id: string, scope: string, principal: string, kinds: set<string>, expiresAt: Time)

  predicate Covers(l: Lease, kind: string) { kind in l.kinds }

  /** Expiry is exclusive. */
  predicate ValidAt(l: Lease, now: Time) { Before(now, l.expiresAt) }

  datatype Decision =
    | Allowed(lease: string)
    | NoLease
    | NotInPlan

  /** One lease grants one effect to one principal at one instant. */
  predicate Grants(l: Lease, now: Time, principal: string, effect: Effect) {
    && l.principal == principal && l.scope == effect.scope
    && ValidAt(l, now) && Covers(l, effect.kind)
  }

  /** Deny by default: allowed exactly when some lease grants the effect. */
  function Authorize(now: Time, principal: string, effect: Effect, leases: seq<Lease>): (d: Decision)
    ensures d.Allowed? <==> exists l <- leases :: Grants(l, now, principal, effect)
    ensures d.Allowed? ==> exists l <- leases :: Grants(l, now, principal, effect) && l.id == d.lease
    ensures d.Allowed? || d == NoLease
  {
    if leases == [] then NoLease
    else
      var l := leases[0];
      if l.principal == principal && l.scope == effect.scope && ValidAt(l, now) && Covers(l, effect.kind) then
        assert l in leases && Grants(l, now, principal, effect);
        Allowed(l.id)
      else
        assert forall x :: x in leases <==> x == l || x in leases[1..];
        Authorize(now, principal, effect, leases[1..])
  }

  /** What the kernel knows of a plan: its hash and its effects. */
  datatype PolicyPlan = PolicyPlan(hash: string, effects: seq<Effect>)

  function AuthorizePlan(now: Time, principal: string, approved: PolicyPlan, effect: Effect, leases: seq<Lease>): (d: Decision)
    ensures d.Allowed? <==> effect in approved.effects && exists l <- leases :: Grants(l, now, principal, effect)
    ensures d.Allowed? ==> exists l <- leases :: Grants(l, now, principal, effect) && l.id == d.lease
    ensures d == NotInPlan <==> effect !in approved.effects
  {
    if effect !in approved.effects then NotInPlan else Authorize(now, principal, effect, leases)
  }

  /** Time only takes permissions away: what is allowed now was allowed before,
      under the same leases. */
  lemma AuthorityShrinks(earlier: Time, later: Time, principal: string, approved: PolicyPlan, effect: Effect, leases: seq<Lease>)
    requires !Before(later, earlier)
    requires AuthorizePlan(later, principal, approved, effect, leases).Allowed?
    ensures AuthorizePlan(earlier, principal, approved, effect, leases).Allowed?
  {
    var l :| l in leases && Grants(l, later, principal, effect);
    assert Grants(l, earlier, principal, effect);
  }
}
