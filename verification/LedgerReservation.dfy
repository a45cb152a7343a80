/**
 * When a reservation succeeds and what it then leaves, told from the tables before the call: the sessions, the
 * usage and the held bytes of all identities the address has are counted together, as a lookup merges them.
 */
module LedgerReservation {
  import opened Prelude
  import opened Sums
  import opened LedgerTables
  import opened LedgerTransactions
  import opened LedgerAdmission
  import opened LedgerInvariant
  import opened LedgerAdmissionInvariant
  import opened LedgerOutcomes

  /** The identities the address has under the secrets. */
  function Owners(l: Ledger, secrets: seq<nat>, ip: nat): set<nat> {
    set x | x in secrets && (x, ip) in l.ids.hashes :: l.ids.hashes[(x, ip)]
  }

  /** The open sessions of some identities. */
  function OpenOf(uploads: seq<Upload>, owners: set<nat>): set<nat> {
    set k: nat | k < |uploads| && uploads[k].identity in owners && IsOpen(uploads[k])
  }

  /** The bytes they hold. */
  function HeldOf(uploads: seq<Upload>, owners: set<nat>): nat {
    Sum(HeldColumnOf(uploads, owners))
  }

  function HeldColumnOf(uploads: seq<Upload>, owners: set<nat>): seq<nat> {
    seq(|uploads|, k requires 0 <= k < |uploads| =>
      if uploads[k].identity in owners && IsOpen(uploads[k]) then uploads[k].reserved else 0)
  }

  function OpenColumnOf(uploads: seq<Upload>, owners: set<nat>): seq<nat> {
    seq(|uploads|, k requires 0 <= k < |uploads| => if uploads[k].identity in owners && IsOpen(uploads[k]) then 1 else 0)
  }

  function UsedColumn(daily: map<(nat, nat), nat>, owners: set<nat>, day: nat, n: nat): seq<nat> {
    seq(n, i requires 0 <= i < n => if i in owners && (i, day) in daily then daily[(i, day)] else 0)
  }

  /** What some identities below n have used on a day, together. */
  function UsedOf(daily: map<(nat, nat), nat>, owners: set<nat>, day: nat, n: nat): nat {
    Sum(UsedColumn(daily, owners, day, n))
  }

  lemma UsedByOneMore(daily: map<(nat, nat), nat>, owners: set<nat>, x: nat, day: nat, n: nat)
    requires x !in owners && x < n
    ensures UsedOf(daily, owners + {x}, day, n) == UsedOf(daily, owners, day, n) + Used(daily, x, day)
  {
    SumPoint(UsedColumn(daily, owners, day, n), UsedColumn(daily, owners + {x}, day, n), x);
  }

  lemma UsedByNobody(daily: map<(nat, nat), nat>, day: nat, n: nat)
    ensures UsedOf(daily, {}, day, n) == 0
  {
    SumZero(UsedColumn(daily, {}, day, n));
  }

  // What any number of merges leave.

  function AsSet(ids: seq<nat>): set<nat> {
    set i | i in ids
  }

  /** `next` is `l` with all rows of the identities in `others` given to `primary`. */
  ghost predicate MergedInto(l: Ledger, next: Ledger, primary: nat, others: set<nat>) {
    && |next.uploads| == |l.uploads|
    && (forall k: nat :: k < |l.uploads| ==>
          next.uploads[k] == l.uploads[k].(identity := if l.uploads[k].identity in others then primary else l.uploads[k].identity))
    && (forall i: nat, d: nat :: Used(next.daily, i, d)
                       == if i == primary then UsedOf(l.daily, others + {primary}, d, l.ids.next)
                          else if i in others then 0 else Used(l.daily, i, d))
    && (forall i: nat, d: nat :: i in others ==> (i, d) !in next.daily)
    && (forall h :: h in next.ids.hashes <==> h in l.ids.hashes)
    && (forall h :: h in l.ids.hashes ==>
          next.ids.hashes[h] == if l.ids.hashes[h] in others then primary else l.ids.hashes[h])
    && next.ids.known == l.ids.known - others && next.ids.next == l.ids.next
    && next == l.(uploads := next.uploads, daily := next.daily, ids := next.ids)
  }

  lemma MergeNone(l: Ledger, primary: nat)
    requires primary < l.ids.next
    ensures MergedInto(l, l, primary, {})
  {
    forall i: nat, d: nat
      ensures Used(l.daily, i, d) == if i == primary then UsedOf(l.daily, {} + {primary}, d, l.ids.next) else Used(l.daily, i, d)
    {
      UsedByOneMore(l.daily, {}, primary, d, l.ids.next);
      UsedByNobody(l.daily, d, l.ids.next);
    }
  }

  lemma MergeOneMore(l: Ledger, middle: Ledger, primary: nat, others: set<nat>, other: nat)
    requires MergedInto(l, middle, primary, others)
    requires other !in others && other != primary && other < l.ids.next && primary !in others
    requires MergeIdentity(middle, primary, other).Ok?
    ensures MergedInto(l, MergeIdentity(middle, primary, other).value, primary, others + {other})
  {
    var next := MergeIdentity(middle, primary, other).value;
    forall i: nat, d: nat
      ensures Used(next.daily, i, d)
              == if i == primary then UsedOf(l.daily, others + {other} + {primary}, d, l.ids.next)
                 else if i in others + {other} then 0 else Used(l.daily, i, d)
      ensures i in others + {other} ==> (i, d) !in next.daily
    {
      MergedUse(l, middle, primary, others, other, i, d);
    }
  }

  lemma MergedUse(l: Ledger, middle: Ledger, primary: nat, others: set<nat>, other: nat, i: nat, d: nat)
    requires MergedInto(l, middle, primary, others)
    requires other !in others && other != primary && other < l.ids.next && primary !in others
    ensures var daily := MergedUsage(middle.daily, primary, other);
            && Used(daily, i, d)
               == (if i == primary then UsedOf(l.daily, others + {other} + {primary}, d, l.ids.next)
                   else if i in others + {other} then 0 else Used(l.daily, i, d))
            && (i in others + {other} ==> (i, d) !in daily)
  {
    UsedByOneMore(l.daily, others + {primary}, other, d, l.ids.next);
    assert others + {other} + {primary} == others + {primary} + {other};
    assert Used(middle.daily, i, d)
           == if i == primary then UsedOf(l.daily, others + {primary}, d, l.ids.next)
              else if i in others then 0 else Used(l.daily, i, d);
    assert Used(middle.daily, other, d) == Used(l.daily, other, d);
    if (other, d) in middle.daily {
      assert (other, d).1 in DaysOf(middle.daily, other);
    }
  }

  /** Merges fit exactly when, on every day, the sum of what was used fits the column. */
  ghost predicate SumsFit(l: Ledger, owners: set<nat>) {
    forall d: nat :: UsedOf(l.daily, owners, d, l.ids.next) <= SQL_MAX
  }

  lemma FewerFit(l: Ledger, owners: set<nat>, x: nat)
    requires x !in owners && x < l.ids.next && SumsFit(l, owners + {x})
    ensures SumsFit(l, owners)
  {
    forall d: nat ensures UsedOf(l.daily, owners, d, l.ids.next) <= SQL_MAX {
      UsedByOneMore(l.daily, owners, x, d, l.ids.next);
      assert UsedOf(l.daily, owners + {x}, d, l.ids.next) <= SQL_MAX;
    }
  }

  lemma UsageDay(daily: map<(nat, nat), nat>, identity: nat, d: nat)
    ensures d in DaysOf(daily, identity) <==> (identity, d) in daily
  {
    if (identity, d) in daily {
      assert (identity, d).1 in DaysOf(daily, identity);
    }
  }

  lemma MergeFits(l: Ledger, middle: Ledger, primary: nat, others: set<nat>, other: nat)
    requires IdsOk(l) && MergedInto(l, middle, primary, others) && SumsFit(l, others + {primary})
    requires other !in others && other != primary && other < l.ids.next && primary !in others
    ensures MergeIdentity(middle, primary, other).Ok? <==> SumsFit(l, others + {primary} + {other})
  {
    forall d: nat
      ensures UsedOf(l.daily, others + {primary} + {other}, d, l.ids.next)
              == Used(middle.daily, primary, d) + Used(middle.daily, other, d)
    {
      UsedByOneMore(l.daily, others + {primary}, other, d, l.ids.next);
    }
    forall d: nat ensures d in DaysOf(middle.daily, other) <==> (other, d) in middle.daily {
      UsageDay(middle.daily, other, d);
    }
    assert forall d: nat :: UsedOf(l.daily, others + {primary}, d, l.ids.next) <= SQL_MAX;
  }

  lemma {:induction false} MergeAllInto(l: Ledger, primary: nat, others: seq<nat>)
    requires IdsOk(l) && primary < l.ids.next && forall i :: i in others ==> i < l.ids.next
    requires Increasing([primary] + others)
    ensures MergeAll(l, primary, others).Ok? <==> SumsFit(l, AsSet(others) + {primary})
    ensures MergeAll(l, primary, others).Ok? ==> MergedInto(l, MergeAll(l, primary, others).value, primary, AsSet(others))
    decreases |others|
  {
    var all := [primary] + others;
    if others == [] {
      assert AsSet(others) == {};
      MergeNone(l, primary);
      OneFits(l, primary);
    } else {
      var n := |others| - 1;
      var other := others[n];
      assert [primary] + others[..n] == all[..n + 1];
      forall i, j | 0 <= i < j < n + 1 ensures ([primary] + others[..n])[i] < ([primary] + others[..n])[j] {
        assert all[i] < all[j];
      }
      forall i | i in others[..n] ensures i < l.ids.next {
        assert i in others;
      }
      MergeAllInto(l, primary, others[..n]);
      LastIsNew(primary, others);
      assert other in others;
      assert AsSet(others) == AsSet(others[..n]) + {other};
      assert AsSet(others) + {primary} == AsSet(others[..n]) + {primary} + {other};
      if MergeAll(l, primary, others[..n]).Ok? {
        var middle := MergeAll(l, primary, others[..n]).value;
        MergeFits(l, middle, primary, AsSet(others[..n]), other);
        if MergeIdentity(middle, primary, other).Ok? {
          MergeOneMore(l, middle, primary, AsSet(others[..n]), other);
        }
      } else if SumsFit(l, AsSet(others) + {primary}) {
        FewerFit(l, AsSet(others[..n]) + {primary}, other);
      }
    }
  }

  lemma LastIsNew(primary: nat, others: seq<nat>)
    requires others != [] && Increasing([primary] + others)
    ensures others[|others| - 1] != primary && others[|others| - 1] !in others[..|others| - 1]
    ensures primary !in AsSet(others[..|others| - 1])
  {
    var all := [primary] + others;
    forall i | 0 <= i < |others| ensures primary < others[i] {
      assert all[0] < all[i + 1];
    }
    forall i | 0 <= i < |others| - 1 ensures others[i] < others[|others| - 1] {
      assert all[i + 1] < all[|others|];
    }
  }

  lemma OneFits(l: Ledger, primary: nat)
    requires IdsOk(l) && primary < l.ids.next
    ensures SumsFit(l, {} + {primary})
  {
    forall d: nat ensures UsedOf(l.daily, {} + {primary}, d, l.ids.next) <= SQL_MAX {
      UsedByOneMore(l.daily, {}, primary, d, l.ids.next);
      UsedByNobody(l.daily, d, l.ids.next);
    }
  }

  // The reservation.

  lemma {:induction false} OpenCount(uploads: seq<Upload>, owners: set<nat>)
    ensures |OpenOf(uploads, owners)| == Sum(OpenColumnOf(uploads, owners))
    decreases |uploads|
  {
    if uploads == [] {
      assert OpenOf(uploads, owners) == {};
    } else {
      var n := |uploads| - 1;
      var earlier := uploads[..n];
      OpenCount(earlier, owners);
      assert OpenColumnOf(uploads, owners)[..n] == OpenColumnOf(earlier, owners);
      assert OpenOf(uploads, owners)
             == OpenOf(earlier, owners) + if uploads[n].identity in owners && IsOpen(uploads[n]) then {n} else {};
    }
  }

  /** What the identity found holds and has used is what all owners did together. */
  lemma TotalsOfOwners(l: Ledger, next: Ledger, primary: nat, others: set<nat>)
    requires MergedInto(l, next, primary, others)
    ensures TotalHeldBy(next.uploads, primary) == HeldOf(l.uploads, others + {primary})
    ensures ActiveSessions(next.uploads, primary) == |OpenOf(l.uploads, others + {primary})|
    ensures forall d: nat :: Used(next.daily, primary, d) == UsedOf(l.daily, others + {primary}, d, l.ids.next)
  {
    var owners := others + {primary};
    OpenCount(l.uploads, owners);
    assert HeldByColumn(next.uploads, primary) == HeldColumnOf(l.uploads, owners);
    assert ActiveColumn(next.uploads, primary) == OpenColumnOf(l.uploads, owners);
  }

  /** The identity a lookup resolves to: the oldest one the address has, or a new one. */
  ghost predicate ResolvesTo(l: Ledger, owners: set<nat>, identity: nat) {
    if owners == {} then identity == l.ids.next else identity in owners && forall i :: i in owners ==> identity <= i
  }

  /** The tables once all owners have become one. */
  ghost predicate LookedUp(l: Ledger, next: Ledger, secrets: seq<nat>, ip: nat, identity: nat) {
    var owners := Owners(l, secrets, ip);
    && ResolvesTo(l, owners, identity)
    && |next.uploads| == |l.uploads|
    && (forall k: nat :: k < |l.uploads| ==>
          next.uploads[k] == l.uploads[k].(identity := if l.uploads[k].identity in owners then identity else l.uploads[k].identity))
    && (forall i: nat, d: nat :: Used(next.daily, i, d)
          == if i == identity then UsedOf(l.daily, owners, d, l.ids.next) else if i in owners then 0 else Used(l.daily, i, d))
    && (forall x: nat, a: nat :: Lookup(next.ids.hashes, (x, a))
          == if a == ip && x in secrets then Some(identity)
             else if (x, a) in l.ids.hashes && l.ids.hashes[(x, a)] in owners then Some(identity)
             else Lookup(l.ids.hashes, (x, a)))
    && next.ids.known == l.ids.known - owners + {identity}
    && next.ids.next == (if owners == {} then l.ids.next + 1 else l.ids.next)
    && next == l.(uploads := next.uploads, daily := next.daily, ids := next.ids)
  }

  lemma OwnersFound(l: Ledger, secrets: seq<nat>, ip: nat)
    ensures AsSet(FoundIdentities(l.ids.hashes, secrets, ip)) == Owners(l, secrets, ip)
    ensures Increasing(FoundIdentities(l.ids.hashes, secrets, ip))
  {
    FoundIdentitiesAre(l.ids.hashes, secrets, ip);
    forall i: nat ensures i in Owners(l, secrets, ip) <==> Names(l.ids.hashes, secrets, ip, i) {
      if i in Owners(l, secrets, ip) {
        var x :| x in secrets && (x, ip) in l.ids.hashes && l.ids.hashes[(x, ip)] == i;
        var k :| 0 <= k < |secrets| && secrets[k] == x;
        assert (secrets[k], ip) in l.ids.hashes;
      }
    }
  }

  /** A lookup succeeds exactly when the owners' usage fits, and then makes them one. */
  lemma LooksUp(l: Ledger, secrets: seq<nat>, ip: nat)
    requires IdsOk(l)
    ensures ResolveIdentity(l, secrets, ip).Ok? <==> SumsFit(l, Owners(l, secrets, ip))
    ensures ResolveIdentity(l, secrets, ip).Ok? ==>
              var resolved := ResolveIdentity(l, secrets, ip).value;
              && LookedUp(l, resolved.ledger, secrets, ip, resolved.identity)
              && Totals(l, resolved.ledger, Owners(l, secrets, ip), resolved.identity)
  {
    var found, owners := FoundIdentities(l.ids.hashes, secrets, ip), Owners(l, secrets, ip);
    OwnersFound(l, secrets, ip);
    if found == [] {
      assert owners == {};
      NewOwner(l, secrets, ip);
    } else {
      MergesOwners(l, secrets, ip, found);
    }
  }

  /** What the resolved identity holds and has used. */
  ghost predicate Totals(l: Ledger, next: Ledger, owners: set<nat>, identity: nat) {
    && TotalHeldBy(next.uploads, identity) == HeldOf(l.uploads, owners)
    && ActiveSessions(next.uploads, identity) == |OpenOf(l.uploads, owners)|
    && forall d: nat :: Used(next.daily, identity, d) == UsedOf(l.daily, owners, d, l.ids.next)
  }

  lemma NewOwner(l: Ledger, secrets: seq<nat>, ip: nat)
    requires IdsOk(l) && Owners(l, secrets, ip) == {} && FoundIdentities(l.ids.hashes, secrets, ip) == []
    ensures SumsFit(l, {})
    ensures var resolved := ResolveIdentity(l, secrets, ip).value;
            && LookedUp(l, resolved.ledger, secrets, ip, resolved.identity)
            && Totals(l, resolved.ledger, {}, resolved.identity)
  {
    var next, identity := ResolveIdentity(l, secrets, ip).value.ledger, l.ids.next;
    forall d: nat ensures UsedOf(l.daily, {}, d, l.ids.next) == 0 == Used(l.daily, identity, d) {
      UsedByNobody(l.daily, d, l.ids.next);
      assert (identity, d).0 == identity;
    }
    NoHash(l, secrets, ip);
    OpenCount(l.uploads, {});
    SumZero(HeldByColumn(l.uploads, identity));
    SumZero(ActiveColumn(l.uploads, identity));
    SumZero(HeldColumnOf(l.uploads, {}));
    assert OpenOf(l.uploads, {}) == {};
  }

  lemma HashNamesOwner(l: Ledger, secrets: seq<nat>, ip: nat, x: nat)
    ensures x in secrets && (x, ip) in l.ids.hashes ==> l.ids.hashes[(x, ip)] in Owners(l, secrets, ip)
  {
  }

  /** The hashes after a lookup that found nobody. */
  lemma NoHash(l: Ledger, secrets: seq<nat>, ip: nat)
    requires Owners(l, secrets, ip) == {}
    ensures forall x: nat, a: nat :: Lookup(WithHashes(l.ids.hashes, secrets, ip, l.ids.next), (x, a))
              == if a == ip && x in secrets then Some(l.ids.next) else Lookup(l.ids.hashes, (x, a))
  {
    forall x: nat, a: nat ensures Lookup(WithHashes(l.ids.hashes, secrets, ip, l.ids.next), (x, a))
              == if a == ip && x in secrets then Some(l.ids.next) else Lookup(l.ids.hashes, (x, a))
    {
      HashNamesOwner(l, secrets, ip, x);
    }
  }

  lemma MergesOwners(l: Ledger, secrets: seq<nat>, ip: nat, found: seq<nat>)
    requires IdsOk(l) && found == FoundIdentities(l.ids.hashes, secrets, ip) != []
    requires AsSet(found) == Owners(l, secrets, ip) && Increasing(found)
    ensures ResolveIdentity(l, secrets, ip).Ok? <==> SumsFit(l, Owners(l, secrets, ip))
    ensures ResolveIdentity(l, secrets, ip).Ok? ==>
              var resolved := ResolveIdentity(l, secrets, ip).value;
              && LookedUp(l, resolved.ledger, secrets, ip, resolved.identity)
              && Totals(l, resolved.ledger, Owners(l, secrets, ip), resolved.identity)
  {
    var owners, primary, others := Owners(l, secrets, ip), found[0], found[1..];
    assert found == [primary] + others;
    OwnersKnown(l, secrets, ip, found);
    OldestOwner(found);
    MergeAllInto(l, primary, others);
    if ResolveIdentity(l, secrets, ip).Ok? {
      var merged := MergeAll(l, primary, others).value;
      TotalsOfOwners(l, merged, primary, AsSet(others));
      MergedLookup(l, merged, secrets, ip, primary, AsSet(others));
    }
  }

  lemma OwnersKnown(l: Ledger, secrets: seq<nat>, ip: nat, found: seq<nat>)
    requires IdsOk(l) && AsSet(found) == Owners(l, secrets, ip)
    ensures forall i :: i in found ==> i < l.ids.next
  {
    forall i | i in found ensures i < l.ids.next {
      assert i in AsSet(found);
    }
  }

  lemma OldestOwner(found: seq<nat>)
    requires found != [] && Increasing(found)
    ensures forall i :: i in AsSet(found) ==> found[0] <= i
    ensures found[0] !in AsSet(found[1..]) && AsSet(found[1..]) + {found[0]} == AsSet(found)
    ensures found[0] in found && (forall i :: i in found[1..] ==> i in found) && Increasing([found[0]] + found[1..])
  {
    assert [found[0]] + found[1..] == found;
    assert forall i :: i in found <==> i == found[0] || i in found[1..];
  }

  lemma MergedKnown(l: Ledger, secrets: seq<nat>, ip: nat, primary: nat, others: set<nat>)
    requires IdsOk(l) && primary !in others && others + {primary} == Owners(l, secrets, ip)
    ensures l.ids.known - others == l.ids.known - Owners(l, secrets, ip) + {primary}
  {
    assert primary in Owners(l, secrets, ip);
  }

  lemma MergedLookup(l: Ledger, merged: Ledger, secrets: seq<nat>, ip: nat, primary: nat, others: set<nat>)
    requires IdsOk(l) && MergedInto(l, merged, primary, others) && primary !in others
    requires others + {primary} == Owners(l, secrets, ip) && forall i :: i in others ==> primary <= i
    ensures LookedUp(l, merged.(ids := merged.ids.(hashes := WithHashes(merged.ids.hashes, secrets, ip, primary))), secrets, ip, primary)
  {
    MergedHashLookup(l, merged, secrets, ip, primary, others);
    MergedKnown(l, secrets, ip, primary, others);
  }

  lemma MergedHashLookup(l: Ledger, merged: Ledger, secrets: seq<nat>, ip: nat, primary: nat, others: set<nat>)
    requires MergedInto(l, merged, primary, others) && others + {primary} == Owners(l, secrets, ip)
    ensures forall x: nat, a: nat ::
              Lookup(WithHashes(merged.ids.hashes, secrets, ip, primary), (x, a))
              == if a == ip && x in secrets then Some(primary)
                 else if (x, a) in l.ids.hashes && l.ids.hashes[(x, a)] in Owners(l, secrets, ip) then Some(primary)
                 else Lookup(l.ids.hashes, (x, a))
  {
    var owners := Owners(l, secrets, ip);
    var hashes := WithHashes(merged.ids.hashes, secrets, ip, primary);
    forall x: nat, a: nat ensures Lookup(hashes, (x, a))
        == if a == ip && x in secrets then Some(primary)
           else if (x, a) in l.ids.hashes && l.ids.hashes[(x, a)] in owners then Some(primary)
           else Lookup(l.ids.hashes, (x, a))
    {
      if a == ip && x in secrets && (x, a) in l.ids.hashes {
        assert l.ids.hashes[(x, ip)] in owners;
      }
    }
  }

  /** The bytes asked for, or as many as a file may have. */
  function Asked(limits: Limits, declared: Option<nat>): nat {
    match declared
    case Some(bytes) => bytes
    case None => limits.maxFileBytes
  }

  /** What the caller and the environment must bring: a legal size, an address, and no fault. */
  predicate Acceptable(l: Ledger, limits: Limits, request: ReserveRequest, env: ReserveEnv) {
    var bytes := Asked(limits, request.declared);
    && 0 < bytes <= limits.maxFileBytes && request.ip.Some?
    && !env.lateAtStart && env.entries.Ok? && env.entries.value < 4096 && !env.lateAfterScan
    && HasFree(env.available, bytes + limits.diskSafetyMargin)
    && env.created.Ok?
    && HasFree(env.availableAfter, limits.diskSafetyMargin)
    && (request.expiry.Some? ==> env.capabilityError.None? && request.token !in l.caps)
    && !env.lateAtCommit
  }

  /** There is room for the bytes beside what all owners of the address hold and have used today. */
  ghost predicate Affordable(l: Ledger, limits: Limits, owners: set<nat>, bytes: nat, day: nat) {
    && SumsFit(l, owners)
    && |OpenOf(l.uploads, owners)| < limits.maxActiveSessions
    && UsedOf(l.daily, owners, day, l.ids.next) + HeldOf(l.uploads, owners) + bytes <= limits.dailyQuotaBytes
    && l.budget + bytes <= limits.maxGlobalReserved
  }

  /** The tables with the owners made one and the new session appended. */
  ghost predicate ReservedFor(l: Ledger, next: Ledger, limits: Limits, secrets: seq<nat>, request: ReserveRequest, now: nat, env: ReserveEnv)
    requires request.ip.Some? && env.created.Ok?
  {
    var bytes, day := Asked(limits, request.declared), now / 86_400;
    exists identity, found ::
      && LookedUp(l, found, secrets, request.ip.value, identity)
      && next == found.(
           uploads := found.uploads
                      + [Upload(identity, request.token, Reserved, bytes, None, day, Some(env.path), env.created.value, None)],
           budget := l.budget + bytes,
           caps := if request.expiry.Some? then l.caps[request.token := Capability(|l.uploads|, request.expiry.value)] else l.caps,
           chargedOn := l.chargedOn + [day])
  }

  /**
   * A reservation succeeds if and only if the request and the environment are acceptable and there is room beside
   * all the owners of the address together; then they are one identity and the session is stored, with its
   * capability; otherwise nothing has changed.
   */
  lemma ReserveOutcome(l: Ledger, limits: Limits, secrets: seq<nat>, request: ReserveRequest, now: nat, env: ReserveEnv)
    requires Inv(l, limits, DayOf(now)) && limits.Valid()
    ensures var step := Reserve(l, limits, secrets, request, now, env);
            && (step.result.Ok? <==>
                  && Acceptable(l, limits, request, env)
                  && Affordable(l, limits, Owners(l, secrets, request.ip.value), Asked(limits, request.declared), now / 86_400))
            && (step.result.Ok? ==> step.result.value == |l.uploads| && ReservedFor(l, step.after, limits, secrets, request, now, env))
            && (step.result.Err? ==> step.after == l)
  {
    if request.ip.Some? {
      var ip, owners := request.ip.value, Owners(l, secrets, request.ip.value);
      LooksUp(l, secrets, ip);
      if ResolveIdentity(l, secrets, ip).Ok? {
        var resolved := ResolveIdentity(l, secrets, ip).value;
        RefusalMeans(l, resolved.ledger, limits, owners, resolved.identity, Asked(limits, request.declared), now / 86_400);
        ReserveTests(l, limits, secrets, request, now, env, resolved);
        if Reserve(l, limits, secrets, request, now, env).result.Ok? {
          ReserveStores(l, limits, secrets, request, now, env);
        }
      }
    }
    ReserveFails(l, limits, secrets, request, now, env);
  }

  /** The tests of a reservation once the address has been looked up. */
  lemma ReserveTests(l: Ledger, limits: Limits, secrets: seq<nat>, request: ReserveRequest, now: nat, env: ReserveEnv, resolved: Resolved)
    requires request.ip.Some? && ResolveIdentity(l, secrets, request.ip.value) == Ok(resolved) && resolved.ledger.caps == l.caps
    ensures Reserve(l, limits, secrets, request, now, env).result.Ok? <==>
              && Acceptable(l, limits, request, env)
              && RefusedByLimits(resolved.ledger, limits, resolved.identity, Asked(limits, request.declared), now / 86_400).None?
  {
  }

  lemma ReserveFails(l: Ledger, limits: Limits, secrets: seq<nat>, request: ReserveRequest, now: nat, env: ReserveEnv)
    ensures Reserve(l, limits, secrets, request, now, env).result.Err? ==> Reserve(l, limits, secrets, request, now, env).after == l
    ensures Reserve(l, limits, secrets, request, now, env).result.Ok? ==>
              request.ip.Some? && env.created.Ok? && ResolveIdentity(l, secrets, request.ip.value).Ok?
    ensures request.ip.None? ==> Reserve(l, limits, secrets, request, now, env).result.Err?
  {
  }

  lemma ReserveStores(l: Ledger, limits: Limits, secrets: seq<nat>, request: ReserveRequest, now: nat, env: ReserveEnv)
    requires Reserve(l, limits, secrets, request, now, env).result.Ok? && IdsOk(l)
    ensures request.ip.Some? && env.created.Ok?
    ensures Reserve(l, limits, secrets, request, now, env).result.value == |l.uploads|
    ensures ReservedFor(l, Reserve(l, limits, secrets, request, now, env).after, limits, secrets, request, now, env)
  {
    ReserveCommits(l, limits, secrets, request, now, env);
    LooksUp(l, secrets, request.ip.value);
    var resolved := ResolveIdentity(l, secrets, request.ip.value).value;
    assert LookedUp(l, resolved.ledger, secrets, request.ip.value, resolved.identity);
  }

  /** The limits refuse exactly when the owners leave no room. */
  lemma RefusalMeans(l: Ledger, found: Ledger, limits: Limits, owners: set<nat>, identity: nat, bytes: nat, day: nat)
    requires limits.Valid() && Totals(l, found, owners, identity) && found.budget == l.budget && SumsFit(l, owners)
    ensures RefusedByLimits(found, limits, identity, bytes, day).None? <==> Affordable(l, limits, owners, bytes, day)
  {
  }
}
