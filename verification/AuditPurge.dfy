/** The audit trail's only removal path: a batched, guarded sweep below a horizon. */
module AuditPurge {
  import opened Basics
  import opened BatchSelection
  import opened Retention

  type AuditId = nat

  /** Creation times of the audit rows; nothing else about a row matters here. */
  type Audit = Ranks

  function Expired(rows: Audit, horizon: real): Audit {
    map id | id in rows && rows[id] < horizon :: rows[id]
  }

  /** The one-line specification of the sweep. */
  function Kept(rows: Audit, horizon: real): Audit {
    map id | id in rows && rows[id] >= horizon :: rows[id]
  }

  class AuditTable {
    var rows: Audit
    /** Whether the dialect has the trigger that rejects deletes, and the session flag the
        trigger checks. */
    const guarded: bool
    var purgeActive: bool

    method ClaimPurgeBatch(horizon: real, batch: nat) returns (claimed: set<AuditId>)
      ensures FirstBatch(Expired(rows, horizon), claimed, batch)
    {
      ghost var sample := SomeFirstBatch(Expired(rows, horizon), batch);
      claimed :| FirstBatch(Expired(rows, horizon), claimed, batch);
    }

    /** A DELETE as the trigger lets it through: nothing goes unless the flag is up. */
    method Delete(ids: set<AuditId>)
      modifies this`rows
      ensures rows == if !guarded || purgeActive then old(rows) - ids else old(rows)
    {
      if !guarded || purgeActive {
        rows := rows - ids;
      }
    }

    /** The flag is up for the deletes of one batch only. */
    method DeleteClaimedBatch(claimed: set<AuditId>)
      requires !purgeActive
      modifies this
      ensures rows == old(rows) - claimed && !purgeActive
    {
      if guarded {
        purgeActive := true;
      }
      Delete(claimed);
      if guarded {
        purgeActive := false;
      }
    }

    /** Exactly the rows older than the horizon go, and their number is returned; the
        stall guard never fires. */
    method SweepExpiredRows(horizon: real, batch: nat) returns (removed: nat, stalled: bool)
      requires batch >= 1 && !purgeActive
      modifies this
      ensures !stalled && !purgeActive
      ensures rows == Kept(old(rows), horizon) && removed == |Expired(old(rows), horizon)|
    {
      removed, stalled := 0, false;
      var previous: set<AuditId> := {};
      ExpiredAndKept(rows, horizon);
      while true
        invariant !stalled && !purgeActive
        invariant Kept(rows, horizon) == Kept(old(rows), horizon)
        invariant removed + |Expired(rows, horizon)| == |Expired(old(rows), horizon)|
        invariant previous !! rows.Keys
        decreases |Expired(rows, horizon)|
      {
        var claimed := ClaimPurgeBatch(horizon, batch);
        ghost var before := rows;
        if claimed == {} {
          ExpiredAndKept(rows, horizon);
          break;
        }
        if previous == claimed {
          stalled := true;
          break;
        }
        DeleteClaimedBatch(claimed);
        BatchGone(before, horizon, claimed);
        removed := removed + |claimed|;
        if |claimed| < batch {
          ShortBatchIsAll(before, horizon, claimed, batch);
          ExpiredAndKept(rows, horizon);
          break;
        }
        previous := claimed;
      }
    }

    /** Below the floor nothing is touched; otherwise the sweep runs and the purge leaves its
        own row, dated now. */
    method PurgeExpiredAuditRows(window: RetentionWindow, floorSeconds: nat, now: real, batch: nat, id: AuditId) returns (removed: Option<nat>)
      requires batch >= 1 && !purgeActive && id !in rows
      modifies this
      ensures !purgeActive
      ensures removed.None? <==> WindowSeconds(window) < floorSeconds
      ensures removed.None? ==> rows == old(rows)
      ensures removed.Some? ==>
                && rows == Kept(old(rows), Horizon(window, now))[id := now]
                && removed.value == |Expired(old(rows), Horizon(window, now))|
                && removed.value == |old(rows)| + 1 - |rows|
                && (forall k :: k in rows <==> k == id || (k in old(rows) && old(rows)[k] >= now - WindowSeconds(window) as real))
                && rows[id] == now && (forall k | k in rows && k != id :: rows[k] == old(rows)[k])
    {
      if WindowSeconds(window) < floorSeconds {
        return None;
      }
      ghost var before := rows;
      var n, _ := SweepExpiredRows(Horizon(window, now), batch);
      SplitByAge(before, Horizon(window, now));
      rows := rows[id := now];
      removed := Some(n);
    }
  }

  lemma SplitByAge(rows: Audit, horizon: real)
    ensures |Expired(rows, horizon)| + |Kept(rows, horizon)| == |rows|
  {
    var expired := Expired(rows, horizon).Keys;
    SizeAfterRemoval(rows, expired);
    assert rows - expired == Kept(rows, horizon);
    assert |Expired(rows, horizon)| == |expired|;
  }

  lemma ExpiredAndKept(rows: Audit, horizon: real)
    ensures |Expired(rows, horizon)| == 0 ==> rows == Kept(rows, horizon)
  {
    if |Expired(rows, horizon)| == 0 {
      forall id | id in rows
        ensures rows[id] >= horizon
      {
        assert id !in Expired(rows, horizon);
      }
    }
  }

  lemma BatchGone(rows: Audit, horizon: real, claimed: set<AuditId>)
    requires claimed <= Expired(rows, horizon).Keys
    ensures Kept(rows - claimed, horizon) == Kept(rows, horizon)
    ensures |Expired(rows - claimed, horizon)| == |Expired(rows, horizon)| - |claimed|
  {
    assert Expired(rows - claimed, horizon) == Expired(rows, horizon) - claimed;
    SizeAfterRemoval(Expired(rows, horizon), claimed);
  }

  lemma SizeAfterRemoval(m: Audit, s: set<AuditId>)
    requires s <= m.Keys
    ensures |m - s| == |m| - |s|
  {
    assert (m - s).Keys == m.Keys - s;
    assert |m - s| == |(m - s).Keys| && |m| == |m.Keys|;
    assert m.Keys == (m.Keys - s) + s;
  }

  lemma ShortBatchIsAll(rows: Audit, horizon: real, claimed: set<AuditId>, batch: nat)
    requires FirstBatch(Expired(rows, horizon), claimed, batch) && |claimed| < batch
    ensures |Expired(rows - claimed, horizon)| == 0
  {
    BatchGone(rows, horizon, claimed);
  }

  /** A purge's own row outlives a later purge exactly while that purge's window reaches
      back to it; it is not exempt for ever. */
  lemma OwnRowSurvivesIff(rows: Audit, id: AuditId, now: real, window: RetentionWindow, later: real)
    requires id in rows && rows[id] == now && now <= later
    ensures id in Kept(rows, Horizon(window, later)) <==> later - now <= WindowSeconds(window) as real
  {
  }

  // ----- the stall guard when deletes are suppressed -----

  /** Claims of a sweep whose every delete is silently undone: the guard stays quiet while
      no two neighbours are equal, and only full batches go round again. */
  ghost predicate Spins(ranks: Ranks, batch: nat, claims: seq<set<AuditId>>) {
    && (forall i | 0 <= i < |claims| :: FirstBatch(ranks, claims[i], batch) && |claims[i]| == batch)
    && (forall i | 0 < i < |claims| :: claims[i] != claims[i - 1])
  }

  lemma SecondClaimForced(ranks: Ranks, batch: nat, first: set<AuditId>, second: set<AuditId>)
    requires FirstBatch(ranks, first, batch) && FirstBatch(ranks, second, batch) && !TiedAtEdge(ranks, first)
    ensures first == second
  {
    ForcedIffNoTieAtEdge(ranks, first, batch);
  }

  /** With every delete suppressed the guard is sure to end the loop at its second claim
      exactly when no two rows of equal age lie on either side of the batch's edge. */
  lemma StallDetectedIffNoTieAtEdge(ranks: Ranks, batch: nat, picked: set<AuditId>)
    requires batch >= 1 && FirstBatch(ranks, picked, batch) && |picked| == batch
    ensures (forall claims | Spins(ranks, batch, claims) && claims != [] && claims[0] == picked :: |claims| == 1)
            <==> !TiedAtEdge(ranks, picked)
  {
    ForcedIffNoTieAtEdge(ranks, picked, batch);
    if TiedAtEdge(ranks, picked) {
      var claims := SpinFor(ranks, batch, picked, 2);
    } else {
      forall claims | Spins(ranks, batch, claims) && claims != [] && claims[0] == picked
        ensures |claims| == 1
      {
        if |claims| > 1 {
          SecondClaimForced(ranks, batch, claims[0], claims[1]);
        }
      }
    }
  }

  /** With such a tie it can go on for as long as one likes. */
  lemma {:induction false} SpinFor(ranks: Ranks, batch: nat, picked: set<AuditId>, n: nat) returns (claims: seq<set<AuditId>>)
    requires FirstBatch(ranks, picked, batch) && |picked| == batch && TiedAtEdge(ranks, picked) && n >= 1
    ensures Spins(ranks, batch, claims) && |claims| == n && claims[0] == picked
    decreases n
  {
    if n == 1 {
      claims := [picked];
    } else {
      var other := Swapped(ranks, picked, batch);
      TwoAnswersMeanTie(ranks, other, picked, batch);
      var rest := SpinFor(ranks, batch, other, n - 1);
      claims := [picked] + rest;
    }
  }
}
