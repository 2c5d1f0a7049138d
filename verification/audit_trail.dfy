/** The hash chain of one approval: the verification loop, what it accepts, and what its head commits to. */
module AuditTrail {
  import opened Records
  import opened Texts

  /** A row that fails its model validator raises instead of comparing unequal. */
  datatype Verdict = Intact | Broken | Unreadable

  /** The loop of the verifier, from position `k` on. */
  function Scan(rules: Rules, events: seq<AuditEvent>, head: Digest, k: nat, previous: Digest,
                seen: set<string>): Verdict
    requires k <= |events|
    decreases |events| - k
  {
    if k == |events| then
      if previous == head then Intact else Broken
    else
      var e := events[k];
      if !EventReadable(e) then Unreadable
      else if e.payload.sequence != k + 1 || e.payload.id in seen || e.prev != previous then Broken
      else if rules.event(e.payload, e.prev) != e.hash then Broken
      else Scan(rules, events, head, k + 1, e.hash, seen + {e.payload.id})
  }

  function Inspect(rules: Rules, events: seq<AuditEvent>, count: int, head: Digest): Verdict {
    if |events| != count then Broken else Scan(rules, events, head, 0, GENESIS, {})
  }

  method VerifyAuditChain(rules: Rules, events: seq<AuditEvent>, count: int, head: Digest) returns (verdict: Verdict)
    ensures verdict == Inspect(rules, events, count, head)
  {
    if |events| != count {
      return Broken;
    }
    var previous := GENESIS;
    var identities: set<string> := {};
    for k := 0 to |events|
      invariant Scan(rules, events, head, 0, GENESIS, {}) == Scan(rules, events, head, k, previous, identities)
    {
      var e := events[k];
      if !EventReadable(e) {
        return Unreadable;
      }
      if e.payload.sequence != k + 1 || e.payload.id in identities || e.prev != previous {
        return Broken;
      }
      var expected := rules.event(e.payload, e.prev);
      if expected != e.hash {
        return Broken;
      }
      identities := identities + {e.payload.id};
      previous := e.hash;
    }
    return if previous == head then Intact else Broken;
  }

  // ---------------------------------------------------------------- what the loop accepts

  /** The hash the event at position `i` must carry as its predecessor's. */
  function LinkAt(events: seq<AuditEvent>, i: nat): Digest
    requires i <= |events|
  {
    if i == 0 then GENESIS else events[i - 1].hash
  }

  ghost predicate LinkedAt(rules: Rules, events: seq<AuditEvent>, i: nat)
    requires i < |events|
  {
    && events[i].payload.sequence == i + 1
    && events[i].prev == LinkAt(events, i)
    && events[i].hash == rules.event(events[i].payload, events[i].prev)
  }

  ghost predicate Linked(rules: Rules, events: seq<AuditEvent>) {
    forall i | 0 <= i < |events| :: LinkedAt(rules, events, i)
  }

  ghost predicate DistinctIds(events: seq<AuditEvent>) {
    forall i, j | 0 <= i < j < |events| :: events[i].payload.id != events[j].payload.id
  }

  ghost predicate NewIds(events: seq<AuditEvent>, k: nat, seen: set<string>)
    requires k <= |events|
  {
    && (forall i | k <= i < |events| :: events[i].payload.id !in seen)
    && (forall i, j | k <= i < j < |events| :: events[i].payload.id != events[j].payload.id)
  }

  lemma {:induction false} ScanAccepts(rules: Rules, events: seq<AuditEvent>, head: Digest, k: nat, seen: set<string>)
    requires k <= |events|
    ensures Scan(rules, events, head, k, LinkAt(events, k), seen) == Intact <==>
            && (forall i | k <= i < |events| :: EventReadable(events[i]) && LinkedAt(rules, events, i))
            && NewIds(events, k, seen)
            && LinkAt(events, |events|) == head
    decreases |events| - k
  {
    hide EventReadable;
    if k < |events| {
      var e := events[k];
      ScanAccepts(rules, events, head, k + 1, seen + {e.payload.id});
      if EventReadable(e) && LinkedAt(rules, events, k) && e.payload.id !in seen {
        assert NewIds(events, k, seen) <==> NewIds(events, k + 1, seen + {e.payload.id});
      }
    }
  }

  /** Every event names an actor the event model accepts. */
  ghost predicate KnownActors(events: seq<AuditEvent>) {
    forall i | 0 <= i < |events| :: ValidActor(events[i].payload.actor)
  }

  /**
   A chain is accepted exactly when it is linked, duplicate free, short enough, names valid actors
   and ends at the head.
   */
  lemma InspectAccepts(rules: Rules, events: seq<AuditEvent>, count: int, head: Digest)
    ensures Inspect(rules, events, count, head) == Intact <==>
            && |events| == count
            && |events| <= 1_000_000
            && KnownActors(events)
            && Linked(rules, events)
            && DistinctIds(events)
            && LinkAt(events, |events|) == head
  {
    hide ValidActor;
    ScanAccepts(rules, events, head, 0, {});
    if Linked(rules, events) {
      forall i | 0 <= i < |events|
        ensures EventReadable(events[i]) <==> i < MAX_SEQUENCE && ValidActor(events[i].payload.actor)
      {
        assert LinkedAt(rules, events, i);
      }
      if |events| > MAX_SEQUENCE {
        assert !EventReadable(events[MAX_SEQUENCE]);
      }
    }
  }

  lemma {:induction false} ScanUnreadable(rules: Rules, events: seq<AuditEvent>, head: Digest, k: nat, bad: nat,
                                          seen: set<string>)
    requires k <= bad < |events| && !EventReadable(events[bad])
    requires Linked(rules, events) && NewIds(events, k, seen)
    ensures Scan(rules, events, head, k, LinkAt(events, k), seen) == Unreadable
    decreases |events| - k
  {
    hide EventReadable;
    assert LinkedAt(rules, events, k);
    if k < bad {
      ScanUnreadable(rules, events, head, k + 1, bad, seen + {events[k].payload.id});
    }
  }

  /** A linked chain past the sequence bound, or with an actor the model refuses, is unreadable, never broken. */
  lemma InspectUnreadable(rules: Rules, events: seq<AuditEvent>, head: Digest)
    requires Linked(rules, events) && DistinctIds(events) && (|events| > MAX_SEQUENCE || !KnownActors(events))
    ensures Inspect(rules, events, |events|, head) == Unreadable
  {
    hide ValidActor;
    if |events| > MAX_SEQUENCE {
      assert LinkedAt(rules, events, MAX_SEQUENCE);
      ScanUnreadable(rules, events, head, 0, MAX_SEQUENCE, {});
    } else {
      var i :| 0 <= i < |events| && !ValidActor(events[i].payload.actor);
      ScanUnreadable(rules, events, head, 0, i, {});
    }
  }

  // ---------------------------------------------------------------- what the head commits to

  /** Two events with different contents and the same digest. */
  predicate Collide(rules: Rules, e: AuditEvent, f: AuditEvent) {
    (e.payload != f.payload || e.prev != f.prev) && rules.event(e.payload, e.prev) == rules.event(f.payload, f.prev)
  }

  /** A collision between the events of the two lists at the same position. */
  ghost predicate CollisionWithin(rules: Rules, a: seq<AuditEvent>, b: seq<AuditEvent>) {
    exists i | 0 <= i < |a| && i < |b| :: Collide(rules, a[i], b[i])
  }

  lemma {:induction false} LinkedPrefixes(rules: Rules, a: seq<AuditEvent>, b: seq<AuditEvent>)
    requires Linked(rules, a) && Linked(rules, b)
    requires |a| == |b| && LinkAt(a, |a|) == LinkAt(b, |b|)
    ensures a == b || CollisionWithin(rules, a, b)
    decreases |a|
  {
    if a != [] {
      var n := |a| - 1;
      assert LinkedAt(rules, a, n) && LinkedAt(rules, b, n);
      if a[n].payload == b[n].payload && a[n].prev == b[n].prev {
        forall i | 0 <= i < n ensures LinkedAt(rules, a[..n], i) && LinkedAt(rules, b[..n], i) {
          assert LinkedAt(rules, a, i) && LinkedAt(rules, b, i);
        }
        LinkedPrefixes(rules, a[..n], b[..n]);
        assert a == a[..n] + [a[n]] && b == b[..n] + [b[n]];
        if a[..n] != b[..n] {
          var i :| 0 <= i < n && Collide(rules, a[..n][i], b[..n][i]);
          assert Collide(rules, a[i], b[i]);
        }
      } else {
        assert Collide(rules, a[n], b[n]);
      }
    }
  }

  /**
   Two event lists accepted against one approval row are identical, or two of their own events
   at one position are a collision: no edit, removal, reordering or truncation passes otherwise.
   */
  lemma HeadCommitsToChain(rules: Rules, a: seq<AuditEvent>, b: seq<AuditEvent>, count: int, head: Digest)
    requires Inspect(rules, a, count, head) == Intact
    requires Inspect(rules, b, count, head) == Intact
    ensures a == b || CollisionWithin(rules, a, b)
  {
    InspectAccepts(rules, a, count, head);
    InspectAccepts(rules, b, count, head);
    LinkedPrefixes(rules, a, b);
  }

  // ---------------------------------------------------------------- appending

  function NextEvent(rules: Rules, p: AuditPayload, prev: Digest): AuditEvent {
    AuditEvent(p, prev, rules.event(p, prev))
  }

  lemma AppendLinks(rules: Rules, events: seq<AuditEvent>, p: AuditPayload)
    requires Linked(rules, events) && p.sequence == |events| + 1
    ensures Linked(rules, events + [NextEvent(rules, p, LinkAt(events, |events|))])
  {
    var r := events + [NextEvent(rules, p, LinkAt(events, |events|))];
    forall i | 0 <= i < |r| ensures LinkedAt(rules, r, i) {
      if i < |events| {
        assert LinkedAt(rules, events, i);
      }
    }
  }

  /** Appending a fresh event that carries the next number and the current head keeps the chain linked. */
  lemma AppendKeepsChain(rules: Rules, events: seq<AuditEvent>, p: AuditPayload)
    requires Linked(rules, events) && DistinctIds(events)
    requires p.sequence == |events| + 1
    requires forall i | 0 <= i < |events| :: events[i].payload.id != p.id
    ensures var e := NextEvent(rules, p, LinkAt(events, |events|));
            Linked(rules, events + [e]) && DistinctIds(events + [e]) && LinkAt(events + [e], |events| + 1) == e.hash
  {
    AppendLinks(rules, events, p);
  }
}
