/**
 The initial append-only history of control records: which record may follow which, and the selector
 that accepts the pages of a history only whole.
 */
module ControlHistory {
  import opened Bytes
  import opened ControlRecord
  import P = OwnedPage
  import D = VolumeDescriptor

  const RECORDS: nat := 128

  predicate Transition(a: Record, b: Record) {
    && a.retiredMap <= b.retiredMap && a.retiredControl <= b.retiredControl
    && (a.phase.ReadOnly? ==> b.phase.ReadOnly?)
    && !(a.phase.Active? && b.phase.Provisioning?)
    && b.highWater >= a.highWater
    && if a.lease.NoLease? && b.lease.NoLease? then
         b.resolution.Unresolved? && b.resolvedId == 0 && b.highWater == a.highWater
       else if a.lease.NoLease? then
         b.leaseId > a.highWater && b.mapSlot !in b.retiredMap && b.phase == a.phase && !b.phase.ReadOnly?
       else if !b.lease.NoLease? then
         && b.lease == a.lease && b.leaseId == a.leaseId && b.mapSlot == a.mapSlot && b.page == a.page
         && b.targetRow == a.targetRow && b.highWater == a.highWater && (b.phase == a.phase || b.phase.ReadOnly?)
       else
         && b.resolvedId == a.leaseId && b.highWater == a.highWater
         && if b.resolution.VerifiedComplete? then a.mapSlot !in b.retiredMap
           && (b.phase == a.phase || b.phase.ReadOnly?)
            else b.resolution.AbandonedRetired? && a.mapSlot in b.retiredMap && b.phase.ReadOnly?
  }

  // ----- What the selector sees -------------------------------------------------------------------------

  /** The evidence for one place: a trusted observer proved it unused, or its page is at hand, or it is
      unknown, erased-looking or unreadable. */
  datatype Evidence = Untouched | PagePresent(page: Page) | NotKnown

  /** What the validator makes of it. */
  datatype Observation = ProvenUnused | Present(seen: Validated) | Unsure

  function Observe(s: Volume, e: Evidence, i: nat): Observation
    requires VolumeOk(s)
  {
    match e
    case Untouched => ProvenUnused
    case PagePresent(page) => Present(ValidatePage(s, page, i / SLOTS, i % SLOTS))
    case NotKnown => Unsure
  }

  function Observed(s: Volume, ev: seq<Evidence>): (obs: seq<Observation>)
    requires VolumeOk(s)
    ensures |obs| == |ev| && forall i :: 0 <= i < |ev| ==> obs[i] == Observe(s, ev[i], i)
  {
    seq(|ev|, i requires 0 <= i < |ev| => Observe(s, ev[i], i))
  }

  /** A valid record of its own place. */
  predicate ValidAt(obs: seq<Observation>, i: nat, s: Volume)
    requires i < |obs| && VolumeOk(s)
  {
    obs[i].Present? && obs[i].seen.Valid? && obs[i].seen.record.bank == i / SLOTS
      && obs[i].seen.record.slot == i % SLOTS
    && RecordValid(obs[i].seen.record, s)
  }

  /** Whatever the validator accepts is one. */
  lemma AcceptedIsValid(s: Volume, ev: seq<Evidence>, i: nat)
    requires VolumeOk(s) && i < |ev|
    ensures var obs := Observed(s, ev); ValidAt(obs, i, s) <==> obs[i].Present? && obs[i].seen.Valid?
  {
    hide RecordValid, ValidatePage;
    if ev[i].PagePresent? && ValidatePage(s, ev[i].page, i / SLOTS, i % SLOTS).Valid? {
      ValidIsBuilt(s, ev[i].page, i / SLOTS, i % SLOTS);
    }
  }

  /** The definition of a clean history: the first `n` positions and no others hold records, numbered from
      one, each linked to the one before and a permitted step from it, ending active, without a lease,
      and no control bank was ever retired. */
  predicate Clean(obs: seq<Observation>, s: Volume, n: nat)
    requires VolumeOk(s)
  {
    && 1 <= n <= |obs|
    && (forall i :: 0 <= i < n ==> ValidAt(obs, i, s) && obs[i].seen.record.sequence == i + 1)
    && (forall i :: n <= i < |obs| ==> obs[i].ProvenUnused?)
    && (forall i :: 0 < i < n ==> Linked(obs[i - 1], obs[i]))
    && obs[n - 1].seen.record.phase.Active? && obs[n - 1].seen.record.lease.NoLease?
      && obs[n - 1].seen.record.retiredControl == {}
  }

  predicate Linked(a: Observation, b: Observation) {
    && a.Present? && a.seen.Valid? && b.Present? && b.seen.Valid?
    && b.seen.record.previousSequence == a.seen.record.sequence && b.seen.record.previousDigest == a.seen.digest
    && Transition(a.seen.record, b.seen.record)
  }

  // ----- What a clean history tells ---------------------------------------------------------------------

  /** Read-only is for ever, so a history that ends active never was. */
  lemma {:induction false} NeverReadOnly(obs: seq<Observation>, s: Volume, n: nat, i: nat)
    requires VolumeOk(s) && Clean(obs, s, n) && i < n
    ensures !obs[i].seen.record.phase.ReadOnly?
    decreases n - i
  {
    if i < n - 1 {
      NeverReadOnly(obs, s, n, i + 1);
      assert Linked(obs[i], obs[i + 1]);
    }
  }

  lemma {:induction false} Grows(obs: seq<Observation>, s: Volume, n: nat, i: nat, j: nat)
    requires VolumeOk(s) && Clean(obs, s, n) && i <= j < n
    ensures obs[i].seen.record.highWater <= obs[j].seen.record.highWater
    ensures obs[i].seen.record.retiredMap <= obs[j].seen.record.retiredMap
    ensures obs[i].seen.record.retiredControl <= obs[j].seen.record.retiredControl
    decreases j
  {
    if i < j {
      Grows(obs, s, n, i, j - 1);
      assert Linked(obs[j - 1], obs[j]);
    }
  }

  /** A record that begins a lease. */
  predicate Begins(obs: seq<Observation>, i: nat) {
    0 < i < |obs| && obs[i - 1].Present? && obs[i - 1].seen.Valid? && obs[i].Present? && obs[i].seen.Valid?
      && obs[i - 1].seen.record.lease.NoLease? && !obs[i].seen.record.lease.NoLease?
  }

  /** Lease identifiers strictly increase. */
  lemma LeaseIdsIncrease(obs: seq<Observation>, s: Volume, n: nat, i: nat, j: nat)
    requires VolumeOk(s) && Clean(obs, s, n) && i < j < n && Begins(obs, i) && Begins(obs, j)
    ensures obs[i].seen.record.leaseId < obs[j].seen.record.leaseId
  {
    Grows(obs, s, n, i, j - 1);
    assert Linked(obs[j - 1], obs[j]);
    assert ValidAt(obs, i, s);
  }

  /** A lease is held unchanged until the record that resolves it, and it is resolved as verified
      complete: the record `k` says so, and its target was not retired. */
  lemma {:induction false} LeaseIsCompleted(obs: seq<Observation>, s: Volume, n: nat, i: nat) returns (k: nat)
    requires VolumeOk(s) && Clean(obs, s, n) && i < n && !obs[i].seen.record.lease.NoLease?
    ensures i < k < n && obs[k].seen.record.lease.NoLease? && obs[k].seen.record.resolution.VerifiedComplete?
    ensures obs[k].seen.record.resolvedId == obs[i].seen.record.leaseId
      && obs[i].seen.record.mapSlot !in obs[k].seen.record.retiredMap
    ensures forall m :: i <= m < k ==>
      obs[m].seen.record.leaseId == obs[i].seen.record.leaseId
        && obs[m].seen.record.mapSlot == obs[i].seen.record.mapSlot
      && obs[m].seen.record.page == obs[i].seen.record.page && obs[m].seen.record.lease == obs[i].seen.record.lease
    decreases n - i
  {
    assert Linked(obs[i], obs[i + 1]);
    if obs[i + 1].seen.record.lease.NoLease? {
      k := i + 1;
      NeverReadOnly(obs, s, n, k);
    } else {
      k := LeaseIsCompleted(obs, s, n, i + 1);
    }
  }

  /** A lease never names a block that was retired before. */
  lemma LeaseAvoidsRetired(obs: seq<Observation>, s: Volume, n: nat, h: nat, i: nat)
    requires VolumeOk(s) && Clean(obs, s, n) && h <= i < n && !obs[i].seen.record.lease.NoLease?
    ensures obs[i].seen.record.mapSlot !in obs[h].seen.record.retiredMap
  {
    Grows(obs, s, n, h, i);
    NeverReadOnly(obs, s, n, i);
    assert ValidAt(obs, i, s);
  }

  // ----- The selector -----------------------------------------------------------------------------------

  datatype Reason = Unknown | BadRecord | DuplicateSequence | ChainGap | BadTransition | PendingLease
                  | RetiredControl | NotActive | IncompleteHistory

  datatype Kind = NoCandidate | CleanCandidate | RecoverReadOnly

  /** Where the latest record stands, its number and its digest. */
  datatype Place = Place(bank: nat, slot: nat, sequence: nat, digest: seq<Byte>)

  /** An unresolved lease: its identifier, and the slot and the physical block it names. */
  datatype Pending = Nothing | Pending(id: nat, mapSlot: nat, block: nat)

  datatype Selection = Selection(
    kind: Kind, reasons: set<Reason>, latestValid: bool, latest: nat, place: Place,
    retiredMap: set<nat>, retiredControl: set<nat>, quarantine: bool, pending: Pending)

  const NO_PLACE: Place := Place(0, 0, 0, Filled(32, 0))

  datatype Outcome = Argument | NotAVolume | NoDigest | Selected(sel: Selection)

  const HISTORY: set<Reason> := {Unknown, BadRecord, DuplicateSequence, ChainGap, BadTransition, IncompleteHistory}

  function Count(obs: seq<Observation>, s: Volume, i: nat): nat
    requires i <= |obs| && VolumeOk(s)
  {
    if i == 0 then 0 else Count(obs, s, i - 1) + (if ValidAt(obs, i - 1, s) then 1 else 0)
  }

  /** Counting a prefix without holes. */
  lemma {:induction false} CountPrefix(obs: seq<Observation>, s: Volume, n: nat, i: nat)
    requires VolumeOk(s) && n <= |obs| && i <= |obs|
    requires forall k :: 0 <= k < i ==> (ValidAt(obs, k, s) <==> k < n)
    ensures Count(obs, s, i) == if i < n then i else n
  {
    if i > 0 { CountPrefix(obs, s, n, i - 1); }
  }

  /** The valid records below `i`: how many, and one with the greatest sequence. */
  ghost predicate Latest(obs: seq<Observation>, s: Volume, i: nat, best: nat, count: nat)
    requires i <= |obs| && VolumeOk(s)
  {
    && count == Count(obs, s, i) && (count > 0 ==> best < i && ValidAt(obs, best, s))
    && forall k :: 0 <= k < i && ValidAt(obs, k, s) ==>
      count > 0 && obs[k].seen.record.sequence <= obs[best].seen.record.sequence
  }

  lemma LatestStep(obs: seq<Observation>, s: Volume, i: nat, best: nat, count: nat)
    requires i < |obs| && VolumeOk(s) && Latest(obs, s, i, best, count)
    ensures !ValidAt(obs, i, s) ==> Latest(obs, s, i + 1, best, count)
    ensures ValidAt(obs, i, s) ==>
      Latest(obs, s, i + 1, if count == 0 || obs[i].seen.record.sequence > obs[best].seen.record.sequence then i
        else best, count + 1)
  {
  }

  /** The union of all retirement evidence below `i`. */
  function Retired(obs: seq<Observation>, s: Volume, i: nat): (set<nat>, set<nat>)
    requires i <= |obs| && VolumeOk(s)
  {
    if i == 0 then ({}, {})
    else
      var (m, c) := Retired(obs, s, i - 1);
      if ValidAt(obs, i - 1, s) then (m + obs[i - 1].seen.record.retiredMap, c + obs[i - 1].seen.record.retiredControl)
        else (m, c)
  }

  lemma RetiredStep(obs: seq<Observation>, s: Volume, i: nat)
    requires i < |obs| && VolumeOk(s)
    ensures Retired(obs, s, i + 1) ==
      if ValidAt(obs, i, s)
      then (Retired(obs, s, i).0 + obs[i].seen.record.retiredMap,
        Retired(obs, s, i).1 + obs[i].seen.record.retiredControl)
      else Retired(obs, s, i)
  {
  }

  /** Retirement evidence is never lost: not even by a broken chain. */
  lemma {:induction false} RetiredCovers(obs: seq<Observation>, s: Volume, i: nat, k: nat)
    requires i <= |obs| && VolumeOk(s) && k < i && ValidAt(obs, k, s)
    ensures obs[k].seen.record.retiredMap <= Retired(obs, s, i).0
      && obs[k].seen.record.retiredControl <= Retired(obs, s, i).1
  {
    if k < i - 1 { RetiredCovers(obs, s, i - 1, k); }
  }

  lemma {:induction false} RetiredIsEvidence(obs: seq<Observation>, s: Volume, i: nat)
    requires i <= |obs| && VolumeOk(s)
    requires forall k :: 0 <= k < i && ValidAt(obs, k, s) ==> obs[k].seen.record.retiredControl == {}
    ensures Retired(obs, s, i).1 == {}
  {
    if i > 0 { RetiredIsEvidence(obs, s, i - 1); }
  }

  ghost predicate AnyUnsure(obs: seq<Observation>, i: nat)
    requires i <= |obs|
  {
    exists k :: 0 <= k < i && obs[k].Unsure?
  }

  ghost predicate AnyBad(obs: seq<Observation>, s: Volume, i: nat)
    requires i <= |obs| && VolumeOk(s)
  {
    exists k :: 0 <= k < i && obs[k].Present? && !ValidAt(obs, k, s)
  }

  /** Two valid records below `i` with one sequence, the later one below `j`. */
  ghost predicate AnyDouble(obs: seq<Observation>, s: Volume, i: nat)
    requires i <= |obs| && VolumeOk(s)
  {
    exists j, k :: 0 <= j < k < i && Double(obs, s, j, k)
  }

  predicate Double(obs: seq<Observation>, s: Volume, j: nat, k: nat)
    requires j < |obs| && k < |obs| && VolumeOk(s)
  {
    ValidAt(obs, j, s) && ValidAt(obs, k, s) && obs[j].seen.record.sequence == obs[k].seen.record.sequence
  }

  function If(on: bool, r: Reason): set<Reason> { if on then {r} else {} }

  ghost function Faults(obs: seq<Observation>, s: Volume, i: nat): set<Reason>
    requires i <= |obs| && VolumeOk(s)
  {
    If(AnyUnsure(obs, i), Unknown) + If(AnyBad(obs, s, i), BadRecord) + If(AnyDouble(obs, s, i), DuplicateSequence)
  }

  /** Does an earlier valid record carry the sequence of record `i`? */
  method SeenBefore(obs: seq<Observation>, s: Volume, i: nat) returns (seen: bool)
    requires VolumeOk(s) && i < |obs| && ValidAt(obs, i, s)
    ensures seen <==> exists j :: 0 <= j < i && Double(obs, s, j, i)
  {
    seen := false;
    for j := 0 to i
      invariant seen <==> exists k :: 0 <= k < j && Double(obs, s, k, i)
    {
      if Double(obs, s, j, i) { seen := true; }
    }
  }

  lemma FaultsStep(obs: seq<Observation>, s: Volume, i: nat, seen: bool)
    requires VolumeOk(s) && i < |obs| && (seen <==> exists j :: 0 <= j < i && Double(obs, s, j, i))
    ensures Faults(obs, s, i + 1) ==
      Faults(obs, s, i) + If(obs[i].Unsure?, Unknown) + If(obs[i].Present? && !ValidAt(obs, i, s), BadRecord)
      + If(seen, DuplicateSequence)
  {
    assert AnyUnsure(obs, i + 1) <==> AnyUnsure(obs, i) || obs[i].Unsure?;
    assert AnyBad(obs, s, i + 1) <==> AnyBad(obs, s, i) || (obs[i].Present? && !ValidAt(obs, i, s));
    assert AnyDouble(obs, s, i + 1) <==> AnyDouble(obs, s, i) || seen;
  }

  ghost predicate Hashes(obs: seq<Observation>, s: Volume, i: nat)
    requires i <= |obs| && VolumeOk(s)
  {
    forall k :: 0 <= k < i && obs[k].Present? ==> !obs[k].seen.HashError?
  }

  lemma NothingYet(obs: seq<Observation>, s: Volume)
    requires VolumeOk(s)
    ensures Latest(obs, s, 0, 0, 0) && Faults(obs, s, 0) == {} && Retired(obs, s, 0) == ({}, {})
  {
  }

  /** First pass: every observation, in order. */
  method Gather(obs: seq<Observation>, s: Volume)
    returns (hashed: bool, best: nat, count: nat, reasons: set<Reason>, retiredMap: set<nat>, retiredControl: set<nat>)
    requires VolumeOk(s) && |obs| == RECORDS
    ensures hashed <==> Hashes(obs, s, |obs|)
    ensures hashed ==> Latest(obs, s, |obs|, best, count) && reasons == Faults(obs, s, |obs|)
    ensures hashed ==> (retiredMap, retiredControl) == Retired(obs, s, |obs|)
  {
    hide Faults, Retired, AnyDouble;
    best, count, reasons, retiredMap, retiredControl := 0, 0, {}, {}, {};
    NothingYet(obs, s);
    for i := 0 to RECORDS
      invariant Hashes(obs, s, i) && Latest(obs, s, i, best, count)
      invariant reasons == Faults(obs, s, i) && (retiredMap, retiredControl) == Retired(obs, s, i)
    {
      LatestStep(obs, s, i, best, count);
      RetiredStep(obs, s, i);
      var seen := false;
      if obs[i].Unsure? {
        reasons := reasons + {Unknown};
      } else if obs[i].Present? {
        if obs[i].seen.HashError? { return false, best, count, reasons, retiredMap, retiredControl; }
        if !ValidAt(obs, i, s) {
          reasons := reasons + {BadRecord};
        } else {
          retiredMap, retiredControl := retiredMap + obs[i].seen.record.retiredMap,
            retiredControl + obs[i].seen.record.retiredControl;
          if count == 0 || obs[i].seen.record.sequence > obs[best].seen.record.sequence { best := i; }
          count := count + 1;
          seen := SeenBefore(obs, s, i);
          if seen { reasons := reasons + {DuplicateSequence}; }
        }
      }
      FaultsStep(obs, s, i, seen);
    }
    hashed := true;
  }

  /** What is wrong with valid record `i` in its place: its number, its link, its step. */
  function PlaceFaults(obs: seq<Observation>, s: Volume, i: nat): set<Reason>
    requires VolumeOk(s) && i < |obs|
  {
    if !ValidAt(obs, i, s) then {}
    else
      If(obs[i].seen.record.sequence != i + 1, IncompleteHistory)
      + if i == 0 then {}
        else if !ValidAt(obs, i - 1, s) || obs[i].seen.record.previousSequence != obs[i - 1].seen.record.sequence
                || obs[i].seen.record.previousDigest != obs[i - 1].seen.digest then {ChainGap}
        else if !Transition(obs[i - 1].seen.record, obs[i].seen.record) then {BadTransition}
        else {}
  }

  function AllPlaceFaults(obs: seq<Observation>, s: Volume, i: nat): set<Reason>
    requires VolumeOk(s) && i <= |obs|
  {
    if i == 0 then {} else AllPlaceFaults(obs, s, i - 1) + PlaceFaults(obs, s, i - 1)
  }

  lemma {:induction false} NoPlaceFaults(obs: seq<Observation>, s: Volume, i: nat)
    requires VolumeOk(s) && i <= |obs|
    ensures AllPlaceFaults(obs, s, i) == {} <==> forall k :: 0 <= k < i ==> PlaceFaults(obs, s, k) == {}
  {
    if i > 0 { NoPlaceFaults(obs, s, i - 1); }
  }

  /** Everything the selector holds against the evidence, given at least one valid record. */
  ghost function AllReasons(obs: seq<Observation>, s: Volume, best: nat, count: nat): set<Reason>
    requires VolumeOk(s) && |obs| == RECORDS && best < |obs| && ValidAt(obs, best, s)
  {
    Faults(obs, s, |obs|) + AllPlaceFaults(obs, s, |obs|)
    + If(!ValidAt(obs, 0, s) || obs[0].seen.record.sequence != 1 || best + 1 != count, IncompleteHistory)
    + If(!obs[best].seen.record.lease.NoLease?, PendingLease) + If(Retired(obs, s, |obs|).1 != {}, RetiredControl)
    + If(!obs[best].seen.record.phase.Active?, NotActive)
  }

  /** Second pass: every valid record against its place and its predecessor. */
  method CheckPlaces(obs: seq<Observation>, s: Volume) returns (reasons: set<Reason>)
    requires VolumeOk(s) && |obs| == RECORDS
    ensures reasons == AllPlaceFaults(obs, s, |obs|)
  {
    hide Transition, RecordValid;
    reasons := {};
    for i := 0 to RECORDS
      invariant reasons == AllPlaceFaults(obs, s, i)
    {
      if ValidAt(obs, i, s) {
        if obs[i].seen.record.sequence != i + 1 { reasons := reasons + {IncompleteHistory}; }
        if i > 0 {
          if !ValidAt(obs, i - 1, s) || obs[i].seen.record.previousSequence != obs[i - 1].seen.record.sequence
             || obs[i].seen.record.previousDigest != obs[i - 1].seen.digest {
            reasons := reasons + {ChainGap};
          } else if !Transition(obs[i - 1].seen.record, obs[i].seen.record) {
            reasons := reasons + {BadTransition};
          }
        }
      }
    }
  }

  /** No evidence is passed over: the latest valid record is reported, and every retirement seen. */
  ghost predicate Reports(obs: seq<Observation>, s: Volume, sel: Selection)
    requires VolumeOk(s)
  {
    forall k :: 0 <= k < |obs| && ValidAt(obs, k, s) ==>
      && sel.latestValid && sel.latest < |obs| && ValidAt(obs, sel.latest, s)
      && obs[k].seen.record.sequence <= obs[sel.latest].seen.record.sequence
      && obs[k].seen.record.retiredMap <= sel.retiredMap && obs[k].seen.record.retiredControl <= sel.retiredControl
  }

  /** Evidence that cannot be read, or is not a valid record. */
  ghost predicate Doubtful(obs: seq<Observation>, s: Volume)
    requires VolumeOk(s)
  {
    AnyUnsure(obs, |obs|) || AnyBad(obs, s, |obs|)
  }

  ghost predicate AnyValid(obs: seq<Observation>, s: Volume)
    requires VolumeOk(s)
  {
    exists k :: 0 <= k < |obs| && ValidAt(obs, k, s)
  }

  function PlaceOf(i: nat, v: Validated): Place
    requires v.Valid?
  {
    Place(i / SLOTS, i % SLOTS, v.record.sequence, v.digest)
  }

  function PendingOf(s: Volume, r: Record): Pending
    requires VolumeOk(s) && RecordValid(r, s)
  {
    if r.lease.NoLease? then Nothing else Pending.Pending(r.leaseId, r.mapSlot, s.map_[r.mapSlot])
  }

  /** The reasons against the evidence and everything else that is reported, in full. */
  ghost predicate Reasoned(obs: seq<Observation>, s: Volume, sel: Selection)
    requires VolumeOk(s) && |obs| == RECORDS
  {
    && (sel.latestValid <==> AnyValid(obs, s))
    && (sel.retiredMap, sel.retiredControl) == Retired(obs, s, |obs|)
    && (if sel.latestValid then
          && sel.latest < |obs| && ValidAt(obs, sel.latest, s)
          && sel.reasons == AllReasons(obs, s, sel.latest, Count(obs, s, |obs|))
          && sel.place == PlaceOf(sel.latest, obs[sel.latest].seen)
            && sel.pending == PendingOf(s, obs[sel.latest].seen.record)
        else sel.reasons == Faults(obs, s, |obs|) && sel.place == NO_PLACE && sel.pending.Nothing?)
    && (sel.quarantine <==> sel.reasons * HISTORY != {})
  }

  /** The selector over what the validator made of 128 places. */
  method Weigh(obs: seq<Observation>, s: Volume) returns (o: Outcome)
    requires VolumeOk(s) && |obs| == RECORDS
    ensures o.NoDigest? || o.Selected?
    ensures o.NoDigest? <==> !Hashes(obs, s, |obs|)
    ensures o.Selected? ==> (o.sel.kind.CleanCandidate? <==> exists n: nat :: Clean(obs, s, n))
    ensures o.Selected? ==> (o.sel.kind.NoCandidate? <==> forall k :: 0 <= k < |obs| ==> obs[k].ProvenUnused?)
    ensures o.Selected? ==> Reports(obs, s, o.sel) && Reasoned(obs, s, o.sel)
    ensures o.Selected? && Doubtful(obs, s) ==> o.sel.kind.RecoverReadOnly? && o.sel.quarantine
  {
    hide Latest, Retired, Faults, AllPlaceFaults, Clean, Hashes, Count, RecordValid;
    var hashed, best, count, reasons, retiredMap, retiredControl := Gather(obs, s);
    if !hashed { return NoDigest; }
    FaultsMean(obs, s);
    if count == 0 {
      CountZero(obs, s, best);
      assert Doubtful(obs, s) ==> reasons != {} && reasons * HISTORY != {} by {
        if Unknown in reasons { assert Unknown in reasons * HISTORY; }
        if BadRecord in reasons { assert BadRecord in reasons * HISTORY; }
      }
      var kind := if reasons == {} then NoCandidate else RecoverReadOnly;
      return Selected(Selection(kind, reasons, false, 0, NO_PLACE, retiredMap, retiredControl, reasons * HISTORY != {},
        Nothing));
    }
    LatestMeans(obs, s, best, count);
    LatestCounts(obs, s, best, count);
    assert !obs[best].ProvenUnused?;
    assert Doubtful(obs, s) ==> Unknown in reasons || BadRecord in reasons;
    if !ValidAt(obs, 0, s) || obs[0].seen.record.sequence != 1 || best + 1 != count {
      reasons := reasons + {IncompleteHistory};
    }
    var places := CheckPlaces(obs, s);
    reasons := reasons + places;
    var last := obs[best].seen.record;
    LeaseNames(obs, s, best);
    if !last.lease.NoLease? { reasons := reasons + {PendingLease}; }
    if retiredControl != {} { reasons := reasons + {RetiredControl}; }
    if !last.phase.Active? { reasons := reasons + {NotActive}; }
    assert reasons == AllReasons(obs, s, best, count);
    assert Doubtful(obs, s) ==> reasons != {} && reasons * HISTORY != {} by {
      if Unknown in reasons { assert Unknown in reasons * HISTORY; }
      if BadRecord in reasons { assert BadRecord in reasons * HISTORY; }
    }
    CleanMeans(obs, s, best, count);
    var kind := if reasons == {} then CleanCandidate else RecoverReadOnly;
    var place := Place(last.bank, last.slot, last.sequence, obs[best].seen.digest);
    var pending := if last.lease.NoLease? then Nothing
      else Pending.Pending(last.leaseId, last.mapSlot, s.map_[last.mapSlot]);
    LastIs(obs, s, best);
    return Selected(Selection(kind, reasons, true, best, place, retiredMap, retiredControl, reasons * HISTORY != {},
      pending));
  }

  lemma LeaseNames(obs: seq<Observation>, s: Volume, i: nat)
    requires VolumeOk(s) && i < |obs| && ValidAt(obs, i, s)
    ensures !obs[i].seen.record.lease.NoLease? ==> obs[i].seen.record.mapSlot < |s.map_|
  {
  }

  lemma LastIs(obs: seq<Observation>, s: Volume, i: nat)
    requires VolumeOk(s) && i < |obs| && ValidAt(obs, i, s)
    ensures var r := obs[i].seen.record;
      && PlaceOf(i, obs[i].seen) == Place(r.bank, r.slot, r.sequence, obs[i].seen.digest)
      && (r.lease.NoLease? ==> PendingOf(s, r).Nothing?)
      && (!r.lease.NoLease? ==> PendingOf(s, r) == Pending.Pending(r.leaseId, r.mapSlot, s.map_[r.mapSlot]))
  {
  }

  lemma LatestCounts(obs: seq<Observation>, s: Volume, best: nat, count: nat)
    requires VolumeOk(s) && Latest(obs, s, |obs|, best, count)
    ensures count == Count(obs, s, |obs|)
  {
  }

  lemma LatestMeans(obs: seq<Observation>, s: Volume, best: nat, count: nat)
    requires VolumeOk(s) && Latest(obs, s, |obs|, best, count) && count > 0
    ensures best < |obs| && ValidAt(obs, best, s)
    ensures forall k :: 0 <= k < |obs| && ValidAt(obs, k, s) ==>
      && obs[k].seen.record.sequence <= obs[best].seen.record.sequence
      && obs[k].seen.record.retiredMap <= Retired(obs, s, |obs|).0
        && obs[k].seen.record.retiredControl <= Retired(obs, s, |obs|).1
  {
    forall k | 0 <= k < |obs| && ValidAt(obs, k, s)
      ensures obs[k].seen.record.retiredMap <= Retired(obs, s, |obs|).0
        && obs[k].seen.record.retiredControl <= Retired(obs, s, |obs|).1
    {
      RetiredCovers(obs, s, |obs|, k);
    }
  }

  lemma CleanFirst(obs: seq<Observation>, s: Volume, n: nat)
    requires VolumeOk(s) && Clean(obs, s, n)
    ensures ValidAt(obs, 0, s)
  {
  }

  lemma CleanNeedsFirst(obs: seq<Observation>, s: Volume)
    requires VolumeOk(s)
    ensures forall n: nat :: Clean(obs, s, n) ==> 0 < |obs| && ValidAt(obs, 0, s)
  {
    forall n: nat | Clean(obs, s, n) ensures 0 < |obs| && ValidAt(obs, 0, s) {
      CleanFirst(obs, s, n);
    }
  }

  lemma NoneCounted(obs: seq<Observation>, s: Volume, best: nat)
    requires VolumeOk(s) && Latest(obs, s, |obs|, best, 0)
    ensures Count(obs, s, |obs|) == 0
  {
  }

  lemma CountZero(obs: seq<Observation>, s: Volume, best: nat)
    requires VolumeOk(s) && |obs| == RECORDS && Latest(obs, s, |obs|, best, 0)
    ensures forall k :: 0 <= k < |obs| ==> !ValidAt(obs, k, s)
    ensures Faults(obs, s, |obs|) == {} <==> forall k :: 0 <= k < |obs| ==> obs[k].ProvenUnused?
    ensures forall n: nat :: !Clean(obs, s, n)
  {
    hide Clean, Latest, Count;
    CleanNeedsFirst(obs, s);
    NoneCounted(obs, s, best);
    NothingValid(obs, s);
  }

  lemma FaultsMean(obs: seq<Observation>, s: Volume)
    requires VolumeOk(s)
    ensures Unknown in Faults(obs, s, |obs|) <==> AnyUnsure(obs, |obs|)
    ensures BadRecord in Faults(obs, s, |obs|) <==> AnyBad(obs, s, |obs|)
  {
  }

  lemma NothingValid(obs: seq<Observation>, s: Volume)
    requires VolumeOk(s) && |obs| == RECORDS && Count(obs, s, |obs|) == 0
    ensures forall k :: 0 <= k < |obs| ==> !ValidAt(obs, k, s)
    ensures Faults(obs, s, |obs|) == {} <==> forall k :: 0 <= k < |obs| ==> obs[k].ProvenUnused?
  {
    CountNone(obs, s, |obs|);
    if Faults(obs, s, |obs|) == {} {
      assert !AnyUnsure(obs, |obs|) && !AnyBad(obs, s, |obs|);
    } else {
      assert AnyUnsure(obs, |obs|) || AnyBad(obs, s, |obs|) || AnyDouble(obs, s, |obs|);
    }
  }

  lemma {:induction false} CountNone(obs: seq<Observation>, s: Volume, i: nat)
    requires VolumeOk(s) && i <= |obs| && Count(obs, s, i) == 0
    ensures forall k :: 0 <= k < i ==> !ValidAt(obs, k, s)
  {
    if i > 0 { CountNone(obs, s, i - 1); }
  }

  /** No reason is found exactly when the history is clean. */
  lemma CleanMeans(obs: seq<Observation>, s: Volume, best: nat, count: nat)
    requires VolumeOk(s) && |obs| == RECORDS && Latest(obs, s, |obs|, best, count) && count > 0
    ensures AllReasons(obs, s, best, count) == {} <==> exists n: nat :: Clean(obs, s, n)
  {
    if AllReasons(obs, s, best, count) == {} {
      NoReasonsClean(obs, s, best, count);
    } else if n: nat :| Clean(obs, s, n) {
      CleanNoReasons(obs, s, best, count, n);
    }
  }

  /** Valid records reach down without holes. */
  lemma {:induction false} Downward(obs: seq<Observation>, s: Volume, k: nat, i: nat)
    requires VolumeOk(s) && k <= i < |obs| && ValidAt(obs, i, s)
    requires forall m :: 0 <= m < |obs| ==> PlaceFaults(obs, s, m) == {}
    ensures ValidAt(obs, k, s)
    decreases i
  {
    if k < i {
      assert PlaceFaults(obs, s, i) == {};
      Downward(obs, s, k, i - 1);
    }
  }

  lemma NoReasonsClean(obs: seq<Observation>, s: Volume, best: nat, count: nat)
    requires VolumeOk(s) && |obs| == RECORDS && Latest(obs, s, |obs|, best, count) && count > 0
    requires AllReasons(obs, s, best, count) == {}
    ensures Clean(obs, s, best + 1)
  {
    NoPlaceFaults(obs, s, |obs|);
    var n := best + 1;
    forall i | 0 <= i < n ensures ValidAt(obs, i, s) && obs[i].seen.record.sequence == i + 1 {
      Downward(obs, s, i, best);
      assert PlaceFaults(obs, s, i) == {};
    }
    forall i | n <= i < |obs| ensures obs[i].ProvenUnused? {
      assert !AnyUnsure(obs, |obs|) && !AnyBad(obs, s, |obs|);
      assert PlaceFaults(obs, s, i) == {};
    }
    forall i | 0 < i < n ensures Linked(obs[i - 1], obs[i]) {
      assert PlaceFaults(obs, s, i) == {};
      assert ValidAt(obs, i, s) && ValidAt(obs, i - 1, s);
    }
    RetiredCovers(obs, s, |obs|, best);
  }

  lemma CleanNoReasons(obs: seq<Observation>, s: Volume, best: nat, count: nat, n: nat)
    requires VolumeOk(s) && |obs| == RECORDS && Latest(obs, s, |obs|, best, count) && count > 0 && Clean(obs, s, n)
    ensures AllReasons(obs, s, best, count) == {}
  {
    assert forall k :: 0 <= k < |obs| ==> (ValidAt(obs, k, s) <==> k < n);
    CountPrefix(obs, s, n, |obs|);
    assert ValidAt(obs, n - 1, s);
    assert best == n - 1;
    forall k | 0 <= k < |obs| ensures PlaceFaults(obs, s, k) == {} {
      if 0 < k < n { assert Linked(obs[k - 1], obs[k]); }
    }
    NoPlaceFaults(obs, s, |obs|);
    forall k | 0 <= k < |obs| && ValidAt(obs, k, s) ensures obs[k].seen.record.retiredControl == {} {
      Grows(obs, s, n, k, n - 1);
    }
    RetiredIsEvidence(obs, s, |obs|);
    assert !AnyUnsure(obs, |obs|) && !AnyBad(obs, s, |obs|) && !AnyDouble(obs, s, |obs|);
  }

  // ----- The selector over pages ------------------------------------------------------------------------

  /** The pages are those the builder writes for the records, in order: the first places and no others
      hold them, numbered from one, each carrying the digest of the page before and a permitted step from
      its record, ending active, without a lease, and no control bank was ever retired. */
  ghost predicate BuiltHistory(s: Volume, ev: seq<Evidence>, rs: seq<Record>)
    requires VolumeOk(s)
  {
    && 1 <= |rs| <= |ev|
    && (forall i :: 0 <= i < |rs| ==> BuiltAt(s, ev[i], rs[i], i))
    && (forall i :: |rs| <= i < |ev| ==> ev[i].Untouched?)
    && (forall i :: 0 < i < |rs| ==> Follows(s, ev[i - 1], rs[i - 1], rs[i]))
    && var last := rs[|rs| - 1]; last.phase.Active? && last.lease.NoLease? && last.retiredControl == {}
  }

  ghost predicate BuiltAt(s: Volume, e: Evidence, r: Record, i: nat)
    requires VolumeOk(s)
  {
    && e.PagePresent? && Sized(r) && r.bank == i / SLOTS && r.slot == i % SLOTS && r.sequence == i + 1
    && BuildRecord(s, r) == P.Built(e.page)
  }

  ghost predicate Follows(s: Volume, before: Evidence, a: Record, b: Record) {
    && before.PagePresent? && P.Answers(s.hash, before.page[..192])
      && b.previousDigest == s.hash(before.page[..192]).value
    && b.previousSequence == a.sequence && Transition(a, b)
  }

  /** What the validator reads at a place, and what the builder writes there. */
  lemma PlaceIsBuilt(s: Volume, ev: seq<Evidence>, i: nat)
    requires VolumeOk(s) && i < |ev| && ValidAt(Observed(s, ev), i, s)
      && Observed(s, ev)[i].seen.record.sequence == i + 1
    ensures BuiltAt(s, ev[i], Observed(s, ev)[i].seen.record, i)
    ensures P.Answers(s.hash, ev[i].page[..192]) && Observed(s, ev)[i].seen.digest == s.hash(ev[i].page[..192]).value
  {
    hide RecordValid, BuildRecord, ValidatePage;
    ValidIsBuilt(s, ev[i].page, i / SLOTS, i % SLOTS);
    BuiltIsValid(s, Observed(s, ev)[i].seen.record, ev[i].page);
  }

  lemma BuiltIsSeen(s: Volume, ev: seq<Evidence>, r: Record, i: nat)
    requires VolumeOk(s) && i < |ev| && BuiltAt(s, ev[i], r, i)
    ensures P.Answers(s.hash, ev[i].page[..192])
    ensures Observed(s, ev)[i] == Present(Valid(r, s.hash(ev[i].page[..192]).value)) && ValidAt(Observed(s, ev), i, s)
  {
    hide RecordValid, BuildRecord, ValidatePage;
    BuiltIsValid(s, r, ev[i].page);
    AcceptedIsValid(s, ev, i);
  }

  function RecordsOf(obs: seq<Observation>, n: nat): (rs: seq<Record>)
    requires n <= |obs| && forall i :: 0 <= i < n ==> obs[i].Present? && obs[i].seen.Valid?
    ensures |rs| == n && forall i :: 0 <= i < n ==> rs[i] == obs[i].seen.record
  {
    seq(n, i requires 0 <= i < n => obs[i].seen.record)
  }

  lemma CleanIsBuilt(s: Volume, ev: seq<Evidence>, n: nat)
    requires VolumeOk(s) && Clean(Observed(s, ev), s, n)
    ensures BuiltHistory(s, ev, RecordsOf(Observed(s, ev), n))
  {
    hide RecordValid, BuildRecord, ValidatePage, Transition, BuiltAt, Follows;
    var obs := Observed(s, ev);
    var rs := RecordsOf(obs, n);
    forall i | 0 <= i < n ensures BuiltAt(s, ev[i], rs[i], i) { PlaceIsBuilt(s, ev, i); }
    forall i | n <= i < |ev| ensures ev[i].Untouched? { assert obs[i].ProvenUnused?; }
    forall i | 0 < i < n ensures Follows(s, ev[i - 1], rs[i - 1], rs[i]) {
      PlaceIsBuilt(s, ev, i - 1);
      LinkFollows(s, ev, i);
    }
  }

  lemma LinkFollows(s: Volume, ev: seq<Evidence>, i: nat)
    requires VolumeOk(s) && 0 < i < |ev| && Linked(Observed(s, ev)[i - 1], Observed(s, ev)[i])
    requires ev[i - 1].PagePresent? && P.Answers(s.hash, ev[i - 1].page[..192])
    requires Observed(s, ev)[i - 1].seen.digest == s.hash(ev[i - 1].page[..192]).value
    ensures Follows(s, ev[i - 1], Observed(s, ev)[i - 1].seen.record, Observed(s, ev)[i].seen.record)
  {
    hide Transition, ValidatePage;
  }

  lemma BuiltIsClean(s: Volume, ev: seq<Evidence>, rs: seq<Record>)
    requires VolumeOk(s) && BuiltHistory(s, ev, rs)
    ensures Clean(Observed(s, ev), s, |rs|)
  {
    hide RecordValid, BuildRecord, ValidatePage, Transition;
    var obs := Observed(s, ev);
    forall i | 0 <= i < |rs| ensures ValidAt(obs, i, s) && obs[i].seen.record == rs[i] && rs[i].sequence == i + 1 {
      BuiltIsSeen(s, ev, rs[i], i);
    }
    forall i | 0 < i < |rs| ensures Linked(obs[i - 1], obs[i]) {
      BuiltIsSeen(s, ev, rs[i - 1], i - 1);
      BuiltIsSeen(s, ev, rs[i], i);
      assert Follows(s, ev[i - 1], rs[i - 1], rs[i]);
    }
  }

  /** A history of pages is clean if and only if the builder writes it, page by page, for some records. */
  lemma CleanIffBuilt(s: Volume, ev: seq<Evidence>)
    requires VolumeOk(s)
    ensures (exists n: nat :: Clean(Observed(s, ev), s, n)) <==> exists rs :: BuiltHistory(s, ev, rs)
  {
    hide Clean, BuiltHistory;
    if n: nat :| Clean(Observed(s, ev), s, n) {
      CleanReaches(Observed(s, ev), s, n);
      CleanIsBuilt(s, ev, n);
    }
    if rs :| BuiltHistory(s, ev, rs) { BuiltIsClean(s, ev, rs); }
  }

  lemma CleanReaches(obs: seq<Observation>, s: Volume, n: nat)
    requires VolumeOk(s) && Clean(obs, s, n)
    ensures n <= |obs| && forall i :: 0 <= i < n ==> obs[i].Present? && obs[i].seen.Valid?
  {
    hide RecordValid;
    assert forall i :: 0 <= i < n ==> ValidAt(obs, i, s);
  }

  lemma BuiltIsRead(s: Volume, ev: seq<Evidence>, rs: seq<Record>)
    requires VolumeOk(s) && BuiltHistory(s, ev, rs)
    ensures |rs| <= |ev|
    ensures var obs := Observed(s, ev);
      forall k :: 0 <= k < |rs| ==> obs[k].Present? && obs[k].seen.Valid? && obs[k].seen.record == rs[k]
  {
    hide RecordValid, BuildRecord, ValidatePage, Transition;
    forall k | 0 <= k < |rs|
      ensures Observed(s, ev)[k].Present? && Observed(s, ev)[k].seen.Valid? && Observed(s, ev)[k].seen.record == rs[k]
    {
      BuiltIsSeen(s, ev, rs[k], k);
    }
  }

  /** What the pages of a clean history tell: it was never read-only, a lease begun later has a greater
      identifier, and every lease was resolved as verified complete. */
  lemma PagesTell(s: Volume, ev: seq<Evidence>, rs: seq<Record>, i: nat, j: nat) returns (k: nat)
    requires VolumeOk(s) && BuiltHistory(s, ev, rs) && i <= j < |rs|
    ensures !rs[i].phase.ReadOnly?
    ensures 0 < i < j && rs[i - 1].lease.NoLease? && !rs[i].lease.NoLease? && rs[j - 1].lease.NoLease?
            && !rs[j].lease.NoLease? ==>
      rs[i].leaseId < rs[j].leaseId
    ensures !rs[i].lease.NoLease? ==>
      (i < k < |rs| && rs[k].lease.NoLease? && rs[k].resolution.VerifiedComplete?
       && rs[k].resolvedId == rs[i].leaseId && rs[i].mapSlot !in rs[k].retiredMap)
  {
    hide Clean, BuiltHistory, RecordValid, ValidatePage, Transition;
    var obs, n := Observed(s, ev), |rs|;
    k := 0;
    BuiltIsClean(s, ev, rs);
    BuiltIsRead(s, ev, rs);
    NeverReadOnly(obs, s, n, i);
    if 0 < i < j && Begins(obs, i) && Begins(obs, j) { LeaseIdsIncrease(obs, s, n, i, j); }
    if !rs[i].lease.NoLease? { k := LeaseIsCompleted(obs, s, n, i); }
  }

  /** The volume a valid descriptor stands for. */
  function VolumeOf(h: P.Provider, d: seq<Byte>, expected: D.Spec): (s: Volume)
    requires D.Shaped(expected) && D.ValidateDescriptor(h, d, expected).Sound?
    ensures VolumeOk(s)
  {
    D.DecodedIsExpected(h, d, expected);
    var x := D.ValidateDescriptor(h, d, expected);
    Volume(x.digest, x.spec.control, x.spec.map_, h)
  }

  /** owned_control_select. */
  method Select(ev: seq<Evidence>, d: seq<Byte>, expected: D.Spec, h: P.Provider) returns (o: Outcome)
    requires D.Shaped(expected)
    ensures o.Argument? <==> |ev| != RECORDS || D.ValidateDescriptor(h, d, expected).BadInput?
    ensures o.NotAVolume? <==> |ev| == RECORDS && D.ValidateDescriptor(h, d, expected).Unsound?
    ensures o.Selected? ==> D.ValidateDescriptor(h, d, expected).Sound?
    ensures o.NoDigest? && D.ValidateDescriptor(h, d, expected).Sound? ==>
      !Hashes(Observed(VolumeOf(h, d, expected), ev), VolumeOf(h, d, expected), |ev|)
    ensures o.Selected? ==>
      var s := VolumeOf(h, d, expected);
      var built := exists rs :: BuiltHistory(s, ev, rs);
      var untouched := forall k :: 0 <= k < |ev| ==> ev[k].Untouched?;
      && Hashes(Observed(s, ev), s, |ev|)
      && (o.sel.kind.CleanCandidate? <==> built) && (o.sel.kind.NoCandidate? <==> untouched)
      && (o.sel.kind.RecoverReadOnly? <==> !built && !untouched)
      && Reports(Observed(s, ev), s, o.sel) && Reasoned(Observed(s, ev), s, o.sel)
      && (Doubtful(Observed(s, ev), s) ==> o.sel.quarantine)
  {
    hide Clean, BuiltHistory, Hashes, Reports, Reasoned, Doubtful, D.ValidateDescriptor, ValidatePage;
    if |ev| != RECORDS { return Argument; }
    var volume := D.ValidateDescriptor(h, d, expected);
    if volume.BadInput? { return Argument; }
    if volume.Undigested? { return NoDigest; }
    if volume.Unsound? { return NotAVolume; }
    var s := VolumeOf(h, d, expected);
    var obs := Observed(s, ev);
    o := Weigh(obs, s);
    CleanIffBuilt(s, ev);
    assert forall k :: 0 <= k < |ev| ==> (ev[k].Untouched? <==> obs[k].ProvenUnused?);
  }
}
