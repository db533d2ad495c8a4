/** Sale phases as the page holds them: building them from the contract's phase table
    (`refreshPhases`) and choosing the phase on display (`activePhase`). */
module Phases {
  import opened Outcomes

  /** A phase as the page keeps it. Prices stay in wei; `allowlistRoot` is the hex string the
      contract returns for `phaseMerkleRoot`. */
  datatype Phase = Phase(
    id: nat,
    name: string,
    priceWei: int,
    limitPerWallet: int,
    startsAt: int,
    endsAt: int,
    allowlistEnabled: bool,
    allowlistRoot: string)

  /** One entry of `contract.phases(index)`. Two ABI shapes are tolerated: the existence flag is
      read from the named field `exists` when present, else from positional slot 5. */
  datatype PhaseRecord = PhaseRecord(
    name: string,
    price: int,
    maxPerWallet: int,
    startTime: int,
    endTime: int,
    existsField: Option<bool>,
    slot5: bool)

  /** Everything read for one phase index: its record, and the allowlist flag and Merkle root
      (consulted only for a phase that exists). */
  datatype PhaseRead = PhaseRead(record: PhaseRecord, allowlist: bool, root: string)

  /** `phase.exists ?? phase[5]`: `??` falls back only when the named field is absent. */
  predicate PhaseExists(rec: PhaseRecord)
  {
    match rec.existsField
    case Some(b) => b
    case None => rec.slot5
  }

  /** The phase built for index `index` from its reads. */
  function ToPhase(index: nat, read: PhaseRead): Phase
  {
    Phase(index, read.record.name, read.record.price, read.record.maxPerWallet,
          read.record.startTime, read.record.endTime, read.allowlist, read.root)
  }

  /** `items.filter(Boolean)` over the first `n` indices: phases that do not exist are dropped. */
  function KeptPhases(table: seq<PhaseRead>, n: nat): seq<Phase>
    requires n <= |table|
  {
    if n == 0 then []
    else
      var rest := KeptPhases(table, n - 1);
      if PhaseExists(table[n - 1].record) then rest + [ToPhase(n - 1, table[n - 1])] else rest
  }

  /** The phase list a successful phase read produces. */
  function PhasesFromReads(table: seq<PhaseRead>): seq<Phase>
  {
    KeptPhases(table, |table|)
  }

  /** Every kept phase comes from an existing index below `n`, built from that index's table. */
  lemma {:induction false} KeptPhasesSound(table: seq<PhaseRead>, n: nat)
    requires n <= |table|
    ensures forall k :: 0 <= k < |KeptPhases(table, n)| ==>
              var p := KeptPhases(table, n)[k];
              p.id < n && PhaseExists(table[p.id].record) && p == ToPhase(p.id, table[p.id])
  {
    if n > 0 {
      KeptPhasesSound(table, n - 1);
    }
  }

  /** Kept phases keep index order: their ids strictly increase. */
  lemma {:induction false} KeptPhasesOrdered(table: seq<PhaseRead>, n: nat)
    requires n <= |table|
    ensures forall k, l :: 0 <= k < l < |KeptPhases(table, n)| ==>
              KeptPhases(table, n)[k].id < KeptPhases(table, n)[l].id
  {
    if n > 0 {
      KeptPhasesOrdered(table, n - 1);
      KeptPhasesSound(table, n - 1);
    }
  }

  /** No existing phase is lost. */
  lemma {:induction false} KeptPhasesComplete(table: seq<PhaseRead>, n: nat, i: nat)
    requires i < n <= |table|
    requires PhaseExists(table[i].record)
    ensures exists k :: 0 <= k < |KeptPhases(table, n)| && KeptPhases(table, n)[k] == ToPhase(i, table[i])
  {
    var kept := KeptPhases(table, n);
    if i == n - 1 {
      assert kept[|kept| - 1] == ToPhase(i, table[i]);
    } else {
      KeptPhasesComplete(table, n - 1, i);
      var k :| 0 <= k < |KeptPhases(table, n - 1)| && KeptPhases(table, n - 1)[k] == ToPhase(i, table[i]);
      assert kept[k] == ToPhase(i, table[i]);
    }
  }

  /** Index of the first phase on which `isLive` holds (`phases.find`). */
  function FirstLive(phases: seq<Phase>, isLive: Phase -> bool): Option<nat>
  {
    if phases == [] then None
    else if isLive(phases[0]) then Some(0)
    else match FirstLive(phases[1..], isLive)
         case None => None
         case Some(i) => Some(i + 1)
  }

  lemma {:induction false} FirstLiveSpec(phases: seq<Phase>, isLive: Phase -> bool)
    ensures FirstLive(phases, isLive).None? <==> forall i :: 0 <= i < |phases| ==> !isLive(phases[i])
    ensures FirstLive(phases, isLive).Some? ==>
              var i := FirstLive(phases, isLive).value;
              i < |phases| && isLive(phases[i]) && forall j :: 0 <= j < i ==> !isLive(phases[j])
  {
    if phases != [] && !isLive(phases[0]) {
      FirstLiveSpec(phases[1..], isLive);
      assert forall i :: 1 <= i < |phases| ==> phases[i] == phases[1..][i - 1];
    }
  }

  /** `phases.find(p => getPhaseStatus(p) === "live") || phases[0]`; `getPhaseStatus` is the
      uninterpreted `isLive`. */
  function ActivePhase(phases: seq<Phase>, isLive: Phase -> bool): Option<Phase>
  {
    match FirstLive(phases, isLive)
    case Some(i) => if i < |phases| then Some(phases[i]) else None
    case None => if phases == [] then None else Some(phases[0])
  }

  /** The active phase is the first live one, else the first one, and absent only for an empty list. */
  lemma ActivePhaseSpec(phases: seq<Phase>, isLive: Phase -> bool)
    ensures ActivePhase(phases, isLive).None? <==> phases == []
    ensures (exists i :: 0 <= i < |phases| && isLive(phases[i])) ==>
              exists i :: 0 <= i < |phases| && ActivePhase(phases, isLive) == Some(phases[i]) &&
                isLive(phases[i]) && forall j :: 0 <= j < i ==> !isLive(phases[j])
    ensures (forall i :: 0 <= i < |phases| ==> !isLive(phases[i])) && phases != [] ==>
              ActivePhase(phases, isLive) == Some(phases[0])
  {
    FirstLiveSpec(phases, isLive);
  }

  /** `phaseLive`: the active phase exists and is live. */
  predicate PhaseLive(active: Option<Phase>, isLive: Phase -> bool)
  {
    active.Some? && isLive(active.value)
  }

  /** The displayed phase is live exactly when some phase in the list is live. */
  lemma PhaseLiveIffSomeLive(phases: seq<Phase>, isLive: Phase -> bool)
    ensures PhaseLive(ActivePhase(phases, isLive), isLive) <==> exists i :: 0 <= i < |phases| && isLive(phases[i])
  {
    FirstLiveSpec(phases, isLive);
  }
}
