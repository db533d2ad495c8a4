/** The mint page's state slots (the `useState` hooks of `Home`) and the operations that
    overwrite them: the snapshot refresh, the minter refresh, the phase refresh, the eligibility
    check, the mint action and the quantity stepper. Every chain read is an input. */
module Page {
  import opened Outcomes
  import opened Phases
  import opened Allowlist
  import opened View
  import opened MintAction
  import opened Minters

  /** The sale snapshot read in one batch by `refresh`, as the nine setters store it
      (`Boolean(isRevealed)`, `hiddenUri || ""`). Prices stay in wei. */
  datatype Snapshot = Snapshot(
    mintPriceWei: int,
    totalSupply: int,
    maxSupply: int,
    maxMintPerWallet: int,
    launchpadFeeWei: int,
    paused: bool,
    transfersLocked: bool,
    revealed: bool,
    notRevealedUri: string)

  const InitialSnapshot: Snapshot := Snapshot(0, 0, 0, 0, 0, false, false, false, "")
  const LoadFailed: string := "Failed to load"

  /** The snapshot after `refresh`: the batch replaces all nine fields, or none of them. */
  function SnapshotAfter(before: Snapshot, read: Outcome<Snapshot>): Snapshot
  {
    if read.Ok? then read.value else before
  }

  /** The status writes of `refresh`: only a failed batch writes the status. */
  function RefreshWrites(read: Outcome<Snapshot>): seq<TxStatus>
  {
    if read.Ok? then [] else [TxStatus(Error, OrElse(read.error.message, LoadFailed))]
  }

  /** A failed batch keeps every snapshot field and reports an error; a good one leaves the
      status alone. */
  lemma RefreshFailurePolicy(before: Snapshot, read: Outcome<Snapshot>)
    ensures read.Throw? ==>
              SnapshotAfter(before, read) == before &&
              |RefreshWrites(read)| == 1 && RefreshWrites(read)[0].kind == Error && RefreshWrites(read)[0].message != ""
    ensures read.Ok? ==> SnapshotAfter(before, read) == read.value && RefreshWrites(read) == []
  {
  }

  /** After a confirmed mint the status shows "Mint successful" only if the refresh that follows
      succeeds; a failed refresh replaces it with its own error. */
  lemma StatusAfterConfirmedMint(connected: bool, address: string, chain: Option<int>, target: int, network: string,
                                 quantity: int, r: MintReads, read: Outcome<Snapshot>)
    requires RunMint(connected, address, chain, target, network, quantity, r).confirmed
    ensures var writes := RunMint(connected, address, chain, target, network, quantity, r).writes + RefreshWrites(read);
            |writes| > 0 &&
            Last(writes) == (if read.Ok? then TxStatus(Success, MintSucceeded)
                             else TxStatus(Error, OrElse(read.error.message, LoadFailed)))
  {
    MintFinalStatus(connected, address, chain, target, network, quantity, r);
  }

  /** The phase list after `refreshPhases`: a failed read clears it. */
  function PhasesAfter(read: Outcome<seq<PhaseRead>>): seq<Phase>
  {
    if read.Ok? then PhasesFromReads(read.value) else []
  }

  const DisabledNotice: string := "Minter list is disabled to reduce RPC load."
  const RecentBlocksNotice: string := "Using recent blocks only. Set NEXT_PUBLIC_DEPLOY_BLOCK for full mint history."
  const MintersFailed: string := "Failed to load minters"
  const EventsFailed: string := "Failed to load mint events"

  /** The minter feature's configuration: `ENABLE_MINTERS`, the lookback and the deploy block. */
  datatype MinterConfig = MinterConfig(enabled: bool, lookback: EnvNumber, deployBlock: EnvNumber)

  /** What `refreshMinters` awaits: the supply read, the latest block number and the log query.
      A `Throw` in `supply` also stands for `getReadContract` throwing (same outer handler), and
      one in `latestBlock` for the filter or provider lookup throwing (same inner handler). */
  datatype MinterReads = MinterReads(
    supply: Outcome<int>,
    latestBlock: Outcome<nat>,
    query: BlockRange -> Outcome<seq<TransferEvent>>)

  /** The three minter slots: the list, the error text and the notice. */
  datatype MintersView = MintersView(minters: seq<MinterEntry>, error: string, notice: string)

  /** The minter slots after `refreshMinters`, given the list shown before it. */
  function MintersAfter(cfg: MinterConfig, r: MinterReads, before: seq<MinterEntry>): MintersView
  {
    if !cfg.enabled then MintersView([], "", DisabledNotice)
    else match r.supply
      case Throw(e) => MintersView(before, OrElse(e.message, MintersFailed), "")
      case Ok(supply) =>
        if supply == 0 then MintersView([], "", "")
        else match r.latestBlock
          case Throw(e) => MintersView([], OrElse(e.message, EventsFailed), "")
          case Ok(latest) =>
            var notice := if IsPositive(cfg.deployBlock) then "" else RecentBlocksNotice;
            var from := FromBlock(latest, cfg.lookback, cfg.deployBlock);
            match CollectChunks(Chunks(from, latest), r.query)
            case Throw(e) => MintersView([], OrElse(e.message, EventsFailed), notice)
            case Ok(events) => MintersView(RankedMinters(events), "", notice)
  }

  /** The early exits: with the feature off the list is emptied and a notice shown; with zero
      supply the list is emptied and neither the block number nor the logs are consulted. */
  lemma MintersEarlyExits(cfg: MinterConfig, r: MinterReads, r2: MinterReads, before: seq<MinterEntry>)
    ensures !cfg.enabled ==> MintersAfter(cfg, r, before) == MintersView([], "", DisabledNotice)
    ensures cfg.enabled && r.supply == Ok(0) && r2.supply == Ok(0) ==>
              MintersAfter(cfg, r, before) == MintersView([], "", "") &&
              MintersAfter(cfg, r2, before) == MintersAfter(cfg, r, before)
  {
  }

  /** An error is shown exactly when a read failed. A failed supply read keeps the old list and
      shows its message or "Failed to load minters"; a failed block-number or log read empties it
      and shows its message or "Failed to load mint events". Once the block number is known, the
      recent-blocks notice is shown exactly when no deploy block is configured. */
  lemma MintersFailurePolicy(cfg: MinterConfig, r: MinterReads, before: seq<MinterEntry>)
    ensures var v := MintersAfter(cfg, r, before);
            cfg.enabled && r.supply.Throw? ==>
              v.minters == before && v.error == OrElse(r.supply.error.message, MintersFailed) && v.error != ""
    ensures var v := MintersAfter(cfg, r, before);
            v.error != "" && !r.supply.Throw? ==> v.minters == []
    ensures var v := MintersAfter(cfg, r, before);
            v.error == "" <==>
              (!cfg.enabled || r.supply == Ok(0) ||
               (r.supply.Ok? && r.latestBlock.Ok? &&
                CollectChunks(Chunks(FromBlock(r.latestBlock.value, cfg.lookback, cfg.deployBlock), r.latestBlock.value), r.query).Ok?))
    ensures cfg.enabled && r.supply.Ok? && r.supply.value != 0 && r.latestBlock.Throw? ==>
              MintersAfter(cfg, r, before) == MintersView([], OrElse(r.latestBlock.error.message, EventsFailed), "")
    ensures cfg.enabled && r.supply.Ok? && r.supply.value != 0 && r.latestBlock.Ok? ==>
              var scan := CollectChunks(Chunks(FromBlock(r.latestBlock.value, cfg.lookback, cfg.deployBlock), r.latestBlock.value), r.query);
              (scan.Throw? ==> MintersAfter(cfg, r, before).minters == [] &&
                               MintersAfter(cfg, r, before).error == OrElse(scan.error.message, EventsFailed)) &&
              MintersAfter(cfg, r, before).notice == (if IsPositive(cfg.deployBlock) then "" else RecentBlocksNotice)
  {
  }

  /** After a successful scan the list is the ranking of the scanned events. */
  lemma MintersFromScan(cfg: MinterConfig, r: MinterReads, before: seq<MinterEntry>, events: seq<TransferEvent>)
    requires cfg.enabled && r.supply.Ok? && r.supply.value != 0 && r.latestBlock.Ok?
    requires CollectChunks(Chunks(FromBlock(r.latestBlock.value, cfg.lookback, cfg.deployBlock), r.latestBlock.value), r.query) == Ok(events)
    ensures MintersAfter(cfg, r, before).minters == RankedMinters(events)
    ensures NonIncreasing(MintersAfter(cfg, r, before).minters)
  {
    RankedMintersSpec(events);
  }

  /** The page component. */
  class Home {
    var snapshot: Snapshot
    var status: TxStatus
    /** Every status written, oldest first (the single slot shows only the last). */
    ghost var statusTrail: seq<TxStatus>
    var minters: seq<MinterEntry>
    var mintersLoading: bool
    var mintersError: string
    var mintersNotice: string
    var phases: seq<Phase>
    var allowlistEligible: Option<bool>
    var quantity: int
    /** Every `publicMint` call made, oldest first. */
    ghost var mintCalls: seq<MintCall>

    ghost predicate Valid()
      reads this
    {
      quantity >= 1 &&
      status == (if statusTrail == [] then TxStatus(Idle, "") else Last(statusTrail))
    }

    /** The initial `useState` values. */
    constructor ()
      ensures Valid()
      ensures snapshot == InitialSnapshot && status == TxStatus(Idle, "") && statusTrail == []
      ensures minters == [] && !mintersLoading && mintersError == "" && mintersNotice == ""
      ensures phases == [] && allowlistEligible == None && quantity == 1 && mintCalls == []
    {
      snapshot := InitialSnapshot;
      status := TxStatus(Idle, "");
      statusTrail := [];
      minters := [];
      mintersLoading := false;
      mintersError := "";
      mintersNotice := "";
      phases := [];
      allowlistEligible := None;
      quantity := 1;
      mintCalls := [];
    }

    /** `setStatus`: overwrite the single status slot. */
    method SetStatus(s: TxStatus)
      requires Valid()
      modifies this`status, this`statusTrail
      ensures Valid()
      ensures status == s && statusTrail == old(statusTrail) + [s]
    {
      status := s;
      statusTrail := statusTrail + [s];
    }

    /** `refresh`: the nine-field batch read. */
    method Refresh(read: Outcome<Snapshot>)
      requires Valid()
      modifies this`snapshot, this`status, this`statusTrail
      ensures Valid()
      ensures snapshot == SnapshotAfter(old(snapshot), read)
      ensures statusTrail == old(statusTrail) + RefreshWrites(read)
    {
      if read.Throw? {
        SetStatus(TxStatus(Error, OrElse(read.error.message, LoadFailed)));
        return;
      }
      snapshot := read.value;
    }

    /** `refreshMinters`. */
    method RefreshMinters(cfg: MinterConfig, r: MinterReads)
      modifies this`minters, this`mintersLoading, this`mintersError, this`mintersNotice
      ensures MintersView(minters, mintersError, mintersNotice) == MintersAfter(cfg, r, old(minters))
      ensures !mintersLoading
    {
      mintersLoading := true;
      mintersError := "";
      mintersNotice := "";
      if !cfg.enabled {
        minters := [];
        mintersNotice := DisabledNotice;
        mintersLoading := false;
        return;
      }
      if r.supply.Throw? {
        mintersError := OrElse(r.supply.error.message, MintersFailed);
        mintersLoading := false;
        return;
      }
      if r.supply.value == 0 {
        minters := [];
        mintersLoading := false;
        return;
      }
      if r.latestBlock.Throw? {
        minters := [];
        mintersError := OrElse(r.latestBlock.error.message, EventsFailed);
        mintersLoading := false;
        return;
      }
      var latest := r.latestBlock.value;
      var from := FromBlock(latest, cfg.lookback, cfg.deployBlock);
      if !IsPositive(cfg.deployBlock) {
        mintersNotice := RecentBlocksNotice;
      }
      var scanned := ScanMintEvents(from, latest, r.query);
      if scanned.Throw? {
        minters := [];
        mintersError := OrElse(scanned.error.message, EventsFailed);
        mintersLoading := false;
        return;
      }
      var events := scanned.value;
      var counts, order := CountMints(events);
      var list := seq(|order|, k requires 0 <= k < |order| => MinterEntry(order[k], counts[order[k]]));
      assert list == Tally(events);
      var entries := new MinterEntry[|list|](k requires 0 <= k < |list| => list[k]);
      assert entries[..] == list;
      SortInPlace(entries);
      minters := entries[..];
      mintersLoading := false;
    }

    /** `refreshPhases`: the phase list after reading the phase table. */
    method RefreshPhases(read: Outcome<seq<PhaseRead>>)
      modifies this`phases
      ensures phases == PhasesAfter(read)
    {
      if read.Throw? {
        phases := [];
        return;
      }
      phases := PhasesFromReads(read.value);
    }

    /** The mount effect: a first refresh of every slot. */
    method Mount(snapshotRead: Outcome<Snapshot>, cfg: MinterConfig, minterReads: MinterReads, phaseRead: Outcome<seq<PhaseRead>>)
      requires Valid()
      modifies this`snapshot, this`status, this`statusTrail, this`minters, this`mintersLoading,
               this`mintersError, this`mintersNotice, this`phases
      ensures Valid()
      ensures snapshot == SnapshotAfter(old(snapshot), snapshotRead)
      ensures statusTrail == old(statusTrail) + RefreshWrites(snapshotRead)
      ensures cfg.enabled ==> MintersView(minters, mintersError, mintersNotice) == MintersAfter(cfg, minterReads, old(minters)) &&
                              !mintersLoading
      ensures !cfg.enabled ==> minters == old(minters) && mintersError == old(mintersError) &&
                               mintersNotice == DisabledNotice && mintersLoading == old(mintersLoading)
      ensures phases == PhasesAfter(phaseRead)
    {
      Refresh(snapshotRead);
      if cfg.enabled {
        RefreshMinters(cfg, minterReads);
      } else {
        mintersNotice := DisabledNotice;
      }
      RefreshPhases(phaseRead);
    }

    /** `loadEligibility` for the displayed phase. */
    method LoadEligibility(address: string, isLive: Phase -> bool, allowed: Outcome<bool>, proof: seq<string>)
      modifies this`allowlistEligible
      ensures allowlistEligible == Eligibility(address, ActivePhase(phases, isLive), allowed, proof)
    {
      var active := ActivePhase(phases, isLive);
      if address == "" || active.None? {
        allowlistEligible := None;
        return;
      }
      if !active.value.allowlistEnabled {
        allowlistEligible := Some(true);
        return;
      }
      if allowed.Throw? {
        allowlistEligible := None;
        return;
      }
      if allowed.value {
        allowlistEligible := Some(true);
        return;
      }
      if RootIsNonzero(active.value.allowlistRoot) {
        allowlistEligible := Some(|proof| > 0);
        return;
      }
      allowlistEligible := Some(false);
    }

    /** The "-" button. */
    method Decrement()
      requires Valid()
      modifies this`quantity
      ensures Valid() && quantity == StepDown(old(quantity))
    {
      quantity := StepDown(quantity);
    }

    /** The "+" button. */
    method Increment()
      requires Valid()
      modifies this`quantity
      ensures Valid() && quantity == StepUp(old(quantity))
    {
      quantity := StepUp(quantity);
    }

    /** `handleMint` up to the confirmation: the checks, the status writes and the `publicMint`
        call. Returns whether the transaction was confirmed. */
    method AttemptMint(connected: bool, address: string, chain: Option<int>, target: int, network: string,
                       r: MintReads) returns (confirmed: bool)
      requires Valid()
      modifies this`status, this`statusTrail, this`mintCalls
      ensures Valid()
      ensures var run := RunMint(connected, address, chain, target, network, quantity, r);
              mintCalls == old(mintCalls) + (if run.call.Some? then [run.call.value] else []) &&
              statusTrail == old(statusTrail) + run.writes &&
              confirmed == run.confirmed
    {
      if !IsConnected(connected, address) {
        SetStatus(TxStatus(Error, ConnectFirst));
        return false;
      }
      if !Chains.IsSupportedChain(chain, target) {
        assert RunMint(connected, address, chain, target, network, quantity, r) == Aborted([TxStatus(Error, SwitchNetwork(network))]);
        SetStatus(TxStatus(Error, SwitchNetwork(network)));
        return false;
      }
      if !Chains.IsTargetChain(chain, target) {
        assert RunMint(connected, address, chain, target, network, quantity, r) == Aborted([TxStatus(Error, SwitchNetwork(network))]);
        SetStatus(TxStatus(Error, SwitchNetwork(network)));
        return false;
      }
      SetStatus(TxStatus(Pending, AwaitingWallet));
      confirmed := SubmitMint(r);
    }

    /** The awaited steps of `handleMint` inside its `try`, after the first pending status. */
    method SubmitMint(r: MintReads) returns (confirmed: bool)
      requires Valid()
      modifies this`status, this`statusTrail, this`mintCalls
      ensures Valid()
      ensures var run := MintAfterChecks(quantity, r);
              mintCalls == old(mintCalls) + (if run.call.Some? then [run.call.value] else []) &&
              statusTrail == old(statusTrail) + run.writes &&
              confirmed == run.confirmed
    {
      confirmed := false;
      if r.writeContract.Throw? {
        SetStatus(Failed(r.writeContract.error));
        return;
      }
      if r.activePhase.Throw? {
        SetStatus(Failed(r.activePhase.error));
        return;
      }
      var active := r.activePhase.value;
      if r.fee.Throw? {
        SetStatus(Failed(r.fee.error));
        return;
      }
      var fee := r.fee.value;
      if !active.active {
        SetStatus(TxStatus(Error, NoActivePhase));
        return;
      }
      if r.allowlistEnabled.Throw? {
        SetStatus(Failed(r.allowlistEnabled.error));
        return;
      }
      var proof: seq<string> := [];
      if r.allowlistEnabled.value {
        if r.allowed.Throw? {
          SetStatus(Failed(r.allowed.error));
          return;
        }
        if !r.allowed.value {
          proof := r.proof;
          if |proof| == 0 {
            SetStatus(TxStatus(Error, NotAllowlisted));
            return;
          }
        }
      }
      assert AllowlistGate(r.allowlistEnabled.value, r.allowed, r.proof) == Pass(proof);
      var totalValue := active.price * quantity + fee * quantity;
      mintCalls := mintCalls + [MintCall(quantity, proof, totalValue)];
      if r.submit.Throw? {
        SetStatus(Failed(r.submit.error));
        return;
      }
      SetStatus(TxStatus(Pending, Submitted));
      if r.confirm.Throw? {
        SetStatus(Failed(r.confirm.error));
        return;
      }
      SetStatus(TxStatus(Success, MintSucceeded));
      confirmed := true;
    }

    /** `handleMint`: the attempt, followed on confirmation by the snapshot refresh and, with the
        feature on, the minter refresh. */
    method HandleMint(connected: bool, address: string, chain: Option<int>, target: int, network: string,
                      r: MintReads, snapshotRead: Outcome<Snapshot>, cfg: MinterConfig, minterReads: MinterReads)
      requires Valid()
      modifies this`status, this`statusTrail, this`mintCalls, this`snapshot, this`minters,
               this`mintersLoading, this`mintersError, this`mintersNotice
      ensures Valid()
      ensures var run := RunMint(connected, address, chain, target, network, quantity, r);
              mintCalls == old(mintCalls) + (if run.call.Some? then [run.call.value] else []) &&
              statusTrail == old(statusTrail) + run.writes + (if run.confirmed then RefreshWrites(snapshotRead) else []) &&
              snapshot == (if run.confirmed then SnapshotAfter(old(snapshot), snapshotRead) else old(snapshot))
      ensures var run := RunMint(connected, address, chain, target, network, quantity, r);
              if run.confirmed && cfg.enabled then
                MintersView(minters, mintersError, mintersNotice) == MintersAfter(cfg, minterReads, old(minters)) && !mintersLoading
              else
                minters == old(minters) && mintersError == old(mintersError) &&
                mintersNotice == old(mintersNotice) && mintersLoading == old(mintersLoading)
    {
      var confirmed := AttemptMint(connected, address, chain, target, network, r);
      if confirmed {
        Refresh(snapshotRead);
        if cfg.enabled {
          RefreshMinters(cfg, minterReads);
        }
      }
    }
  }
}
