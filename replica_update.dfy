/** The replica-update stage handlers of the sealing state machine. Each handler looks at a sector
    record, checks what earlier stages must have produced, calls the sealer at most once, and
    then either emits one event, returns an error, does nothing (the sector stays where it is and
    is retried), or aborts the process (the source's `panic` on a sealer failure). The piece
    check and the sealer are collaborators: the piece check's verdict is an input, and the sealer
    is a set of functions from the call's arguments to its result. */
module StorageSealing {
  import opened Primitives

  /** A content identifier. */
  type Cid = string

  /** What the replica-update computation produces: the new sealed and unsealed CIDs. */
  datatype ReplicaUpdateOut = ReplicaUpdateOut(newSealed: Cid, newUnsealed: Cid)

  /** Vanilla proofs from the first proving stage, one byte string per partition. */
  type ReplicaVanillaProofs = seq<seq<byte>>

  /** The final replica-update proof. */
  type ReplicaUpdateProof = seq<byte>

  datatype PieceInfo = PieceInfo(size: uint64, pieceCid: Cid)

  type ActorId = uint64

  /** A sector as the sealer knows it: miner, number and proof type. */
  datatype SectorRef = SectorRef(miner: ActorId, number: uint64, proofType: nat)

  /** The parts of a sector's record the handlers read. `None` is Go's nil. */
  datatype SectorInfo = SectorInfo(
    sectorNumber: uint64,
    sectorType: nat,
    pieces: seq<PieceInfo>,
    commR: Option<Cid>,
    replicaUpdateOut: Option<ReplicaUpdateOut>,
    proveReplicaUpdate1Out: Option<ReplicaVanillaProofs>)

  /** The verdict of `checkPieces`: success or one of its error types. */
  datatype PieceCheck =
    | PiecesOk
    | ErrApi(cause: string)
    | ErrInvalidDeals(cause: string)
    | ErrExpiredDeals(cause: string)
    | OtherCheckError(cause: string)

  datatype SealerResult<T> = Done(value: T) | SealerFailed(reason: string)

  /** The three sealer operations the handlers use. */
  datatype Sealer = Sealer(
    replicaUpdate: (SectorRef, seq<PieceInfo>) -> SealerResult<ReplicaUpdateOut>,
    proveReplicaUpdate1: (SectorRef, Cid, Cid, Cid) -> SealerResult<ReplicaVanillaProofs>,
    proveReplicaUpdate2: (SectorRef, Cid, Cid, Cid, ReplicaVanillaProofs) -> SealerResult<ReplicaUpdateProof>)

  /** The receiver of the handlers: the miner's address and its sealer. */
  datatype Sealing = Sealing(maddr: ActorId, sealer: Sealer)

  /** Where the sealing pipeline goes back to after invalid deals. */
  datatype ReturnState = RetPreCommit1

  /** The errors a handler returns or carries in an event. */
  datatype HandlerError =
    | CheckPiecesSanity(cause: string)
    | ExpiredDealIDs(cause: string)
    | NilReplicaUpdateOut(sector: uint64)
    | NilCommR(sector: uint64)
    | NilProveReplicaUpdate1Out(sector: uint64)

  /** The events the handlers send to the state machine. */
  datatype Event =
    | SectorInvalidDealIDs(ret: ReturnState)
    | SectorDealsExpired(returnErr: HandlerError)
    | SectorReplicaUpdate(out: ReplicaUpdateOut)
    | SectorProveReplicaUpdate1(vanillaProofs: ReplicaVanillaProofs)
    | SectorProveReplicaUpdate2(proof: ReplicaUpdateProof)

  /** What a handler does: send one event, return an error, return nil without an event, or
      panic. */
  datatype Outcome = Send(event: Event) | Err(error: HandlerError) | NoTransition | Abort(message: string)

  /** The sealer call a handler made, with its arguments. */
  datatype SealerCall =
    | CallReplicaUpdate(sector: SectorRef, pieces: seq<PieceInfo>)
    | CallProveReplicaUpdate1(sector: SectorRef, commR: Cid, newSealed: Cid, newUnsealed: Cid)
    | CallProveReplicaUpdate2(sector: SectorRef, commR: Cid, newSealed: Cid, newUnsealed: Cid,
                              vanillaProofs: ReplicaVanillaProofs)

  /** One run of a handler: the sealer call it made, if any, and its outcome. */
  datatype Step = Step(call: Option<SealerCall>, outcome: Outcome)

  /** `m.minerSector(spt, num)`: the sealer's reference to a sector of this miner. */
  function MinerSector(m: Sealing, proofType: nat, number: uint64): SectorRef
  {
    SectorRef(m.maddr, number, proofType)
  }

  /** `handleReplicaUpdate`: the piece check comes first. An API error leaves the sector where it
      is (retry), invalid deals send it back to pre-commit 1, expired deals are reported with the
      error, and any other error is returned; none of these calls the sealer. Only after a
      passing check is the sealer called, with the sector and its pieces; its output goes into
      the `SectorReplicaUpdate` event unchanged, and its failure aborts. */
  function HandleReplicaUpdate(m: Sealing, sector: SectorInfo, check: PieceCheck): (s: Step)
    ensures s.call.Some? <==> check.PiecesOk?
    ensures s.call.Some? ==>
              s.call.value == CallReplicaUpdate(MinerSector(m, sector.sectorType, sector.sectorNumber), sector.pieces)
    ensures s.outcome.NoTransition? <==> check.ErrApi?
    ensures s.outcome == Send(SectorInvalidDealIDs(RetPreCommit1)) <==> check.ErrInvalidDeals?
    ensures (s.outcome.Send? && s.outcome.event.SectorDealsExpired?) <==> check.ErrExpiredDeals?
    ensures check.ErrExpiredDeals? ==> s.outcome == Send(SectorDealsExpired(ExpiredDealIDs(check.cause)))
    ensures s.outcome.Err? <==> check.OtherCheckError?
    ensures check.OtherCheckError? ==> s.outcome == Err(CheckPiecesSanity(check.cause))
    ensures s.outcome.Abort? <==> s.call.Some? && m.sealer.replicaUpdate(s.call.value.sector, s.call.value.pieces).SealerFailed?
    ensures s.outcome.Send? && s.outcome.event.SectorReplicaUpdate? ==>
              s.call.Some? && m.sealer.replicaUpdate(s.call.value.sector, s.call.value.pieces) == Done(s.outcome.event.out)
    ensures s.call.Some? && m.sealer.replicaUpdate(s.call.value.sector, s.call.value.pieces).Done? ==>
              s.outcome == Send(SectorReplicaUpdate(m.sealer.replicaUpdate(s.call.value.sector, s.call.value.pieces).value))
  {
    match check
    case ErrApi(_) => Step(None, NoTransition)
    case ErrInvalidDeals(_) => Step(None, Send(SectorInvalidDealIDs(RetPreCommit1)))
    case ErrExpiredDeals(cause) => Step(None, Send(SectorDealsExpired(ExpiredDealIDs(cause))))
    case OtherCheckError(cause) => Step(None, Err(CheckPiecesSanity(cause)))
    case PiecesOk =>
      var ref := MinerSector(m, sector.sectorType, sector.sectorNumber);
      var call := CallReplicaUpdate(ref, sector.pieces);
      match m.sealer.replicaUpdate(ref, sector.pieces)
      case SealerFailed(_) => Step(Some(call), Abort("bad replica update"))
      case Done(out) => Step(Some(call), Send(SectorReplicaUpdate(out)))
  }

  /** `handleProveReplicaUpdate1`: a nil replica-update output is reported first, then a nil
      CommR; either way there is no sealer call and no event. Otherwise the sealer gets CommR and
      the new sealed and unsealed CIDs from the record, and its vanilla proofs go into the
      `SectorProveReplicaUpdate1` event; its failure aborts. */
  function HandleProveReplicaUpdate1(m: Sealing, sector: SectorInfo): (s: Step)
    ensures s.call.Some? <==> sector.replicaUpdateOut.Some? && sector.commR.Some?
    ensures sector.replicaUpdateOut.None? ==> s == Step(None, Err(NilReplicaUpdateOut(sector.sectorNumber)))
    ensures sector.replicaUpdateOut.Some? && sector.commR.None? ==> s == Step(None, Err(NilCommR(sector.sectorNumber)))
    ensures s.call.Some? ==>
              s.call.value == CallProveReplicaUpdate1(MinerSector(m, sector.sectorType, sector.sectorNumber),
                                                      sector.commR.value,
                                                      sector.replicaUpdateOut.value.newSealed,
                                                      sector.replicaUpdateOut.value.newUnsealed)
    ensures s.call.Some? ==>
              var c := s.call.value;
              match m.sealer.proveReplicaUpdate1(c.sector, c.commR, c.newSealed, c.newUnsealed)
              case Done(proofs) => s.outcome == Send(SectorProveReplicaUpdate1(proofs))
              case SealerFailed(_) => s.outcome.Abort?
  {
    if sector.replicaUpdateOut.None? then Step(None, Err(NilReplicaUpdateOut(sector.sectorNumber)))
    else
      var newSealed, newUnsealed := sector.replicaUpdateOut.value.newSealed, sector.replicaUpdateOut.value.newUnsealed;
      if sector.commR.None? then Step(None, Err(NilCommR(sector.sectorNumber)))
      else
        var ref := MinerSector(m, sector.sectorType, sector.sectorNumber);
        var call := CallProveReplicaUpdate1(ref, sector.commR.value, newSealed, newUnsealed);
        match m.sealer.proveReplicaUpdate1(ref, sector.commR.value, newSealed, newUnsealed)
        case SealerFailed(_) => Step(Some(call), Abort("bad prove replica update 1"))
        case Done(vanillaProofs) => Step(Some(call), Send(SectorProveReplicaUpdate1(vanillaProofs)))
  }

  /** `handleProveReplicaUpdate2`: checks the replica-update output, then CommR, then the vanilla
      proofs, reporting the first one that is nil with no sealer call and no event. Otherwise the
      sealer gets CommR, the new CIDs and the vanilla proofs from the record, and its proof goes
      into the `SectorProveReplicaUpdate2` event; its failure aborts. */
  function HandleProveReplicaUpdate2(m: Sealing, sector: SectorInfo): (s: Step)
    ensures s.call.Some? <==>
              sector.replicaUpdateOut.Some? && sector.commR.Some? && sector.proveReplicaUpdate1Out.Some?
    ensures sector.replicaUpdateOut.None? ==> s == Step(None, Err(NilReplicaUpdateOut(sector.sectorNumber)))
    ensures sector.replicaUpdateOut.Some? && sector.commR.None? ==> s == Step(None, Err(NilCommR(sector.sectorNumber)))
    ensures sector.replicaUpdateOut.Some? && sector.commR.Some? && sector.proveReplicaUpdate1Out.None? ==>
              s == Step(None, Err(NilProveReplicaUpdate1Out(sector.sectorNumber)))
    ensures s.call.Some? ==>
              s.call.value == CallProveReplicaUpdate2(MinerSector(m, sector.sectorType, sector.sectorNumber),
                                                      sector.commR.value,
                                                      sector.replicaUpdateOut.value.newSealed,
                                                      sector.replicaUpdateOut.value.newUnsealed,
                                                      sector.proveReplicaUpdate1Out.value)
    ensures s.call.Some? ==>
              var c := s.call.value;
              match m.sealer.proveReplicaUpdate2(c.sector, c.commR, c.newSealed, c.newUnsealed, c.vanillaProofs)
              case Done(proof) => s.outcome == Send(SectorProveReplicaUpdate2(proof))
              case SealerFailed(_) => s.outcome.Abort?
  {
    if sector.replicaUpdateOut.None? then Step(None, Err(NilReplicaUpdateOut(sector.sectorNumber)))
    else
      var newSealed, newUnsealed := sector.replicaUpdateOut.value.newSealed, sector.replicaUpdateOut.value.newUnsealed;
      if sector.commR.None? then Step(None, Err(NilCommR(sector.sectorNumber)))
      else if sector.proveReplicaUpdate1Out.None? then Step(None, Err(NilProveReplicaUpdate1Out(sector.sectorNumber)))
      else
        var ref := MinerSector(m, sector.sectorType, sector.sectorNumber);
        var vanilla := sector.proveReplicaUpdate1Out.value;
        var call := CallProveReplicaUpdate2(ref, sector.commR.value, newSealed, newUnsealed, vanilla);
        match m.sealer.proveReplicaUpdate2(ref, sector.commR.value, newSealed, newUnsealed, vanilla)
        case SealerFailed(_) => Step(Some(call), Abort("bad prove replica update 2"))
        case Done(proof) => Step(Some(call), Send(SectorProveReplicaUpdate2(proof)))
  }

  /** `handleSubmitReplicaUpdate`: returns nil, sends nothing and calls nothing. */
  function HandleSubmitReplicaUpdate(m: Sealing, sector: SectorInfo): (s: Step)
    ensures s.call.None? && s.outcome.NoTransition?
  {
    Step(None, NoTransition)
  }

  /** A handler that makes no sealer call behaves the same whatever the sealer would have done:
      the `call` it reports is honest about the sealer not being consulted. */
  lemma NoCallIgnoresSealer(m1: Sealing, m2: Sealing, sector: SectorInfo, check: PieceCheck)
    requires m1.maddr == m2.maddr
    ensures HandleReplicaUpdate(m1, sector, check).call.None? ==>
              HandleReplicaUpdate(m1, sector, check) == HandleReplicaUpdate(m2, sector, check)
    ensures HandleProveReplicaUpdate1(m1, sector).call.None? ==>
              HandleProveReplicaUpdate1(m1, sector) == HandleProveReplicaUpdate1(m2, sector)
    ensures HandleProveReplicaUpdate2(m1, sector).call.None? ==>
              HandleProveReplicaUpdate2(m1, sector) == HandleProveReplicaUpdate2(m2, sector)
  {
  }

  /** Each stage's output reaches the next stage's sealer call. If the record that stage 1 ran on
      holds CommR and the `SectorReplicaUpdate` output is recorded, stage 2 passes exactly those
      CIDs to the sealer; if the vanilla proofs of `SectorProveReplicaUpdate1` are recorded as
      well, stage 3 passes CommR, those CIDs and those proofs. */
  lemma StageOutputsFlowForward(m: Sealing, sector: SectorInfo, check: PieceCheck)
    requires sector.commR.Some?
    requires HandleReplicaUpdate(m, sector, check).outcome.Send?
    requires HandleReplicaUpdate(m, sector, check).outcome.event.SectorReplicaUpdate?
    ensures
      var out := HandleReplicaUpdate(m, sector, check).outcome.event.out;
      var ref := MinerSector(m, sector.sectorType, sector.sectorNumber);
      var stage2 := sector.(replicaUpdateOut := Some(out));
      && HandleProveReplicaUpdate1(m, stage2).call
           == Some(CallProveReplicaUpdate1(ref, sector.commR.value, out.newSealed, out.newUnsealed))
      && (HandleProveReplicaUpdate1(m, stage2).outcome.Send? ==>
            var vanilla := HandleProveReplicaUpdate1(m, stage2).outcome.event.vanillaProofs;
            HandleProveReplicaUpdate2(m, stage2.(proveReplicaUpdate1Out := Some(vanilla))).call
              == Some(CallProveReplicaUpdate2(ref, sector.commR.value, out.newSealed, out.newUnsealed, vanilla)))
  {
  }

  /** A sector with passing pieces and no CommR: stage 1 records the sealer's CIDs, and stage 2
      on the updated record then fails with a nil-CommR error without calling the sealer. */
  lemma MissingCommRStopsStage2(m: Sealing, sector: SectorInfo, out: ReplicaUpdateOut)
    requires sector.commR.None?
    requires m.sealer.replicaUpdate(MinerSector(m, sector.sectorType, sector.sectorNumber), sector.pieces) == Done(out)
    ensures HandleReplicaUpdate(m, sector, PiecesOk).outcome == Send(SectorReplicaUpdate(out))
    ensures HandleProveReplicaUpdate1(m, sector.(replicaUpdateOut := Some(out)))
              == Step(None, Err(NilCommR(sector.sectorNumber)))
  {
  }
}
