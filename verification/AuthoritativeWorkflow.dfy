/** `resolveAuthoritativeWorkflow`: where a reconciliation follow-up may lead. The router
    fails closed on top of the claim linkage. */
module AuthoritativeWorkflow {
  import opened Basics
  import opened ClaimLinkage

  /** The finding codes of the detector; any other text is `Unknown`. */
  datatype FindingCode =
    | RaReturnRestrictionMissing | RaReturnRestrictionAmountMismatch | RaReturnRestrictionMultiple
    | RaReturnDoubleCollectible | RaReturnSnapshotPrincipalMismatch | RaReturnSnapshotAckMismatch
    | RaReturnCreditorMismatch | RaReturnRaMissing | InsufficientSourceLinkage | CurrencyMismatch
    | CoverageSourceMissing | Stage9CoverageMissing | Stage9CoverageAmountMismatch | CoverageWrongLoss
    | CoverageDuplicateSemantic | CoverageExceedsCompensable | SubjectMatchUnknown
    | ExceptionDuplicateActiveExposure | SuccessorReviewRequired | SuccessorBranchDetected
    | SuccessorCycleDetected
    | Unknown(text: string)

  predicate IsKnown(code: FindingCode) {
    !code.Unknown?
  }

  const ENGINEERING_ONLY_CODES: set<FindingCode> := {
    RaReturnRestrictionAmountMismatch, RaReturnRestrictionMultiple, RaReturnSnapshotPrincipalMismatch,
    RaReturnSnapshotAckMismatch, RaReturnCreditorMismatch, RaReturnRaMissing, InsufficientSourceLinkage,
    CurrencyMismatch, CoverageSourceMissing, CoverageDuplicateSemantic, CoverageExceedsCompensable,
    SuccessorBranchDetected, SuccessorCycleDetected
  }

  datatype Kind =
    | Stale | Inactive | Unsupported | Engineering
    | Stage12Claim | Stage9ReturnFinancial | WaitingOnParty | ReviewOnly

  datatype Destination =
    | ToStage12Claim(claimId: string, expectedWkOrderId: int)
    | ToStage9ReturnFinancial(wkOrderId: int)
    | ToStage13aObligation(obligationId: string, orderId: int)

  datatype BlockedReason =
    | UnsupportedFinding | OrderMismatch | RefreshRequired | NoLongerActive | EngineeringReview
    | NoLinkedClaim | ConflictingLinkage | SeveralClaimsMatch

  datatype View = View(
    kind: Kind, destination: Option<Destination>, blocked: bool, blockedReason: Option<BlockedReason>)

  datatype Finding = Finding(findingKey: string, code: FindingCode, involvedItems: seq<InvolvedItem>)

  datatype Review = Review(
    findingKey: string, findingCode: FindingCode, wkOrderId: int, needsRefresh: bool, stale: bool)

  datatype LiveReconciliation = LiveReconciliation(wkOrderId: int, findings: seq<Finding>, items: seq<ObligationItem>)

  datatype Domain = Domain(stage9ReturnFinancialStatus: Option<string>, claims: seq<ExceptionClaim>)

  function Blocked(kind: Kind, reason: BlockedReason): View {
    View(kind, None, true, Some(reason))
  }

  function Open(kind: Kind, destination: Destination): View {
    View(kind, Some(destination), false, None)
  }

  function EngineeringView(): View {
    Blocked(Engineering, EngineeringReview)
  }

  function Stage12FromLinkage(linkage: Linkage, wkOrderId: int, kind: Kind): View {
    match linkage
    case NoLink => Blocked(kind, NoLinkedClaim)
    case Conflict => Blocked(kind, ConflictingLinkage)
    case Many(_) => Blocked(kind, SeveralClaimsMatch)
    case One(claimId) => Open(kind, ToStage12Claim(claimId, wkOrderId))
  }

  function KeyOf(finding: Finding): string {
    finding.findingKey
  }

  function LinkageQuery(review: Review, finding: Finding, live: LiveReconciliation, domain: Domain): Query {
    Query(review.wkOrderId, finding.involvedItems, live.items, domain.claims)
  }

  /** The `switch` on the live finding's code. */
  function RouteCode(code: FindingCode, linkage: Linkage, wkOrderId: int, stage9Status: Option<string>): View {
    match code
    case RaReturnRestrictionAmountMismatch | RaReturnRestrictionMultiple | RaReturnSnapshotPrincipalMismatch
      | RaReturnSnapshotAckMismatch | RaReturnCreditorMismatch | RaReturnRaMissing | InsufficientSourceLinkage
      | CurrencyMismatch | CoverageSourceMissing | CoverageDuplicateSemantic | CoverageExceedsCompensable =>
      EngineeringView()
    case SuccessorBranchDetected => EngineeringView()
    case SuccessorCycleDetected => EngineeringView()
    case RaReturnRestrictionMissing =>
      if stage9Status == Some("FINALIZED") then EngineeringView()
      else Open(Stage9ReturnFinancial, ToStage9ReturnFinancial(wkOrderId))
    case RaReturnDoubleCollectible => Open(WaitingOnParty, ToStage9ReturnFinancial(wkOrderId))
    case Stage9CoverageMissing => Stage12FromLinkage(linkage, wkOrderId, Stage12Claim)
    case Stage9CoverageAmountMismatch | CoverageWrongLoss => Stage12FromLinkage(linkage, wkOrderId, Stage12Claim)
    case SubjectMatchUnknown =>
      if linkage.NoLink? then Blocked(ReviewOnly, NoLinkedClaim)
      else Stage12FromLinkage(linkage, wkOrderId, ReviewOnly)
    case ExceptionDuplicateActiveExposure => Stage12FromLinkage(linkage, wkOrderId, Stage12Claim)
    case SuccessorReviewRequired => Stage12FromLinkage(linkage, wkOrderId, ReviewOnly)
    case Unknown(_) => Blocked(Unsupported, UnsupportedFinding)
  }

  /** A follow-up the router may act on: fresh, on its own order, its finding live with
      the same code. */
  ghost predicate IsLive(review: Review, live: LiveReconciliation) {
    && IsKnown(review.findingCode) && live.wkOrderId == review.wkOrderId && !review.needsRefresh && !review.stale
    && var finding := Find(live.findings, KeyOf, review.findingKey);
    && finding.Some? && finding.value.code == review.findingCode
  }

  ghost predicate FailsClosed(review: Review, live: LiveReconciliation, view: View) {
    && (view.blocked <==> view.destination.None?)
    && (view.blocked <==> view.blockedReason.Some?)
    && (view.destination.Some? ==> IsLive(review, live) && review.findingCode !in ENGINEERING_ONLY_CODES)
  }

  ghost predicate IsTheClaim(q: Query, claimId: string) {
    exists claim: ExceptionClaim ::
      claim.id == claimId && FieldsMeetAll(q, claim) && forall other :: FieldsMeetAll(q, other) ==> other == claim
  }

  /** What a destination points at: the follow-up's own order, and for a claim the one
      claim on that order which meets every identifier of the live finding. */
  ghost predicate LeadsWhereItShould(q: Query, destination: Destination) {
    match destination
    case ToStage9ReturnFinancial(order) => order == q.reviewWkOrderId
    case ToStage13aObligation(_, _) => false
    case ToStage12Claim(claimId, order) => order == q.reviewWkOrderId && IsTheClaim(q, claimId)
  }

  const CLAIM_CODES: set<FindingCode> := {
    Stage9CoverageMissing, Stage9CoverageAmountMismatch, CoverageWrongLoss, SubjectMatchUnknown,
    ExceptionDuplicateActiveExposure, SuccessorReviewRequired
  }

  /** The claim codes go where the linkage says, and say why when they go nowhere. */
  ghost predicate FollowsVerdict(view: View, verdict: Verdict, wkOrderId: int) {
    match verdict
    case Unique(claimId) => view.destination == Some(ToStage12Claim(claimId, wkOrderId))
    case Nothing => view.blockedReason == Some(NoLinkedClaim)
    case Conflicting => view.blockedReason == Some(ConflictingLinkage)
    case Several(_) => view.blockedReason == Some(SeveralClaimsMatch)
  }

  /** The kind of the view for each routed code. */
  ghost predicate HasItsKind(code: FindingCode, stage9Status: Option<string>, view: View) {
    && (code in {Stage9CoverageMissing, Stage9CoverageAmountMismatch, CoverageWrongLoss,
         ExceptionDuplicateActiveExposure}
        ==> view.kind == Stage12Claim)
    && (code in {SubjectMatchUnknown, SuccessorReviewRequired} ==> view.kind == ReviewOnly)
    && (code == RaReturnDoubleCollectible ==> view.kind == WaitingOnParty)
    && (code == RaReturnRestrictionMissing && stage9Status != Some("FINALIZED") ==> view.kind == Stage9ReturnFinancial)
  }

  /** Where a live finding leads. */
  ghost predicate RoutesFinding(finding: Finding, q: Query, stage9Status: Option<string>, view: View) {
    && (view.blocked <==> view.destination.None?)
    && (view.blocked <==> view.blockedReason.Some?)
    && view.kind !in {Unsupported, Stale, Inactive}
    && HasItsKind(finding.code, stage9Status, view)
    && (finding.code in ENGINEERING_ONLY_CODES ==> view == View(Engineering, None, true, Some(EngineeringReview)))
    && (finding.code in CLAIM_CODES ==> FollowsVerdict(view, VerdictOf(q), q.reviewWkOrderId))
    && (finding.code == RaReturnDoubleCollectible ==>
         view.destination == Some(ToStage9ReturnFinancial(q.reviewWkOrderId)))
    && (finding.code == RaReturnRestrictionMissing ==>
          view.destination ==
          if stage9Status == Some("FINALIZED") then None else Some(ToStage9ReturnFinancial(q.reviewWkOrderId)))
    && (finding.code == RaReturnRestrictionMissing && stage9Status == Some("FINALIZED") ==>
          view == View(Engineering, None, true, Some(EngineeringReview)))
    && (view.destination.Some? && DistinctClaimIds(q) ==> LeadsWhereItShould(q, view.destination.value))
  }

  method RouteFinding(finding: Finding, q: Query, stage9Status: Option<string>) returns (view: View)
    requires IsKnown(finding.code)
    ensures RoutesFinding(finding, q, stage9Status, view)
  {
    var linkage := ResolveExceptionClaimLinkage(q);
    view := RouteCode(finding.code, linkage, q.reviewWkOrderId, stage9Status);
    RoutesAreClosed(finding.code, linkage, q.reviewWkOrderId, stage9Status);
    if linkage.One? && DistinctClaimIds(q) {
      ghost var claim := UniqueClaimMeetsAll(q, linkage.claimId);
      assert IsTheClaim(q, linkage.claimId);
    }
  }

  method ResolveAuthoritativeWorkflow(review: Review, live: LiveReconciliation, domain: Domain) returns (view: View)
    ensures FailsClosed(review, live, view)
    ensures IsLive(review, live) ==>
              var finding := Find(live.findings, KeyOf, review.findingKey).value;
              RoutesFinding(
                finding, LinkageQuery(review, finding, live, domain), domain.stage9ReturnFinancialStatus, view)
    ensures view.kind in {Unsupported, Stale, Inactive} ==>
              view.blockedReason == Some(
                if !IsKnown(review.findingCode) then UnsupportedFinding
                else if live.wkOrderId != review.wkOrderId then OrderMismatch
                else if review.needsRefresh || review.stale then RefreshRequired
                else NoLongerActive)
    // a live finding whose code has changed goes to engineering
    ensures view.kind !in {Unsupported, Stale, Inactive} && !IsLive(review, live) ==>
              view == View(Engineering, None, true, Some(EngineeringReview))
    // the `default` arm is dead: past the first two tests nothing is unsupported
    ensures view.kind == Unsupported <==> !IsKnown(review.findingCode) || live.wkOrderId != review.wkOrderId
    ensures view.kind == Stale <==>
              IsKnown(review.findingCode) && live.wkOrderId == review.wkOrderId && (review.needsRefresh || review.stale)
    ensures view.kind == Inactive <==>
              && IsKnown(review.findingCode) && live.wkOrderId == review.wkOrderId
              && !review.needsRefresh && !review.stale
              && !HasKey(live.findings, KeyOf, review.findingKey)
  {
    if !IsKnown(review.findingCode) {
      return Blocked(Unsupported, UnsupportedFinding);
    }
    if live.wkOrderId != review.wkOrderId {
      return Blocked(Unsupported, OrderMismatch);
    }
    if review.needsRefresh || review.stale {
      return Blocked(Stale, RefreshRequired);
    }
    var finding := Find(live.findings, KeyOf, review.findingKey);
    FindMeans(live.findings, KeyOf, review.findingKey);
    if finding.None? {
      return Blocked(Inactive, NoLongerActive);
    }
    if finding.value.code != review.findingCode {
      return EngineeringView();
    }
    var query := LinkageQuery(review, finding.value, live, domain);
    view := RouteFinding(finding.value, query, domain.stage9ReturnFinancialStatus);
  }

  lemma RoutesAreClosed(code: FindingCode, linkage: Linkage, wkOrderId: int, stage9Status: Option<string>)
    requires IsKnown(code)
    ensures var view := RouteCode(code, linkage, wkOrderId, stage9Status);
            && (view.blocked <==> view.destination.None?) && (view.blocked <==> view.blockedReason.Some?)
            && view.kind !in {Unsupported, Stale, Inactive} && HasItsKind(code, stage9Status, view)
            && (code in ENGINEERING_ONLY_CODES ==> view == EngineeringView())
            && (code in CLAIM_CODES ==> FollowsVerdict(view, Meaning(linkage), wkOrderId))
            && (view.destination.Some? ==>
                  || view.destination.value == ToStage9ReturnFinancial(wkOrderId)
                  || (linkage.One? && view.destination.value == ToStage12Claim(linkage.claimId, wkOrderId)))
  {
  }
}
