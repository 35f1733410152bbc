/** `resolveExceptionClaimLinkage`: which exception claims a reconciliation finding is
    about. Every identifier present is a constraint, and constraints are intersected. */
module ClaimLinkage {
  import opened Basics

  datatype ExceptionClaim = ExceptionClaim(
    id: string,
    wkOrderId: int,
    economicLossId: Option<string>,
    nestedLossId: Option<string>,
    determinationIds: seq<Option<string>>,
    obligationIds: seq<Option<string>>)

  datatype ObligationItem = ObligationItem(
    obligationId: string, wkOrderId: int, economicLossId: Option<string>, determinationId: Option<string>)

  datatype InvolvedItem = InvolvedItem(rail: string, obligationId: string)

  datatype Query = Query(
    reviewWkOrderId: int,
    involvedItems: seq<InvolvedItem>,
    items: seq<ObligationItem>,
    claims: seq<ExceptionClaim>)

  const EXCEPTION_FINANCIAL := "EXCEPTION_FINANCIAL"

  /** The source's result; `Many` keeps the ids in the order the set was filled. */
  datatype Linkage =
    | NoLink
    | Conflict
    | One(claimId: string)
    | Many(claimIds: seq<string>)

  predicate NonEmptyId(value: Option<string>) {
    value.Some? && |value.value| > 0
  }

  function ClaimEconomicLossId(claim: ExceptionClaim): Option<string> {
    if NonEmptyId(claim.economicLossId) then claim.economicLossId
    else if NonEmptyId(claim.nestedLossId) then claim.nestedLossId
    else None
  }

  function NonEmptyIds(values: seq<Option<string>>): seq<string> {
    if values == [] then []
    else NonEmptyIds(values[..|values| - 1])
         + (if NonEmptyId(values[|values| - 1]) then [values[|values| - 1].value] else [])
  }

  lemma {:induction false} NonEmptyIdsMean(values: seq<Option<string>>, id: string)
    ensures id in NonEmptyIds(values) <==> |id| > 0 && Some(id) in values
  {
    if values != [] {
      NonEmptyIdsMean(values[..|values| - 1], id);
      assert values == values[..|values| - 1] + [values[|values| - 1]];
    }
  }

  function Self(id: string): string {
    id
  }

  /** `[...new Set(ids)]`. */
  function SetOf(ids: seq<string>): seq<string> {
    Absorb([], ids, Self)
  }

  lemma {:induction false} SetOfMeans(ids: seq<string>)
    ensures DistinctKeys(SetOf(ids), Self)
    ensures forall id :: id in SetOf(ids) <==> id in ids
  {
    AbsorbIsDistinct([], ids, Self);
    forall id
      ensures id in SetOf(ids) <==> id in ids
    {
      AbsorbKeepsFirst([], ids, Self, id);
      assert [] + ids == ids;
      InMeansHasKey(ids, id);
      InMeansHasKey(SetOf(ids), id);
    }
  }

  lemma InMeansHasKey(ids: seq<string>, id: string)
    ensures id in ids <==> HasKey(ids, Self, id)
  {
  }

  function UniqueIds(values: seq<Option<string>>): seq<string> {
    SetOf(NonEmptyIds(values))
  }

  lemma {:induction false} UniqueIdsMean(values: seq<Option<string>>, id: string)
    ensures id in UniqueIds(values) <==> |id| > 0 && Some(id) in values
  {
    SetOfMeans(NonEmptyIds(values));
    NonEmptyIdsMean(values, id);
  }

  // ---------------------------------------------------------- identifiers

  datatype Identifier = Obligation(id: string) | Loss(id: string) | DeterminationOf(id: string)

  predicate Matches(claim: ExceptionClaim, identifier: Identifier) {
    match identifier
    case Obligation(id) => id in NonEmptyIds(claim.obligationIds)
    case Loss(id) => ClaimEconomicLossId(claim) == Some(id)
    case DeterminationOf(id) => id in NonEmptyIds(claim.determinationIds)
  }

  predicate InvolvedItemOf(q: Query, item: ObligationItem) {
    && item in q.items && item.wkOrderId == q.reviewWkOrderId && |item.obligationId| > 0
    && exists i :: i in q.involvedItems && i.obligationId == item.obligationId
  }

  /** The identifiers the finding and its obligations present. */
  ghost predicate Present(q: Query, identifier: Identifier) {
    && |identifier.id| > 0
    && match identifier
       case Obligation(id) =>
         exists i :: i in q.involvedItems && i.rail == EXCEPTION_FINANCIAL && i.obligationId == id
       case Loss(id) =>
         exists item :: InvolvedItemOf(q, item) && item.economicLossId == Some(id)
       case DeterminationOf(id) =>
         exists item :: InvolvedItemOf(q, item) && item.determinationId == Some(id)
  }

  ghost predicate SameOrder(q: Query, claim: ExceptionClaim) {
    claim in q.claims && claim.wkOrderId == q.reviewWkOrderId
  }

  ghost predicate IdMatches(q: Query, id: string, identifier: Identifier) {
    exists claim :: SameOrder(q, claim) && claim.id == id && Matches(claim, identifier)
  }

  ghost predicate IdIsLinked(q: Query, id: string) {
    forall identifier :: Present(q, identifier) ==> IdMatches(q, id, identifier)
  }

  /** The ids of same-order claims that meet every identifier present. */
  ghost function LinkedIds(q: Query): set<string> {
    set claim | claim in q.claims && claim.wkOrderId == q.reviewWkOrderId && IdIsLinked(q, claim.id) :: claim.id
  }

  /** The meaning of a linkage: its status and its set of claims. */
  datatype Verdict = Nothing | Conflicting | Unique(claimId: string) | Several(claimIds: set<string>)

  ghost function Meaning(linkage: Linkage): Verdict {
    match linkage
    case NoLink => Nothing
    case Conflict => Conflicting
    case One(id) => Unique(id)
    case Many(ids) => Several(set id | id in ids)
  }

  ghost function TheOnly(ids: set<string>): (id: string)
    requires |ids| == 1
    ensures ids == {id}
  {
    var id :| id in ids;
    assert |ids - {id}| == 0;
    id
  }

  ghost function VerdictOfSet(ids: set<string>): Verdict {
    if |ids| == 0 then Conflicting
    else if |ids| == 1 then Unique(TheOnly(ids))
    else Several(ids)
  }

  ghost function VerdictOf(q: Query): Verdict {
    if forall identifier :: !Present(q, identifier) then Nothing else VerdictOfSet(LinkedIds(q))
  }

  // ------------------------------------------------------------ the method

  function MatchingIds(q: Query, claims: seq<ExceptionClaim>, identifier: Identifier): seq<string> {
    if claims == [] then []
    else
      var c := claims[|claims| - 1];
      MatchingIds(q, claims[..|claims| - 1], identifier)
      + (if c.wkOrderId == q.reviewWkOrderId && Matches(c, identifier) then [c.id] else [])
  }

  lemma {:induction false} MatchingIdsMean(q: Query, claims: seq<ExceptionClaim>, identifier: Identifier, id: string)
    ensures id in MatchingIds(q, claims, identifier) <==>
            exists c :: c in claims && c.wkOrderId == q.reviewWkOrderId && c.id == id && Matches(c, identifier)
  {
    if claims != [] {
      MatchingIdsMean(q, claims[..|claims| - 1], identifier, id);
      assert claims == claims[..|claims| - 1] + [claims[|claims| - 1]];
    }
  }

  function ObligationIds(involved: seq<InvolvedItem>, exceptionOnly: bool): seq<Option<string>> {
    if involved == [] then []
    else
      var i := involved[|involved| - 1];
      ObligationIds(involved[..|involved| - 1], exceptionOnly)
      + (if exceptionOnly && i.rail != EXCEPTION_FINANCIAL then [] else [Some(i.obligationId)])
  }

  lemma {:induction false} ObligationIdsMean(involved: seq<InvolvedItem>, exceptionOnly: bool, id: string)
    ensures Some(id) in ObligationIds(involved, exceptionOnly) <==>
            exists i :: i in involved && (exceptionOnly ==> i.rail == EXCEPTION_FINANCIAL) && i.obligationId == id
  {
    if involved != [] {
      ObligationIdsMean(involved[..|involved| - 1], exceptionOnly, id);
      assert involved == involved[..|involved| - 1] + [involved[|involved| - 1]];
    }
  }

  function IdentifierItems(q: Query, items: seq<ObligationItem>, anyIds: seq<string>): seq<ObligationItem> {
    if items == [] then []
    else
      var item := items[|items| - 1];
      IdentifierItems(q, items[..|items| - 1], anyIds)
      + (if item.wkOrderId == q.reviewWkOrderId && item.obligationId in anyIds then [item] else [])
  }

  lemma {:induction false} IdentifierItemsMean(q: Query, items: seq<ObligationItem>, anyIds: seq<string>,
    item: ObligationItem)
    ensures item in IdentifierItems(q, items, anyIds) <==>
            item in items && item.wkOrderId == q.reviewWkOrderId && item.obligationId in anyIds
  {
    if items != [] {
      IdentifierItemsMean(q, items[..|items| - 1], anyIds, item);
      assert items == items[..|items| - 1] + [items[|items| - 1]];
    }
  }

  function LossCells(items: seq<ObligationItem>): seq<Option<string>> {
    if items == [] then [] else LossCells(items[..|items| - 1]) + [items[|items| - 1].economicLossId]
  }

  function DeterminationCells(items: seq<ObligationItem>): seq<Option<string>> {
    if items == [] then [] else DeterminationCells(items[..|items| - 1]) + [items[|items| - 1].determinationId]
  }

  lemma {:induction false} CellsMean(items: seq<ObligationItem>, cell: Option<string>)
    ensures cell in LossCells(items) <==> exists item :: item in items && item.economicLossId == cell
    ensures cell in DeterminationCells(items) <==> exists item :: item in items && item.determinationId == cell
  {
    if items != [] {
      CellsMean(items[..|items| - 1], cell);
      assert items == items[..|items| - 1] + [items[|items| - 1]];
    }
  }

  datatype Kind = ByObligation | ByLoss | ByDetermination

  function Identify(kind: Kind, id: string): Identifier {
    match kind
    case ByObligation => Obligation(id)
    case ByLoss => Loss(id)
    case ByDetermination => DeterminationOf(id)
  }

  function Identifiers(kind: Kind, ids: seq<string>): seq<Identifier> {
    if ids == [] then [] else Identifiers(kind, ids[..|ids| - 1]) + [Identify(kind, ids[|ids| - 1])]
  }

  lemma {:induction false} IdentifiersMean(kind: Kind, ids: seq<string>, identifier: Identifier)
    ensures |Identifiers(kind, ids)| == |ids|
    ensures identifier in Identifiers(kind, ids) <==>
            Identify(kind, identifier.id) == identifier && identifier.id in ids
  {
    if ids != [] {
      IdentifiersMean(kind, ids[..|ids| - 1], identifier);
      assert ids == ids[..|ids| - 1] + [ids[|ids| - 1]];
    }
  }

  function InvolvedExceptionIds(q: Query): seq<string> {
    UniqueIds(ObligationIds(q.involvedItems, true))
  }

  function InvolvedObligations(q: Query): seq<ObligationItem> {
    IdentifierItems(q, q.items, UniqueIds(ObligationIds(q.involvedItems, false)))
  }

  function LossIds(q: Query): seq<string> {
    UniqueIds(LossCells(InvolvedObligations(q)))
  }

  function DeterminationIds(q: Query): seq<string> {
    UniqueIds(DeterminationCells(InvolvedObligations(q)))
  }

  function AllIdentifiers(q: Query): seq<Identifier> {
    Identifiers(ByObligation, InvolvedExceptionIds(q))
    + Identifiers(ByLoss, LossIds(q))
    + Identifiers(ByDetermination, DeterminationIds(q))
  }

  ghost function Constraints(q: Query, identifiers: seq<Identifier>): seq<seq<string>> {
    seq(|identifiers|, k requires 0 <= k < |identifiers| => MatchingIds(q, q.claims, identifiers[k]))
  }

  ghost predicate Unmatched(q: Query, identifiers: seq<Identifier>) {
    exists k :: 0 <= k < |identifiers| && MatchingIds(q, q.claims, identifiers[k]) == []
  }

  /** One of the three `for` loops with its calls of `apply`: pushes the claims that
      match each identifier, or notes that one matches nothing. */
  method ApplyAll(q: Query, ghost done: seq<Identifier>, identifiers: seq<Identifier>, constraints: seq<seq<string>>,
    unmatched: bool)
    returns (constraints': seq<seq<string>>, unmatched': bool)
    requires unmatched <==> Unmatched(q, done)
    requires !unmatched ==> constraints == Constraints(q, done)
    ensures unmatched' <==> Unmatched(q, done + identifiers)
    ensures !unmatched' ==> constraints' == Constraints(q, done + identifiers)
  {
    constraints', unmatched' := constraints, unmatched;
    assert done + identifiers[..0] == done;
    for n := 0 to |identifiers|
      invariant unmatched' <==> Unmatched(q, done + identifiers[..n])
      invariant !unmatched' ==> constraints' == Constraints(q, done + identifiers[..n])
    {
      UnmatchedPush(q, done + identifiers[..n], identifiers[n]);
      assert done + identifiers[..n + 1] == done + identifiers[..n] + [identifiers[n]];
      var matching := MatchingIds(q, q.claims, identifiers[n]);
      if |matching| == 0 {
        unmatched' := true;
      } else {
        constraints' := constraints' + [matching];
      }
    }
    assert identifiers[..|identifiers|] == identifiers;
  }

  lemma UnmatchedPush(q: Query, identifiers: seq<Identifier>, last: Identifier)
    ensures Unmatched(q, identifiers + [last]) <==> Unmatched(q, identifiers) || MatchingIds(q, q.claims, last) == []
  {
    var more := identifiers + [last];
    assert more[|identifiers|] == last;
    assert forall k :: 0 <= k < |identifiers| ==> more[k] == identifiers[k];
  }

  method IntersectClaimSets(current: Option<seq<string>>, next: seq<string>) returns (out: seq<string>)
    requires current.Some? ==> DistinctKeys(current.value, Self)
    requires DistinctKeys(next, Self)
    ensures DistinctKeys(out, Self)
    ensures forall id :: id in out <==> (current.Some? ==> id in current.value) && id in next
  {
    if current.None? {
      return next;
    }
    out := [];
    for n := 0 to |current.value|
      invariant forall id :: id in out <==> id in current.value[..n] && id in next
      invariant DistinctKeys(out, Self)
    {
      var id := current.value[n];
      if id in next {
        assert id !in out by {
          assert forall k :: 0 <= k < n ==> Self(current.value[k]) != Self(id);
        }
        out := out + [id];
      }
    }
    assert current.value[..|current.value|] == current.value;
  }

  method ApplyThree(q: Query, first: seq<Identifier>, second: seq<Identifier>, third: seq<Identifier>)
    returns (constraints: seq<seq<string>>, unmatchedPresent: bool)
    ensures unmatchedPresent <==> Unmatched(q, first + second + third)
    ensures !unmatchedPresent ==> constraints == Constraints(q, first + second + third)
  {
    assert [] + first == first;
    constraints, unmatchedPresent := ApplyAll(q, [], first, [], false);
    constraints, unmatchedPresent := ApplyAll(q, first, second, constraints, unmatchedPresent);
    constraints, unmatchedPresent := ApplyAll(q, first + second, third, constraints, unmatchedPresent);
  }

  /** The three `for` loops: obligations, then losses, then determinations. */
  method CollectConstraints(q: Query) returns (constraints: seq<seq<string>>, unmatchedPresent: bool)
    ensures unmatchedPresent <==> Unmatched(q, AllIdentifiers(q))
    ensures !unmatchedPresent ==> constraints == Constraints(q, AllIdentifiers(q))
  {
    constraints, unmatchedPresent := ApplyThree(
      q,
      Identifiers(ByObligation, InvolvedExceptionIds(q)),
      Identifiers(ByLoss, LossIds(q)),
      Identifiers(ByDetermination, DeterminationIds(q)));
  }

  lemma {:induction false} NoIdentifiers(q: Query)
    ensures AllIdentifiers(q) == [] <==>
            |InvolvedExceptionIds(q)| == 0 && |LossIds(q)| == 0 && |DeterminationIds(q)| == 0
  {
  }

  method ResolveExceptionClaimLinkage(q: Query) returns (linkage: Linkage)
    ensures Meaning(linkage) == VerdictOf(q)
    ensures linkage.Many? ==> DistinctKeys(linkage.claimIds, Self)
  {
    var constraints, unmatchedPresent := CollectConstraints(q);
    NoIdentifiers(q);
    if |InvolvedExceptionIds(q)| == 0 && |LossIds(q)| == 0 && |DeterminationIds(q)| == 0 {
      NothingPresent(q);
      return NoLink;
    }
    if unmatchedPresent {
      UnmatchedMeansConflict(q);
      return Conflict;
    }
    var claimIds := Intersection(constraints);
    IntersectionIsVerdict(q, claimIds);
    linkage := LinkageFrom(claimIds);
  }

  /** The last loop of the source, from `let intersection = null`. */
  method Intersection(constraints: seq<seq<string>>) returns (claimIds: seq<string>)
    ensures DistinctKeys(claimIds, Self)
    ensures forall id :: id in claimIds <==>
            constraints != [] && forall k :: 0 <= k < |constraints| ==> id in constraints[k]
  {
    var intersection: Option<seq<string>> := None;
    for n := 0 to |constraints|
      invariant n == 0 <==> intersection.None?
      invariant intersection.Some? ==> DistinctKeys(intersection.value, Self)
      invariant intersection.Some? ==>
                  forall id :: id in intersection.value <==> forall k :: 0 <= k < n ==> id in constraints[k]
    {
      SetOfMeans(constraints[n]);
      var out := IntersectClaimSets(intersection, SetOf(constraints[n]));
      intersection := Some(out);
    }
    claimIds := if intersection.Some? then intersection.value else [];
  }

  // ------------------------------------------------------------ its parts

  lemma {:induction false} InvolvedMeans(q: Query, item: ObligationItem)
    ensures item in InvolvedObligations(q) <==> InvolvedItemOf(q, item)
  {
    var anyIds := UniqueIds(ObligationIds(q.involvedItems, false));
    IdentifierItemsMean(q, q.items, anyIds, item);
    UniqueIdsMean(ObligationIds(q.involvedItems, false), item.obligationId);
    ObligationIdsMean(q.involvedItems, false, item.obligationId);
  }

  lemma {:induction false} IdentifierIsPresent(q: Query, identifier: Identifier)
    ensures identifier in AllIdentifiers(q) <==> Present(q, identifier)
  {
    IdentifiersMean(ByObligation, InvolvedExceptionIds(q), identifier);
    IdentifiersMean(ByLoss, LossIds(q), identifier);
    IdentifiersMean(ByDetermination, DeterminationIds(q), identifier);
    var id := identifier.id;
    forall item
      ensures item in InvolvedObligations(q) <==> InvolvedItemOf(q, item)
    {
      InvolvedMeans(q, item);
    }
    CellsMean(InvolvedObligations(q), Some(id));
    match identifier {
      case Obligation(_) =>
        UniqueIdsMean(ObligationIds(q.involvedItems, true), id);
        ObligationIdsMean(q.involvedItems, true, id);
      case Loss(_) => UniqueIdsMean(LossCells(InvolvedObligations(q)), id);
      case DeterminationOf(_) => UniqueIdsMean(DeterminationCells(InvolvedObligations(q)), id);
    }
  }

  lemma {:induction false} NothingPresent(q: Query)
    requires AllIdentifiers(q) == []
    ensures VerdictOf(q) == Nothing
  {
    forall identifier
      ensures !Present(q, identifier)
    {
      IdentifierIsPresent(q, identifier);
    }
  }

  lemma {:induction false} UnmatchedMeansConflict(q: Query)
    requires Unmatched(q, AllIdentifiers(q))
    ensures VerdictOf(q) == Conflicting
  {
    var k :| 0 <= k < |AllIdentifiers(q)| && MatchingIds(q, q.claims, AllIdentifiers(q)[k]) == [];
    var identifier := AllIdentifiers(q)[k];
    IdentifierIsPresent(q, identifier);
    forall id
      ensures !IdIsLinked(q, id)
    {
      MatchingIdsMean(q, q.claims, identifier, id);
      assert !IdMatches(q, id, identifier);
    }
    assert LinkedIds(q) == {};
  }

  lemma {:induction false} ConstrainedIdIsLinked(q: Query, id: string)
    requires AllIdentifiers(q) != []
    ensures id in LinkedIds(q) <==>
            forall k :: 0 <= k < |AllIdentifiers(q)| ==> id in Constraints(q, AllIdentifiers(q))[k]
  {
    var identifiers := AllIdentifiers(q);
    forall k | 0 <= k < |identifiers|
      ensures Present(q, identifiers[k])
      ensures id in Constraints(q, identifiers)[k] <==> IdMatches(q, id, identifiers[k])
    {
      IdentifierIsPresent(q, identifiers[k]);
      MatchingIdsMean(q, q.claims, identifiers[k], id);
    }
    if forall k :: 0 <= k < |identifiers| ==> id in Constraints(q, identifiers)[k] {
      assert IdMatches(q, id, identifiers[0]);
      forall identifier | Present(q, identifier)
        ensures IdMatches(q, id, identifier)
      {
        IdentifierIsPresent(q, identifier);
        var k :| 0 <= k < |identifiers| && identifiers[k] == identifier;
      }
    }
  }

  function LinkageFrom(claimIds: seq<string>): Linkage {
    if |claimIds| == 0 then Conflict else if |claimIds| == 1 then One(claimIds[0]) else Many(claimIds)
  }

  lemma {:induction false} LinkageFromMeans(claimIds: seq<string>, ids: set<string>)
    requires DistinctKeys(claimIds, Self)
    requires forall id :: id in claimIds <==> id in ids
    ensures Meaning(LinkageFrom(claimIds)) == VerdictOfSet(ids)
  {
    KeySetSize(claimIds, Self);
    assert KeySet(claimIds, Self) == ids;
    assert (set id | id in claimIds) == ids;
    if |claimIds| == 1 {
      assert claimIds[0] in ids;
    }
  }

  lemma {:induction false} IntersectionIsVerdict(q: Query, claimIds: seq<string>)
    requires AllIdentifiers(q) != [] && DistinctKeys(claimIds, Self)
    requires var constraints := Constraints(q, AllIdentifiers(q));
             forall id :: id in claimIds <==> forall k :: 0 <= k < |constraints| ==> id in constraints[k]
    ensures VerdictOf(q) == Meaning(LinkageFrom(claimIds))
  {
    forall id
      ensures id in claimIds <==> id in LinkedIds(q)
    {
      ConstrainedIdIsLinked(q, id);
    }
    LinkageFromMeans(claimIds, LinkedIds(q));
    IdentifierIsPresent(q, AllIdentifiers(q)[0]);
    assert Present(q, AllIdentifiers(q)[0]);
  }

  // ------------------------------------------------------------ the theorems

  ghost predicate DistinctClaimIds(q: Query) {
    forall c, d :: c in q.claims && d in q.claims && c.id == d.id ==> c == d
  }

  ghost predicate MeetsAll(q: Query, claim: ExceptionClaim) {
    SameOrder(q, claim) && forall identifier :: Present(q, identifier) ==> Matches(claim, identifier)
  }

  /** With distinct claim ids, the linked ids are those of the same-order claims that
      meet every identifier themselves. */
  lemma {:induction false} LinkedClaimsMeetAll(q: Query, id: string)
    requires DistinctClaimIds(q)
    ensures id in LinkedIds(q) <==> exists claim :: MeetsAll(q, claim) && claim.id == id
  {
  }

  /** `one` names the only claim on the order that meets every identifier, with its own
      fields. */
  lemma {:induction false} UniqueClaimMeetsAll(q: Query, id: string) returns (claim: ExceptionClaim)
    requires DistinctClaimIds(q) && VerdictOf(q) == Unique(id)
    ensures MeetsAll(q, claim) && claim.id == id
    ensures forall other :: MeetsAll(q, other) ==> other == claim
    ensures FieldsMeetAll(q, claim)
    ensures forall other :: FieldsMeetAll(q, other) ==> other == claim
  {
    LinkedClaimsMeetAll(q, id);
    assert id in LinkedIds(q);
    claim :| MeetsAll(q, claim) && claim.id == id;
    MeetsAllByFields(q, claim);
    forall other
      ensures MeetsAll(q, other) ==> other == claim
      ensures FieldsMeetAll(q, other) ==> other == claim
    {
      MeetsAllByFields(q, other);
      if MeetsAll(q, other) {
        LinkedClaimsMeetAll(q, other.id);
        OnlyElement(LinkedIds(q), other.id, id);
      }
    }
  }

  // ------------------------------------------------------ by the fields

  /** The loss field that counts: the claim's own, or if that is missing or empty the
      nested one. */
  predicate LossFieldSays(claim: ExceptionClaim, loss: string) {
    || claim.economicLossId == Some(loss)
    || ((claim.economicLossId == None || claim.economicLossId == Some("")) && claim.nestedLossId == Some(loss))
  }

  ghost predicate IsInvolved(q: Query, item: ObligationItem) {
    && item in q.items && item.wkOrderId == q.reviewWkOrderId && item.obligationId != ""
    && exists k :: 0 <= k < |q.involvedItems| && q.involvedItems[k].obligationId == item.obligationId
  }

  ghost predicate ListsObligation(q: Query, claim: ExceptionClaim, i: InvolvedItem) {
    i in q.involvedItems && i.rail == "EXCEPTION_FINANCIAL" && i.obligationId != "" ==>
      Some(i.obligationId) in claim.obligationIds
  }

  ghost predicate ListsItem(q: Query, claim: ExceptionClaim, item: ObligationItem) {
    IsInvolved(q, item) ==>
      && (item.economicLossId.Some? && item.economicLossId.value != "" ==>
           LossFieldSays(claim, item.economicLossId.value))
      && (item.determinationId.Some? && item.determinationId.value != "" ==>
            Some(item.determinationId.value) in claim.determinationIds)
  }

  /** The claim is on the order and its own fields list every obligation, loss and
      determination id that the finding and its obligations present. */
  ghost predicate FieldsMeetAll(q: Query, claim: ExceptionClaim) {
    && claim in q.claims && claim.wkOrderId == q.reviewWkOrderId
    && (forall i :: ListsObligation(q, claim, i))
    && (forall item :: ListsItem(q, claim, item))
  }

  lemma MatchesByFields(claim: ExceptionClaim, id: string)
    requires id != ""
    ensures Matches(claim, Obligation(id)) <==> Some(id) in claim.obligationIds
    ensures Matches(claim, Loss(id)) <==> LossFieldSays(claim, id)
    ensures Matches(claim, DeterminationOf(id)) <==> Some(id) in claim.determinationIds
  {
    NonEmptyIdsMean(claim.obligationIds, id);
    NonEmptyIdsMean(claim.determinationIds, id);
  }

  lemma InvolvedByFields(q: Query, item: ObligationItem)
    ensures InvolvedItemOf(q, item) <==> IsInvolved(q, item)
  {
    if i :| i in q.involvedItems && i.obligationId == item.obligationId {
      var k :| 0 <= k < |q.involvedItems| && q.involvedItems[k] == i;
    }
    if k :| 0 <= k < |q.involvedItems| && q.involvedItems[k].obligationId == item.obligationId {
      assert q.involvedItems[k] in q.involvedItems;
    }
  }

  /** A claim meets every identifier exactly if its fields list every id presented. */
  lemma {:induction false} MeetsAllByFields(q: Query, claim: ExceptionClaim)
    ensures MeetsAll(q, claim) <==> FieldsMeetAll(q, claim)
  {
    if MeetsAll(q, claim) {
      ListedFields(q, claim);
    }
    if FieldsMeetAll(q, claim) {
      forall identifier | Present(q, identifier)
        ensures Matches(claim, identifier)
      {
        ListedIdentifier(q, claim, identifier);
      }
    }
  }

  lemma {:induction false} ListedFields(q: Query, claim: ExceptionClaim)
    requires MeetsAll(q, claim)
    ensures FieldsMeetAll(q, claim)
  {
    forall i
      ensures ListsObligation(q, claim, i)
    {
      if i in q.involvedItems && i.rail == "EXCEPTION_FINANCIAL" && i.obligationId != "" {
        assert Present(q, Obligation(i.obligationId));
        MatchesByFields(claim, i.obligationId);
      }
    }
    forall item
      ensures ListsItem(q, claim, item)
    {
      InvolvedByFields(q, item);
      if IsInvolved(q, item) && item.economicLossId.Some? && item.economicLossId.value != "" {
        assert Present(q, Loss(item.economicLossId.value));
        MatchesByFields(claim, item.economicLossId.value);
      }
      if IsInvolved(q, item) && item.determinationId.Some? && item.determinationId.value != "" {
        assert Present(q, DeterminationOf(item.determinationId.value));
        MatchesByFields(claim, item.determinationId.value);
      }
    }
  }

  lemma {:induction false} ListedIdentifier(q: Query, claim: ExceptionClaim, identifier: Identifier)
    requires FieldsMeetAll(q, claim) && Present(q, identifier)
    ensures Matches(claim, identifier)
  {
    MatchesByFields(claim, identifier.id);
    match identifier {
      case Obligation(id) =>
        var i :| i in q.involvedItems && i.rail == EXCEPTION_FINANCIAL && i.obligationId == id;
        assert ListsObligation(q, claim, i);
      case Loss(id) =>
        var item :| InvolvedItemOf(q, item) && item.economicLossId == Some(id);
        InvolvedByFields(q, item);
        assert ListsItem(q, claim, item);
      case DeterminationOf(id) =>
        var item :| InvolvedItemOf(q, item) && item.determinationId == Some(id);
        InvolvedByFields(q, item);
        assert ListsItem(q, claim, item);
    }
  }

  /** `none` means: no exception obligation is involved, and no involved obligation on the
      order carries a loss or determination id. */
  lemma {:induction false} NothingByFields(q: Query)
    ensures VerdictOf(q) == Nothing <==>
            && (forall i :: i in q.involvedItems ==> i.rail != "EXCEPTION_FINANCIAL" || i.obligationId == "")
            && (forall item :: IsInvolved(q, item) ==> CarriesNothing(item))
  {
    if i :| i in q.involvedItems && i.rail == "EXCEPTION_FINANCIAL" && i.obligationId != "" {
      assert Present(q, Obligation(i.obligationId));
    }
    if item :| IsInvolved(q, item) && !CarriesNothing(item) {
      SomethingCarried(q, item);
    }
    forall item
      ensures InvolvedItemOf(q, item) <==> IsInvolved(q, item)
    {
      InvolvedByFields(q, item);
    }
  }

  predicate CarriesNothing(item: ObligationItem) {
    && (item.economicLossId == None || item.economicLossId == Some(""))
    && (item.determinationId == None || item.determinationId == Some(""))
  }

  lemma SomethingCarried(q: Query, item: ObligationItem)
    requires IsInvolved(q, item) && !CarriesNothing(item)
    ensures exists id :: Present(q, id)
  {
    InvolvedByFields(q, item);
    if item.economicLossId.Some? && item.economicLossId.value != "" {
      assert Present(q, Loss(item.economicLossId.value));
    } else {
      assert Present(q, DeterminationOf(item.determinationId.value));
    }
  }

  /** Two claims on the order, one of each loss, that share an id. */
  ghost predicate SharesId(q: Query, a: string, b: string, id: string) {
    exists c, d ::
      && SameOrder(q, c) && SameOrder(q, d) && c.id == d.id == id
      && Matches(c, Loss(a)) && Matches(d, Loss(b))
  }

  /** Two loss ids cannot both be one claim's: the linkage is a conflict, unless two claims
      share an id. */
  lemma {:induction false} TwoLossesConflict(q: Query, a: string, b: string)
    requires a != b && Present(q, Loss(a)) && Present(q, Loss(b))
    ensures forall id :: id in LinkedIds(q) ==> SharesId(q, a, b, id)
    ensures VerdictOf(q) == Conflicting <==> LinkedIds(q) == {}
    ensures DistinctClaimIds(q) ==> VerdictOf(q) == Conflicting
  {
    forall id | id in LinkedIds(q)
      ensures SharesId(q, a, b, id)
    {
      assert IdMatches(q, id, Loss(a)) && IdMatches(q, id, Loss(b));
    }
    if DistinctClaimIds(q) {
      forall id
        ensures !SharesId(q, a, b, id)
      {
      }
      assert LinkedIds(q) == {};
    }
  }

  function Lost(id: string, loss: string): ExceptionClaim {
    ExceptionClaim(id, 1, Some(loss), None, [], [])
  }

  function Owed(id: string, loss: string): ObligationItem {
    ObligationItem(id, 1, Some(loss), None)
  }

  /** And if two claims do share an id, two losses can lead to it. */
  lemma {:induction false} SharedIdTakesTwoLosses()
    ensures var involved := [InvolvedItem("RAIL", "x"), InvolvedItem("RAIL", "y")];
            var q := Query(1, involved, [Owed("x", "one"), Owed("y", "two")],
              [Lost("claim", "one"), Lost("claim", "two")]);
            Present(q, Loss("one")) && Present(q, Loss("two")) && VerdictOf(q) == Unique("claim")
  {
    var i, j := InvolvedItem("RAIL", "x"), InvolvedItem("RAIL", "y");
    var x, y := Owed("x", "one"), Owed("y", "two");
    var a, b := Lost("claim", "one"), Lost("claim", "two");
    var q := Query(1, [i, j], [x, y], [a, b]);
    assert i in q.involvedItems && j in q.involvedItems;
    assert InvolvedItemOf(q, x) && InvolvedItemOf(q, y);
    assert Present(q, Loss("one")) && Present(q, Loss("two"));
    assert SameOrder(q, a) && SameOrder(q, b);
    forall identifier | Present(q, identifier)
      ensures IdMatches(q, "claim", identifier)
    {
      assert Matches(a, Loss("one")) && Matches(b, Loss("two"));
    }
    assert IdIsLinked(q, "claim");
    assert LinkedIds(q) == {"claim"};
  }

  /** Reordering claims, items or involved items changes neither status nor claims. */
  lemma {:induction false} OrderIsIrrelevant(q: Query, r: Query)
    requires q.reviewWkOrderId == r.reviewWkOrderId
    requires multiset(q.claims) == multiset(r.claims)
    requires multiset(q.items) == multiset(r.items)
    requires multiset(q.involvedItems) == multiset(r.involvedItems)
    ensures VerdictOf(q) == VerdictOf(r)
  {
    SameElements(q.claims, r.claims);
    SameElements(q.items, r.items);
    SameElements(q.involvedItems, r.involvedItems);
    forall item
      ensures InvolvedItemOf(q, item) <==> InvolvedItemOf(r, item)
    {
    }
    forall identifier
      ensures Present(q, identifier) <==> Present(r, identifier)
    {
    }
    forall id, identifier
      ensures IdMatches(q, id, identifier) <==> IdMatches(r, id, identifier)
    {
      assert forall claim :: SameOrder(q, claim) <==> SameOrder(r, claim);
    }
    forall id
      ensures IdIsLinked(q, id) <==> IdIsLinked(r, id)
    {
    }
    assert LinkedIds(q) == LinkedIds(r);
  }
}
