/** The five `can...` guards of the liability screens and the claims they let grow:
    every run keeps one chain of finalized determinations with at most one open row. */
module ClaimLifecycle {
  import opened Basics
  import opened ClaimRecords
  import opened SuccessorTopology

  datatype PartyType = Customer | Merchant | Rider

  datatype DebtorOption = DebtorOption(
    partyType: PartyType, partyUserId: Option<string>, partyMerchantId: Option<int>)

  function PartyTypeOf(cell: Cell): Option<PartyType> {
    match StringField(cell)
    case Some(text) =>
      if text == "CUSTOMER" then Some(Customer)
      else if text == "MERCHANT" then Some(Merchant)
      else if text == "RIDER" then Some(Rider)
      else None
    case None => None
  }

  const ACTIVE_CLAIM_STATUSES := {"OPEN", "EVIDENCE_REVIEW", "VERIFIED", "DETERMINATION_PROPOSED"}

  predicate IsActiveClaimStatus(status: Cell) {
    status.Text? && status.text in ACTIVE_CLAIM_STATUSES
  }

  function IdOf(row: Determination): Option<string> {
    StringField(row.id)
  }

  predicate IsSuccessor(row: Determination) {
    Parent(row).Some?
  }

  predicate IsOpen(row: Determination) {
    Status(row) == Some(DRAFT) || Status(row) == Some(PROPOSED)
  }

  function ActiveLiabilityDeterminations(rows: seq<Determination>): seq<Determination> {
    if rows == [] then []
    else ActiveLiabilityDeterminations(rows[..|rows| - 1])
         + (if IsOpen(rows[|rows| - 1]) then [rows[|rows| - 1]] else [])
  }

  /** `^(?:0|[1-9][0-9]*)(?:\.[0-9]{1,2})?$`, and not zero. */
  predicate IsPositiveMoneyString(raw: string) {
    var m := MatchDecimal(Trim(raw));
    && m.Some?
    && (m.value.whole == "0" || m.value.whole[..1] != "0")
    && (m.value.fraction.Some? ==> |m.value.fraction.value| <= 2)
    && !(m.value.whole == "0" && (m.value.fraction.None? || Decimal0(m.value.fraction.value)))
  }

  predicate Decimal0(digits: string) {
    forall i :: 0 <= i < |digits| ==> digits[i] == '0'
  }

  /** The amount a decimal text with at most two decimals spells, in centavos. */
  function Centavos(d: DecimalText): nat
    requires AllDigits(d.whole) && (d.fraction.Some? ==> AllDigits(d.fraction.value))
  {
    100 * Decimal(d.whole)
    + (if d.fraction.None? then 0
       else if |d.fraction.value| == 1 then 10 * Decimal(d.fraction.value)
       else Decimal(d.fraction.value))
  }

  lemma {:induction false} ZeroMeansZeros(digits: string)
    requires AllDigits(digits)
    ensures Decimal(digits) == 0 <==> Decimal0(digits)
  {
    if digits != "" {
      ZeroMeansZeros(digits[..|digits| - 1]);
      assert digits == digits[..|digits| - 1] + [digits[|digits| - 1]];
    }
  }

  /** Accepted are exactly the plain decimal texts, with no leading zero and at most two
      decimals, of an amount above zero. */
  lemma PositiveMoneyMeans(raw: string)
    ensures var m := MatchDecimal(Trim(raw));
            IsPositiveMoneyString(raw) <==>
              && m.Some?
              && (|m.value.whole| > 1 ==> m.value.whole[0] != '0')
              && (m.value.fraction.Some? ==> |m.value.fraction.value| <= 2)
              && Centavos(m.value) > 0
  {
    var m := MatchDecimal(Trim(raw));
    if m.Some? {
      ZeroMeansZeros(m.value.whole);
      assert m.value.whole[..1] == [m.value.whole[0]];
      assert Decimal0(m.value.whole) && (|m.value.whole| > 1 ==> m.value.whole[0] != '0') ==> m.value.whole == "0";
      if m.value.fraction.Some? {
        ZeroMeansZeros(m.value.fraction.value);
      }
    }
  }

  predicate AllocationIsBounded(row: Allocation, options: seq<DebtorOption>) {
    match PartyTypeOf(row.partyType)
    case None => false
    case Some(Merchant) =>
      var merchantId := IntegerId(row.partyMerchantId);
      merchantId.Some? && exists o :: o in options && o.partyType == Merchant && o.partyMerchantId == merchantId
    case Some(party) =>
      var userId := StringField(row.partyUserId);
      userId.Some? && exists o :: o in options && o.partyType == party && o.partyUserId == userId
  }

  predicate StoredAllocationsAreBounded(allocations: seq<Allocation>, options: seq<DebtorOption>) {
    allocations != [] && forall a :: a in allocations ==> AllocationIsBounded(a, options)
  }

  /** By its cells, the allocation is to the party of this option: the same party type,
      and the merchant's integer id, or else the user's id. */
  predicate Names(row: Allocation, option: DebtorOption) {
    match option.partyType
    case Merchant =>
      Says(row.partyType, "MERCHANT") && option.partyMerchantId.Some?
        && SaysId(row.partyMerchantId, option.partyMerchantId.value)
    case Customer =>
      Says(row.partyType, "CUSTOMER") && option.partyUserId.Some? && Says(row.partyUserId, option.partyUserId.value)
    case Rider =>
      Says(row.partyType, "RIDER") && option.partyUserId.Some? && Says(row.partyUserId, option.partyUserId.value)
  }

  ghost predicate NamesSome(row: Allocation, options: seq<DebtorOption>) {
    exists k :: 0 <= k < |options| && Names(row, options[k])
  }

  /** There are allocations, and every one of them is to the party of some option. */
  ghost predicate AllNamed(allocations: seq<Allocation>, options: seq<DebtorOption>) {
    |allocations| > 0 && forall k :: 0 <= k < |allocations| ==> NamesSome(allocations[k], options)
  }

  lemma PartyTypesDiffer()
    ensures Trim("CUSTOMER") != "" && Trim("MERCHANT") != "" && Trim("RIDER") != ""
    ensures "CUSTOMER" != "MERCHANT" && "MERCHANT" != "RIDER" && "CUSTOMER" != "RIDER"
  {
    assert !IsSpace("CUSTOMER"[0]) && !IsSpace("MERCHANT"[0]) && !IsSpace("RIDER"[0]);
    TrimOfBlank("CUSTOMER");
    TrimOfBlank("MERCHANT");
    TrimOfBlank("RIDER");
    assert "CUSTOMER"[0] == 'C' && "MERCHANT"[0] == 'M' && "RIDER"[0] == 'R';
  }

  lemma PartyTypeIsRead(cell: Cell)
    ensures PartyTypeOf(cell) == Some(Customer) <==> Says(cell, "CUSTOMER")
    ensures PartyTypeOf(cell) == Some(Merchant) <==> Says(cell, "MERCHANT")
    ensures PartyTypeOf(cell) == Some(Rider) <==> Says(cell, "RIDER")
  {
    PartyTypesDiffer();
    CellsAreRead(cell, "CUSTOMER", 0);
    CellsAreRead(cell, "MERCHANT", 0);
    CellsAreRead(cell, "RIDER", 0);
  }

  lemma OptionIsRead(row: Allocation, option: DebtorOption)
    ensures Names(row, option) <==>
            && PartyTypeOf(row.partyType) == Some(option.partyType)
            && if option.partyType == Merchant
               then IntegerId(row.partyMerchantId).Some? && option.partyMerchantId == IntegerId(row.partyMerchantId)
               else StringField(row.partyUserId).Some? && option.partyUserId == StringField(row.partyUserId)
  {
    PartyTypeIsRead(row.partyType);
    if option.partyMerchantId.Some? {
      CellsAreRead(row.partyMerchantId, "", option.partyMerchantId.value);
    }
    if option.partyUserId.Some? {
      CellsAreRead(row.partyUserId, option.partyUserId.value, 0);
    }
  }

  lemma AllocationIsNamed(row: Allocation, options: seq<DebtorOption>)
    ensures AllocationIsBounded(row, options) <==> NamesSome(row, options)
  {
    forall k | 0 <= k < |options|
      ensures Names(row, options[k]) <==>
              && PartyTypeOf(row.partyType) == Some(options[k].partyType)
              && if options[k].partyType == Merchant
                 then IntegerId(row.partyMerchantId).Some?
                   && options[k].partyMerchantId == IntegerId(row.partyMerchantId)
                 else StringField(row.partyUserId).Some? && options[k].partyUserId == StringField(row.partyUserId)
    {
      OptionIsRead(row, options[k]);
    }
    if AllocationIsBounded(row, options) {
      var o :| && o in options && PartyTypeOf(row.partyType) == Some(o.partyType)
               && if o.partyType == Merchant then o.partyMerchantId == IntegerId(row.partyMerchantId)
                  else o.partyUserId == StringField(row.partyUserId);
      var k :| 0 <= k < |options| && options[k] == o;
      assert Names(row, options[k]);
    }
  }

  /** Stored allocations are bounded exactly if there are some and each names the party of
      an option: one unknown type, blank id or unlisted id anywhere refuses them all. */
  lemma BoundedMeansNamed(allocations: seq<Allocation>, options: seq<DebtorOption>)
    ensures StoredAllocationsAreBounded(allocations, options) <==> AllNamed(allocations, options)
  {
    forall k | 0 <= k < |allocations|
      ensures AllocationIsBounded(allocations[k], options) <==> NamesSome(allocations[k], options)
    {
      AllocationIsNamed(allocations[k], options);
    }
    if AllNamed(allocations, options) {
      forall a | a in allocations
        ensures AllocationIsBounded(a, options)
      {
        AllocationIsNamed(a, options);
      }
    }
    if StoredAllocationsAreBounded(allocations, options) {
      assert forall k :: 0 <= k < |allocations| ==> allocations[k] in allocations;
    }
  }

  /** Allocations taken together are bounded exactly if each part is. */
  lemma BoundedInParts(a: seq<Allocation>, b: seq<Allocation>, options: seq<DebtorOption>)
    requires a != [] && b != []
    ensures StoredAllocationsAreBounded(a + b, options) <==>
            StoredAllocationsAreBounded(a, options) && StoredAllocationsAreBounded(b, options)
  {
    assert forall x :: x in a + b <==> x in a || x in b;
  }

  // ------------------------------------------------------------ the guards

  predicate CanCreateLiabilityDraft(
    claimStatus: Cell, facts: nat, rows: seq<Determination>, options: seq<DebtorOption>)
  {
    IsActiveClaimStatus(claimStatus) && facts > 0 && |ActiveLiabilityDeterminations(rows)| == 0 && |options| > 0
  }

  predicate CanSubmitEligibleLiabilityDraft(claimId: string, claimStatus: Cell, row: Determination) {
    && IsActiveClaimStatus(claimStatus)
    && Status(row) == Some(DRAFT)
    && !IsSuccessor(row)
    && StringField(row.exceptionClaimId) == Some(claimId)
  }

  predicate CanRecordOriginalLiability(claimId: string, row: Determination, options: seq<DebtorOption>) {
    && !IsSuccessor(row)
    && Status(row) == Some(PROPOSED)
    && StringField(row.exceptionClaimId) == Some(claimId)
    && StoredAllocationsAreBounded(row.allocations, options)
  }

  ghost predicate CanCreateSuccessorAdjustment(facts: nat, rows: seq<Determination>, options: seq<DebtorOption>) {
    && facts > 0 && |options| > 0 && |ActiveLiabilityDeterminations(rows)| == 0
    && var topology := TopologyOf(WithId(rows));
    && topology.safe && topology.tipId.Some?
    && var tip := Find(rows, IdOf, topology.tipId);
    && tip.Some? && Status(tip.value) == Some(FINALIZED)
    && tip.value.remainingAmountSnapshot.Text?
    && IsPositiveMoneyString(tip.value.remainingAmountSnapshot.text)
  }

  ghost predicate CanRecordSuccessorLiability(
    claimId: string, row: Determination, rows: seq<Determination>, options: seq<DebtorOption>)
  {
    && IdOf(row).Some?
    && StringField(row.exceptionClaimId) == Some(claimId)
    && Status(row) == Some(DRAFT)
    && IsSuccessor(row)
    && TopologyOf(WithId(rows)).reason !in {Cycle, Branch, MissingParent, Disconnected, MultipleTips}
    && var parent := Find(rows, IdOf, Parent(row));
    && parent.Some? && Status(parent.value) == Some(FINALIZED)
    && !(exists i :: 0 <= i < |rows| && Parent(rows[i]) == IdOf(row))
    && StoredAllocationsAreBounded(row.allocations, options)
  }

  /** The cell reads as missing. */
  predicate SaysNothing(cell: Cell) {
    !(cell.Text? && Trim(cell.text) != "")
  }

  /** What the guards on one determination ask of its cells. */
  lemma GuardsReadCells(
    claimId: string, status: Cell, row: Determination, rows: seq<Determination>, options: seq<DebtorOption>)
    ensures CanSubmitEligibleLiabilityDraft(claimId, status, row) <==>
            && status in {Text("OPEN"), Text("EVIDENCE_REVIEW"), Text("VERIFIED"), Text("DETERMINATION_PROPOSED")}
            && Says(row.status, "DRAFT") && SaysNothing(row.adjustmentOfDeterminationId)
            && Says(row.exceptionClaimId, claimId)
    ensures CanRecordOriginalLiability(claimId, row, options) <==>
            && Says(row.status, "PROPOSED") && SaysNothing(row.adjustmentOfDeterminationId)
            && Says(row.exceptionClaimId, claimId) && AllNamed(row.allocations, options)
    ensures CanRecordSuccessorLiability(claimId, row, rows, options) ==>
            && Says(row.status, "DRAFT") && !SaysNothing(row.adjustmentOfDeterminationId) && !SaysNothing(row.id)
            && Says(row.exceptionClaimId, claimId) && AllNamed(row.allocations, options)
  {
    CellsAreRead(row.status, "DRAFT", 0);
    CellsAreRead(row.status, "PROPOSED", 0);
    CellsAreRead(row.adjustmentOfDeterminationId, "", 0);
    CellsAreRead(row.id, "", 0);
    CellsAreRead(row.exceptionClaimId, claimId, 0);
    BoundedMeansNamed(row.allocations, options);
  }

  /** An original can be drafted exactly on an active claim with facts and debtors and
      without an open determination. */
  lemma DraftGuardReadsCells(status: Cell, facts: nat, rows: seq<Determination>, options: seq<DebtorOption>)
    ensures CanCreateLiabilityDraft(status, facts, rows, options) <==>
            && status in {Text("OPEN"), Text("EVIDENCE_REVIEW"), Text("VERIFIED"), Text("DETERMINATION_PROPOSED")}
            && facts > 0 && |options| > 0
            && forall k :: 0 <= k < |rows| ==> !Says(rows[k].status, "DRAFT") && !Says(rows[k].status, "PROPOSED")
  {
    SomeActive(rows);
    forall k | 0 <= k < |rows|
      ensures IsOpen(rows[k]) <==> Says(rows[k].status, "DRAFT") || Says(rows[k].status, "PROPOSED")
    {
      CellsAreRead(rows[k].status, "DRAFT", 0);
      CellsAreRead(rows[k].status, "PROPOSED", 0);
    }
  }

  /** A successor that can be recorded adjusts a finalized determination of the list, and
      none of the list adjusts it. */
  lemma SuccessorGuardReadsCells(
    claimId: string, row: Determination, rows: seq<Determination>, options: seq<DebtorOption>, id: string,
    parent: string)
    requires CanRecordSuccessorLiability(claimId, row, rows, options)
    requires Says(row.id, id) && Says(row.adjustmentOfDeterminationId, parent)
    ensures exists k :: 0 <= k < |rows| && Says(rows[k].id, parent) && Says(rows[k].status, "FINALIZED")
    ensures forall k :: 0 <= k < |rows| ==> !Says(rows[k].adjustmentOfDeterminationId, id)
  {
    CellsAreRead(row.id, id, 0);
    CellsAreRead(row.adjustmentOfDeterminationId, parent, 0);
    FindMeans(rows, IdOf, Parent(row));
    var found := Find(rows, IdOf, Parent(row)).value;
    var at :| 0 <= at < |rows| && rows[at] == found;
    CellsAreRead(rows[at].id, parent, 0);
    CellsAreRead(rows[at].status, "FINALIZED", 0);
    forall k | 0 <= k < |rows|
      ensures !Says(rows[k].adjustmentOfDeterminationId, id)
    {
      CellsAreRead(rows[k].adjustmentOfDeterminationId, id, 0);
    }
  }

  // ------------------------------------------------------------ the steps

  datatype Claim = Claim(status: Cell, rows: seq<Determination>)

  /** One server-confirmed action, with the screen data its guard read, or a new
      listing of the same rows. Facts, debtor options, remaining amounts and
      allocations are whatever the server says. */
  datatype Step =
    | CreateDraft(facts: nat, options: seq<DebtorOption>, row: Determination)
    | SubmitDraft(at: nat, status: Cell)
    | RecordOriginal(at: nat, options: seq<DebtorOption>, remaining: Cell, status: Cell)
    | CreateAdjustment(facts: nat, options: seq<DebtorOption>, row: Determination)
    | RecordSuccessor(at: nat, options: seq<DebtorOption>, remaining: Cell)
    | Relist(rows: seq<Determination>)

  /** A draft as the server stores it: a new id, this claim, status DRAFT. */
  predicate IsNewDraft(claimId: string, rows: seq<Determination>, row: Determination, parent: Option<string>) {
    && HasId(row)
    && !HasKey(rows, IdOf, IdOf(row))
    && Parent(row) == parent
    && row.status == Text(DRAFT)
    && StringField(row.exceptionClaimId) == Some(claimId)
  }

  ghost predicate Allowed(claimId: string, c: Claim, step: Step) {
    match step
    case CreateDraft(facts, options, row) =>
      CanCreateLiabilityDraft(c.status, facts, c.rows, options) && IsNewDraft(claimId, c.rows, row, None)
    case SubmitDraft(at, status) =>
      at < |c.rows| && CanSubmitEligibleLiabilityDraft(claimId, c.status, c.rows[at]) && IsActiveClaimStatus(status)
    case RecordOriginal(at, options, _, status) =>
      at < |c.rows| && CanRecordOriginalLiability(claimId, c.rows[at], options) && !IsActiveClaimStatus(status)
    case CreateAdjustment(facts, options, row) =>
      && CanCreateSuccessorAdjustment(facts, c.rows, options)
      && IsNewDraft(claimId, c.rows, row, TopologyOf(WithId(c.rows)).tipId)
    case RecordSuccessor(at, options, _) =>
      at < |c.rows| && CanRecordSuccessorLiability(claimId, c.rows[at], c.rows, options)
    case Relist(rows) =>
      multiset(rows) == multiset(c.rows)
  }

  function WithStatus(row: Determination, status: string): Determination {
    row.(status := Text(status))
  }

  function Finalize(row: Determination, remaining: Cell): Determination {
    WithStatus(row, FINALIZED).(remainingAmountSnapshot := remaining)
  }

  ghost function After(claimId: string, c: Claim, step: Step): Claim
    requires Allowed(claimId, c, step)
  {
    match step
    case CreateDraft(_, _, row) => c.(rows := c.rows + [row])
    case SubmitDraft(at, status) => Claim(status, c.rows[at := WithStatus(c.rows[at], PROPOSED)])
    case RecordOriginal(at, _, remaining, status) =>
      Claim(status, c.rows[at := Finalize(c.rows[at], remaining)])
    case CreateAdjustment(_, _, row) => c.(rows := c.rows + [row])
    case RecordSuccessor(at, _, remaining) =>
      c.(rows := c.rows[at := Finalize(c.rows[at], remaining)])
    case Relist(rows) => c.(rows := rows)
  }

  ghost predicate IsRun(claimId: string, run: seq<Claim>, steps: seq<Step>) {
    && |run| == |steps| + 1
    && run[0].rows == [] && IsActiveClaimStatus(run[0].status)
    && forall i :: 0 <= i < |steps| ==>
         Allowed(claimId, run[i], steps[i]) && run[i + 1] == After(claimId, run[i], steps[i])
  }

  // ------------------------------------------------------- the invariant

  ghost predicate OpenNode(node: Node) {
    node.status == Some(DRAFT) || node.status == Some(PROPOSED)
  }

  /** The chain behind a claim: all rows but the last are finalized, only an original
      is ever proposed, and the claim is active until its original is finalized. */
  ghost predicate ChainOf(nodes: seq<Node>, active: bool, chain: seq<Node>) {
    && multiset(chain) == multiset(nodes)
    && (chain != [] ==> IsChain(chain) && (OpenNode(Last(chain)) || Last(chain).status == Some(FINALIZED)))
    && (forall k :: 0 <= k < |chain| - 1 ==> chain[k].status == Some(FINALIZED))
    && (chain != [] && Last(chain).status == Some(PROPOSED) ==> |chain| == 1)
    && (active <==> chain == [] || (|chain| == 1 && OpenNode(chain[0])))
  }

  ghost predicate OneChain(nodes: seq<Node>, active: bool) {
    exists chain :: ChainOf(nodes, active, chain)
  }

  ghost predicate OwnRows(claimId: string, rows: seq<Determination>) {
    forall i :: 0 <= i < |rows| ==> HasId(rows[i]) && StringField(rows[i].exceptionClaimId) == Some(claimId)
  }

  ghost predicate Sound(claimId: string, c: Claim) {
    OwnRows(claimId, c.rows) && OneChain(WithId(c.rows), IsActiveClaimStatus(c.status))
  }

  lemma {:induction false} StatusTexts()
    ensures StringField(Text(DRAFT)) == Some(DRAFT)
    ensures StringField(Text(PROPOSED)) == Some(PROPOSED)
    ensures StringField(Text(FINALIZED)) == Some(FINALIZED)
    ensures DRAFT != PROPOSED && DRAFT != FINALIZED && PROPOSED != FINALIZED
  {
    assert !IsSpace(DRAFT[0]) && !IsSpace(PROPOSED[0]) && !IsSpace(FINALIZED[0]);
  }

  // ------------------------------------------------ steps on the chain

  lemma {:induction false} ChainAppends(nodes: seq<Node>, active: bool, chain: seq<Node>, node: Node)
    requires ChainOf(nodes, active, chain)
    requires node.status == Some(DRAFT) && !HasKey(nodes, NodeId, node.id)
    requires node.parent == if chain == [] then None else Some(Last(chain).id)
    requires chain != [] ==> Last(chain).status == Some(FINALIZED)
    ensures ChainOf(nodes + [node], active, chain + [node])
  {
    ReorderedKeys(chain, nodes, NodeId);
    KeySetHas(chain, NodeId, node.id);
    KeySetHas(nodes, NodeId, node.id);
    var grown := chain + [node];
    assert grown[..|grown| - 1] == chain;
    DistinctPush(grown, NodeId);
    StatusTexts();
    forall k
      ensures LinkAt(grown, k)
    {
      assert LinkAt(chain, k);
    }
  }

  /** An open row is the last of the chain. */
  lemma {:induction false} OpenIsLast(nodes: seq<Node>, active: bool, chain: seq<Node>, at: nat)
    requires ChainOf(nodes, active, chain) && at < |nodes| && OpenNode(nodes[at])
    ensures chain != [] && Last(chain) == nodes[at]
  {
    var k := ChainPosition(nodes, chain, at);
    StatusTexts();
  }

  lemma {:induction false} ChainAdvances(nodes: seq<Node>, active: bool, chain: seq<Node>, at: nat, node: Node,
    stays: bool)
    requires ChainOf(nodes, active, chain) && at < |nodes| && OpenNode(nodes[at])
    requires node.id == nodes[at].id && node.parent == nodes[at].parent
    requires node.status == Some(FINALIZED) || (node.status == Some(PROPOSED) && |chain| == 1)
    requires stays <==> node.status == Some(PROPOSED)
    ensures OneChain(nodes[at := node], stays)
  {
    OpenIsLast(nodes, active, chain, at);
    StatusTexts();
    ChainMoves(chain, node);
    assert ChainOf(nodes[at := node], stays, chain[|chain| - 1 := node]);
  }

  lemma {:induction false} ChainMoves(chain: seq<Node>, node: Node)
    requires IsChain(chain) && node.id == Last(chain).id && node.parent == Last(chain).parent
    ensures IsChain(chain[|chain| - 1 := node])
  {
    var moved := chain[|chain| - 1 := node];
    forall i, j | 0 <= i < j < |moved|
      ensures NodeId(moved[i]) != NodeId(moved[j])
    {
      assert NodeId(chain[i]) != NodeId(chain[j]);
    }
    forall k
      ensures LinkAt(moved, k)
    {
      assert LinkAt(chain, k);
    }
  }

  // ------------------------------------------------- rows and their nodes

  lemma {:induction false} NodesOfRows(rows: seq<Determination>)
    requires forall i :: 0 <= i < |rows| ==> HasId(rows[i])
    ensures |WithId(rows)| == |rows|
    ensures forall i :: 0 <= i < |rows| ==> WithId(rows)[i] == NodeOf(rows[i])
  {
    if rows != [] {
      NodesOfRows(rows[..|rows| - 1]);
    }
  }

  lemma {:induction false} SomeActive(rows: seq<Determination>)
    ensures ActiveLiabilityDeterminations(rows) == [] <==> forall i :: 0 <= i < |rows| ==> !IsOpen(rows[i])
    ensures |ActiveLiabilityDeterminations(rows)| > 1 ==>
            exists i, j :: 0 <= i < j < |rows| && IsOpen(rows[i]) && IsOpen(rows[j])
  {
    if rows != [] {
      var n := |rows| - 1;
      SomeActive(rows[..n]);
      assert forall i :: 0 <= i < n ==> rows[..n][i] == rows[i];
      if |ActiveLiabilityDeterminations(rows[..n])| > 1 {
        var i, j :| 0 <= i < j < n && IsOpen(rows[..n][i]) && IsOpen(rows[..n][j]);
        assert IsOpen(rows[i]) && IsOpen(rows[j]);
      } else if |ActiveLiabilityDeterminations(rows)| > 1 {
        var i :| 0 <= i < n && IsOpen(rows[..n][i]);
        assert IsOpen(rows[i]) && IsOpen(rows[n]);
      }
    }
  }

  lemma {:induction false} NewNode(rows: seq<Determination>, row: Determination)
    requires (forall i :: 0 <= i < |rows| ==> HasId(rows[i])) && HasId(row) && !HasKey(rows, IdOf, IdOf(row))
    ensures !HasKey(WithId(rows), NodeId, RowId(row))
    ensures WithId(rows + [row]) == WithId(rows) + [NodeOf(row)]
  {
    NodesOfRows(rows);
    WithIdOfConcat(rows, [row]);
    assert WithId([row]) == [NodeOf(row)];
    forall i | 0 <= i < |rows|
      ensures NodeId(WithId(rows)[i]) != RowId(row)
    {
      assert IdOf(rows[i]) != IdOf(row);
    }
  }

  lemma {:induction false} AppendedRow(
    claimId: string, rows: seq<Determination>, active: bool, chain: seq<Node>, row: Determination)
    requires OwnRows(claimId, rows) && ChainOf(WithId(rows), active, chain)
    requires IsNewDraft(claimId, rows, row, if chain == [] then None else Some(Last(chain).id))
    requires chain != [] ==> Last(chain).status == Some(FINALIZED)
    ensures OneChain(WithId(rows + [row]), active)
  {
    StatusTexts();
    NewNode(rows, row);
    ChainAppends(WithId(rows), active, chain, NodeOf(row));
  }

  lemma {:induction false} OwnRowsAppend(claimId: string, rows: seq<Determination>, row: Determination)
    requires OwnRows(claimId, rows) && HasId(row) && StringField(row.exceptionClaimId) == Some(claimId)
    ensures OwnRows(claimId, rows + [row])
  {
  }

  lemma {:induction false} OwnRowsUpdate(claimId: string, rows: seq<Determination>, at: nat, row: Determination)
    requires OwnRows(claimId, rows) && HasId(row) && StringField(row.exceptionClaimId) == Some(claimId) && at < |rows|
    ensures OwnRows(claimId, rows[at := row])
  {
  }

  lemma {:induction false} UpdatedNodes(rows: seq<Determination>, at: nat, row: Determination)
    requires forall i :: 0 <= i < |rows| ==> HasId(rows[i])
    requires at < |rows| && HasId(row)
    ensures |WithId(rows)| == |rows| && WithId(rows[at := row]) == WithId(rows)[at := NodeOf(row)]
  {
    NodesOfRows(rows);
    NodesOfRows(rows[at := row]);
  }

  lemma {:induction false} AdvancedRow(
    rows: seq<Determination>, active: bool, chain: seq<Node>, at: nat, row: Determination, stays: bool)
    requires (forall i :: 0 <= i < |rows| ==> HasId(rows[i])) && ChainOf(WithId(rows), active, chain)
    requires at < |rows| && IsOpen(rows[at]) && HasId(row)
    requires NodeOf(row) == NodeOf(rows[at]).(status := Status(row))
    requires Status(row) == Some(FINALIZED) || (Status(row) == Some(PROPOSED) && |chain| == 1)
    requires stays <==> Status(row) == Some(PROPOSED)
    ensures OneChain(WithId(rows[at := row]), stays)
  {
    NodesOfRows(rows);
    UpdatedNodes(rows, at, row);
    ChainAdvances(WithId(rows), active, chain, at, NodeOf(row), stays);
  }

  /** What a claim's chain looks like from the screen: the verdict of the analysis. */
  lemma {:induction false} TopologyOfChain(nodes: seq<Node>, active: bool, chain: seq<Node>)
    requires ChainOf(nodes, active, chain)
    ensures TopologyOf(nodes) ==
            if chain == [] then Topology(false, Empty, None)
            else if OpenNode(Last(chain)) then Topology(false, NoTip, None)
            else Topology(true, Safe, Some(Last(chain).id))
  {
    if chain == [] {
      assert |multiset(nodes)| == 0;
    } else {
      StatusTexts();
      ChainIsTree(nodes, chain);
      SafeIsOneFinalizedChain(nodes);
      if OpenNode(Last(chain)) {
        assert forall i :: !FinalizedTip(nodes, i);
      } else {
        assert IsSafeChain(nodes, chain);
      }
    }
  }

  // ------------------------------------------------------- the theorems

  lemma {:induction false} DraftKeepsChain(claimId: string, c: Claim, step: Step)
    requires Sound(claimId, c) && Allowed(claimId, c, step) && step.CreateDraft?
    ensures Sound(claimId, After(claimId, c, step))
  {
    var nodes := WithId(c.rows);
    var chain :| ChainOf(nodes, IsActiveClaimStatus(c.status), chain);
    NodesOfRows(c.rows);
    SomeActive(c.rows);
    if chain != [] {
      var at := ChainPosition(chain, nodes, |chain| - 1);
    }
    AppendedRow(claimId, c.rows, IsActiveClaimStatus(c.status), chain, step.row);
    OwnRowsAppend(claimId, c.rows, step.row);
  }

  lemma {:induction false} AdjustmentKeepsChain(claimId: string, c: Claim, step: Step)
    requires Sound(claimId, c) && Allowed(claimId, c, step) && step.CreateAdjustment?
    ensures Sound(claimId, After(claimId, c, step))
  {
    var active := IsActiveClaimStatus(c.status);
    var chain :| ChainOf(WithId(c.rows), active, chain);
    TopologyOfChain(WithId(c.rows), active, chain);
    AppendedRow(claimId, c.rows, active, chain, step.row);
    OwnRowsAppend(claimId, c.rows, step.row);
  }

  lemma {:induction false} AdvanceKeepsChain(claimId: string, c: Claim, at: nat, row: Determination, status: Cell)
    requires Sound(claimId, c) && at < |c.rows| && IsOpen(c.rows[at])
    requires row.id == c.rows[at].id && row.adjustmentOfDeterminationId == c.rows[at].adjustmentOfDeterminationId
    requires row.exceptionClaimId == c.rows[at].exceptionClaimId
    requires row.status == Text(FINALIZED) || (row.status == Text(PROPOSED) && IsActiveClaimStatus(c.status))
    requires IsActiveClaimStatus(status) <==> row.status == Text(PROPOSED)
    ensures Sound(claimId, Claim(status, c.rows[at := row]))
  {
    var active := IsActiveClaimStatus(c.status);
    var chain :| ChainOf(WithId(c.rows), active, chain);
    StatusTexts();
    NodesOfRows(c.rows);
    OpenIsLast(WithId(c.rows), active, chain, at);
    AdvancedRow(c.rows, active, chain, at, row, IsActiveClaimStatus(status));
    OwnRowsUpdate(claimId, c.rows, at, row);
  }

  /** Once a successor exists, the original is finalized, so the claim is not active. */
  lemma {:induction false} OpenSuccessorMeansInactive(claimId: string, c: Claim, at: nat)
    requires Sound(claimId, c) && at < |c.rows| && IsOpen(c.rows[at]) && IsSuccessor(c.rows[at])
    ensures !IsActiveClaimStatus(c.status)
  {
    var active := IsActiveClaimStatus(c.status);
    var chain :| ChainOf(WithId(c.rows), active, chain);
    NodesOfRows(c.rows);
    OpenIsLast(WithId(c.rows), active, chain, at);
  }

  lemma {:induction false} RelistKeepsChain(claimId: string, c: Claim, rows: seq<Determination>)
    requires Sound(claimId, c) && multiset(rows) == multiset(c.rows)
    ensures Sound(claimId, c.(rows := rows))
  {
    var active := IsActiveClaimStatus(c.status);
    var chain :| ChainOf(WithId(c.rows), active, chain);
    ReorderedKeys(rows, c.rows, IdOf);
    WithIdOfReordered(rows, c.rows);
    assert ChainOf(WithId(rows), active, chain);
    forall i | 0 <= i < |rows|
      ensures HasId(rows[i]) && StringField(rows[i].exceptionClaimId) == Some(claimId)
    {
      assert rows[i] in c.rows;
    }
  }

  lemma {:induction false} StepKeepsChain(claimId: string, c: Claim, step: Step)
    requires Sound(claimId, c) && Allowed(claimId, c, step)
    ensures Sound(claimId, After(claimId, c, step))
  {
    match step {
      case CreateDraft(_, _, _) => DraftKeepsChain(claimId, c, step);
      case SubmitDraft(at, status) =>
        AdvanceKeepsChain(claimId, c, at, WithStatus(c.rows[at], PROPOSED), status);
      case RecordOriginal(at, _, remaining, status) =>
        AdvanceKeepsChain(claimId, c, at, Finalize(c.rows[at], remaining), status);
      case CreateAdjustment(_, _, _) => AdjustmentKeepsChain(claimId, c, step);
      case RecordSuccessor(at, _, remaining) =>
        OpenSuccessorMeansInactive(claimId, c, at);
        AdvanceKeepsChain(claimId, c, at, Finalize(c.rows[at], remaining), c.status);
      case Relist(rows) => RelistKeepsChain(claimId, c, rows);
    }
  }

  lemma {:induction false} RunsKeepOneChain(claimId: string, run: seq<Claim>, steps: seq<Step>, i: nat)
    requires IsRun(claimId, run, steps) && i < |run|
    ensures Sound(claimId, run[i])
  {
    if i == 0 {
      assert ChainOf(WithId(run[0].rows), true, []);
    } else {
      RunsKeepOneChain(claimId, run, steps, i - 1);
      StepKeepsChain(claimId, run[i - 1], steps[i - 1]);
    }
  }

  lemma {:induction false} ChainRows(nodes: seq<Node>, active: bool, chain: seq<Node>, k: int, m: int)
    requires ChainOf(nodes, active, chain) && 0 <= k < |nodes| && 0 <= m < |nodes|
    ensures OpenNode(nodes[k]) || nodes[k].status == Some(FINALIZED)
    ensures k != m ==> !(OpenNode(nodes[k]) && OpenNode(nodes[m])) && !(nodes[k].parent.None? && nodes[m].parent.None?)
  {
    StatusTexts();
    ReorderedKeys(chain, nodes, NodeId);
    var p := ChainPosition(nodes, chain, k);
    var q := ChainPosition(nodes, chain, m);
    assert LinkAt(chain, p) && LinkAt(chain, q);
    assert k != m ==> NodeId(nodes[k]) != NodeId(nodes[m]);
  }

  lemma {:induction false} EmptyTogether(rows: seq<Determination>, active: bool, chain: seq<Node>)
    requires (forall i :: 0 <= i < |rows| ==> HasId(rows[i])) && ChainOf(WithId(rows), active, chain)
    ensures rows == [] <==> chain == []
  {
    NodesOfRows(rows);
    assert |multiset(chain)| == |multiset(WithId(rows))|;
  }

  lemma {:induction false} OneOpenRow(rows: seq<Determination>, active: bool, chain: seq<Node>)
    requires (forall i :: 0 <= i < |rows| ==> HasId(rows[i])) && ChainOf(WithId(rows), active, chain)
    ensures |ActiveLiabilityDeterminations(rows)| <= 1
  {
    NodesOfRows(rows);
    SomeActive(rows);
    forall k, m | 0 <= k < m < |rows|
      ensures !(IsOpen(rows[k]) && IsOpen(rows[m]))
    {
      ChainRows(WithId(rows), active, chain, k, m);
    }
  }

  lemma {:induction false} OpenMeansLast(rows: seq<Determination>, active: bool, chain: seq<Node>)
    requires (forall i :: 0 <= i < |rows| ==> HasId(rows[i])) && ChainOf(WithId(rows), active, chain)
    ensures (exists k :: 0 <= k < |rows| && IsOpen(rows[k])) <==> chain != [] && OpenNode(Last(chain))
  {
    var nodes := WithId(rows);
    NodesOfRows(rows);
    if chain != [] && OpenNode(Last(chain)) {
      var at := ChainPosition(chain, nodes, |chain| - 1);
      assert IsOpen(rows[at]);
    }
    if k :| 0 <= k < |rows| && IsOpen(rows[k]) {
      OpenIsLast(nodes, active, chain, k);
    }
  }

  lemma {:induction false} OpenRows(rows: seq<Determination>, active: bool, chain: seq<Node>)
    requires (forall i :: 0 <= i < |rows| ==> HasId(rows[i])) && ChainOf(WithId(rows), active, chain)
    ensures |ActiveLiabilityDeterminations(rows)| <= 1
    ensures ActiveLiabilityDeterminations(rows) != [] <==> chain != [] && OpenNode(Last(chain))
    ensures rows == [] <==> chain == []
  {
    EmptyTogether(rows, active, chain);
    OneOpenRow(rows, active, chain);
    OpenMeansLast(rows, active, chain);
    SomeActive(rows);
  }

  /** In every claim a run reaches: at most one open determination, at most one original,
      every row but the open one finalized, and the analysis says `empty`, `no_tip` or safe,
      `no_tip` exactly while a determination is open. */
  lemma {:induction false} ReachedClaims(claimId: string, run: seq<Claim>, steps: seq<Step>, i: nat)
    requires IsRun(claimId, run, steps) && i < |run|
    ensures |ActiveLiabilityDeterminations(run[i].rows)| <= 1
    ensures forall k :: 0 <= k < |run[i].rows| ==> IsOpen(run[i].rows[k]) || Status(run[i].rows[k]) == Some(FINALIZED)
    ensures forall k, m :: 0 <= k < m < |run[i].rows| ==> IsSuccessor(run[i].rows[k]) || IsSuccessor(run[i].rows[m])
    ensures TopologyOf(WithId(run[i].rows)).reason ==
            if run[i].rows == [] then Empty
            else if ActiveLiabilityDeterminations(run[i].rows) != [] then NoTip else Safe
  {
    RunsKeepOneChain(claimId, run, steps, i);
    var rows, active := run[i].rows, IsActiveClaimStatus(run[i].status);
    var chain :| ChainOf(WithId(rows), active, chain);
    TopologyOfChain(WithId(rows), active, chain);
    OpenRows(rows, active, chain);
    NodesOfRows(rows);
    forall k, m | 0 <= k < |rows| && 0 <= m < |rows|
      ensures IsOpen(rows[k]) || Status(rows[k]) == Some(FINALIZED)
      ensures k < m ==> IsSuccessor(rows[k]) || IsSuccessor(rows[m])
    {
      ChainRows(WithId(rows), active, chain, k, m);
    }
  }

  /** Recording a successor draft is never blocked by topology: the guard asks of it
      only that its stored allocations name known debtors. */
  lemma {:induction false} SuccessorDraftIsRecordable(claimId: string, run: seq<Claim>, steps: seq<Step>, i: nat,
    at: nat, options: seq<DebtorOption>)
    requires IsRun(claimId, run, steps) && i < |run|
    requires at < |run[i].rows| && IsSuccessor(run[i].rows[at]) && IsOpen(run[i].rows[at])
    ensures TopologyOf(WithId(run[i].rows)).reason == NoTip
    ensures CanRecordSuccessorLiability(claimId, run[i].rows[at], run[i].rows, options) <==>
            AllNamed(run[i].rows[at].allocations, options)
  {
    RunsKeepOneChain(claimId, run, steps, i);
    var rows, active := run[i].rows, IsActiveClaimStatus(run[i].status);
    var chain :| ChainOf(WithId(rows), active, chain);
    TopologyOfChain(WithId(rows), active, chain);
    NodesOfRows(rows);
    OpenIsLast(WithId(rows), active, chain, at);
    SuccessorDraft(rows, active, chain, at);
    BoundedMeansNamed(rows[at].allocations, options);
  }

  /** An open successor is a draft, no row adjusts it, and its parent is there, finalized. */
  lemma {:induction false} SuccessorDraft(rows: seq<Determination>, active: bool, chain: seq<Node>, at: nat)
    requires (forall i :: 0 <= i < |rows| ==> HasId(rows[i])) && ChainOf(WithId(rows), active, chain)
    requires at < |rows| && IsOpen(rows[at]) && IsSuccessor(rows[at])
    ensures Status(rows[at]) == Some(DRAFT)
    ensures !exists i :: 0 <= i < |rows| && Parent(rows[i]) == IdOf(rows[at])
    ensures var parent := Find(rows, IdOf, Parent(rows[at]));
            parent.Some? && Status(parent.value) == Some(FINALIZED)
  {
    var nodes := WithId(rows);
    NodesOfRows(rows);
    StatusTexts();
    OpenIsLast(nodes, active, chain, at);
    assert LinkAt(chain, |chain| - 1);
    var up := ChainPosition(chain, nodes, |chain| - 2);
    ParentIsFound(rows, nodes, chain, up);
    ChainLeaf(nodes, chain, at);
    forall k | 0 <= k < |rows|
      ensures Parent(rows[k]) != IdOf(rows[at])
    {
      assert nodes[k].parent != Some(nodes[at].id);
    }
  }

  lemma {:induction false} ParentIsFound(rows: seq<Determination>, nodes: seq<Node>, chain: seq<Node>, up: int)
    requires nodes == WithId(rows) && |nodes| == |rows| && 0 <= up < |rows|
    requires forall i :: 0 <= i < |rows| ==> HasId(rows[i]) && nodes[i] == NodeOf(rows[i])
    requires IsChain(chain) && multiset(chain) == multiset(nodes)
    ensures Find(rows, IdOf, Some(nodes[up].id)) == Some(rows[up])
  {
    ReorderedKeys(chain, nodes, NodeId);
    forall i, j | 0 <= i < j < |rows|
      ensures IdOf(rows[i]) != IdOf(rows[j])
    {
      assert NodeId(nodes[i]) != NodeId(nodes[j]);
    }
    FindIsThatRow(rows, IdOf, up);
  }

  // ------------------------------------------------------- one thing at a time

  datatype Phase = Undetermined | Drafted | AwaitingRecord | Settled | Adjusting

  /** Where a claim stands, from its open determination. */
  function PhaseOf(rows: seq<Determination>): Phase {
    var open := ActiveLiabilityDeterminations(rows);
    if rows == [] then Undetermined
    else if open == [] then Settled
    else if IsSuccessor(open[0]) then Adjusting
    else if Status(open[0]) == Some(DRAFT) then Drafted
    else AwaitingRecord
  }

  lemma {:induction false} TheOpenRow(rows: seq<Determination>, at: nat)
    requires at < |rows| && IsOpen(rows[at]) && |ActiveLiabilityDeterminations(rows)| <= 1
    ensures ActiveLiabilityDeterminations(rows) == [rows[at]]
  {
    var n := |rows| - 1;
    if at < n {
      TheOpenRow(rows[..n], at);
    } else {
      assert |ActiveLiabilityDeterminations(rows[..n])| == 0;
    }
  }

  /** In a reached claim with an open row, the row decides the phase, is not yet
      adjusted, and is a successor exactly if the claim is no longer active. */
  lemma {:induction false} OpenRowOfRun(claimId: string, run: seq<Claim>, steps: seq<Step>, i: nat, at: nat)
    requires IsRun(claimId, run, steps) && i < |run| && at < |run[i].rows| && IsOpen(run[i].rows[at])
    ensures ActiveLiabilityDeterminations(run[i].rows) == [run[i].rows[at]]
    ensures IsActiveClaimStatus(run[i].status) <==> !IsSuccessor(run[i].rows[at])
    ensures StringField(run[i].rows[at].exceptionClaimId) == Some(claimId)
  {
    RunsKeepOneChain(claimId, run, steps, i);
    ReachedClaims(claimId, run, steps, i);
    var rows, active := run[i].rows, IsActiveClaimStatus(run[i].status);
    var chain :| ChainOf(WithId(rows), active, chain);
    TheOpenRow(rows, at);
    NodesOfRows(rows);
    OpenIsLast(WithId(rows), active, chain, at);
    assert LinkAt(chain, |chain| - 1);
  }

  /** In every reached claim each guard holds exactly in its own phase, for the one open
      determination: so at any time at most one kind of step is offered. */
  lemma {:induction false} GuardsFollowPhase(
    claimId: string, run: seq<Claim>, steps: seq<Step>, i: nat, at: nat, facts: nat, options: seq<DebtorOption>)
    requires IsRun(claimId, run, steps) && i < |run|
    ensures var (c, phase) := (run[i], PhaseOf(run[i].rows));
            CanCreateLiabilityDraft(c.status, facts, c.rows, options) <==>
              phase.Undetermined? && facts > 0 && |options| > 0
    ensures at < |run[i].rows| ==>
              var (c, row, phase) := (run[i], run[i].rows[at], PhaseOf(run[i].rows));
              && (CanSubmitEligibleLiabilityDraft(claimId, c.status, row) <==> phase.Drafted? && IsOpen(row))
              && (CanRecordOriginalLiability(claimId, row, options) <==>
                    phase.AwaitingRecord? && IsOpen(row) && AllNamed(row.allocations, options))
              && (CanRecordSuccessorLiability(claimId, row, c.rows, options) <==>
                    phase.Adjusting? && IsOpen(row) && AllNamed(row.allocations, options))
  {
    var c := run[i];
    StatusTexts();
    ReachedClaims(claimId, run, steps, i);
    NewClaimOnly(claimId, run, steps, i);
    if at < |c.rows| {
      BoundedMeansNamed(c.rows[at].allocations, options);
    }
    if at < |c.rows| && IsOpen(c.rows[at]) {
      OpenRowOfRun(claimId, run, steps, i, at);
      if IsSuccessor(c.rows[at]) {
        SuccessorDraftIsRecordable(claimId, run, steps, i, at, options);
        SuccessorIsDraft(claimId, run, steps, i, at);
      }
    }
  }

  lemma {:induction false} SuccessorIsDraft(claimId: string, run: seq<Claim>, steps: seq<Step>, i: nat, at: nat)
    requires IsRun(claimId, run, steps) && i < |run|
    requires at < |run[i].rows| && IsOpen(run[i].rows[at]) && IsSuccessor(run[i].rows[at])
    ensures Status(run[i].rows[at]) == Some(DRAFT)
  {
    RunsKeepOneChain(claimId, run, steps, i);
    var chain :| ChainOf(WithId(run[i].rows), IsActiveClaimStatus(run[i].status), chain);
    SuccessorDraft(run[i].rows, IsActiveClaimStatus(run[i].status), chain, at);
  }

  /** A claim with no open determination is active exactly before its first one. */
  lemma {:induction false} NewClaimOnly(claimId: string, run: seq<Claim>, steps: seq<Step>, i: nat)
    requires IsRun(claimId, run, steps) && i < |run|
    ensures ActiveLiabilityDeterminations(run[i].rows) == [] ==>
            (IsActiveClaimStatus(run[i].status) <==> run[i].rows == [])
    ensures run[i].rows == [] ==> IsActiveClaimStatus(run[i].status)
  {
    RunsKeepOneChain(claimId, run, steps, i);
    var rows, active := run[i].rows, IsActiveClaimStatus(run[i].status);
    var chain :| ChainOf(WithId(rows), active, chain);
    OpenRows(rows, active, chain);
  }

  /** An adjustment is offered exactly on a settled claim whose last determination, found
      by the analysis, still has an amount remaining. */
  lemma {:induction false} AdjustmentNeedsRemainder(
    claimId: string, run: seq<Claim>, steps: seq<Step>, i: nat, facts: nat, options: seq<DebtorOption>)
    requires IsRun(claimId, run, steps) && i < |run|
    ensures var (rows, phase) := (run[i].rows, PhaseOf(run[i].rows));
            CanCreateSuccessorAdjustment(facts, rows, options) <==>
              && phase.Settled? && facts > 0 && |options| > 0
              && exists k :: 0 <= k < |rows| && IsLastOf(rows, k)
                             && rows[k].remainingAmountSnapshot.Text?
                             && IsPositiveMoneyString(rows[k].remainingAmountSnapshot.text)
  {
    ReachedClaims(claimId, run, steps, i);
    var rows := run[i].rows;
    if PhaseOf(rows).Settled? {
      var k := SettledTip(claimId, run, steps, i);
      forall j | 0 <= j < |rows| && IsLastOf(rows, j)
        ensures j == k
      {
        SettledLast(claimId, run, steps, i, j, k);
      }
    }
  }

  /** No row adjusts this one. */
  ghost predicate IsLastOf(rows: seq<Determination>, k: nat)
    requires k < |rows|
  {
    forall j :: 0 <= j < |rows| ==> Parent(rows[j]) != IdOf(rows[k])
  }

  lemma {:induction false} SettledTip(claimId: string, run: seq<Claim>, steps: seq<Step>, i: nat) returns (k: nat)
    requires IsRun(claimId, run, steps) && i < |run| && PhaseOf(run[i].rows).Settled?
    ensures k < |run[i].rows| && IsLastOf(run[i].rows, k) && Status(run[i].rows[k]) == Some(FINALIZED)
    ensures TopologyOf(WithId(run[i].rows)) == Topology(true, Safe, IdOf(run[i].rows[k]))
    ensures Find(run[i].rows, IdOf, IdOf(run[i].rows[k])) == Some(run[i].rows[k])
  {
    RunsKeepOneChain(claimId, run, steps, i);
    var rows, active := run[i].rows, IsActiveClaimStatus(run[i].status);
    var chain :| ChainOf(WithId(rows), active, chain);
    OpenRows(rows, active, chain);
    k := TipOfChain(rows, active, chain);
  }

  lemma {:induction false} TipOfChain(rows: seq<Determination>, active: bool, chain: seq<Node>) returns (k: nat)
    requires (forall i :: 0 <= i < |rows| ==> HasId(rows[i])) && ChainOf(WithId(rows), active, chain)
    requires chain != [] && !OpenNode(Last(chain))
    ensures k < |rows| && IsLastOf(rows, k) && Status(rows[k]) == Some(FINALIZED)
    ensures TopologyOf(WithId(rows)) == Topology(true, Safe, IdOf(rows[k]))
    ensures Find(rows, IdOf, IdOf(rows[k])) == Some(rows[k])
  {
    var nodes := WithId(rows);
    TopologyOfChain(nodes, active, chain);
    NodesOfRows(rows);
    k := ChainPosition(chain, nodes, |chain| - 1);
    ParentIsFound(rows, nodes, chain, k);
    LastRow(rows, nodes, chain, k);
  }

  lemma {:induction false} LastRow(rows: seq<Determination>, nodes: seq<Node>, chain: seq<Node>, k: nat)
    requires nodes == WithId(rows) && |nodes| == |rows| && k < |rows|
    requires forall i :: 0 <= i < |rows| ==> HasId(rows[i]) && nodes[i] == NodeOf(rows[i])
    requires IsChain(chain) && multiset(chain) == multiset(nodes)
    ensures IsLastOf(rows, k) <==> nodes[k] == Last(chain)
  {
    ChainLeaf(nodes, chain, k);
    assert IdOf(rows[k]) == Some(nodes[k].id);
    assert forall j :: 0 <= j < |rows| ==> Parent(rows[j]) == nodes[j].parent;
  }

  lemma {:induction false} SettledLast(claimId: string, run: seq<Claim>, steps: seq<Step>, i: nat, j: nat, k: nat)
    requires IsRun(claimId, run, steps) && i < |run| && j < |run[i].rows| && k < |run[i].rows|
    requires IsLastOf(run[i].rows, j) && IsLastOf(run[i].rows, k)
    ensures j == k
  {
    RunsKeepOneChain(claimId, run, steps, i);
    var rows := run[i].rows;
    var nodes := WithId(rows);
    var chain :| ChainOf(nodes, IsActiveClaimStatus(run[i].status), chain);
    NodesOfRows(rows);
    ReorderedKeys(chain, nodes, NodeId);
    LastRow(rows, nodes, chain, j);
    LastRow(rows, nodes, chain, k);
    SameKeySameRow(nodes, NodeId, j, k);
  }
}
