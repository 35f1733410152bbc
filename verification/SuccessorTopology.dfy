/** `analyzeSuccessorTopology`: is a claim's set of liability determinations one
    unbranched chain that ends in a finalized row? */
module SuccessorTopology {
  import opened Basics
  import opened ClaimRecords

  datatype Reason =
    | Safe | Empty | Cycle | Branch | MissingParent | Disconnected | MultipleTips | NoTip

  datatype Topology = Topology(safe: bool, reason: Reason, tipId: Option<string>)

  // ------------------------------------------------------------ the graph

  /** What the analysis reads of a row that has an id. */
  datatype Node = Node(id: string, parent: Option<string>, status: Option<string>)

  function NodeOf(row: Determination): Node {
    Node(RowId(row), Parent(row), Status(row))
  }

  function NodeId(node: Node): string {
    node.id
  }

  /** `determinations.filter(row => stringField(row, 'id') != null)`. */
  function WithId(rows: seq<Determination>): seq<Node> {
    if rows == [] then []
    else WithId(rows[..|rows| - 1])
         + (if HasId(rows[|rows| - 1]) then [NodeOf(rows[|rows| - 1])] else [])
  }

  /** `new Map(rows.map(...))`: the last row with an id wins. */
  function ById(rows: seq<Node>): map<string, Node> {
    if rows == [] then map[]
    else ById(rows[..|rows| - 1])[rows[|rows| - 1].id := rows[|rows| - 1]]
  }

  /** The children recorded under a parent id, in row order. */
  function Kids(rows: seq<Node>, parent: string): seq<string> {
    if rows == [] then []
    else Kids(rows[..|rows| - 1], parent)
         + (if rows[|rows| - 1].parent == Some(parent) then [rows[|rows| - 1].id] else [])
  }

  function Roots(rows: seq<Node>): seq<string> {
    if rows == [] then []
    else Roots(rows[..|rows| - 1])
         + (if rows[|rows| - 1].parent.None? then [rows[|rows| - 1].id] else [])
  }

  ghost predicate ParentFound(rows: seq<Node>, i: int) {
    0 <= i < |rows| && rows[i].parent.Some? ==> rows[i].parent.value in KeySet(rows, NodeId)
  }

  ghost predicate NoMissingParent(rows: seq<Node>) {
    forall i :: ParentFound(rows, i)
  }

  ghost predicate Branched(rows: seq<Node>) {
    exists i, j :: 0 <= i < j < |rows| && rows[i].parent.Some? && rows[i].parent == rows[j].parent
  }

  ghost predicate TwoRoots(rows: seq<Node>) {
    exists i, j :: 0 <= i < j < |rows| && rows[i].parent.None? && rows[j].parent.None?
  }

  ghost predicate Leaf(rows: seq<Node>, id: string) {
    forall i :: 0 <= i < |rows| ==> rows[i].parent != Some(id)
  }

  ghost predicate FinalizedTip(rows: seq<Node>, i: int) {
    0 <= i < |rows| && rows[i].status == Some(FINALIZED) && Leaf(rows, rows[i].id)
  }

  // ------------------------------------------------------- parent pointers

  function Up(byId: map<string, Node>, id: string): Option<string> {
    if id in byId then byId[id].parent else None
  }

  /** The walk from `id` along parent pointers visits at most `n` ids. */
  ghost predicate Ends(byId: map<string, Node>, id: string, n: nat)
    decreases n
  {
    n > 0 && (Up(byId, id).None? || Ends(byId, Up(byId, id).value, n - 1))
  }

  ghost predicate WalkEnds(byId: map<string, Node>, id: string) {
    exists n: nat :: Ends(byId, id, n)
  }

  ghost predicate Acyclic(rows: seq<Node>) {
    forall i :: 0 <= i < |rows| ==> WalkEnds(ById(rows), rows[i].id)
  }

  ghost predicate Reaches(byId: map<string, Node>, from: string, to: string, steps: nat)
    decreases steps
  {
    if steps == 0 then from == to
    else Up(byId, from).Some? && Reaches(byId, Up(byId, from).value, to, steps - 1)
  }

  ghost predicate Below(byId: map<string, Node>, from: string, to: string) {
    exists steps: nat :: steps > 0 && Reaches(byId, from, to, steps)
  }

  // ------------------------------------------------------- the verdict

  /** The conditions of the analysis, minus the finalized tip. */
  ghost predicate Tree(rows: seq<Node>) {
    NoMissingParent(rows) && Acyclic(rows) && !Branched(rows) && !TwoRoots(rows)
  }

  /** What the analysis decides, without maps, loops or early exits. */
  ghost function TopologyOf(rows: seq<Node>): (t: Topology)
    ensures t.safe <==> t.reason == Safe
    ensures t.safe <==> t.tipId.Some?
  {
    if rows == [] then Topology(false, Empty, None)
    else if !NoMissingParent(rows) then Topology(false, MissingParent, None)
    else if !Acyclic(rows) then Topology(false, Cycle, None)
    else if Branched(rows) then Topology(false, Branch, None)
    else if TwoRoots(rows) then Topology(false, Disconnected, None)
    else if exists i :: FinalizedTip(rows, i) then
      var i :| FinalizedTip(rows, i);
      Topology(true, Safe, Some(rows[i].id))
    else Topology(false, NoTip, None)
  }

  // ------------------------------------------------------- walking up

  lemma {:induction false} ReachesThenEnds(byId: map<string, Node>, from: string, to: string, steps: nat, n: nat)
    requires Reaches(byId, from, to, steps)
    ensures Ends(byId, from, n + steps) <==> Ends(byId, to, n)
    decreases steps
  {
    if steps > 0 {
      ReachesThenEnds(byId, Up(byId, from).value, to, steps - 1, n);
    }
  }

  lemma {:induction false} OneMoreStep(byId: map<string, Node>, from: string, to: string, steps: nat)
    requires Reaches(byId, from, to, steps) && Up(byId, to).Some?
    ensures Reaches(byId, from, Up(byId, to).value, steps + 1)
    decreases steps
  {
    if steps > 0 {
      OneMoreStep(byId, Up(byId, from).value, to, steps - 1);
    }
  }

  lemma {:induction false} EndsLater(byId: map<string, Node>, id: string, n: nat, m: nat)
    requires Ends(byId, id, n) && n <= m
    ensures Ends(byId, id, m)
    decreases n
  {
    if Up(byId, id).Some? {
      EndsLater(byId, Up(byId, id).value, n - 1, m - 1);
    }
  }

  /** An id that comes back to itself is on no walk that ends. */
  lemma {:induction false} LoopNeverEnds(byId: map<string, Node>, id: string, steps: nat, n: nat)
    requires steps > 0 && Reaches(byId, id, id, steps)
    ensures !Ends(byId, id, n)
  {
    if Ends(byId, id, n) {
      if n < steps {
        EndsLater(byId, id, n, steps);
        ReachesThenEnds(byId, id, id, steps, 0);
      } else {
        ReachesThenEnds(byId, id, id, steps, n - steps);
        LoopNeverEnds(byId, id, steps, n - steps);
      }
    }
  }

  /** One `while (current)` walk of the source, with its `seen` set. */
  method WalkToRoot(byId: map<string, Node>, start: string) returns (ends: bool)
    requires start in byId
    requires forall id :: id in byId && Up(byId, id).Some? ==> Up(byId, id).value in byId
    ensures ends <==> WalkEnds(byId, start)
  {
    var seen: set<string> := {};
    var current := Some(start);
    ghost var steps: nat := 0;
    while current.Some?
      invariant seen <= byId.Keys
      invariant current.Some? ==> current.value in byId && Reaches(byId, start, current.value, steps)
      invariant current.Some? ==> forall id :: id in seen ==> Below(byId, id, current.value)
      invariant current.None? ==> Ends(byId, start, steps)
      decreases byId.Keys - seen, current.Some?
    {
      var id := current.value;
      if id in seen {
        ghost var round: nat :| round > 0 && Reaches(byId, id, id, round);
        forall n: nat
          ensures !Ends(byId, start, n)
        {
          if Ends(byId, start, n) {
            EndsLater(byId, start, n, n + steps);
            ReachesThenEnds(byId, start, id, steps, n);
            LoopNeverEnds(byId, id, round, n);
          }
        }
        return false;
      }
      seen := seen + {id};
      current := Up(byId, id);
      if current.Some? {
        OneMoreStep(byId, start, id, steps);
        forall s | s in seen
          ensures Below(byId, s, current.value)
        {
          if s == id {
            assert Reaches(byId, s, current.value, 1);
          } else {
            var k: nat :| k > 0 && Reaches(byId, s, id, k);
            OneMoreStep(byId, s, id, k);
          }
        }
      } else {
        assert Ends(byId, id, 1);
        ReachesThenEnds(byId, start, id, steps, 1);
      }
      steps := steps + 1;
    }
    return true;
  }

  // ------------------------------------------------- facts about the maps

  lemma {:induction false} ByIdMeans(rows: seq<Node>)
    ensures ById(rows).Keys == KeySet(rows, NodeId)
    ensures forall id :: id in ById(rows) ==> ById(rows)[id] in rows && ById(rows)[id].id == id
  {
    if rows != [] {
      var n := |rows| - 1;
      ByIdMeans(rows[..n]);
      KeySetPush(rows, NodeId);
    }
  }

  lemma {:induction false} ByIdOfDistinct(rows: seq<Node>, i: int)
    requires DistinctKeys(rows, NodeId) && 0 <= i < |rows|
    ensures rows[i].id in ById(rows) && ById(rows)[rows[i].id] == rows[i]
  {
    ByIdMeans(rows);
    assert rows[i] in rows;
    var found := ById(rows)[rows[i].id];
    var j :| 0 <= j < |rows| && rows[j] == found;
    assert i == j;
  }

  lemma {:induction false} KidsMean(rows: seq<Node>, parent: string)
    ensures Kids(rows, parent) == [] <==> Leaf(rows, parent)
    ensures |Kids(rows, parent)| > 1 <==>
            exists i, j :: 0 <= i < j < |rows| && rows[i].parent == Some(parent) == rows[j].parent
  {
    if rows != [] {
      var n := |rows| - 1;
      KidsMean(rows[..n], parent);
      assert forall i :: 0 <= i < n ==> rows[..n][i] == rows[i];
      if |Kids(rows[..n], parent)| > 0 && rows[n].parent == Some(parent) {
        var i :| 0 <= i < |rows[..n]| && rows[..n][i].parent == Some(parent);
        assert rows[i].parent == Some(parent) == rows[n].parent;
      }
      if |Kids(rows[..n], parent)| > 1 {
        var i, j :| 0 <= i < j < n && rows[..n][i].parent == Some(parent) == rows[..n][j].parent;
        assert rows[i].parent == Some(parent) == rows[j].parent;
      }
      if i, j :| 0 <= i < j < |rows| && rows[i].parent == Some(parent) == rows[j].parent {
        assert rows[..n][i].parent == Some(parent);
        if j < n {
          assert rows[..n][j].parent == Some(parent);
        }
      }
    }
  }

  lemma {:induction false} RootsMean(rows: seq<Node>)
    ensures Roots(rows) == [] <==> forall i :: 0 <= i < |rows| ==> rows[i].parent.Some?
    ensures |Roots(rows)| > 1 <==> TwoRoots(rows)
  {
    if rows != [] {
      var n := |rows| - 1;
      RootsMean(rows[..n]);
      assert forall i :: 0 <= i < n ==> rows[..n][i] == rows[i];
      if |Roots(rows[..n])| > 0 && rows[n].parent.None? {
        var i :| 0 <= i < |rows[..n]| && rows[..n][i].parent.None?;
        assert rows[i].parent.None? && rows[n].parent.None?;
      }
      if TwoRoots(rows[..n]) {
        var i, j :| 0 <= i < j < n && rows[..n][i].parent.None? && rows[..n][j].parent.None?;
        assert rows[i].parent.None? && rows[j].parent.None?;
      }
      if TwoRoots(rows) {
        var i, j :| 0 <= i < j < |rows| && rows[i].parent.None? && rows[j].parent.None?;
        assert rows[..n][i].parent.None?;
        if j < n {
          assert rows[..n][j].parent.None?;
        }
      }
    }
  }

  // ------------------------------------------------------ dead exits

  ghost function ParentSet(rows: seq<Node>): set<string> {
    set i | 0 <= i < |rows| && rows[i].parent.Some? :: rows[i].parent.value
  }

  lemma {:induction false} ParentSetPush(front: seq<Node>, last: Node)
    ensures ParentSet(front + [last]) ==
            ParentSet(front) + (if last.parent.Some? then {last.parent.value} else {})
  {
    var rows := front + [last];
    assert rows[|front|] == last;
    assert forall i :: 0 <= i < |front| ==> rows[i] == front[i];
    forall p
      ensures p in ParentSet(rows) <==> p in ParentSet(front) || last.parent == Some(p)
    {
      if p in ParentSet(front) {
        var i :| 0 <= i < |front| && front[i].parent == Some(p);
        assert rows[i].parent == Some(p);
      }
    }
  }

  /** In front of its last row a list without branches has none, and other parents. */
  lemma {:induction false} FrontHasOtherParents(front: seq<Node>, last: Node)
    requires !Branched(front + [last]) && !TwoRoots(front + [last])
    ensures !Branched(front) && !TwoRoots(front)
    ensures if last.parent.Some? then last.parent.value !in ParentSet(front)
            else forall i :: 0 <= i < |front| ==> front[i].parent.Some?
  {
    var rows := front + [last];
    assert rows[|front|] == last;
    assert forall i :: 0 <= i < |front| ==> rows[i] == front[i];
    forall i | 0 <= i < |front|
      ensures front[i].parent != last.parent
    {
      ParentsDiffer(rows, i, |front|);
    }
    forall i, j | 0 <= i < j < |front|
      ensures front[i].parent != front[j].parent
    {
      ParentsDiffer(rows, i, j);
    }
  }

  /** Without branches, every row that has a parent uses up one parent id. */
  lemma {:induction false} ParentCount(rows: seq<Node>)
    requires !Branched(rows) && !TwoRoots(rows)
    ensures |ParentSet(rows)| >= |rows| - 1
    ensures (forall i :: 0 <= i < |rows| ==> rows[i].parent.Some?) ==> |ParentSet(rows)| >= |rows|
  {
    if rows != [] {
      var front, last := rows[..|rows| - 1], rows[|rows| - 1];
      assert rows == front + [last];
      FrontHasOtherParents(front, last);
      ParentSetPush(front, last);
      ParentCount(front);
    }
  }

  /** With one root and no branch there are enough parent ids to cover every id but
      one: so no id repeats if there is a leaf, and there are never two leaves. */
  lemma {:induction false} LeafIsUnique(rows: seq<Node>, leaf: int, other: int)
    requires NoMissingParent(rows) && !Branched(rows) && !TwoRoots(rows)
    requires 0 <= leaf < |rows| && Leaf(rows, rows[leaf].id)
    requires 0 <= other < |rows| && Leaf(rows, rows[other].id)
    ensures DistinctKeys(rows, NodeId)
    ensures leaf == other
  {
    var ids := KeySet(rows, NodeId);
    ParentCount(rows);
    KeySetSize(rows, NodeId);
    assert NodeId(rows[leaf]) in ids && NodeId(rows[other]) in ids;
    forall id | id in ParentSet(rows)
      ensures id in ids && id != rows[leaf].id && id != rows[other].id
    {
      var i :| 0 <= i < |rows| && rows[i].parent == Some(id);
      assert ParentFound(rows, i);
    }
    SubsetSize(ParentSet(rows), ids - {rows[leaf].id});
    SubsetSize(ParentSet(rows), ids - {rows[leaf].id, rows[other].id});
  }

  /** The row reached when a walk ends has no parent; unless the walk started there,
      it is the parent of some row. */
  lemma {:induction false} EndsAtRoot(rows: seq<Node>, id: string, n: nat) returns (root: int)
    requires NoMissingParent(rows) && id in KeySet(rows, NodeId) && Ends(ById(rows), id, n)
    ensures 0 <= root < |rows| && rows[root].parent.None?
    ensures Up(ById(rows), id).Some? ==> !Leaf(rows, rows[root].id)
    decreases n
  {
    ByIdMeans(rows);
    var row := ById(rows)[id];
    var at :| 0 <= at < |rows| && rows[at] == row;
    assert ParentFound(rows, at);
    if row.parent.None? {
      root := at;
    } else {
      var parent := row.parent.value;
      root := EndsAtRoot(rows, parent, n - 1);
      if Up(ById(rows), parent).None? {
        // the parent is the root itself
        var p :| 0 <= p < |rows| && rows[p] == ById(rows)[parent];
        root := p;
      }
    }
  }

  /** The second `cycle` exit is dead: if every walk ends, some row is a root. */
  lemma {:induction false} NoRootMeansCycle(rows: seq<Node>)
    requires rows != [] && NoMissingParent(rows)
    requires forall i :: 0 <= i < |rows| ==> rows[i].parent.Some?
    ensures !Acyclic(rows)
  {
    if Acyclic(rows) {
      var id := rows[0].id;
      assert NodeId(rows[0]) in KeySet(rows, NodeId);
      assert WalkEnds(ById(rows), id);
      var n: nat :| Ends(ById(rows), id, n);
      var root := EndsAtRoot(rows, id, n);
    }
  }

  // ------------------------------------------------------- the method

  /** The first loop: children lists and roots, or a parent id nobody has. */
  method LinkRows(rows: seq<Node>, byId: map<string, Node>)
    returns (complete: bool, children: map<string, seq<string>>, roots: seq<string>)
    requires byId.Keys == KeySet(rows, NodeId)
    ensures complete <==> NoMissingParent(rows)
    ensures complete ==> roots == Roots(rows)
    ensures complete ==>
            forall p :: (p in children <==> Kids(rows, p) != []) && (p in children ==> children[p] == Kids(rows, p))
  {
    children := map[];
    roots := [];
    for k := 0 to |rows|
      invariant forall i :: 0 <= i < k && rows[i].parent.Some? ==> rows[i].parent.value in byId
      invariant roots == Roots(rows[..k])
      invariant forall p ::
                  && (p in children <==> Kids(rows[..k], p) != [])
                  && (p in children ==> children[p] == Kids(rows[..k], p))
    {
      assert rows[..k + 1][..k] == rows[..k];
      var id, parent := rows[k].id, rows[k].parent;
      if parent.None? {
        roots := roots + [id];
      } else {
        if parent.value !in byId {
          assert !ParentFound(rows, k);
          return false, children, roots;
        }
        var list := if parent.value in children then children[parent.value] else [];
        children := children[parent.value := list + [id]];
      }
    }
    assert rows[..|rows|] == rows;
    return true, children, roots;
  }

  /** The second loop: walk up from every row. */
  method AllWalksEnd(rows: seq<Node>, byId: map<string, Node>) returns (ends: bool)
    requires byId == ById(rows) && NoMissingParent(rows)
    ensures ends <==> Acyclic(rows)
  {
    ByIdMeans(rows);
    forall id | id in byId && Up(byId, id).Some?
      ensures Up(byId, id).value in byId
    {
      var i :| 0 <= i < |rows| && rows[i] == byId[id];
      assert ParentFound(rows, i);
    }
    for k := 0 to |rows|
      invariant forall i :: 0 <= i < k ==> WalkEnds(byId, rows[i].id)
    {
      assert NodeId(rows[k]) in KeySet(rows, NodeId);
      ends := WalkToRoot(byId, rows[k].id);
      if !ends {
        return false;
      }
    }
    return true;
  }

  /** The final filter; `at` remembers where each tip stands. */
  method FinalizedTips(rows: seq<Node>, children: map<string, seq<string>>)
    returns (tips: seq<Node>, ghost at: seq<int>)
    requires forall p :: p in children <==> !Leaf(rows, p)
    requires forall p :: p in children ==> children[p] != []
    ensures |at| == |tips|
    ensures forall i :: 0 <= i < |at| ==> FinalizedTip(rows, at[i]) && tips[i] == rows[at[i]]
    ensures forall i, j :: 0 <= i < j < |at| ==> at[i] < at[j]
    ensures forall i :: FinalizedTip(rows, i) ==> i in at
  {
    tips, at := [], [];
    for k := 0 to |rows|
      invariant |at| == |tips|
      invariant forall i :: 0 <= i < |at| ==> 0 <= at[i] < k && FinalizedTip(rows, at[i]) && tips[i] == rows[at[i]]
      invariant forall i, j :: 0 <= i < j < |at| ==> at[i] < at[j]
      invariant forall i :: 0 <= i < k && FinalizedTip(rows, i) ==> i in at
    {
      var id := rows[k].id;
      if rows[k].status == Some(FINALIZED) && |if id in children then children[id] else []| == 0 {
        tips := tips + [rows[k]];
        at := at + [k];
      }
    }
  }

  method AnalyzeSuccessorTopology(determinations: seq<Determination>) returns (t: Topology)
    ensures t == TopologyOf(WithId(determinations))
    ensures t.reason != MultipleTips
  {
    var rows := WithId(determinations);
    if |rows| == 0 {
      return Topology(false, Empty, None);
    }
    var byId := ById(rows);
    ByIdMeans(rows);
    var complete, children, roots := LinkRows(rows, byId);
    if !complete {
      return Topology(false, MissingParent, None);
    }
    var ends := AllWalksEnd(rows, byId);
    if !ends {
      return Topology(false, Cycle, None);
    }
    forall p
      ensures p in children <==> !Leaf(rows, p)
    {
      KidsMean(rows, p);
    }
    BranchedMeans(rows, children);
    if exists p :: p in children && |children[p]| > 1 {
      return Topology(false, Branch, None);
    }
    var tips, at := FinalizedTips(rows, children);
    LastExits(rows, roots, tips, at);
    t := if |roots| > 1 then Topology(false, Disconnected, None)
         else if |roots| == 0 then Topology(false, Cycle, None)
         else if |tips| == 0 then Topology(false, NoTip, None)
         else if |tips| > 1 then Topology(false, MultipleTips, None)
         else Topology(true, Safe, Some(tips[0].id));
  }

  /** The exits after the branch test: two of the five cannot be taken. */
  lemma {:induction false} LastExits(rows: seq<Node>, roots: seq<string>, tips: seq<Node>, at: seq<int>)
    requires rows != [] && NoMissingParent(rows) && Acyclic(rows) && !Branched(rows)
    requires roots == Roots(rows) && |at| == |tips|
    requires forall i :: 0 <= i < |at| ==> FinalizedTip(rows, at[i]) && tips[i] == rows[at[i]]
    requires forall i, j :: 0 <= i < j < |at| ==> at[i] < at[j]
    requires forall i :: FinalizedTip(rows, i) ==> i in at
    ensures |roots| > 0
    ensures |roots| > 1 <==> TwoRoots(rows)
    ensures |roots| == 1 ==> |tips| <= 1
    ensures |roots| == 1 ==>
            TopologyOf(rows) ==
            if tips == [] then Topology(false, NoTip, None) else Topology(true, Safe, Some(tips[0].id))
  {
    RootsMean(rows);
    if roots == [] {
      NoRootMeansCycle(rows);
    }
    if |roots| == 1 {
      OneTip(rows, at);
      if tips == [] {
        assert forall i :: !FinalizedTip(rows, i);
      }
    }
  }

  /** The `multiple_tips` exit is dead. */
  lemma {:induction false} OneTip(rows: seq<Node>, at: seq<int>)
    requires NoMissingParent(rows) && !Branched(rows) && !TwoRoots(rows)
    requires forall i :: 0 <= i < |at| ==> FinalizedTip(rows, at[i])
    requires forall i, j :: 0 <= i < j < |at| ==> at[i] < at[j]
    ensures |at| <= 1
  {
    if |at| > 1 {
      LeafIsUnique(rows, at[0], at[1]);
    }
  }

  lemma {:induction false} BranchedMeans(rows: seq<Node>, children: map<string, seq<string>>)
    requires forall p :: p in children ==> children[p] == Kids(rows, p)
    requires forall p :: p in children <==> Kids(rows, p) != []
    ensures Branched(rows) <==> exists p :: p in children && |children[p]| > 1
  {
    if Branched(rows) {
      var i, j :| 0 <= i < j < |rows| && rows[i].parent.Some? && rows[i].parent == rows[j].parent;
      var p := rows[i].parent.value;
      KidsMean(rows, p);
      assert p in children && |children[p]| > 1;
    }
    if p :| p in children && |children[p]| > 1 {
      KidsMean(rows, p);
    }
  }

  // ------------------------------------------------------- chains

  ghost predicate LinkAt(chain: seq<Node>, k: int) {
    0 < k < |chain| ==> chain[k].parent == Some(chain[k - 1].id)
  }

  /** The rows in order, each adjusting the one before it. */
  ghost predicate IsChain(chain: seq<Node>) {
    && chain != []
    && DistinctKeys(chain, NodeId)
    && chain[0].parent.None?
    && forall k :: LinkAt(chain, k)
  }

  ghost function Last(chain: seq<Node>): Node
    requires chain != []
  {
    chain[|chain| - 1]
  }

  ghost predicate IsSafeChain(rows: seq<Node>, chain: seq<Node>) {
    IsChain(chain) && multiset(chain) == multiset(rows) && Last(chain).status == Some(FINALIZED)
  }

  lemma {:induction false} ChainWalkEnds(rows: seq<Node>, chain: seq<Node>, k: nat)
    requires IsChain(chain) && multiset(chain) == multiset(rows) && k < |chain|
    ensures Ends(ById(rows), chain[k].id, k + 1)
  {
    ReorderedKeys(chain, rows, NodeId);
    assert chain[k] in rows;
    var i :| 0 <= i < |rows| && rows[i] == chain[k];
    ByIdOfDistinct(rows, i);
    assert LinkAt(chain, k);
    if k > 0 {
      ChainWalkEnds(rows, chain, k - 1);
    }
  }

  lemma {:induction false} ChainPosition(rows: seq<Node>, chain: seq<Node>, i: int) returns (k: int)
    requires multiset(chain) == multiset(rows) && 0 <= i < |rows|
    ensures 0 <= k < |chain| && chain[k] == rows[i]
  {
    assert rows[i] in multiset(rows);
    k :| 0 <= k < |chain| && chain[k] == rows[i];
  }

  lemma {:induction false} ChainParentExists(rows: seq<Node>, chain: seq<Node>, i: int)
    requires IsChain(chain) && multiset(chain) == multiset(rows) && 0 <= i < |rows|
    ensures WalkEnds(ById(rows), rows[i].id)
    ensures rows[i].parent.Some? ==> rows[i].parent.value in KeySet(rows, NodeId)
  {
    var k := ChainPosition(rows, chain, i);
    ChainWalkEnds(rows, chain, k);
    assert LinkAt(chain, k);
    if k > 0 {
      var p := ChainPosition(chain, rows, k - 1);
      assert NodeId(rows[p]) in KeySet(rows, NodeId);
    }
  }

  lemma {:induction false} ChainLeaf(rows: seq<Node>, chain: seq<Node>, i: int)
    requires IsChain(chain) && multiset(chain) == multiset(rows) && 0 <= i < |rows|
    ensures Leaf(rows, rows[i].id) <==> rows[i] == Last(chain)
  {
    var k := ChainPosition(rows, chain, i);
    if k + 1 < |chain| {
      var c := ChainPosition(chain, rows, k + 1);
      assert LinkAt(chain, k + 1);
      assert rows[c].parent == Some(rows[i].id);
      assert NodeId(chain[k]) != NodeId(chain[|chain| - 1]);
    } else {
      forall j | 0 <= j < |rows|
        ensures rows[j].parent != Some(rows[i].id)
      {
        var m := ChainPosition(rows, chain, j);
        assert LinkAt(chain, m);
        if m > 0 {
          assert NodeId(chain[m - 1]) != NodeId(chain[k]);
        }
      }
    }
  }

  lemma {:induction false} ChainParentsDiffer(rows: seq<Node>, chain: seq<Node>, i: int, j: int)
    requires IsChain(chain) && multiset(chain) == multiset(rows) && 0 <= i < j < |rows|
    ensures rows[i].parent != rows[j].parent
  {
    ReorderedKeys(chain, rows, NodeId);
    var k := ChainPosition(rows, chain, i);
    var m := ChainPosition(rows, chain, j);
    assert NodeId(rows[i]) != NodeId(rows[j]);
    assert LinkAt(chain, k) && LinkAt(chain, m);
    assert 0 < k < m || 0 < m < k ==> NodeId(chain[k - 1]) != NodeId(chain[m - 1]);
  }

  /** A chain, listed in any order, is a tree whose only leaf is the chain's last row. */
  lemma {:induction false} ChainIsTree(rows: seq<Node>, chain: seq<Node>)
    requires IsChain(chain) && multiset(chain) == multiset(rows)
    ensures Tree(rows)
    ensures forall i :: 0 <= i < |rows| ==> (Leaf(rows, rows[i].id) <==> rows[i] == Last(chain))
  {
    forall i | 0 <= i < |rows|
      ensures WalkEnds(ById(rows), rows[i].id)
      ensures rows[i].parent.Some? ==> rows[i].parent.value in KeySet(rows, NodeId)
      ensures Leaf(rows, rows[i].id) <==> rows[i] == Last(chain)
    {
      ChainParentExists(rows, chain, i);
      ChainLeaf(rows, chain, i);
    }
    forall i, j | 0 <= i < j < |rows|
      ensures rows[i].parent != rows[j].parent
    {
      ChainParentsDiffer(rows, chain, i, j);
    }
  }

  function Without(rows: seq<Node>, at: nat): seq<Node>
    requires at < |rows|
  {
    rows[..at] + rows[at + 1..]
  }

  lemma {:induction false} WithoutMeans(rows: seq<Node>, at: nat)
    requires at < |rows| && DistinctKeys(rows, NodeId)
    ensures var rest := Without(rows, at);
            && multiset(rows) == multiset(rest) + multiset{rows[at]}
            && DistinctKeys(rest, NodeId)
            && (forall x :: x in rest <==> x in rows && x != rows[at])
  {
    var rest := Without(rows, at);
    assert rows == rows[..at] + [rows[at]] + rows[at + 1..];
    forall i | 0 <= i < |rest|
      ensures rest[i] == rows[if i < at then i else i + 1]
    {
    }
    forall x | x in rows && x != rows[at]
      ensures x in rest
    {
      var i :| 0 <= i < |rows| && rows[i] == x;
      assert rest[if i < at then i else i - 1] == x;
    }
  }

  /** Walks that avoid a leaf do not notice its removal. */
  lemma {:induction false} EndsWithoutLeaf(rows: seq<Node>, leaf: nat, id: string, n: nat)
    requires DistinctKeys(rows, NodeId) && leaf < |rows| && Leaf(rows, rows[leaf].id)
    requires id != rows[leaf].id && Ends(ById(rows), id, n)
    ensures Ends(ById(Without(rows, leaf)), id, n)
    decreases n
  {
    var rest := Without(rows, leaf);
    WithoutMeans(rows, leaf);
    ByIdMeans(rows);
    ByIdMeans(rest);
    if id in ById(rest) {
      var row := ById(rest)[id];
      var i :| 0 <= i < |rows| && rows[i] == row;
      ByIdOfDistinct(rows, i);
      if row.parent.Some? {
        EndsWithoutLeaf(rows, leaf, row.parent.value, n - 1);
      }
    }
  }

  lemma {:induction false} WalkWithoutLeaf(rows: seq<Node>, leaf: nat, i: int)
    requires DistinctKeys(rows, NodeId) && Tree(rows) && leaf < |rows| && Leaf(rows, rows[leaf].id)
    requires 0 <= i < |rows| && i != leaf
    ensures WalkEnds(ById(Without(rows, leaf)), rows[i].id)
    ensures rows[i].parent.Some? ==> rows[i].parent.value in KeySet(Without(rows, leaf), NodeId)
  {
    WithoutMeans(rows, leaf);
    assert ParentFound(rows, i);
    assert NodeId(rows[i]) != NodeId(rows[leaf]);
    var n: nat :| Ends(ById(rows), rows[i].id, n);
    EndsWithoutLeaf(rows, leaf, rows[i].id, n);
    if rows[i].parent.Some? {
      var p :| p in rows && NodeId(p) == rows[i].parent.value;
      assert p in Without(rows, leaf);
    }
  }

  lemma {:induction false} TreeWithoutLeaf(rows: seq<Node>, leaf: nat)
    requires DistinctKeys(rows, NodeId) && Tree(rows) && leaf < |rows| && Leaf(rows, rows[leaf].id)
    ensures Tree(Without(rows, leaf))
  {
    var rest := Without(rows, leaf);
    forall i | 0 <= i < |rest|
      ensures WalkEnds(ById(rest), rest[i].id)
      ensures rest[i].parent.Some? ==> rest[i].parent.value in KeySet(rest, NodeId)
    {
      WalkWithoutLeaf(rows, leaf, if i < leaf then i else i + 1);
    }
    forall i, j | 0 <= i < j < |rest|
      ensures !(rest[i].parent.Some? && rest[i].parent == rest[j].parent)
      ensures !(rest[i].parent.None? && rest[j].parent.None?)
    {
      PairWithoutLeaf(rows, leaf, i, j);
    }
  }

  lemma {:induction false} PairWithoutLeaf(rows: seq<Node>, leaf: nat, i: int, j: int)
    requires !Branched(rows) && !TwoRoots(rows) && leaf < |rows| && 0 <= i < j < |rows| - 1
    ensures Without(rows, leaf)[i].parent != Without(rows, leaf)[j].parent
  {
  }

  lemma {:induction false} ParentsDiffer(rows: seq<Node>, i: int, j: int)
    requires !Branched(rows) && !TwoRoots(rows) && 0 <= i < |rows| && 0 <= j < |rows| && i != j
    ensures rows[i].parent != rows[j].parent
  {
  }

  /** In a tree, a root that is a leaf is alone. */
  lemma {:induction false} RootLeafIsAlone(rows: seq<Node>, leaf: nat)
    requires DistinctKeys(rows, NodeId) && Tree(rows) && leaf < |rows| && Leaf(rows, rows[leaf].id)
    requires rows[leaf].parent.None?
    ensures rows == [rows[leaf]]
  {
    if |rows| > 1 {
      var i := if leaf == 0 then 1 else 0;
      ParentsDiffer(rows, i, leaf);
      var n: nat :| Ends(ById(rows), rows[i].id, n);
      assert NodeId(rows[i]) in KeySet(rows, NodeId);
      var root := EndsAtRoot(rows, rows[i].id, n);
      ByIdOfDistinct(rows, i);
      if root != leaf {
        ParentsDiffer(rows, root, leaf);
      }
    }
  }

  /** Without its leaf, a tree has the leaf's parent as a leaf. */
  lemma {:induction false} ParentBecomesLeaf(rows: seq<Node>, leaf: nat) returns (up: nat)
    requires DistinctKeys(rows, NodeId) && Tree(rows) && leaf < |rows| && Leaf(rows, rows[leaf].id)
    requires rows[leaf].parent.Some?
    ensures var rest := Without(rows, leaf);
            up < |rest| && rows[leaf].parent == Some(rest[up].id) && Leaf(rest, rest[up].id)
  {
    var rest := Without(rows, leaf);
    WithoutMeans(rows, leaf);
    assert ParentFound(rows, leaf);
    var parent :| parent in rows && NodeId(parent) == rows[leaf].parent.value;
    assert parent in rest;
    up :| up < |rest| && rest[up] == parent;
    forall i | 0 <= i < |rest|
      ensures rest[i].parent != Some(parent.id)
    {
      var k := if i < leaf then i else i + 1;
      assert rest[i] == rows[k] && k != leaf;
      ParentsDiffer(rows, k, leaf);
    }
  }

  /** A tree with a leaf is a chain that ends in that leaf: take the leaf off, and its
      parent is a leaf of what is left. */
  lemma {:induction false} TreeIsChain(rows: seq<Node>, leaf: nat) returns (chain: seq<Node>)
    requires DistinctKeys(rows, NodeId) && Tree(rows) && leaf < |rows| && Leaf(rows, rows[leaf].id)
    ensures IsChain(chain) && multiset(chain) == multiset(rows) && Last(chain) == rows[leaf]
    decreases |rows|
  {
    var row, rest := rows[leaf], Without(rows, leaf);
    if row.parent.None? {
      RootLeafIsAlone(rows, leaf);
      chain := [row];
    } else {
      WithoutMeans(rows, leaf);
      TreeWithoutLeaf(rows, leaf);
      var up := ParentBecomesLeaf(rows, leaf);
      var front := TreeIsChain(rest, up);
      chain := front + [row];
      ChainGrows(rows, rest, front, row);
    }
  }

  lemma {:induction false} ChainGrows(rows: seq<Node>, rest: seq<Node>, front: seq<Node>, row: Node)
    requires IsChain(front) && multiset(front) == multiset(rest)
    requires multiset(rows) == multiset(rest) + multiset{row}
    requires DistinctKeys(rows, NodeId) && row.parent == Some(Last(front).id)
    ensures IsChain(front + [row]) && multiset(front + [row]) == multiset(rows)
  {
    ReorderedKeys(front + [row], rows, NodeId);
    forall k
      ensures LinkAt(front + [row], k)
    {
      assert LinkAt(front, k);
    }
  }

  // ------------------------------------------------------- the theorems

  /** Safe means: the rows form one chain, in some order, ending in a finalized row,
      and that row is the tip. */
  lemma {:induction false} SafeIsOneFinalizedChain(rows: seq<Node>)
    ensures TopologyOf(rows).safe <==> exists chain :: IsSafeChain(rows, chain)
    ensures forall chain :: IsSafeChain(rows, chain) ==> TopologyOf(rows).tipId == Some(Last(chain).id)
  {
    forall chain | IsSafeChain(rows, chain)
      ensures TopologyOf(rows) == Topology(true, Safe, Some(Last(chain).id))
    {
      ChainIsTree(rows, chain);
      ReorderedKeys(chain, rows, NodeId);
      assert Last(chain) in rows;
      var i :| 0 <= i < |rows| && rows[i] == Last(chain);
      assert FinalizedTip(rows, i);
    }
    if TopologyOf(rows).safe {
      var i :| FinalizedTip(rows, i);
      LeafIsUnique(rows, i, i);
      var chain := TreeIsChain(rows, i);
      assert IsSafeChain(rows, chain);
    }
  }

  lemma {:induction false} WithIdOfConcat(a: seq<Determination>, b: seq<Determination>)
    ensures WithId(a + b) == WithId(a) + WithId(b)
  {
    if b == [] {
      assert a + b == a;
    } else {
      WithIdOfConcat(a, b[..|b| - 1]);
      assert (a + b)[..|a + b| - 1] == a + b[..|b| - 1];
    }
  }

  lemma {:induction false} WithIdOfReordered(rows: seq<Determination>, others: seq<Determination>)
    requires multiset(rows) == multiset(others)
    ensures multiset(WithId(rows)) == multiset(WithId(others))
  {
    if rows == [] {
      assert |multiset(others)| == 0;
    } else {
      var front, last := rows[..|rows| - 1], rows[|rows| - 1];
      assert rows == front + [last];
      assert last in multiset(others);
      var i :| 0 <= i < |others| && others[i] == last;
      var left, right := others[..i], others[i + 1..];
      assert others == left + [last] + right;
      RemoveOne(rows, others, i);
      WithIdOfReordered(front, left + right);
      WithIdOfConcat(left, right);
      WithIdOfConcat(left + [last], right);
      WithIdOfConcat(left, [last]);
      WithIdOfConcat(front, [last]);
    }
  }

  lemma {:induction false} NodeOrderIsIrrelevant(rows: seq<Node>, others: seq<Node>)
    requires multiset(rows) == multiset(others)
    ensures TopologyOf(rows).safe ==> TopologyOf(others).safe && TopologyOf(others).tipId == TopologyOf(rows).tipId
  {
    SafeIsOneFinalizedChain(rows);
    SafeIsOneFinalizedChain(others);
    if TopologyOf(rows).safe {
      var chain :| IsSafeChain(rows, chain);
      assert IsSafeChain(others, chain);
    }
  }

  /** The order in which the server lists the rows changes neither `safe` nor `tipId`. */
  lemma {:induction false} RowOrderIsIrrelevant(rows: seq<Determination>, others: seq<Determination>)
    requires multiset(rows) == multiset(others)
    ensures TopologyOf(WithId(rows)).safe == TopologyOf(WithId(others)).safe
    ensures TopologyOf(WithId(rows)).tipId == TopologyOf(WithId(others)).tipId
  {
    WithIdOfReordered(rows, others);
    NodeOrderIsIrrelevant(WithId(rows), WithId(others));
    NodeOrderIsIrrelevant(WithId(others), WithId(rows));
  }

  // ------------------------------------------- order and the whole verdict

  lemma {:induction false} ByIdOfReordered(rows: seq<Node>, others: seq<Node>)
    requires multiset(rows) == multiset(others) && DistinctKeys(rows, NodeId)
    ensures ById(rows) == ById(others)
  {
    ReorderedKeys(rows, others, NodeId);
    ByIdMeans(rows);
    ByIdMeans(others);
    forall id | id in ById(rows)
      ensures id in ById(others) && ById(others)[id] == ById(rows)[id]
    {
      var i :| 0 <= i < |others| && others[i] == ById(rows)[id];
      ByIdOfDistinct(others, i);
    }
  }

  function ParentOf(node: Node): Option<string> {
    node.parent
  }

  /** Missing parents, branches, roots and tips do not depend on the order of the rows. */
  lemma {:induction false} ShapeOfReordered(rows: seq<Node>, others: seq<Node>)
    requires multiset(rows) == multiset(others)
    ensures NoMissingParent(rows) ==> NoMissingParent(others)
    ensures Branched(rows) ==> Branched(others)
    ensures TwoRoots(rows) ==> TwoRoots(others)
    ensures (exists i :: FinalizedTip(rows, i)) ==> exists i :: FinalizedTip(others, i)
  {
    ReorderedKeys(rows, others, NodeId);
    forall i | 0 <= i < |others|
      ensures NoMissingParent(rows) ==> ParentFound(others, i)
    {
      var k := ChainPosition(others, rows, i);
      assert NoMissingParent(rows) ==> ParentFound(rows, k);
    }
    if Branched(rows) {
      var i, j :| 0 <= i < j < |rows| && rows[i].parent.Some? && rows[i].parent == rows[j].parent;
      SharedParent(rows, others, i, j);
    }
    if TwoRoots(rows) {
      var i, j :| 0 <= i < j < |rows| && rows[i].parent.None? && rows[j].parent.None?;
      SharedParent(rows, others, i, j);
    }
    if i :| FinalizedTip(rows, i) {
      TipOfReordered(rows, others, i);
    }
  }

  lemma {:induction false} SharedParent(rows: seq<Node>, others: seq<Node>, i: int, j: int)
    requires multiset(rows) == multiset(others) && 0 <= i < j < |rows| && rows[i].parent == rows[j].parent
    ensures if rows[i].parent.Some? then Branched(others) else TwoRoots(others)
  {
    assert ParentOf(rows[i]) == ParentOf(rows[j]);
    RepeatsOfReordered(rows, others, ParentOf, rows[i].parent);
    var k, m :| 0 <= k < m < |others| && ParentOf(others[k]) == rows[i].parent && ParentOf(others[m]) == rows[i].parent;
    assert others[k].parent == others[m].parent == rows[i].parent;
  }

  lemma {:induction false} TipOfReordered(rows: seq<Node>, others: seq<Node>, i: int)
    requires multiset(rows) == multiset(others) && 0 <= i < |rows| && FinalizedTip(rows, i)
    ensures exists k :: FinalizedTip(others, k)
  {
    var k := ChainPosition(rows, others, i);
    forall j | 0 <= j < |others|
      ensures others[j].parent != Some(others[k].id)
    {
      var m := ChainPosition(others, rows, j);
    }
    assert FinalizedTip(others, k);
  }

  /** Two orders of the same rows, with repeated ids or not, get the same verdict exactly
      unless every parent is present and one order has an endless walk the other lacks. */
  lemma {:induction false} VerdictsAgree(rows: seq<Node>, others: seq<Node>)
    requires multiset(rows) == multiset(others)
    ensures TopologyOf(rows) == TopologyOf(others) <==>
            (NoMissingParent(rows) ==> (Acyclic(rows) <==> Acyclic(others)))
  {
    ShapeOfReordered(rows, others);
    ShapeOfReordered(others, rows);
    NodeOrderIsIrrelevant(rows, others);
    NodeOrderIsIrrelevant(others, rows);
    assert |multiset(rows)| == |multiset(others)|;
    if rows == [] {
      assert Acyclic(rows) && Acyclic(others);
    }
  }

  /** Walks depend on the order only through the last row under each id. */
  lemma {:induction false} LastRowsDecideWalks(rows: seq<Node>, others: seq<Node>)
    requires multiset(rows) == multiset(others) && ById(rows) == ById(others)
    ensures Acyclic(rows) ==> Acyclic(others)
  {
    forall i | 0 <= i < |others| && Acyclic(rows)
      ensures WalkEnds(ById(others), others[i].id)
    {
      var k := ChainPosition(others, rows, i);
      assert WalkEnds(ById(rows), rows[k].id);
    }
  }

  /** What the order of the server's listing can change: nothing if it does not change which
      row comes last under an id, and so nothing at all if ids are distinct. */
  lemma {:induction false} VerdictIsOrderFree(rows: seq<Determination>, others: seq<Determination>)
    requires multiset(rows) == multiset(others)
    ensures TopologyOf(WithId(rows)) == TopologyOf(WithId(others)) <==>
            (NoMissingParent(WithId(rows)) ==> (Acyclic(WithId(rows)) <==> Acyclic(WithId(others))))
    ensures ById(WithId(rows)) == ById(WithId(others)) ==> TopologyOf(WithId(rows)) == TopologyOf(WithId(others))
    ensures DistinctKeys(WithId(rows), NodeId) ==> TopologyOf(WithId(rows)) == TopologyOf(WithId(others))
  {
    var a, b := WithId(rows), WithId(others);
    WithIdOfReordered(rows, others);
    VerdictsAgree(a, b);
    if DistinctKeys(a, NodeId) {
      ByIdOfReordered(a, b);
    }
    if ById(a) == ById(b) {
      LastRowsDecideWalks(a, b);
      LastRowsDecideWalks(b, a);
    }
  }

  /** The order can matter: of two rows with one id, the last one wins. */
  lemma RepeatedIdsMayDependOnOrder()
    ensures var root, child := Node("a", None, Some(FINALIZED)), Node("a", Some("a"), Some(FINALIZED));
            TopologyOf([root, child]).reason == Cycle && TopologyOf([child, root]).reason == NoTip
  {
    var root, child := Node("a", None, Some(FINALIZED)), Node("a", Some("a"), Some(FINALIZED));
    LastRowWins(root, child);
    LastRowWins(child, root);
    EndlessWalk(root, child);
    EndingWalk(root, child);
  }

  lemma EndlessWalk(root: Node, child: Node)
    requires root.id == child.id == "a" && child.parent == Some("a") && root.parent.None?
    ensures TopologyOf([root, child]).reason == Cycle
  {
    LastRowWins(root, child);
    var byId := ById([root, child]);
    assert Reaches(byId, "a", "a", 1) by {
      assert Reaches(byId, "a", "a", 0);
    }
    forall n: nat
      ensures !Ends(byId, "a", n)
    {
      LoopNeverEnds(byId, "a", 1, n);
    }
    assert !WalkEnds(byId, [root, child][0].id);
  }

  lemma EndingWalk(root: Node, child: Node)
    requires root.id == child.id == "a" && child.parent == Some("a") && root.parent.None?
    ensures TopologyOf([child, root]).reason == NoTip
  {
    LastRowWins(child, root);
    assert Ends(ById([child, root]), "a", 1);
    assert [child, root][0].parent == Some("a");
    assert forall i :: !FinalizedTip([child, root], i);
  }

  lemma LastRowWins(first: Node, second: Node)
    requires first.id == second.id == "a"
    ensures ById([first, second]) == map["a" := second]
    ensures "a" in KeySet([first, second], NodeId)
  {
    assert [first, second][..1] == [first] && [first][..0] == [];
    assert ById([]) == map[];
    assert ById([first]) == map["a" := first];
    assert map["a" := first]["a" := second] == map["a" := second];
    assert NodeId([first, second][0]) == "a";
  }

  /** Nothing in the source looks for repeated ids, yet a list with one is never safe. */
  lemma {:induction false} RepeatedIdIsNeverSafe(rows: seq<Node>)
    requires !DistinctKeys(rows, NodeId)
    ensures !TopologyOf(rows).safe
  {
    if TopologyOf(rows).safe {
      var i :| FinalizedTip(rows, i);
      LeafIsUnique(rows, i, i);
    }
  }

  // ------------------------------------------- what each reason says

  /** The node shows what the row's cells say of its id, parent and status. */
  ghost predicate Shows(node: Node, row: Determination) {
    && Says(row.id, node.id)
    && (forall text :: node.parent == Some(text) <==> Says(row.adjustmentOfDeterminationId, text))
    && (forall text :: node.status == Some(text) <==> Says(row.status, text))
  }

  lemma NodeShowsRow(row: Determination)
    requires HasId(row)
    ensures Shows(NodeOf(row), row)
  {
    CellsAreRead(row.id, RowId(row), 0);
    forall text
      ensures Parent(row) == Some(text) <==> Says(row.adjustmentOfDeterminationId, text)
      ensures Status(row) == Some(text) <==> Says(row.status, text)
    {
      CellsAreRead(row.adjustmentOfDeterminationId, text, 0);
      CellsAreRead(row.status, text, 0);
    }
  }

  ghost predicate ShowsAt(nodes: seq<Node>, rows: seq<Determination>, at: seq<nat>, k: nat) {
    k < |at| && k < |nodes| ==> at[k] < |rows| && Shows(nodes[k], rows[at[k]])
  }

  ghost predicate IsListed(rows: seq<Determination>, at: seq<nat>, i: nat) {
    i < |rows| && rows[i].id.Text? && Trim(rows[i].id.text) != "" ==> i in at
  }

  /** The analysis looks at the rows whose id cell is a text that is not blank, in order. */
  lemma {:induction false} NodesShowRows(rows: seq<Determination>) returns (at: seq<nat>)
    ensures |at| == |WithId(rows)|
    ensures forall k :: ShowsAt(WithId(rows), rows, at, k)
    ensures forall k, m :: 0 <= k < m < |at| ==> at[k] < at[m] < |rows|
    ensures forall k :: 0 <= k < |at| ==> at[k] < |rows|
    ensures forall i :: IsListed(rows, at, i)
  {
    at := [];
    if rows != [] {
      var front, last := rows[..|rows| - 1], rows[|rows| - 1];
      assert rows == front + [last];
      at := NodesShowRows(front);
      WithIdOfConcat(front, [last]);
      CellsAreRead(last.id, "", 0);
      if HasId(last) {
        assert WithId([last]) == [NodeOf(last)];
        NodeShowsRow(last);
        OneMoreShown(front, last, WithId(front), NodeOf(last), at);
        at := at + [|front|];
      } else {
        assert WithId([last]) == [] && WithId(front) + [] == WithId(front);
        NoMoreShown(front, last, WithId(front), at);
      }
    }
  }

  lemma OneMoreShown(front: seq<Determination>, last: Determination, nodes: seq<Node>, node: Node, at: seq<nat>)
    requires |at| == |nodes| && Shows(node, last)
    requires forall k :: 0 <= k < |at| ==> at[k] < |front|
    requires forall k :: ShowsAt(nodes, front, at, k)
    requires forall i :: IsListed(front, at, i)
    ensures forall k :: ShowsAt(nodes + [node], front + [last], at + [|front|], k)
    ensures forall i :: IsListed(front + [last], at + [|front|], i)
  {
    forall k: nat
      ensures ShowsAt(nodes + [node], front + [last], at + [|front|], k)
    {
      assert ShowsAt(nodes, front, at, k);
    }
    forall i: nat
      ensures IsListed(front + [last], at + [|front|], i)
    {
      assert IsListed(front, at, i);
      assert |front| == (at + [|front|])[|at|];
    }
  }

  lemma NoMoreShown(front: seq<Determination>, last: Determination, nodes: seq<Node>, at: seq<nat>)
    requires |at| == |nodes| && !(last.id.Text? && Trim(last.id.text) != "")
    requires forall k :: 0 <= k < |at| ==> at[k] < |front|
    requires forall k :: ShowsAt(nodes, front, at, k)
    requires forall i :: IsListed(front, at, i)
    ensures forall k :: ShowsAt(nodes, front + [last], at, k)
    ensures forall i :: IsListed(front + [last], at, i)
  {
    forall k: nat
      ensures ShowsAt(nodes, front + [last], at, k)
    {
      assert ShowsAt(nodes, front, at, k);
    }
    forall i: nat
      ensures IsListed(front + [last], at, i)
    {
      assert IsListed(front, at, i);
    }
  }

  /** A walk that never ends meets an id twice. */
  lemma {:induction false} EndlessWalkLoops(byId: map<string, Node>, seen: set<string>, current: string)
    returns (id: string, steps: nat)
    requires forall k :: k in byId && Up(byId, k).Some? ==> Up(byId, k).value in byId
    requires current in byId && !WalkEnds(byId, current) && seen <= byId.Keys
    requires forall k :: k in seen ==> Below(byId, k, current)
    ensures id in byId && steps > 0 && Reaches(byId, id, id, steps)
    decreases byId.Keys - seen
  {
    if current in seen {
      id := current;
      steps :| steps > 0 && Reaches(byId, id, id, steps);
    } else {
      assert !Ends(byId, current, 1);
      var next := Up(byId, current).value;
      forall n: nat
        ensures !Ends(byId, next, n)
      {
        assert !Ends(byId, current, n + 1);
      }
      forall k | k in seen + {current}
        ensures Below(byId, k, next)
      {
        if k == current {
          assert Reaches(byId, next, next, 0) && Reaches(byId, k, next, 1);
        } else {
          var m: nat :| m > 0 && Reaches(byId, k, current, m);
          OneMoreStep(byId, k, current, m);
        }
      }
      id, steps := EndlessWalkLoops(byId, seen + {current}, next);
    }
  }

  ghost predicate HasLoop(rows: seq<Node>) {
    exists id, steps: nat :: id in ById(rows) && steps > 0 && Reaches(ById(rows), id, id, steps)
  }

  lemma {:induction false} LoopMeansCycle(rows: seq<Node>)
    requires NoMissingParent(rows)
    ensures HasLoop(rows) <==> !Acyclic(rows)
  {
    ByIdMeans(rows);
    var byId := ById(rows);
    if HasLoop(rows) {
      var id, steps: nat :| id in byId && steps > 0 && Reaches(byId, id, id, steps);
      forall n: nat
        ensures !Ends(byId, id, n)
      {
        LoopNeverEnds(byId, id, steps, n);
      }
      var i :| 0 <= i < |rows| && rows[i] == byId[id];
      assert !WalkEnds(byId, rows[i].id);
    }
    if !Acyclic(rows) {
      var i :| 0 <= i < |rows| && !WalkEnds(byId, rows[i].id);
      assert NodeId(rows[i]) in KeySet(rows, NodeId);
      forall k | k in byId && Up(byId, k).Some?
        ensures Up(byId, k).value in byId
      {
        var m :| 0 <= m < |rows| && rows[m] == byId[k];
        assert ParentFound(rows, m);
      }
      var id, steps := EndlessWalkLoops(byId, {}, rows[i].id);
    }
  }

  /** Some row names a parent that no row is. */
  ghost predicate HasOrphan(rows: seq<Node>) {
    exists i :: 0 <= i < |rows| && IsOrphan(rows, rows[i])
  }

  ghost predicate IsOrphan(rows: seq<Node>, row: Node) {
    row.parent.Some? && forall j :: 0 <= j < |rows| ==> rows[j].id != row.parent.value
  }

  lemma OrphanMeansMissing(rows: seq<Node>)
    ensures HasOrphan(rows) <==> !NoMissingParent(rows)
  {
    if !NoMissingParent(rows) {
      var i :| !ParentFound(rows, i);
      KeySetHas(rows, NodeId, rows[i].parent.value);
      assert forall j :: 0 <= j < |rows| ==> NodeId(rows[j]) != rows[i].parent.value;
      assert IsOrphan(rows, rows[i]);
    }
    if i :| 0 <= i < |rows| && IsOrphan(rows, rows[i]) {
      KeySetHas(rows, NodeId, rows[i].parent.value);
      assert !ParentFound(rows, i);
    }
  }

  /** Some row that is finalized is nobody's parent. */
  ghost predicate HasFinalizedLeaf(rows: seq<Node>) {
    exists i :: && 0 <= i < |rows| && rows[i].status == Some("FINALIZED")
                && forall j :: 0 <= j < |rows| ==> rows[j].parent != Some(rows[i].id)
  }

  lemma LeafMeansTip(rows: seq<Node>)
    ensures HasFinalizedLeaf(rows) <==> exists i :: FinalizedTip(rows, i)
  {
    if i :| FinalizedTip(rows, i) {
      assert forall j :: 0 <= j < |rows| ==> rows[j].parent != Some(rows[i].id);
    }
    if i :| && 0 <= i < |rows| && rows[i].status == Some("FINALIZED")
            && forall j :: 0 <= j < |rows| ==> rows[j].parent != Some(rows[i].id)
    {
      assert FinalizedTip(rows, i);
    }
  }

  /** Each reason testifies to its own defect, and to the absence of those tested before. */
  lemma {:induction false} ReasonsTestify(rows: seq<Node>)
    ensures TopologyOf(rows).reason == Empty <==> rows == []
    ensures TopologyOf(rows).reason == MissingParent <==> HasOrphan(rows)
    ensures TopologyOf(rows).reason == Cycle <==> !HasOrphan(rows) && HasLoop(rows)
    ensures TopologyOf(rows).reason == Branch <==> !HasOrphan(rows) && !HasLoop(rows) && Branched(rows)
    ensures TopologyOf(rows).reason == Disconnected <==>
            !HasOrphan(rows) && !HasLoop(rows) && !Branched(rows) && TwoRoots(rows)
    ensures TopologyOf(rows).reason in {NoTip, Safe} <==>
            rows != [] && !HasOrphan(rows) && !HasLoop(rows) && !Branched(rows) && !TwoRoots(rows)
    ensures TopologyOf(rows).reason == Safe ==> HasFinalizedLeaf(rows)
    ensures TopologyOf(rows).reason == NoTip ==> !HasFinalizedLeaf(rows)
  {
    OrphanMeansMissing(rows);
    LeafMeansTip(rows);
    if NoMissingParent(rows) {
      LoopMeansCycle(rows);
    }
    if rows == [] {
      assert ById(rows) == map[];
    }
  }
}
