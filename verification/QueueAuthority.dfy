/** The reconciliation queue's generation numbers: requests are numbered, responses come
    back in any order, and only the newest may change what the screen shows. */
module QueueAuthority {
  import opened Basics

  datatype Order = Order(wkOrderId: int, card: string)

  function OrderKey(order: Order): int {
    order.wkOrderId
  }

  datatype Mode = Replace | Append

  datatype Snapshot = Snapshot(
    generation: nat,
    items: seq<Order>,
    nextCursor: Option<string>,
    exhausted: bool,
    scanned: Option<nat>,
    lastBatchCount: nat,
    loading: bool,
    continuing: bool,
    inlineError: Option<string>,
    loadError: Option<string>)

  datatype Payload = Payload(
    mode: Mode, items: seq<Order>, nextCursor: Option<string>, exhausted: bool, scanned: nat)

  /** In an error, `None` is "leave the message alone"; `Some(None)` clears it. */
  datatype Failure = Failure(inlineError: Option<Option<string>>, loadError: Option<Option<string>>, resetCursor: bool)

  function BeginQueueGeneration(state: Snapshot, mode: Mode): Snapshot {
    var generation := state.generation + 1;
    match mode
    case Replace => state.(generation := generation, loading := true, continuing := false, loadError := None)
    case Append => state.(generation := generation, continuing := true)
  }

  /** The loop of the source with its `seen` set and counters. */
  method AppendUniqueOrders(existing: seq<Order>, incoming: seq<Order>)
    returns (items: seq<Order>, added: nat, duplicatesSkipped: nat)
    ensures items == Absorb(existing, incoming, OrderKey)
    ensures |items| == |existing| + added && added + duplicatesSkipped == |incoming|
  {
    var seen := set order | order in existing :: order.wkOrderId;
    items, added, duplicatesSkipped := existing, 0, 0;
    for n := 0 to |incoming|
      invariant items == Absorb(existing, incoming[..n], OrderKey)
      invariant forall id :: id in seen <==> HasKey(items, OrderKey, id)
      invariant |items| == |existing| + added && added + duplicatesSkipped == n
    {
      assert incoming[..n + 1][..n] == incoming[..n];
      var order := incoming[n];
      if order.wkOrderId in seen {
        duplicatesSkipped := duplicatesSkipped + 1;
      } else {
        seen := seen + {order.wkOrderId};
        ghost var before := items;
        items := items + [order];
        added := added + 1;
        forall id
          ensures HasKey(items, OrderKey, id) <==> HasKey(before, OrderKey, id) || id == order.wkOrderId
        {
          HasKeyInConcat(before, [order], OrderKey, id);
          assert [order][0] == order;
        }
      }
    }
    assert incoming[..|incoming|] == incoming;
  }

  function ApplyQueueSuccess(state: Snapshot, generation: nat, payload: Payload): Snapshot {
    if state.generation != generation then state
    else state.(
      items := if payload.mode == Append then Absorb(state.items, payload.items, OrderKey) else payload.items,
      nextCursor := payload.nextCursor,
      exhausted := payload.exhausted,
      scanned := Some(payload.scanned),
      lastBatchCount := |payload.items|,
      loading := false,
      continuing := false,
      loadError := None,
      inlineError := None)
  }

  function ApplyQueueFailure(state: Snapshot, generation: nat, error: Failure): Snapshot {
    if state.generation != generation then state
    else
      var told := state.(
        loading := false,
        continuing := false,
        inlineError := if error.inlineError.None? then state.inlineError else error.inlineError.value,
        loadError := if error.loadError.None? then state.loadError else error.loadError.value);
      if error.resetCursor then told.(items := [], nextCursor := None) else told
  }

  // ------------------------------------------------------- the protocol

  /** The screen with its network: request `g` was asked in mode `asked[g - 1]`, `waiting`
      are the requests without a response, `base` the batch of the last accepted replace
      (or nothing, at first and after a cursor reset) and `pages` those appended since. */
  datatype Screen = Screen(
    state: Snapshot, asked: seq<Mode>, waiting: set<nat>, base: seq<Order>, pages: seq<seq<Order>>)

  datatype Event =
    | Ask(mode: Mode)
    | Answer(generation: nat, payload: Payload)
    | Refuse(generation: nat, error: Failure)

  const NEW_SCREEN := Screen(Snapshot(0, [], None, false, None, 0, false, false, None, None), [], {}, [], [])

  /** A response answers a waiting request, in that request's mode. */
  predicate Possible(s: Screen, e: Event) {
    match e
    case Ask(_) => true
    case Answer(g, payload) => g in s.waiting && 0 < g <= |s.asked| && payload.mode == s.asked[g - 1]
    case Refuse(g, _) => g in s.waiting
  }

  function After(s: Screen, e: Event): Screen {
    match e
    case Ask(mode) =>
      var state := BeginQueueGeneration(s.state, mode);
      s.(state := state, asked := s.asked + [mode], waiting := s.waiting + {state.generation})
    case Answer(g, payload) =>
      var told := s.(state := ApplyQueueSuccess(s.state, g, payload), waiting := s.waiting - {g});
      if g != s.state.generation then told
      else if payload.mode == Append then told.(pages := s.pages + [payload.items])
      else told.(base := payload.items, pages := [])
    case Refuse(g, error) =>
      var told := s.(state := ApplyQueueFailure(s.state, g, error), waiting := s.waiting - {g});
      if g == s.state.generation && error.resetCursor then told.(base := [], pages := []) else told
  }

  ghost predicate IsRun(run: seq<Screen>, events: seq<Event>) {
    && |run| == |events| + 1 && run[0] == NEW_SCREEN
    && forall i :: 0 <= i < |events| ==> Possible(run[i], events[i]) && run[i + 1] == After(run[i], events[i])
  }

  function Concat(pages: seq<seq<Order>>): seq<Order> {
    if pages == [] then [] else Concat(pages[..|pages| - 1]) + pages[|pages| - 1]
  }

  ghost predicate Sound(s: Screen) {
    && s.state.generation == |s.asked|
    && (forall g :: g in s.waiting ==> 0 < g <= |s.asked|)
    && (s.state.loading || s.state.continuing ==> s.state.generation in s.waiting)
    && s.state.items == Absorb(s.base, Concat(s.pages), OrderKey)
  }

  lemma {:induction false} StepIsSound(s: Screen, e: Event)
    requires Sound(s) && Possible(s, e)
    ensures Sound(After(s, e))
  {
    if e.Answer? && e.generation == s.state.generation {
      if e.payload.mode == Append {
        var pages := s.pages + [e.payload.items];
        assert pages[..|pages| - 1] == s.pages;
        AbsorbInSteps(s.base, Concat(s.pages), e.payload.items, OrderKey);
      }
    }
  }

  lemma {:induction false} RunIsSound(run: seq<Screen>, events: seq<Event>, i: nat)
    requires IsRun(run, events) && i < |run|
    ensures Sound(run[i])
  {
    if i > 0 {
      RunIsSound(run, events, i - 1);
      StepIsSound(run[i - 1], events[i - 1]);
    }
  }

  // ------------------------------------------------------- the theorems

  /** Whatever the order of the responses: a response that changes the state answers the
      last request asked, and answers it for the first time. */
  lemma {:induction false} OnlyNewestResponseCounts(run: seq<Screen>, events: seq<Event>, i: nat)
    requires IsRun(run, events) && i < |events| && !events[i].Ask?
    requires run[i + 1].state != run[i].state
    ensures events[i].generation == |run[i].asked|
    ensures events[i].generation in run[i].waiting && events[i].generation !in run[i + 1].waiting
  {
    RunIsSound(run, events, i);
  }

  /** No spinner without a request: a `loading` or `continuing` flag means the newest
      request still has no response. */
  lemma {:induction false} BusyMeansWaiting(run: seq<Screen>, events: seq<Event>, i: nat)
    requires IsRun(run, events) && i < |run|
    requires run[i].state.loading || run[i].state.continuing
    ensures |run[i].asked| in run[i].waiting
  {
    RunIsSound(run, events, i);
  }

  /** The list shows the first occurrence of every order among all batches accepted since
      the last replace or reset, exactly when the replacing batch itself had no repeats. */
  lemma {:induction false} ItemsAreFirstOccurrences(run: seq<Screen>, events: seq<Event>, i: nat)
    requires IsRun(run, events) && i < |run|
    ensures run[i].state.items == Absorb([], run[i].base + Concat(run[i].pages), OrderKey)
            <==> DistinctKeys(run[i].base, OrderKey)
  {
    RunIsSound(run, events, i);
    var base, rest := run[i].base, Concat(run[i].pages);
    FirstOccurrences(base, rest);
  }

  lemma {:induction false} FirstOccurrences(base: seq<Order>, rest: seq<Order>)
    ensures Absorb(base, rest, OrderKey) == Absorb([], base + rest, OrderKey) <==> DistinctKeys(base, OrderKey)
  {
    AbsorbInSteps([], base, rest, OrderKey);
    if DistinctKeys(base, OrderKey) {
      assert [] + base == base;
      AbsorbAllNew([], base, OrderKey);
    } else {
      var i, j :| 0 <= i < j < |base| && OrderKey(base[i]) == OrderKey(base[j]);
      AbsorbIsDistinct([], base + rest, OrderKey);
      AbsorbKeepsFirst(base, rest, OrderKey, 0);
      var items := Absorb(base, rest, OrderKey);
      assert items[i] == base[i] && items[j] == base[j];
    }
  }

  /** So with repeat-free replies each order is listed once, where it first came. */
  lemma {:induction false} OrdersAreListedOnce(run: seq<Screen>, events: seq<Event>, i: nat, id: int)
    requires IsRun(run, events) && i < |run| && DistinctKeys(run[i].base, OrderKey)
    ensures DistinctKeys(run[i].state.items, OrderKey)
    ensures Find(run[i].state.items, OrderKey, id) == Find(run[i].base + Concat(run[i].pages), OrderKey, id)
  {
    ItemsAreFirstOccurrences(run, events, i);
    var all := run[i].base + Concat(run[i].pages);
    AbsorbIsDistinct([], all, OrderKey);
    AbsorbKeepsFirst([], all, OrderKey, id);
    assert [] + all == all;
  }

  lemma {:induction false} PageIsInConcat(pages: seq<seq<Order>>, k: nat, id: int)
    requires k < |pages| && HasKey(pages[k], OrderKey, id)
    ensures HasKey(Concat(pages), OrderKey, id)
  {
    HasKeyInConcat(Concat(pages[..|pages| - 1]), pages[|pages| - 1], OrderKey, id);
    if k < |pages| - 1 {
      PageIsInConcat(pages[..|pages| - 1], k, id);
    }
  }

  /** A page that was accepted before adds nothing when it comes again. */
  lemma {:induction false} RepeatedPageAddsNothing(run: seq<Screen>, events: seq<Event>, i: nat, k: nat,
    payload: Payload)
    requires IsRun(run, events) && i < |run| && payload.mode == Append
    requires k < |run[i].pages| && payload.items == run[i].pages[k]
    ensures ApplyQueueSuccess(run[i].state, run[i].state.generation, payload).items == run[i].state.items
  {
    RunIsSound(run, events, i);
    var s := run[i];
    forall n | 0 <= n < |payload.items|
      ensures HasKey(s.state.items, OrderKey, OrderKey(payload.items[n]))
    {
      var id := OrderKey(payload.items[n]);
      PageIsInConcat(s.pages, k, id);
      HasKeyInConcat(s.base, Concat(s.pages), OrderKey, id);
      AbsorbKeepsFirst(s.base, Concat(s.pages), OrderKey, id);
    }
    AbsorbNothingNew(s.state.items, payload.items, OrderKey);
  }

  // ------------------------------------------- what the screen shows

  /** The reply answers the newest request: it is the one that counts. */
  predicate Counts(s: Screen, e: Event) {
    !e.Ask? && e.generation == |s.asked|
  }

  /** What the events so far leave to be shown, told by the events alone: the last answer
      that counted, whether the cursor was reset since, the messages since, and how many
      requests had been asked when a reply last counted. */
  datatype Story = Story(
    answer: Option<Payload>, reset: bool, inlineMessage: Option<string>, loadMessage: Option<string>, settled: nat)

  const OPENING := Story(None, false, None, None, 0)

  function Said(told: Option<Option<string>>, before: Option<string>): Option<string> {
    if told.Some? then told.value else before
  }

  /** A replacing request takes the load message down; an answer that counts takes both
      down; a refusal that counts says what it says and leaves the rest. */
  function NextStory(t: Story, s: Screen, e: Event): Story {
    match e
    case Ask(Replace) => t.(loadMessage := None)
    case Ask(Append) => t
    case Answer(g, payload) =>
      if g == |s.asked| then Story(Some(payload), false, None, None, |s.asked|) else t
    case Refuse(g, error) =>
      if g != |s.asked| then t
      else t.(
        reset := t.reset || error.resetCursor,
        inlineMessage := Said(error.inlineError, t.inlineMessage),
        loadMessage := Said(error.loadError, t.loadMessage),
        settled := |s.asked|)
  }

  function StoryOf(run: seq<Screen>, events: seq<Event>, i: nat): Story
    requires i <= |events| && |run| == |events| + 1
  {
    if i == 0 then OPENING else NextStory(StoryOf(run, events, i - 1), run[i - 1], events[i - 1])
  }

  /** Some request asked after the first `settled` ones was to replace the list. */
  ghost predicate ReplaceAfter(asked: seq<Mode>, settled: nat) {
    exists g :: settled <= g < |asked| && asked[g] == Replace
  }

  /** The screen shows exactly what the story says. */
  ghost predicate Tells(t: Story, s: Screen) {
    && s.state.generation == |s.asked| && t.settled <= |s.asked|
    && (|s.asked| in s.waiting <==> t.settled < |s.asked|)
    && (forall g :: g in s.waiting ==> 0 < g <= |s.asked|)
    && s.state.nextCursor == (if t.answer.Some? && !t.reset then t.answer.value.nextCursor else None)
    && s.state.exhausted == (t.answer.Some? && t.answer.value.exhausted)
    && s.state.scanned == (if t.answer.Some? then Some(t.answer.value.scanned) else None)
    && s.state.lastBatchCount == (if t.answer.Some? then |t.answer.value.items| else 0)
    && s.state.inlineError == t.inlineMessage
    && s.state.loadError == t.loadMessage
    && (s.state.loading <==> ReplaceAfter(s.asked, t.settled))
    && (s.state.continuing <==> t.settled < |s.asked| && s.asked[|s.asked| - 1] == Append)
  }

  lemma {:induction false} AskTells(t: Story, s: Screen, mode: Mode)
    requires Tells(t, s)
    ensures Tells(NextStory(t, s, Ask(mode)), After(s, Ask(mode)))
  {
    var more := s.asked + [mode];
    assert more[|s.asked|] == mode && forall g :: 0 <= g < |s.asked| ==> more[g] == s.asked[g];
    if ReplaceAfter(s.asked, t.settled) {
      var g :| t.settled <= g < |s.asked| && s.asked[g] == Replace;
      assert more[g] == Replace;
    }
  }

  lemma {:induction false} ReplyTells(t: Story, s: Screen, e: Event)
    requires Tells(t, s) && Possible(s, e) && !e.Ask?
    ensures Tells(NextStory(t, s, e), After(s, e))
  {
  }

  /** Over every run: cursor, exhausted flag, scanned count and batch count are those of the
      last answer that counted, with no cursor before any answer or after a reset; the
      messages are those told since; the screen is loading exactly while a replacing request
      has been asked since a reply last counted, and continuing exactly while the newest
      request, unanswered, is to append. */
  lemma {:induction false} ScreenTellsStory(run: seq<Screen>, events: seq<Event>, i: nat)
    requires IsRun(run, events) && i < |run|
    ensures Tells(StoryOf(run, events, i), run[i])
  {
    if i > 0 {
      ScreenTellsStory(run, events, i - 1);
      var t := StoryOf(run, events, i - 1);
      match events[i - 1] {
        case Ask(mode) => AskTells(t, run[i - 1], mode);
        case _ => ReplyTells(t, run[i - 1], events[i - 1]);
      }
    }
  }

  /** Event k is a refusal that counted, and the messages it set are still to be seen at i:
      no answer has counted since, nor, for the load message, a replacing request been asked. */
  ghost predicate Source(run: seq<Screen>, events: seq<Event>, k: nat, i: nat, load: bool, message: string)
    requires |run| == |events| + 1 && k < i <= |events|
  {
    && events[k].Refuse? && Counts(run[k], events[k])
    && (if load then events[k].error.loadError else events[k].error.inlineError) == Some(Some(message))
    && (forall j :: k < j < i ==> !(events[j].Answer? && Counts(run[j], events[j])))
    && (load ==> forall j :: k < j < i ==> events[j] != Ask(Replace))
  }

  /** A message on the screen comes from a refusal, after the last answer that counted. */
  lemma {:induction false} MessagesHaveASource(run: seq<Screen>, events: seq<Event>, i: nat, load: bool)
    returns (k: nat)
    requires IsRun(run, events) && i < |run|
    requires (if load then run[i].state.loadError else run[i].state.inlineError).Some?
    ensures k < i
    ensures Source(run, events, k, i, load, (if load then run[i].state.loadError else run[i].state.inlineError).value)
  {
    ScreenTellsStory(run, events, i);
    k := StorySource(run, events, i, load);
  }

  lemma {:induction false} StorySource(run: seq<Screen>, events: seq<Event>, i: nat, load: bool) returns (k: nat)
    requires |run| == |events| + 1 && i <= |events|
    requires var t := StoryOf(run, events, i); (if load then t.loadMessage else t.inlineMessage).Some?
    ensures k < i
    ensures var t := StoryOf(run, events, i);
            Source(run, events, k, i, load, (if load then t.loadMessage else t.inlineMessage).value)
  {
    var before, e := StoryOf(run, events, i - 1), events[i - 1];
    if e.Refuse? && Counts(run[i - 1], e) && (if load then e.error.loadError else e.error.inlineError).Some? {
      k := i - 1;
    } else {
      k := StorySource(run, events, i - 1, load);
    }
  }
}
