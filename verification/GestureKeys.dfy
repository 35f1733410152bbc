/** Idempotency keys for admin gestures: `submitGesture`, `markGestureAmbiguous` and
    `completeGesture`, run against a server that applies each key once. */
module GestureKeys {
  import opened Basics

  datatype GestureStatus = InFlight | Ambiguous

  datatype Gesture = Gesture(key: nat, fingerprint: string, status: GestureStatus)

  /** `crypto.randomUUID()` is the parameter `newKey`: a key nobody has used. */
  function SubmitGesture(active: Option<Gesture>, fingerprint: string, newKey: nat): (Gesture, bool) {
    if active.Some? && active.value.status in {InFlight, Ambiguous} && active.value.fingerprint == fingerprint
    then (active.value.(status := InFlight), true)
    else (Gesture(newKey, fingerprint, InFlight), false)
  }

  function MarkGestureAmbiguous(active: Option<Gesture>): Option<Gesture> {
    if active.None? then None else Some(active.value.(status := Ambiguous))
  }

  function CompleteGesture(active: Option<Gesture>): Option<Gesture> {
    None
  }

  // ---------------------------------------------------- client and server

  datatype Payload = Payload(parentDeterminationId: string, allocations: seq<string>, reason: string)

  datatype Post = Post(key: nat, fingerprint: string, payload: Payload)

  /** `drawn` counts the keys drawn so far; the next one is its value. `retired` are
      the keys of completed and superseded gestures, `effects` the posts the server
      has carried out. */
  datatype World = World(
    active: Option<Gesture>, drawn: nat, sent: seq<Post>, retired: set<nat>, effects: seq<Post>)

  const NEW_WORLD := World(None, 0, [], {}, [])

  datatype Event =
    | Submit(fingerprint: string, payload: Payload)
    | ReplyLost
    | ReplySucceeded
    | ServerHandles(post: nat)

  predicate AlreadyApplied(effects: seq<Post>, key: nat) {
    exists i :: 0 <= i < |effects| && effects[i].key == key
  }

  /** Posts may reach the server late, repeatedly, in any order, or never. */
  function After(w: World, e: Event): World {
    match e
    case Submit(fingerprint, payload) =>
      var (gesture, reused) := SubmitGesture(w.active, fingerprint, w.drawn);
      World(Some(gesture),
            if reused then w.drawn else w.drawn + 1,
            w.sent + [Post(gesture.key, fingerprint, payload)],
            if reused || w.active.None? then w.retired else w.retired + {w.active.value.key},
            w.effects)
    case ReplyLost => w.(active := MarkGestureAmbiguous(w.active))
    case ReplySucceeded =>
      w.(active := CompleteGesture(w.active),
         retired := if w.active.None? then w.retired else w.retired + {w.active.value.key})
    case ServerHandles(i) =>
      if i < |w.sent| && !AlreadyApplied(w.effects, w.sent[i].key)
      then w.(effects := w.effects + [w.sent[i]])
      else w
  }

  function Run(w: World, events: seq<Event>): World {
    if events == [] then w else After(Run(w, events[..|events| - 1]), events[|events| - 1])
  }

  ghost predicate Sound(w: World) {
    && (forall i :: 0 <= i < |w.sent| ==> w.sent[i].key < w.drawn)
    && (forall k :: k in w.retired ==> k < w.drawn)
    && (w.active.Some? ==>
          && w.active.value.key < w.drawn && w.active.value.key !in w.retired
          && forall i :: 0 <= i < |w.sent| && w.sent[i].key == w.active.value.key ==>
               w.sent[i].fingerprint == w.active.value.fingerprint)
    && (forall i, j :: 0 <= i < |w.sent| && 0 <= j < |w.sent| && w.sent[i].key == w.sent[j].key ==>
         w.sent[i].fingerprint == w.sent[j].fingerprint)
    && (forall i :: 0 <= i < |w.effects| ==> w.effects[i] in w.sent)
    && (forall i, j :: 0 <= i < j < |w.effects| ==> w.effects[i].key != w.effects[j].key)
  }

  lemma {:induction false} SubmitIsSound(w: World, fingerprint: string, payload: Payload)
    requires Sound(w)
    ensures Sound(After(w, Submit(fingerprint, payload)))
  {
  }

  lemma {:induction false} StepIsSound(w: World, e: Event)
    requires Sound(w)
    ensures Sound(After(w, e))
  {
    if e.Submit? {
      SubmitIsSound(w, e.fingerprint, e.payload);
    }
  }

  /** The status tells the last thing that happened to the gesture, and a success ends it. */
  lemma StatusTellsLastEvent(w: World, fingerprint: string, payload: Payload)
    ensures var active := After(w, Submit(fingerprint, payload)).active;
            active.Some? && active.value.status == InFlight && active.value.fingerprint == fingerprint
    ensures w.active.Some? ==>
              After(w, ReplyLost).active == Some(Gesture(w.active.value.key, w.active.value.fingerprint, Ambiguous))
    ensures After(w, ReplySucceeded).active == None
  {
  }

  lemma {:induction false} RunKeepsSound(w: World, events: seq<Event>)
    requires Sound(w)
    ensures Sound(Run(w, events))
  {
    if events != [] {
      RunKeepsSound(w, events[..|events| - 1]);
      StepIsSound(Run(w, events[..|events| - 1]), events[|events| - 1]);
    }
  }

  lemma RunIsSound(events: seq<Event>)
    ensures Sound(Run(NEW_WORLD, events))
  {
    RunKeepsSound(NEW_WORLD, events);
  }

  /** One idempotency key is never sent with two fingerprints. */
  lemma OneFingerprintPerKey(events: seq<Event>, i: nat, j: nat)
    requires i < |Run(NEW_WORLD, events).sent| && j < |Run(NEW_WORLD, events).sent|
    requires Run(NEW_WORLD, events).sent[i].key == Run(NEW_WORLD, events).sent[j].key
    ensures Run(NEW_WORLD, events).sent[i].fingerprint == Run(NEW_WORLD, events).sent[j].fingerprint
  {
    RunIsSound(events);
  }

  /** The key of a completed or superseded gesture is never sent again. */
  lemma {:induction false} RetiredKeyIsNeverSent(before: seq<Event>, later: seq<Event>, i: nat)
    requires |Run(NEW_WORLD, before).sent| <= i < |Run(NEW_WORLD, before + later).sent|
    ensures Run(NEW_WORLD, before).sent <= Run(NEW_WORLD, before + later).sent
    ensures Run(NEW_WORLD, before).retired <= Run(NEW_WORLD, before + later).retired
    ensures Run(NEW_WORLD, before + later).sent[i].key !in Run(NEW_WORLD, before).retired
  {
    RetiredGrows(before, later);
  }

  lemma {:induction false} RetiredGrows(before: seq<Event>, later: seq<Event>)
    ensures Run(NEW_WORLD, before).sent <= Run(NEW_WORLD, before + later).sent
    ensures Run(NEW_WORLD, before).retired <= Run(NEW_WORLD, before + later).retired
    ensures forall i :: |Run(NEW_WORLD, before).sent| <= i < |Run(NEW_WORLD, before + later).sent| ==>
                          Run(NEW_WORLD, before + later).sent[i].key !in Run(NEW_WORLD, before).retired
  {
    if later == [] {
      assert before + later == before;
    } else {
      var front := later[..|later| - 1];
      RetiredGrows(before, front);
      RunIsSound(before + front);
      RunIsSound(before);
      assert (before + later)[..|before + later| - 1] == before + front;
    }
  }

  /** The key of a gesture that a success or another fingerprint ended is never sent again. */
  lemma {:induction false} EndedGestureIsNeverSent(before: seq<Event>, e: Event, later: seq<Event>, i: nat)
    requires var gesture := Run(NEW_WORLD, before).active;
             gesture.Some? && (e == ReplySucceeded || (e.Submit? && e.fingerprint != gesture.value.fingerprint))
    requires |Run(NEW_WORLD, before).sent| <= i < |Run(NEW_WORLD, before + [e] + later).sent|
    ensures Run(NEW_WORLD, before + [e] + later).sent[i].key != Run(NEW_WORLD, before).active.value.key
  {
    var w, ended := Run(NEW_WORLD, before), before + [e];
    assert ended[..|before|] == before && ended[|before|] == e;
    assert Run(NEW_WORLD, ended) == After(w, e);
    RunIsSound(before);
    RetiredGrows(ended, later);
    assert w.active.value.key in After(w, e).retired;
    if i < |After(w, e).sent| {
      assert Run(NEW_WORLD, ended + later).sent[i] == After(w, e).sent[i];
    }
  }

  /** The server never does more than one thing per key drawn. */
  lemma {:induction false} EffectsAreBounded(events: seq<Event>)
    ensures |Run(NEW_WORLD, events).effects| <= Run(NEW_WORLD, events).drawn
  {
    RunIsSound(events);
    var w := Run(NEW_WORLD, events);
    DistinctKeysBounded(w.effects, w.drawn);
  }

  lemma {:induction false} DistinctKeysBounded(effects: seq<Post>, bound: nat)
    requires forall i :: 0 <= i < |effects| ==> effects[i].key < bound
    requires forall i, j :: 0 <= i < j < |effects| ==> effects[i].key != effects[j].key
    ensures |effects| <= bound
  {
    KeySetSize(effects, KeyOf);
    RangeSize(KeySet(effects, KeyOf), bound);
  }

  function KeyOf(post: Post): nat {
    post.key
  }

  lemma {:induction false} RangeSize(keys: set<nat>, bound: nat)
    requires forall k :: k in keys ==> k < bound
    ensures |keys| <= bound
  {
    if bound == 0 {
      assert keys == {};
    } else {
      RangeSize(keys - {bound - 1}, bound - 1);
    }
  }

  // ------------------------------------------------ the adjustment form

  predicate AdjustmentGestureLocksPayload(gesture: Option<Gesture>) {
    gesture.Some? && gesture.value.status in {InFlight, Ambiguous}
  }

  function ResolveAdjustmentMutationPayload(frozen: Option<Payload>, live: Payload): Payload {
    if frozen.Some? then frozen.value else live
  }

  /** The form keeps the payload of its first confirmation until the reply is a success;
      its fingerprint names only the parent determination. */
  datatype Form = Form(world: World, frozen: Option<Payload>)

  datatype FormEvent =
    | Confirm(live: Option<Payload>)
    | FormReplyLost
    | FormReplySucceeded
    | FormReplyDiscarded
    | FormServerHandles(post: nat)

  function FormAfter(f: Form, e: FormEvent): Form {
    match e
    case Confirm(live) =>
      if f.frozen.None? && live.None? then f
      else
        var payload := if live.Some? then ResolveAdjustmentMutationPayload(f.frozen, live.value) else f.frozen.value;
        Form(After(f.world, Submit("adjust:" + payload.parentDeterminationId, payload)), Some(payload))
    case FormReplyLost => f.(world := After(f.world, ReplyLost))
    case FormReplySucceeded => Form(After(f.world, ReplySucceeded), None)
    case FormReplyDiscarded => f
    case FormServerHandles(i) => f.(world := After(f.world, ServerHandles(i)))
  }

  /** A confirmation posts the frozen payload, or else what the form shows, and freezes it;
      with neither it does nothing. */
  lemma ConfirmPosts(f: Form, live: Option<Payload>)
    ensures var next := FormAfter(f, Confirm(live));
            match (f.frozen, live)
            case (None, None) => next == f
            case (Some(payload), _) => next.frozen == Some(payload) && Posted(f.world, next.world, payload)
            case (None, Some(payload)) => next.frozen == Some(payload) && Posted(f.world, next.world, payload)
  {
  }

  predicate Posted(before: World, after: World, payload: Payload) {
    && |after.sent| == |before.sent| + 1 && before.sent <= after.sent
    && after.sent[|before.sent|].payload == payload
    && after.sent[|before.sent|].fingerprint == "adjust:" + payload.parentDeterminationId
    && after.effects == before.effects
  }

  function FormRun(f: Form, events: seq<FormEvent>): Form {
    if events == [] then f else FormAfter(FormRun(f, events[..|events| - 1]), events[|events| - 1])
  }

  const NEW_FORM := Form(NEW_WORLD, None)

  ghost predicate CarriesOnly(sent: seq<Post>, key: nat, payload: Payload) {
    forall i :: 0 <= i < |sent| && sent[i].key == key ==> sent[i].payload == payload
  }

  ghost predicate OnePayload(sent: seq<Post>) {
    forall i, j :: 0 <= i < |sent| && 0 <= j < |sent| && sent[i].key == sent[j].key ==>
      sent[i].payload == sent[j].payload
  }

  /** Everything sent under the active key carries the frozen payload, and an active
      gesture is what keeps a payload frozen. */
  ghost predicate FormSound(f: Form) {
    && Sound(f.world)
    && (f.frozen.Some? <==> f.world.active.Some?)
    && (f.frozen.Some? ==>
          && f.world.active.value.fingerprint == "adjust:" + f.frozen.value.parentDeterminationId
          && CarriesOnly(f.world.sent, f.world.active.value.key, f.frozen.value))
    && OnePayload(f.world.sent)
  }

  lemma {:induction false} PostingKeepsPayloads(sent: seq<Post>, post: Post)
    requires OnePayload(sent) && CarriesOnly(sent, post.key, post.payload)
    ensures OnePayload(sent + [post]) && CarriesOnly(sent + [post], post.key, post.payload)
  {
  }

  lemma {:induction false} ConfirmIsSound(f: Form, live: Option<Payload>)
    requires FormSound(f)
    ensures FormSound(FormAfter(f, Confirm(live)))
  {
    if f.frozen.Some? || live.Some? {
      var payload := if f.frozen.Some? then f.frozen.value else live.value;
      var fingerprint := "adjust:" + payload.parentDeterminationId;
      StepIsSound(f.world, Submit(fingerprint, payload));
      var (gesture, reused) := SubmitGesture(f.world.active, fingerprint, f.world.drawn);
      PostingKeepsPayloads(f.world.sent, Post(gesture.key, fingerprint, payload));
    }
  }

  lemma {:induction false} FormStepIsSound(f: Form, e: FormEvent)
    requires FormSound(f)
    ensures FormSound(FormAfter(f, e))
  {
    match e {
      case Confirm(live) => ConfirmIsSound(f, live);
      case FormReplyLost => StepIsSound(f.world, ReplyLost);
      case FormReplySucceeded => StepIsSound(f.world, ReplySucceeded);
      case FormReplyDiscarded =>
      case FormServerHandles(i) => StepIsSound(f.world, ServerHandles(i));
    }
  }

  lemma {:induction false} FormRunIsSound(events: seq<FormEvent>)
    ensures FormSound(FormRun(NEW_FORM, events))
  {
    if events != [] {
      FormRunIsSound(events[..|events| - 1]);
      FormStepIsSound(FormRun(NEW_FORM, events[..|events| - 1]), events[|events| - 1]);
    }
  }

  /** The inputs are locked exactly while a payload is frozen. */
  lemma LockedWhileFrozen(events: seq<FormEvent>)
    ensures AdjustmentGestureLocksPayload(FormRun(NEW_FORM, events).world.active) <==>
            FormRun(NEW_FORM, events).frozen.Some?
  {
    FormRunIsSound(events);
    var active := FormRun(NEW_FORM, events).world.active;
    assert active.Some? ==> active.value.status == InFlight || active.value.status == Ambiguous;
  }

  /** Although fingerprints leave the allocations out, a key never carries two payloads. */
  lemma OnePayloadPerKey(events: seq<FormEvent>, i: nat, j: nat)
    requires var sent := FormRun(NEW_FORM, events).world.sent;
             i < |sent| && j < |sent| && sent[i].key == sent[j].key
    ensures FormRun(NEW_FORM, events).world.sent[i] == FormRun(NEW_FORM, events).world.sent[j]
  {
    FormRunIsSound(events);
  }

  /** What the form did since a moment at which `drawn` keys were used up and `sent` had
      been sent, with no success in between: it drew at most one key, and sent only that. */
  ghost predicate Since(sent: seq<Post>, drawn: nat, g: Form) {
    && sent <= g.world.sent
    && (g.frozen.Some? <==> g.world.active.Some?)
    && drawn <= g.world.drawn <= drawn + 1
    && (g.world.drawn > drawn <==> g.frozen.Some?)
    && (g.frozen.Some? ==> g.world.active.value.key == drawn)
    && (forall i :: |sent| <= i < |g.world.sent| ==> g.world.sent[i].key == drawn)
  }

  lemma {:induction false} StepSince(sent: seq<Post>, drawn: nat, g: Form, e: FormEvent)
    requires FormSound(g) && Since(sent, drawn, g) && !e.FormReplySucceeded?
    ensures Since(sent, drawn, FormAfter(g, e))
  {
    if e.Confirm? && g.frozen.Some? {
      var gesture := g.world.active.value;
      assert gesture.status == InFlight || gesture.status == Ambiguous;
      assert SubmitGesture(g.world.active, gesture.fingerprint, g.world.drawn).1;
    }
  }

  /** From one success to the next the form uses a single key. */
  lemma {:induction false} OneKeyBetweenSuccesses(f: Form, events: seq<FormEvent>)
    requires FormSound(f) && f.frozen.None?
    requires forall i :: 0 <= i < |events| ==> !events[i].FormReplySucceeded?
    ensures FormSound(FormRun(f, events)) && Since(f.world.sent, f.world.drawn, FormRun(f, events))
  {
    if events != [] {
      var front := events[..|events| - 1];
      OneKeyBetweenSuccesses(f, front);
      FormStepIsSound(FormRun(f, front), events[|events| - 1]);
      StepSince(f.world.sent, f.world.drawn, FormRun(f, front), events[|events| - 1]);
    }
  }

  /** Between two successes, retries have at most one effect: the server carries out at
      most one post of a gesture opened since the first success. */
  lemma {:induction false} OneEffectBetweenSuccesses(before: seq<FormEvent>, events: seq<FormEvent>, i: nat, j: nat)
    requires FormRun(NEW_FORM, before).frozen.None?
    requires forall k :: 0 <= k < |events| ==> !events[k].FormReplySucceeded?
    requires var effects := FormRun(FormRun(NEW_FORM, before), events).world.effects;
             && i < |effects| && effects[i].key >= FormRun(NEW_FORM, before).world.drawn
             && j < |effects| && effects[j].key >= FormRun(NEW_FORM, before).world.drawn
    ensures i == j
  {
    var f := FormRun(NEW_FORM, before);
    FormRunIsSound(before);
    OneKeyBetweenSuccesses(f, events);
    var w := FormRun(f, events).world;
    assert w.effects[i] in w.sent && w.effects[j] in w.sent;
  }

  // ------------------------------------------------ forms without a lock

  ghost predicate OneFingerprint(events: seq<Event>) {
    forall i, j :: 0 <= i < |events| && 0 <= j < |events| && events[i].Submit? && events[j].Submit? ==>
                     events[i].fingerprint == events[j].fingerprint
  }

  ghost predicate Submitted(events: seq<Event>, fingerprint: string) {
    exists i :: 0 <= i < |events| && events[i].Submit? && events[i].fingerprint == fingerprint
  }

  ghost predicate WasSent(sent: seq<Post>, key: nat) {
    exists i :: 0 <= i < |sent| && sent[i].key == key
  }

  /** No two effects belong to gestures opened after `drawn` keys were used up. */
  ghost predicate OneEffectSince(drawn: nat, w: World) {
    forall i, j :: 0 <= i < j < |w.effects| ==> w.effects[i].key < drawn || w.effects[j].key < drawn
  }

  /** After submissions without a success: the gesture open carries the last fingerprint and
      the last key, every key drawn was sent, and a second key means a second fingerprint. */
  ghost predicate Unfinished(drawn: nat, g: World, events: seq<Event>) {
    && drawn <= g.drawn
    && (g.active.None? ==> g.drawn == drawn && forall i :: 0 <= i < |events| ==> !events[i].Submit?)
    && (g.active.Some? ==> g.drawn > drawn && Submitted(events, g.active.value.fingerprint))
    && (g.drawn <= drawn + 1 <==> OneFingerprint(events))
    && (forall key :: drawn <= key < g.drawn ==> WasSent(g.sent, key))
  }

  lemma {:induction false} StepUnfinished(drawn: nat, g: World, events: seq<Event>, e: Event)
    requires Unfinished(drawn, g, events) && !e.ReplySucceeded?
    ensures Unfinished(drawn, After(g, e), events + [e])
  {
    var all, next := events + [e], After(g, e);
    assert all[..|events|] == events && all[|events|] == e;
    assert forall i :: 0 <= i < |events| ==> all[i] == events[i];
    forall fingerprint | Submitted(events, fingerprint)
      ensures Submitted(all, fingerprint)
    {
      var i :| 0 <= i < |events| && events[i].Submit? && events[i].fingerprint == fingerprint;
      assert all[i].fingerprint == fingerprint;
    }
    SentStays(drawn, g, e);
    if e.Submit? {
      OneMoreFingerprint(drawn, g, events, e);
    } else {
      SameFingerprints(events, e);
    }
  }

  lemma {:induction false} SentStays(drawn: nat, g: World, e: Event)
    requires forall key :: drawn <= key < g.drawn ==> WasSent(g.sent, key)
    ensures forall key :: drawn <= key < After(g, e).drawn ==> WasSent(After(g, e).sent, key)
  {
    var next := After(g, e);
    forall key | drawn <= key < next.drawn
      ensures WasSent(next.sent, key)
    {
      if key < g.drawn {
        assert WasSent(g.sent, key);
        var i :| 0 <= i < |g.sent| && g.sent[i].key == key;
        assert next.sent[i].key == key;
      } else {
        assert next.sent[|g.sent|].key == key;
      }
    }
  }

  lemma {:induction false} SameFingerprints(events: seq<Event>, e: Event)
    requires !e.Submit?
    ensures OneFingerprint(events + [e]) <==> OneFingerprint(events)
  {
    var all := events + [e];
    assert forall i :: 0 <= i < |events| ==> all[i] == events[i];
  }

  lemma {:induction false} OneMoreFingerprint(drawn: nat, g: World, events: seq<Event>, e: Event)
    requires Unfinished(drawn, g, events) && e.Submit?
    ensures After(g, e).drawn <= drawn + 1 <==> OneFingerprint(events + [e])
    ensures Submitted(events + [e], e.fingerprint)
  {
    var all := events + [e];
    assert all[|events|] == e;
    assert forall i :: 0 <= i < |events| ==> all[i] == events[i];
    if OneFingerprint(all) {
      assert OneFingerprint(events);
    }
    if g.active.Some? {
      var i :| 0 <= i < |events| && events[i].Submit? && events[i].fingerprint == g.active.value.fingerprint;
      assert SubmitGesture(g.active, e.fingerprint, g.drawn).1 <==> e.fingerprint == events[i].fingerprint by {
        assert g.active.value.status == InFlight || g.active.value.status == Ambiguous;
      }
      assert OneFingerprint(all) ==> all[i].fingerprint == e.fingerprint;
      if OneFingerprint(events) && e.fingerprint == events[i].fingerprint {
        assert forall k :: 0 <= k < |all| && all[k].Submit? ==> all[k].fingerprint == e.fingerprint;
      }
    }
  }

  lemma {:induction false} RunUnfinished(w: World, events: seq<Event>)
    requires w.active.None? && forall i :: 0 <= i < |events| ==> !events[i].ReplySucceeded?
    ensures Unfinished(w.drawn, Run(w, events), events)
  {
    if events != [] {
      var front, last := events[..|events| - 1], events[|events| - 1];
      RunUnfinished(w, front);
      StepUnfinished(w.drawn, Run(w, front), front, last);
      assert events == front + [last];
    }
  }

  /** Until a success, the bare functions draw a second key exactly when a second
      fingerprint is submitted. */
  lemma OneKeyMeansOneFingerprint(w: World, events: seq<Event>)
    requires w.active.None? && forall i :: 0 <= i < |events| ==> !events[i].ReplySucceeded?
    ensures Run(w, events).drawn <= w.drawn + 1 <==> OneFingerprint(events)
  {
    RunUnfinished(w, events);
  }

  lemma {:induction false} OneFingerprintOneEffect(w: World, events: seq<Event>)
    requires Sound(w) && w.active.None? && forall i :: 0 <= i < |events| ==> !events[i].ReplySucceeded?
    requires OneFingerprint(events)
    ensures OneEffectSince(w.drawn, Run(w, events))
  {
    RunKeepsSound(w, events);
    OneKeyMeansOneFingerprint(w, events);
    var g := Run(w, events);
    forall i, j | 0 <= i < j < |g.effects|
      ensures g.effects[i].key < w.drawn || g.effects[j].key < w.drawn
    {
      assert g.effects[i] in g.sent && g.effects[j] in g.sent;
    }
  }

  lemma RunOneMore(w: World, events: seq<Event>, e: Event)
    ensures Run(w, events + [e]) == After(Run(w, events), e)
  {
    var all := events + [e];
    assert all[..|all| - 1] == events;
  }

  lemma TwoHandled(w: World, events: seq<Event>, a: Event, b: Event)
    ensures Run(w, events + [a, b]) == After(After(Run(w, events), a), b)
  {
    var first := events + [a];
    assert events + [a, b] == first + [b];
    RunOneMore(w, first, b);
    RunOneMore(w, events, a);
  }

  /** A post that reaches the server has its key among the effects, which only grow. */
  lemma HandledIsApplied(w: World, i: nat)
    requires i < |w.sent|
    ensures AlreadyApplied(After(w, ServerHandles(i)).effects, w.sent[i].key)
    ensures forall key :: AlreadyApplied(w.effects, key) ==> AlreadyApplied(After(w, ServerHandles(i)).effects, key)
  {
    var next := After(w, ServerHandles(i));
    if !AlreadyApplied(w.effects, w.sent[i].key) {
      assert next.effects[|w.effects|].key == w.sent[i].key;
    }
    forall key | AlreadyApplied(w.effects, key)
      ensures AlreadyApplied(next.effects, key)
    {
      var k :| 0 <= k < |w.effects| && w.effects[k].key == key;
      assert next.effects[k].key == key;
    }
  }

  lemma {:induction false} TwoFingerprintsTwoEffects(w: World, events: seq<Event>) returns (i: nat, j: nat)
    requires w.active.None? && forall i :: 0 <= i < |events| ==> !events[i].ReplySucceeded?
    requires !OneFingerprint(events)
    ensures !OneEffectSince(w.drawn, Run(w, events + [ServerHandles(i), ServerHandles(j)]))
  {
    RunUnfinished(w, events);
    var g := Run(w, events);
    assert WasSent(g.sent, w.drawn) && WasSent(g.sent, w.drawn + 1);
    i :| i < |g.sent| && g.sent[i].key == w.drawn;
    j :| j < |g.sent| && g.sent[j].key == w.drawn + 1;
    TwoHandled(w, events, ServerHandles(i), ServerHandles(j));
    HandledIsApplied(g, i);
    HandledIsApplied(After(g, ServerHandles(i)), j);
    TwoKeysTwoEffects(w.drawn, Run(w, events + [ServerHandles(i), ServerHandles(j)]), w.drawn, w.drawn + 1);
  }

  lemma TwoKeysTwoEffects(drawn: nat, w: World, a: nat, b: nat)
    requires AlreadyApplied(w.effects, a) && AlreadyApplied(w.effects, b) && drawn <= a < b
    ensures !OneEffectSince(drawn, w)
  {
    var i :| 0 <= i < |w.effects| && w.effects[i].key == a;
    var j :| 0 <= j < |w.effects| && w.effects[j].key == b;
    assert i < j || j < i;
  }

  /** The lock is what makes the adjustment form safe: without one, at most one effect
      between successes is certain exactly if all submissions carry one fingerprint. */
  lemma {:induction false} UnlockedIsSafeWithOneFingerprint(w: World, events: seq<Event>)
    requires Sound(w) && w.active.None? && forall i :: 0 <= i < |events| ==> !events[i].ReplySucceeded?
    ensures OneFingerprint(events) <==>
            forall i: nat, j: nat :: OneEffectSince(w.drawn, Run(w, events + [ServerHandles(i), ServerHandles(j)]))
  {
    if OneFingerprint(events) {
      forall i: nat, j: nat
        ensures OneEffectSince(w.drawn, Run(w, events + [ServerHandles(i), ServerHandles(j)]))
      {
        SameFingerprints(events, ServerHandles(i));
        SameFingerprints(events + [ServerHandles(i)], ServerHandles(j));
        var all := events + [ServerHandles(i)] + [ServerHandles(j)];
        assert all == events + [ServerHandles(i), ServerHandles(j)];
        OneFingerprintOneEffect(w, all);
      }
    } else {
      var i, j := TwoFingerprintsTwoEffects(w, events);
    }
  }

  /** Such a run: the reply to a draft is lost, the form is edited and submitted again. */
  lemma UnlockedSubmitsCanActTwice(p: Payload)
    ensures var w := Run(NEW_WORLD, [Submit("a", p), ServerHandles(0), ReplyLost, Submit("b", p), ServerHandles(1)]);
            |w.effects| == 2 && w.retired == {0} && w.active == Some(Gesture(1, "b", InFlight))
  {
    var e := [Submit("a", p), ServerHandles(0), ReplyLost, Submit("b", p), ServerHandles(1)];
    var front := [Submit("a", p), ServerHandles(0), ReplyLost];
    assert [] + [Submit("a", p), ServerHandles(0)] + [ReplyLost] == front;
    TwoHandled(NEW_WORLD, [], Submit("a", p), ServerHandles(0));
    RunOneMore(NEW_WORLD, [] + [Submit("a", p), ServerHandles(0)], ReplyLost);
    var post := Post(0, "a", p);
    assert Run(NEW_WORLD, front) == World(Some(Gesture(0, "a", Ambiguous)), 1, [post], {}, [post]);
    TwoHandled(NEW_WORLD, front, Submit("b", p), ServerHandles(1));
    assert front + [Submit("b", p), ServerHandles(1)] == e;
  }
}
