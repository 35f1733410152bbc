/** Push-token bookkeeping: enabling and deactivating notifications as steps over local
    storage, the backend's device registry and the browser's one Firebase token. */
module PushDevices {
  import opened Basics

  const ROOT_WORKER_REGISTRATION_VERSION := "root-sw-v1"

  datatype CleanupResult = CleanupResult(backendDeactivated: bool, firebaseDeleted: bool, cleanupComplete: bool)

  /** A call whose success reply can be trusted; without one, it may have happened or not. */
  datatype Attempt = Succeeds | FailsAfterDoing | Fails {
    predicate Happens() {
      !Fails?
    }
  }

  /** What the world does during one deactivation. */
  datatype CleanupWorld = CleanupWorld(backendDelete: Attempt, messagingOk: bool, firebaseDelete: Attempt)

  /** One success reply, from the backend or from Firebase, completes a clean-up. */
  predicate CleanupSucceeds(authToken: Option<string>, world: CleanupWorld) {
    (authToken.Some? && world.backendDelete.Succeeds?) || (world.messagingOk && world.firebaseDelete.Succeeds?)
  }

  /** What the world does while notifications are being enabled; `minted` is the token
      Firebase makes up if the browser has none. */
  datatype EnableWorld = EnableWorld(
    messagingOk: bool,
    permissionGranted: bool,
    workerOk: bool,
    pendingDelete: Attempt,
    cleanup: CleanupWorld,
    tokenOk: bool,
    minted: string,
    registration: Attempt)

  datatype EnableResult =
    | NotGranted
    | Enabled(fcmToken: string)
    | Threw(why: Refusal)

  datatype Refusal = NotSupported | WorkerUnavailable | StillPending | NoToken | NotSignedIn | RegistrationFailed

  /** What settling earlier clean-ups leads to: whether enabling may go on, the token then
      on record, the token Firebase then has, and a token whose clean-up is still pending. */
  datatype Settled = Settled(ready: bool, record: Option<string>, firebase: Option<string>, blocking: Option<string>)

  /** A registration request, with the pending clean-up token at that moment. */
  datatype Registration = Registration(token: string, pending: Option<string>)

  class Browser {
    // local storage
    var tracked: Option<string>
    var pending: Option<string>
    var version: Option<string>
    // Firebase and the backend
    var firebase: Option<string>
    var registry: map<string, string>
    /** Every token ever handed out, to any browser. */
    var issued: set<string>
    ghost var requests: seq<Registration>

    /** A clean-up is only ever pending for the tracked token. */
    ghost predicate Valid()
      reads this
    {
      && (tracked.Some? ==> tracked.value != "")
      && (pending.Some? ==> tracked == pending)
      && (firebase.Some? ==> firebase.value in issued && firebase.value != "")
      && registry.Keys <= issued
      && forall i :: 0 <= i < |requests| ==> requests[i].pending.None? || requests[i].pending.value == requests[i].token
    }

    /** A push sent to this token would arrive in this browser. */
    ghost predicate Live(token: string)
      reads this
    {
      token in registry && firebase == Some(token)
    }

    /** Any live token is in local storage, so that signing out can find it. */
    ghost predicate Recorded()
      reads this
    {
      forall token :: Live(token) ==> tracked == Some(token)
    }

    ghost predicate Silent()
      reads this
    {
      forall token :: !Live(token)
    }

    constructor ()
      ensures Valid() && Recorded() && Silent()
      ensures tracked == pending == version == firebase == None && registry == map[] && issued == {} && requests == []
    {
      tracked, pending, version, firebase := None, None, None, None;
      registry, issued, requests := map[], {}, [];
    }

    function PendingCleanupToken(): Option<string>
      reads this
    {
      if pending.Some? && Trim(pending.value) != "" then Some(Trim(pending.value)) else None
    }

    /** `getItem(FCM_TOKEN_KEY) || pendingCleanupToken(storage)`. */
    function TrackedOrPending(): Option<string>
      reads this
    {
      if tracked.Some? && tracked.value != "" then tracked else PendingCleanupToken()
    }

    /** A pending token is deleted at Firebase first, a token registered under an older
        worker is cleaned up first, and otherwise there is nothing to settle. */
    function SettledAs(authToken: Option<string>, world: EnableWorld): Settled
      reads this
    {
      if pending.Some? && !IsBlank(pending.value) then
        var left := if world.pendingDelete.Happens() then None else firebase;
        if world.pendingDelete.Succeeds? then Settled(true, None, left, None)
        else Settled(true, tracked, left, Some(Trim(pending.value)))
      else
        if version == Some(ROOT_WORKER_REGISTRATION_VERSION) || tracked.None?
        then Settled(true, tracked, firebase, None)
        else
          var left := if world.cleanup.messagingOk && world.cleanup.firebaseDelete.Happens() then None else firebase;
          if CleanupSucceeds(authToken, world.cleanup) then Settled(true, None, left, None)
          else Settled(false, tracked, left, None)
    }

    /** The token that enabling registers from here, if it gets that far. */
    function Posted(authToken: Option<string>, world: EnableWorld): Option<string>
      reads this
    {
      var settled := SettledAs(authToken, world);
      var token := if settled.firebase.Some? then settled.firebase.value else world.minted;
      if && world.messagingOk && world.permissionGranted && world.workerOk && settled.ready
         && world.tokenOk && authToken.Some?
         && (settled.blocking.None? || settled.blocking.value == token)
      then Some(token)
      else None
    }

    method ClearTrackedPushToken()
      modifies this`tracked, this`pending
      ensures tracked == None && pending == None
    {
      tracked, pending := None, None;
    }

    method DeactivatePushDevice(authToken: Option<string>, token: string, delete: Attempt) returns (ok: bool)
      modifies this`registry
      ensures registry == if authToken.Some? && delete.Happens() then old(registry) - {token} else old(registry)
      ensures ok <==> authToken.Some? && delete.Succeeds?
    {
      if authToken.None? {
        return false;
      }
      if delete.Happens() {
        registry := registry - {token};
      }
      return delete.Succeeds?;
    }

    method DeleteFirebaseToken(delete: Attempt) returns (ok: bool)
      modifies this`firebase
      ensures firebase == if delete.Happens() then None else old(firebase)
      ensures ok <==> delete.Succeeds?
    {
      if delete.Happens() {
        firebase := None;
      }
      return delete.Succeeds?;
    }

    /** `cleanupTrackedPushToken`, with the two calls it is given, which name `fcmToken`. */
    method CleanupTrackedPushToken(authToken: Option<string>, fcmToken: string, world: CleanupWorld)
      returns (r: CleanupResult)
      requires Valid() && Recorded() && (TrackedOrPending().Some? ==> TrackedOrPending() == Some(fcmToken))
      modifies this`tracked, this`pending, this`registry, this`firebase
      ensures Valid() && Recorded()
      ensures r.cleanupComplete <==> r.backendDeactivated || r.firebaseDeleted
      ensures r.backendDeactivated <==>
              old(TrackedOrPending()).None? || (authToken.Some? && world.backendDelete.Succeeds?)
      ensures r.firebaseDeleted <==>
              old(TrackedOrPending()).None? || (world.messagingOk && world.firebaseDelete.Succeeds?)
      ensures r.cleanupComplete <==> old(TrackedOrPending()).None? || CleanupSucceeds(authToken, world)
      ensures r.cleanupComplete ==> Silent() && tracked == None && pending == None
      ensures !r.cleanupComplete ==> tracked == pending == Some(fcmToken) == old(tracked)
      ensures registry ==
              if old(tracked).Some? && authToken.Some? && world.backendDelete.Happens()
              then old(registry) - {fcmToken}
              else old(registry)
      ensures firebase ==
              if old(tracked).Some? && world.messagingOk && world.firebaseDelete.Happens() then None else old(firebase)
    {
      var token := TrackedOrPending();
      if token.None? {
        return CleanupResult(true, true, true);
      }
      var backendDeactivated := DeactivatePushDevice(authToken, fcmToken, world.backendDelete);
      var firebaseDeleted := false;
      if world.messagingOk {
        firebaseDeleted := DeleteFirebaseToken(world.firebaseDelete);
      }
      var cleanupComplete := backendDeactivated || firebaseDeleted;
      if cleanupComplete {
        ClearTrackedPushToken();
      } else {
        tracked, pending := token, token;
      }
      return CleanupResult(backendDeactivated, firebaseDeleted, cleanupComplete);
    }

    /** Signing out. A complete clean-up means that no push can reach this browser any
        more; an incomplete one leaves the token in storage, marked for another try. */
    method DeactivateCurrentPushDevice(authToken: Option<string>, world: CleanupWorld) returns (r: CleanupResult)
      requires Valid() && Recorded()
      modifies this`tracked, this`pending, this`registry, this`firebase
      ensures Valid() && Recorded()
      ensures r.backendDeactivated <==> old(tracked).None? || (authToken.Some? && world.backendDelete.Succeeds?)
      ensures r.firebaseDeleted <==> old(tracked).None? || (world.messagingOk && world.firebaseDelete.Succeeds?)
      ensures r.cleanupComplete <==> old(tracked).None? || CleanupSucceeds(authToken, world)
      ensures r.cleanupComplete ==> Silent() && tracked == None && pending == None
      ensures !r.cleanupComplete ==> tracked == pending == old(tracked) && tracked.Some?
      ensures registry.Keys <= old(registry).Keys
      ensures firebase ==
              if old(tracked).Some? && world.messagingOk && world.firebaseDelete.Happens() then None else old(firebase)
    {
      var fcmToken := TrackedOrPending();
      if fcmToken.None? {
        return CleanupResult(true, true, true);
      }
      r := CleanupTrackedPushToken(authToken, fcmToken.value, world);
    }

    /** Firebase hands out the browser's token, or makes one nobody has had. */
    method GetFcmToken(ok: bool, minted: string) returns (token: Option<string>)
      requires Valid() && Recorded() && minted != "" && minted !in issued
      modifies this`firebase, this`issued
      ensures Valid() && Recorded()
      ensures token == if !ok then None else if old(firebase).Some? then old(firebase) else Some(minted)
      ensures firebase == if ok then token else old(firebase)
      ensures old(issued) <= issued
    {
      if !ok {
        return None;
      }
      if firebase.None? {
        firebase := Some(minted);
        issued := issued + {minted};
      }
      return firebase;
    }

    /** The upsert: on success the caller is the token's sole owner. */
    method RegisterDevice(authToken: string, token: string, registration: Attempt) returns (ok: bool)
      modifies this`registry, this`requests
      ensures ok <==> registration.Succeeds?
      ensures registry == if registration.Happens() then old(registry)[token := authToken] else old(registry)
      ensures requests == old(requests) + [Registration(token, PendingCleanupToken())]
    {
      requests := requests + [Registration(token, PendingCleanupToken())];
      if registration.Happens() {
        registry := registry[token := authToken];
      }
      return registration.Succeeds?;
    }

    /** The clean-up that comes before a new registration: lines 54 to 70 of the source. */
    method SettlePending(authToken: Option<string>, world: EnableWorld)
      returns (ready: bool, pendingToken: Option<string>, pendingFirebaseDeleted: bool)
      requires Valid() && Recorded()
      modifies this`tracked, this`pending, this`registry, this`firebase
      ensures Valid() && Recorded()
      ensures registry.Keys <= old(registry).Keys
      ensures var settled := old(SettledAs(authToken, world));
              && ready == settled.ready && tracked == settled.record && firebase == settled.firebase
              && (ready ==>
                   settled.blocking == (if pendingFirebaseDeleted then None else pendingToken) == PendingCleanupToken())
      ensures ready && pendingFirebaseDeleted ==> Silent()
    {
      if pending.Some? {
        TrimOfBlank(pending.value);
      }
      pendingToken := PendingCleanupToken();
      pendingFirebaseDeleted := false;
      if pendingToken.Some? {
        pendingFirebaseDeleted := DeleteFirebaseToken(world.pendingDelete);
        if pendingFirebaseDeleted {
          ClearTrackedPushToken();
        }
      }
      if pendingToken.None? && version != Some(ROOT_WORKER_REGISTRATION_VERSION) {
        if tracked.Some? && tracked.value != "" {
          var cleanup := DeactivateCurrentPushDevice(authToken, world.cleanup);
          if !cleanup.cleanupComplete {
            return false, pendingToken, pendingFirebaseDeleted;
          }
        }
        pendingToken := PendingCleanupToken();
      }
      return true, pendingToken, pendingFirebaseDeleted;
    }

    /** Enabling keeps live tokens on record, whatever fails, with one exact exception: a
        registration that went through without its reply, for a token not on record once
        earlier clean-ups are settled. It succeeds exactly if a registration is sent and
        its reply arrives, and then the only live token belongs to the signed-in user. */
    method EnablePushNotifications(authToken: Option<string>, world: EnableWorld) returns (r: EnableResult)
      requires Valid() && Recorded() && world.minted != "" && world.minted !in issued
      modifies this
      ensures Valid()
      ensures Recorded() <==>
              !(&& world.registration.FailsAfterDoing? && old(Posted(authToken, world)).Some?
                && old(Posted(authToken, world)) != old(SettledAs(authToken, world)).record)
      ensures r.Enabled? <==> old(Posted(authToken, world)).Some? && world.registration.Succeeds?
      ensures r.Enabled? ==> old(Posted(authToken, world)) == tracked == firebase == Some(r.fcmToken) && pending == None
      ensures r == Threw(NotSupported) <==> !world.messagingOk
      ensures r == NotGranted <==> world.messagingOk && !world.permissionGranted
      ensures r == Threw(WorkerUnavailable) <==> world.messagingOk && world.permissionGranted && !world.workerOk
      ensures r == Threw(RegistrationFailed) <==>
              old(Posted(authToken, world)).Some? && !world.registration.Succeeds?
      ensures r == Threw(NotSignedIn) ==> authToken.None? && world.tokenOk
      ensures r == Threw(NoToken) ==> !world.tokenOk
      ensures old(Posted(authToken, world)).Some? && world.registration.Happens() ==>
                var token := old(Posted(authToken, world)).value;
                Live(token) && registry[token] == authToken.value
      ensures !r.Enabled? ==>
                tracked ==
                if world.messagingOk && world.permissionGranted && world.workerOk
                then old(SettledAs(authToken, world)).record
                else old(tracked)
      ensures var posted := old(Posted(authToken, world));
              && registry.Keys <= old(registry).Keys + (if posted.Some? then {posted.value} else {})
              && |requests| == |old(requests)| + (if posted.Some? then 1 else 0) && old(requests) <= requests
              && (posted.Some? ==> requests[|requests| - 1].token == posted.value)
    {
      if !world.messagingOk {
        return Threw(NotSupported);
      }
      if !world.permissionGranted {
        return NotGranted;
      }
      if !world.workerOk {
        return Threw(WorkerUnavailable);
      }
      var ready, pendingToken, pendingFirebaseDeleted := SettlePending(authToken, world);
      if !ready {
        return Threw(StillPending);
      }
      var fcmToken := GetFcmToken(world.tokenOk, world.minted);
      if fcmToken.None? {
        return Threw(NoToken);
      }
      if authToken.None? {
        return Threw(NotSignedIn);
      }
      if pendingToken.Some? && !pendingFirebaseDeleted && pendingToken.value != fcmToken.value {
        return Threw(StillPending);
      }
      var ok := RegisterAndRecord(authToken.value, fcmToken.value, world.registration);
      return if ok then Enabled(fcmToken.value) else Threw(RegistrationFailed);
    }

    /** The request and, on success, the three storage writes. */
    method RegisterAndRecord(authToken: string, token: string, registration: Attempt) returns (ok: bool)
      requires Valid() && Recorded() && firebase == Some(token)
      requires PendingCleanupToken().None? || PendingCleanupToken().value == token
      modifies this`registry, this`requests, this`tracked, this`pending, this`version
      ensures Valid()
      ensures ok <==> registration.Succeeds?
      ensures Recorded() <==> !(registration.FailsAfterDoing? && old(tracked) != Some(token))
      ensures ok ==> tracked == Some(token) && pending == None && version == Some(ROOT_WORKER_REGISTRATION_VERSION)
      ensures !ok ==> tracked == old(tracked) && pending == old(pending) && version == old(version)
      ensures registry == if registration.Happens() then old(registry)[token := authToken] else old(registry)
      ensures requests == old(requests) + [Registration(token, old(PendingCleanupToken()))]
    {
      ok := RegisterDevice(authToken, token, registration);
      assert registration.Happens() ==> Live(token);
      if ok {
        tracked := Some(token);
        pending := None;
        version := Some(ROOT_WORKER_REGISTRATION_VERSION);
      }
    }

    /** Firebase invalidates the token, or other browsers and the backend go about their
        business: this browser's own registration can be lost, not made. */
    method ElsewhereSomethingHappens(tokenDropped: bool, registrationLost: bool, others: map<string, string>)
      requires Valid()
      modifies this`firebase, this`registry, this`issued
      ensures Valid()
      ensures old(Recorded()) ==> Recorded()
    {
      var own := if firebase.Some? && firebase.value in registry && !registrationLost
        then map[firebase.value := registry[firebase.value]] else map[];
      registry := (others - (if firebase.Some? then {firebase.value} else {})) + own;
      issued := issued + others.Keys;
      if tokenDropped {
        firebase := None;
      }
    }
  }

  datatype Action =
    | Enable(authToken: Option<string>, enabling: EnableWorld)
    | SignOut(user: Option<string>, cleanup: CleanupWorld)
    | Elsewhere(tokenDropped: bool, registrationLost: bool, others: map<string, string>)

  /** Over every run of a browser, with any failures, provided registrations reply
      faithfully: every live token is on record, and no token was ever registered while
      the clean-up of a different one was pending. */
  method AnyRun(script: seq<Action>) returns (browser: Browser)
    requires forall i :: 0 <= i < |script| && script[i].Enable? ==> !script[i].enabling.registration.FailsAfterDoing?
    ensures browser.Recorded()
    ensures forall i :: 0 <= i < |browser.requests| ==>
                          || browser.requests[i].pending.None?
                          || browser.requests[i].pending.value == browser.requests[i].token
  {
    browser := new Browser();
    for n := 0 to |script|
      invariant fresh(browser)
      invariant browser.Valid() && browser.Recorded()
    {
      match script[n] {
        case Enable(authToken, world) =>
          if world.minted != "" && world.minted !in browser.issued {
            var r := browser.EnablePushNotifications(authToken, world);
          }
        case SignOut(authToken, world) =>
          var r := browser.DeactivateCurrentPushDevice(authToken, world);
        case Elsewhere(tokenDropped, registrationLost, others) =>
          browser.ElsewhereSomethingHappens(tokenDropped, registrationLost, others);
      }
    }
  }

  /** The exception does happen: on a new browser the registration goes through, its reply
      is lost, and signing out will not find the token. */
  method LostReplyLosesToken(authToken: string, minted: string) returns (browser: Browser)
    requires minted != ""
    ensures browser.Live(minted) && browser.TrackedOrPending() == None && !browser.Recorded()
  {
    browser := new Browser();
    var cleanup := CleanupWorld(Succeeds, true, Succeeds);
    var world := EnableWorld(true, true, true, Succeeds, cleanup, true, minted, FailsAfterDoing);
    assert browser.SettledAs(Some(authToken), world) == Settled(true, None, None, None);
    assert browser.Posted(Some(authToken), world) == Some(minted);
    var r := browser.EnablePushNotifications(Some(authToken), world);
  }
}
