/** The portal session store: five session scopes over one shared local storage and one
    session storage per tab, with a migration from the old single-slot layout. */
module PortalSessions {
  import opened Basics

  datatype UserType = CustomerUser | MerchantUser | CoordinatorUser | AdminUser | StaffUser | OtherUser(text: string)

  datatype AuthUser = AuthUser(id: string, userType: UserType)

  datatype Scope = Default | MerchantScope | ShopScope | AdminScope | CoordinatorScope

  /** Storage keys. */
  datatype Key =
    | Token | User | AdminToken | AdminUserKey | CoordinatorToken | CoordinatorUserKey
    | MerchantToken | MerchantUserKey | ShopToken | ShopUserKey | SignedOut

  /** A stored item: a text, or the JSON text of a user. */
  datatype Item = Text(text: string) | UserJson(user: AuthUser)

  type Storage = map<Key, Item>

  function ScopeForUser(user: AuthUser): Scope {
    match user.userType
    case AdminUser => AdminScope
    case StaffUser => AdminScope
    case CoordinatorUser => CoordinatorScope
    case MerchantUser => MerchantScope
    case _ => Default
  }

  function TokenKey(scope: Scope): Key {
    match scope
    case AdminScope => AdminToken
    case CoordinatorScope => CoordinatorToken
    case MerchantScope => MerchantToken
    case ShopScope => ShopToken
    case Default => Token
  }

  function UserKey(scope: Scope): Key {
    match scope
    case AdminScope => AdminUserKey
    case CoordinatorScope => CoordinatorUserKey
    case MerchantScope => MerchantUserKey
    case ShopScope => ShopUserKey
    case Default => User
  }

  predicate IsTabScoped(scope: Scope) {
    scope == MerchantScope || scope == ShopScope
  }

  predicate UserBelongsToScope(user: AuthUser, scope: Scope) {
    match scope
    case AdminScope => user.userType == AdminUser || user.userType == StaffUser
    case CoordinatorScope => user.userType == CoordinatorUser
    case MerchantScope => user.userType == MerchantUser
    case ShopScope => user.userType == MerchantUser
    case Default => user.userType == CustomerUser
  }

  // ------------------------------------------------------- storage as values

  datatype Browser = Browser(local: Storage, tabs: map<nat, Storage>)

  function TabOf(b: Browser, tab: nat): Storage {
    if tab in b.tabs then b.tabs[tab] else map[]
  }

  function StorageForScope(b: Browser, tab: nat, scope: Scope): Storage {
    if IsTabScoped(scope) then TabOf(b, tab) else b.local
  }

  function WithStorage(b: Browser, tab: nat, scope: Scope, storage: Storage): Browser {
    if IsTabScoped(scope) then b.(tabs := b.tabs[tab := storage]) else b.(local := storage)
  }

  /** `getItem` of a token key that is then tested for truth. */
  function TokenIn(storage: Storage, key: Key): Option<string> {
    if key in storage && storage[key].Text? && storage[key].text != "" then Some(storage[key].text) else None
  }

  /** `readStoredUser`: a text that is not a user's JSON reads as no user. */
  function StoredUser(storage: Storage, key: Key): Option<AuthUser> {
    if key in storage && storage[key].UserJson? then Some(storage[key].user) else None
  }

  /** `getItem(key)` is truthy. */
  predicate HasItem(storage: Storage, key: Key) {
    key in storage && storage[key] != Text("")
  }

  datatype Session = Session(token: string, user: AuthUser)

  /** The session that a scope's own slot holds and its pages accept. */
  function ValidSession(b: Browser, tab: nat, scope: Scope): Option<Session> {
    var storage := StorageForScope(b, tab, scope);
    var token, user := TokenIn(storage, TokenKey(scope)), StoredUser(storage, UserKey(scope));
    if token.Some? && user.Some? && UserBelongsToScope(user.value, scope)
    then Some(Session(token.value, user.value))
    else None
  }

  /** The user that a scope's pages show, with or without a token. */
  function AcceptedUser(b: Browser, tab: nat, scope: Scope): Option<AuthUser> {
    var user := StoredUser(StorageForScope(b, tab, scope), UserKey(scope));
    if user.Some? && UserBelongsToScope(user.value, scope) then user else None
  }

  /** A compatible session in the old shared slot, which `migrateLegacySession` copies. */
  function LegacySession(b: Browser, scope: Scope): Option<Session> {
    var token, user := TokenIn(b.local, Token), StoredUser(b.local, User);
    if scope != Default && token.Some? && user.Some? && UserBelongsToScope(user.value, scope)
    then Some(Session(token.value, user.value))
    else None
  }

  function Migrated(b: Browser, tab: nat, scope: Scope): Browser {
    var storage := StorageForScope(b, tab, scope);
    if HasItem(storage, TokenKey(scope)) && HasItem(storage, UserKey(scope)) then b
    else if LegacySession(b, scope).None? then b
    else
      var s := LegacySession(b, scope).value;
      WithStorage(b, tab, scope, storage[TokenKey(scope) := Text(s.token)][UserKey(scope) := UserJson(s.user)])
  }

  function AfterGetToken(b: Browser, tab: nat, scope: Scope): Browser {
    var m := Migrated(b, tab, scope);
    if ValidSession(m, tab, scope).Some? then m
    else WithStorage(m, tab, scope, StorageForScope(m, tab, scope) - {TokenKey(scope)} - {UserKey(scope)})
  }

  function AfterSetAuth(b: Browser, tab: nat, scope: Scope, token: string, user: AuthUser): Browser {
    var storage := StorageForScope(b, tab, scope)[TokenKey(scope) := Text(token)][UserKey(scope) := UserJson(user)];
    WithStorage(b, tab, scope, if scope == Default then storage - {SignedOut} else storage)
  }

  function AfterClearAuth(b: Browser, tab: nat, scope: Scope): Browser {
    var storage := StorageForScope(b, tab, scope) - {TokenKey(scope)} - {UserKey(scope)};
    WithStorage(b, tab, scope, if scope == Default then storage[SignedOut := Text("true")] else storage)
  }

  lemma LastWriteWins(b: Browser, tab: nat, scope: Scope, first: Storage, second: Storage)
    ensures WithStorage(WithStorage(b, tab, scope, first), tab, scope, second) == WithStorage(b, tab, scope, second)
    ensures StorageForScope(WithStorage(b, tab, scope, first), tab, scope) == first
  {
  }

  // ------------------------------------------------------- the helpers

  class SessionStore {
    var local: Storage
    var tabs: map<nat, Storage>

    constructor ()
      ensures State() == Browser(map[], map[])
    {
      local, tabs := map[], map[];
    }

    function State(): Browser
      reads this
    {
      Browser(local, tabs)
    }

    method SetItem(tab: nat, scope: Scope, key: Key, item: Item)
      modifies this
      ensures State() == WithStorage(old(State()), tab, scope, StorageForScope(old(State()), tab, scope)[key := item])
    {
      if IsTabScoped(scope) {
        tabs := tabs[tab := TabOf(State(), tab)[key := item]];
      } else {
        local := local[key := item];
      }
    }

    method RemoveItem(tab: nat, scope: Scope, key: Key)
      modifies this
      ensures State() == WithStorage(old(State()), tab, scope, StorageForScope(old(State()), tab, scope) - {key})
    {
      if IsTabScoped(scope) {
        tabs := tabs[tab := TabOf(State(), tab) - {key}];
      } else {
        local := local - {key};
      }
    }

    method MigrateLegacySession(tab: nat, scope: Scope)
      modifies this
      ensures State() == Migrated(old(State()), tab, scope)
    {
      if scope == Default {
        return;
      }
      var storage := StorageForScope(State(), tab, scope);
      if HasItem(storage, TokenKey(scope)) && HasItem(storage, UserKey(scope)) {
        return;
      }
      var legacyToken := TokenIn(local, Token);
      var legacyUser := StoredUser(local, User);
      if legacyToken.None? || legacyUser.None? || !UserBelongsToScope(legacyUser.value, scope) {
        return;
      }
      ghost var written := storage[TokenKey(scope) := Text(legacyToken.value)];
      LastWriteWins(State(), tab, scope, written, written[UserKey(scope) := UserJson(legacyUser.value)]);
      SetItem(tab, scope, TokenKey(scope), Text(legacyToken.value));
      SetItem(tab, scope, UserKey(scope), UserJson(legacyUser.value));
    }

    /** On the page of `scope`: the accepted token, and otherwise a clean slot. */
    method GetToken(tab: nat, scope: Scope) returns (token: Option<string>)
      modifies this
      ensures State() == AfterGetToken(old(State()), tab, scope)
      ensures token == match ValidSession(State(), tab, scope) case Some(s) => Some(s.token) case None => None
    {
      MigrateLegacySession(tab, scope);
      var storage := StorageForScope(State(), tab, scope);
      token := TokenIn(storage, TokenKey(scope));
      var user := StoredUser(storage, UserKey(scope));
      if token.None? || user.None? || !UserBelongsToScope(user.value, scope) {
        LastWriteWins(State(), tab, scope, storage - {TokenKey(scope)}, storage - {TokenKey(scope)} - {UserKey(scope)});
        RemoveItem(tab, scope, TokenKey(scope));
        RemoveItem(tab, scope, UserKey(scope));
        return None;
      }
    }

    method GetUser(tab: nat, scope: Scope) returns (user: Option<AuthUser>)
      modifies this
      ensures State() == Migrated(old(State()), tab, scope)
      ensures user == AcceptedUser(State(), tab, scope)
      ensures ValidSession(State(), tab, scope).Some? ==> user == Some(ValidSession(State(), tab, scope).value.user)
    {
      MigrateLegacySession(tab, scope);
      user := StoredUser(StorageForScope(State(), tab, scope), UserKey(scope));
      if user.None? || !UserBelongsToScope(user.value, scope) {
        return None;
      }
    }

    method SetAuth(tab: nat, token: string, user: AuthUser, scope: Scope)
      modifies this
      ensures State() == AfterSetAuth(old(State()), tab, scope, token, user)
    {
      ghost var storage := StorageForScope(State(), tab, scope)[TokenKey(scope) := Text(token)];
      LastWriteWins(State(), tab, scope, storage, storage[UserKey(scope) := UserJson(user)]);
      SetItem(tab, scope, TokenKey(scope), Text(token));
      SetItem(tab, scope, UserKey(scope), UserJson(user));
      if scope == Default {
        local := local - {SignedOut};
      }
    }

    method ClearAuth(tab: nat, scope: Scope)
      modifies this
      ensures State() == AfterClearAuth(old(State()), tab, scope)
    {
      ghost var storage := StorageForScope(State(), tab, scope) - {TokenKey(scope)};
      LastWriteWins(State(), tab, scope, storage, storage - {UserKey(scope)});
      RemoveItem(tab, scope, TokenKey(scope));
      RemoveItem(tab, scope, UserKey(scope));
      if scope == Default {
        local := local[SignedOut := Text("true")];
      }
    }
  }

  // ------------------------------------------------------- runs

  /** A call of one of the helpers in a tab, on a page of a scope (for `setAuth`, with the
      scope it is given). */
  datatype Call =
    | CallSetAuth(tab: nat, scope: Scope, token: string, user: AuthUser)
    | CallClearAuth(tab: nat, scope: Scope)
    | CallGetToken(tab: nat, scope: Scope)
    | CallGetUser(tab: nat, scope: Scope)

  function After(b: Browser, call: Call): Browser {
    match call
    case CallSetAuth(tab, scope, token, user) => AfterSetAuth(b, tab, scope, token, user)
    case CallClearAuth(tab, scope) => AfterClearAuth(b, tab, scope)
    case CallGetToken(tab, scope) => AfterGetToken(b, tab, scope)
    case CallGetUser(tab, scope) => Migrated(b, tab, scope)
  }

  function Run(b: Browser, calls: seq<Call>): Browser {
    if calls == [] then b else After(Run(b, calls[..|calls| - 1]), calls[|calls| - 1])
  }

  /** The call writes or clears the slot of `scope` that `tab` sees. */
  predicate Overwrites(call: Call, tab: nat, scope: Scope) {
    (call.CallSetAuth? || call.CallClearAuth?) && call.scope == scope
    && (scope in {MerchantScope, ShopScope} ==> call.tab == tab)
  }

  lemma MigrationKeepsSessions(b: Browser, from: nat, on: Scope, tab: nat, scope: Scope)
    requires ValidSession(b, tab, scope).Some?
    ensures ValidSession(Migrated(b, from, on), tab, scope) == ValidSession(b, tab, scope)
  {
  }

  lemma RemovalKeepsSessions(b: Browser, from: nat, on: Scope, tab: nat, scope: Scope)
    requires on != scope || (scope in {MerchantScope, ShopScope} && from != tab)
    ensures var storage := StorageForScope(b, from, on) - {TokenKey(on)} - {UserKey(on)};
            ValidSession(WithStorage(b, from, on, storage), tab, scope) == ValidSession(b, tab, scope)
  {
  }

  lemma GetTokenKeepsSessions(b: Browser, from: nat, on: Scope, tab: nat, scope: Scope)
    requires ValidSession(b, tab, scope).Some?
    ensures ValidSession(AfterGetToken(b, from, on), tab, scope) == ValidSession(b, tab, scope)
  {
    MigrationKeepsSessions(b, from, on, tab, scope);
    var m := Migrated(b, from, on);
    if ValidSession(m, from, on).None? {
      assert on == scope && !IsTabScoped(scope) ==> StorageForScope(m, from, on) == StorageForScope(m, tab, scope);
      RemovalKeepsSessions(m, from, on, tab, scope);
    }
  }

  lemma SetAuthKeepsSessions(b: Browser, from: nat, on: Scope, token: string, user: AuthUser, tab: nat, scope: Scope)
    requires on != scope || (scope in {MerchantScope, ShopScope} && from != tab)
    ensures ValidSession(AfterSetAuth(b, from, on, token, user), tab, scope) == ValidSession(b, tab, scope)
  {
  }

  lemma ClearAuthKeepsSessions(b: Browser, from: nat, on: Scope, tab: nat, scope: Scope)
    requires on != scope || (scope in {MerchantScope, ShopScope} && from != tab)
    ensures ValidSession(AfterClearAuth(b, from, on), tab, scope) == ValidSession(b, tab, scope)
  {
  }

  lemma OneCallKeepsSessions(b: Browser, call: Call, tab: nat, scope: Scope)
    requires ValidSession(b, tab, scope).Some? && !Overwrites(call, tab, scope)
    ensures ValidSession(After(b, call), tab, scope) == ValidSession(b, tab, scope)
  {
    match call {
      case CallSetAuth(from, on, token, user) => SetAuthKeepsSessions(b, from, on, token, user, tab, scope);
      case CallClearAuth(from, on) => ClearAuthKeepsSessions(b, from, on, tab, scope);
      case CallGetToken(from, on) => GetTokenKeepsSessions(b, from, on, tab, scope);
      case CallGetUser(from, on) => MigrationKeepsSessions(b, from, on, tab, scope);
    }
  }

  /** A scope that holds a valid session keeps it, and `getToken` there keeps returning it,
      whatever happens in other scopes, tabs and portals, until the scope itself is
      written or cleared. */
  lemma {:induction false} SessionsAreStable(b: Browser, calls: seq<Call>, tab: nat, scope: Scope)
    requires ValidSession(b, tab, scope).Some?
    requires forall i :: 0 <= i < |calls| ==> !Overwrites(calls[i], tab, scope)
    ensures ValidSession(Run(b, calls), tab, scope) == ValidSession(b, tab, scope)
    ensures AfterGetToken(Run(b, calls), tab, scope) == Run(b, calls)
  {
    if calls != [] {
      SessionsAreStable(b, calls[..|calls| - 1], tab, scope);
      OneCallKeepsSessions(Run(b, calls[..|calls| - 1]), calls[|calls| - 1], tab, scope);
    }
  }

  /** Merchant and shop sessions of one tab never alter another tab's, nor local storage. */
  lemma {:induction false} TabsAreIsolated(b: Browser, calls: seq<Call>, tab: nat)
    requires forall i :: 0 <= i < |calls| ==> calls[i].scope in {MerchantScope, ShopScope} && calls[i].tab != tab
    ensures TabOf(Run(b, calls), tab) == TabOf(b, tab) && Run(b, calls).local == b.local
  {
    if calls != [] {
      var front := calls[..|calls| - 1];
      TabsAreIsolated(b, front, tab);
      TabCallStaysInTab(Run(b, front), calls[|calls| - 1], tab);
    }
  }

  lemma TabCallStaysInTab(b: Browser, call: Call, tab: nat)
    requires call.scope in {MerchantScope, ShopScope} && call.tab != tab
    ensures TabOf(After(b, call), tab) == TabOf(b, tab) && After(b, call).local == b.local
  {
  }

  /** The merchant and shop sessions of a tab are its own: no call made in another tab, on
      whatever page, changes them. */
  lemma {:induction false} OtherTabsNeverReach(b: Browser, calls: seq<Call>, tab: nat, scope: Scope)
    requires scope in {MerchantScope, ShopScope}
    requires forall i :: 0 <= i < |calls| ==> calls[i].tab != tab
    ensures ValidSession(Run(b, calls), tab, scope) == ValidSession(b, tab, scope)
    ensures TabOf(Run(b, calls), tab) == TabOf(b, tab)
  {
    if calls != [] {
      OtherTabsNeverReach(b, calls[..|calls| - 1], tab, scope);
      CallInOtherTab(Run(b, calls[..|calls| - 1]), calls[|calls| - 1], tab);
    }
  }

  lemma CallInOtherTab(b: Browser, call: Call, tab: nat)
    requires call.tab != tab
    ensures TabOf(After(b, call), tab) == TabOf(b, tab)
  {
  }

  /** Customer, admin and coordinator sessions are the browser's: all tabs see the same. */
  lemma OtherSessionsAreShared(b: Browser, tab: nat, other: nat, scope: Scope)
    requires scope in {Default, AdminScope, CoordinatorScope}
    ensures ValidSession(b, tab, scope) == ValidSession(b, other, scope)
  {
  }

  // ------------------------------------------------------- signing in

  /** Signing in with the default scope opens the portal of the user's type there and then;
      a user of any other type is accepted by no page. */
  lemma LoginOpensPortal(b: Browser, tab: nat, token: string, user: AuthUser)
    requires token != ""
    ensures var login := AfterSetAuth(b, tab, ScopeForUser(user), token, user);
            match user.userType
            case CustomerUser => ValidSession(login, tab, Default) == Some(Session(token, user))
            case MerchantUser => ValidSession(login, tab, MerchantScope) == Some(Session(token, user))
            case CoordinatorUser => ValidSession(login, tab, CoordinatorScope) == Some(Session(token, user))
            case AdminUser => ValidSession(login, tab, AdminScope) == Some(Session(token, user))
            case StaffUser => ValidSession(login, tab, AdminScope) == Some(Session(token, user))
            case OtherUser(_) => ValidSession(login, tab, Default) == None
    ensures user.userType == MerchantUser ==>
              ValidSession(AfterSetAuth(b, tab, ShopScope, token, user), tab, ShopScope) == Some(Session(token, user))
  {
  }

  /** A session that a page accepts is of a user of that portal. */
  lemma PagesAcceptTheirUsers(b: Browser, tab: nat, scope: Scope)
    requires ValidSession(b, tab, scope).Some?
    ensures var user := ValidSession(b, tab, scope).value.user;
            match scope
            case Default => user.userType == CustomerUser
            case MerchantScope => user.userType == MerchantUser
            case ShopScope => user.userType == MerchantUser
            case CoordinatorScope => user.userType == CoordinatorUser
            case AdminScope => user.userType in {AdminUser, StaffUser}
  {
  }

  /** The customer's sign-out mark is set exactly by signing out there, and taken down by
      signing in there. */
  lemma SignedOutMark(b: Browser, call: Call)
    ensures SignedOut in After(b, call).local <==>
            || (call.CallClearAuth? && call.scope == Default)
            || (SignedOut in b.local && !(call.CallSetAuth? && call.scope == Default))
  {
  }

  // ------------------------------------------------------- signing out

  /** After a sign-out, a portal accepts a token again exactly when the shared slot holds a
      session it can migrate. */
  lemma SignOutIsFinalUnlessMigrated(b: Browser, tab: nat, scope: Scope)
    ensures var out := AfterClearAuth(b, tab, scope);
            ValidSession(AfterGetToken(out, tab, scope), tab, scope) == LegacySession(out, scope)
    ensures LegacySession(AfterClearAuth(b, tab, scope), scope).Some? <==>
            scope != Default && LegacySession(b, scope).Some?
  {
  }

  /** The scope's own slot holds nothing, as after a sign-out. */
  ghost predicate SlotIsEmpty(b: Browser, tab: nat, scope: Scope) {
    TokenKey(scope) !in StorageForScope(b, tab, scope) && UserKey(scope) !in StorageForScope(b, tab, scope)
  }

  /** The call runs `migrateLegacySession` for the slot of `scope` that `tab` sees. */
  predicate Reads(call: Call, tab: nat, scope: Scope) {
    (call.CallGetToken? || call.CallGetUser?) && call.scope == scope
    && (scope in {MerchantScope, ShopScope} ==> call.tab == tab)
  }

  predicate IsOwn(from: nat, on: Scope, tab: nat, scope: Scope) {
    on == scope && (scope in {MerchantScope, ShopScope} ==> from == tab)
  }

  lemma MigratedFromEmpty(b: Browser, from: nat, on: Scope, tab: nat, scope: Scope)
    requires SlotIsEmpty(b, tab, scope)
    ensures if IsOwn(from, on, tab, scope) && LegacySession(b, scope).Some?
            then ValidSession(Migrated(b, from, on), tab, scope).Some?
            else SlotIsEmpty(Migrated(b, from, on), tab, scope)
  {
  }

  lemma TokenReadFromEmpty(b: Browser, from: nat, on: Scope, tab: nat, scope: Scope)
    requires SlotIsEmpty(b, tab, scope)
    ensures if IsOwn(from, on, tab, scope) && LegacySession(b, scope).Some?
            then ValidSession(AfterGetToken(b, from, on), tab, scope).Some?
            else SlotIsEmpty(AfterGetToken(b, from, on), tab, scope)
  {
    var m := Migrated(b, from, on);
    MigratedFromEmpty(b, from, on, tab, scope);
    if ValidSession(m, tab, scope).Some? {
      GetTokenKeepsSessions(m, from, on, tab, scope);
    } else {
      ClearedFromEmpty(m, from, on, tab, scope);
    }
  }

  lemma ClearedFromEmpty(b: Browser, from: nat, on: Scope, tab: nat, scope: Scope)
    requires SlotIsEmpty(b, tab, scope)
    ensures var storage := StorageForScope(b, from, on) - {TokenKey(on)} - {UserKey(on)};
            SlotIsEmpty(WithStorage(b, from, on, storage), tab, scope)
    ensures SlotIsEmpty(AfterClearAuth(b, from, on), tab, scope)
  {
  }

  lemma WrittenElsewhere(b: Browser, from: nat, on: Scope, token: string, user: AuthUser, tab: nat, scope: Scope)
    requires SlotIsEmpty(b, tab, scope) && !IsOwn(from, on, tab, scope)
    ensures SlotIsEmpty(AfterSetAuth(b, from, on, token, user), tab, scope)
  {
  }

  lemma OneCallFromEmpty(b: Browser, call: Call, tab: nat, scope: Scope)
    requires SlotIsEmpty(b, tab, scope) && !(call.CallSetAuth? && Overwrites(call, tab, scope))
    ensures if Reads(call, tab, scope) && LegacySession(b, scope).Some?
            then ValidSession(After(b, call), tab, scope).Some?
            else SlotIsEmpty(After(b, call), tab, scope)
  {
    match call
    case CallSetAuth(from, on, token, user) => WrittenElsewhere(b, from, on, token, user, tab, scope);
    case CallClearAuth(from, on) => ClearedFromEmpty(b, from, on, tab, scope);
    case CallGetToken(from, on) => TokenReadFromEmpty(b, from, on, tab, scope);
    case CallGetUser(from, on) => MigratedFromEmpty(b, from, on, tab, scope);
  }

  ghost predicate IsOutAt(b: Browser, calls: seq<Call>, tab: nat, scope: Scope, n: nat)
    requires n <= |calls|
  {
    ValidSession(Run(b, calls[..n]), tab, scope).None?
  }

  /** The next call finds a session to migrate into the slot. */
  ghost predicate MigratesAt(b: Browser, calls: seq<Call>, tab: nat, scope: Scope, n: nat)
    requires n < |calls|
  {
    Reads(calls[n], tab, scope) && LegacySession(Run(b, calls[..n]), scope).Some?
  }

  lemma NextCall(b: Browser, calls: seq<Call>, tab: nat, scope: Scope, n: nat)
    requires n < |calls| && !(calls[n].CallSetAuth? && Overwrites(calls[n], tab, scope))
    requires SlotIsEmpty(Run(b, calls[..n]), tab, scope)
    ensures if MigratesAt(b, calls, tab, scope, n) then !IsOutAt(b, calls, tab, scope, n + 1)
            else SlotIsEmpty(Run(b, calls[..n + 1]), tab, scope)
  {
    assert calls[..n + 1] == calls[..n] + [calls[n]];
    RunOneMore(b, calls[..n], calls[n]);
    OneCallFromEmpty(Run(b, calls[..n]), calls[n], tab, scope);
  }

  lemma {:induction false} EmptyUntilMigrated(b: Browser, calls: seq<Call>, tab: nat, scope: Scope, n: nat)
    requires SlotIsEmpty(b, tab, scope) && n <= |calls|
    requires forall i :: 0 <= i < |calls| ==> !(calls[i].CallSetAuth? && Overwrites(calls[i], tab, scope))
    requires (forall k :: 0 <= k < n ==> !MigratesAt(b, calls, tab, scope, k))
             || (forall k :: 0 <= k <= n ==> IsOutAt(b, calls, tab, scope, k))
    ensures SlotIsEmpty(Run(b, calls[..n]), tab, scope)
  {
    if n > 0 {
      EmptyUntilMigrated(b, calls, tab, scope, n - 1);
      NextCall(b, calls, tab, scope, n - 1);
    }
  }

  /** Over any calls that do not set it, a slot that was signed out stays without a session
      exactly as long as no `getToken` or `getUser` on it finds one to migrate. */
  lemma {:induction false} SignedOutUntilMigrated(b: Browser, calls: seq<Call>, tab: nat, scope: Scope)
    requires forall i :: 0 <= i < |calls| ==> !(calls[i].CallSetAuth? && Overwrites(calls[i], tab, scope))
    ensures var out := AfterClearAuth(b, tab, scope);
            (forall n :: 0 <= n <= |calls| ==> IsOutAt(out, calls, tab, scope, n))
            <==> (forall n :: 0 <= n < |calls| ==> !MigratesAt(out, calls, tab, scope, n))
  {
    var out := AfterClearAuth(b, tab, scope);
    ClearedSlot(b, tab, scope);
    if forall n :: 0 <= n < |calls| ==> !MigratesAt(out, calls, tab, scope, n) {
      forall n | 0 <= n <= |calls|
        ensures IsOutAt(out, calls, tab, scope, n)
      {
        EmptyUntilMigrated(out, calls, tab, scope, n);
      }
    }
    if forall n :: 0 <= n <= |calls| ==> IsOutAt(out, calls, tab, scope, n) {
      forall n | 0 <= n < |calls|
        ensures !MigratesAt(out, calls, tab, scope, n)
      {
        EmptyUntilMigrated(out, calls, tab, scope, n);
        NextCall(out, calls, tab, scope, n);
      }
    }
  }

  lemma ClearedSlot(b: Browser, tab: nat, scope: Scope)
    ensures SlotIsEmpty(AfterClearAuth(b, tab, scope), tab, scope)
  {
  }

  /** The default scope of `setAuth` puts no staff, coordinator or merchant user in the
      shared slot. */
  predicate KeepsSharedSlot(call: Call) {
    call.CallSetAuth? && call.scope == Default ==> ScopeForUser(call.user) == Default
  }

  ghost predicate SharedSlotIsPlain(b: Browser) {
    StoredUser(b.local, User).Some? ==> ScopeForUser(StoredUser(b.local, User).value) == Default
  }

  lemma {:induction false} SharedSlotStaysPlain(calls: seq<Call>)
    requires forall i :: 0 <= i < |calls| ==> KeepsSharedSlot(calls[i])
    ensures SharedSlotIsPlain(Run(Browser(map[], map[]), calls))
  {
    if calls != [] {
      SharedSlotStaysPlain(calls[..|calls| - 1]);
    }
  }

  lemma MigrationKeepsSignedOut(b: Browser, from: nat, on: Scope, tab: nat, scope: Scope)
    requires SharedSlotIsPlain(b) && ValidSession(b, tab, scope).None?
    ensures ValidSession(Migrated(b, from, on), tab, scope).None?
    ensures SharedSlotIsPlain(b) ==> Migrated(b, from, on) == b
  {
  }

  lemma OneCallKeepsSignedOut(b: Browser, call: Call, tab: nat, scope: Scope)
    requires SharedSlotIsPlain(b) && ValidSession(b, tab, scope).None?
    requires !(call.CallSetAuth? && Overwrites(call, tab, scope))
    ensures ValidSession(After(b, call), tab, scope).None?
  {
    MigrationKeepsSignedOut(b, call.tab, call.scope, tab, scope);
    if call.CallSetAuth? {
      SetAuthKeepsSessions(b, call.tab, call.scope, call.token, call.user, tab, scope);
    }
  }

  lemma RunOneMore(b: Browser, calls: seq<Call>, call: Call)
    ensures Run(b, calls + [call]) == After(Run(b, calls), call)
  {
    var all := calls + [call];
    assert all[..|all| - 1] == calls;
  }

  lemma JustSignedOut(b: Browser, tab: nat, scope: Scope)
    ensures ValidSession(AfterClearAuth(b, tab, scope), tab, scope).None?
  {
  }

  /** From empty storage, with scopes that keep the shared slot plain, a sign-out is final:
      the scope accepts no token until the next `setAuth` for it. */
  lemma {:induction false} SignOutIsFinal(before: seq<Call>, tab: nat, scope: Scope, later: seq<Call>)
    requires forall i :: 0 <= i < |before| ==> KeepsSharedSlot(before[i])
    requires forall i :: 0 <= i < |later| ==> KeepsSharedSlot(later[i])
    requires forall i :: 0 <= i < |later| ==> !(later[i].CallSetAuth? && Overwrites(later[i], tab, scope))
    ensures ValidSession(Run(Browser(map[], map[]), before + [CallClearAuth(tab, scope)] + later), tab, scope).None?
  {
    var empty, out := Browser(map[], map[]), before + [CallClearAuth(tab, scope)];
    if later == [] {
      assert out + later == out;
      RunOneMore(empty, before, CallClearAuth(tab, scope));
      JustSignedOut(Run(empty, before), tab, scope);
    } else {
      var front, last := later[..|later| - 1], later[|later| - 1];
      SignOutIsFinal(before, tab, scope, front);
      SharedSlotStaysPlain(out + front);
      OneCallKeepsSignedOut(Run(empty, out + front), last, tab, scope);
      RunOneMore(empty, out + front, last);
      assert out + later == out + front + [last];
    }
  }

  lemma RunOfThree(b: Browser, x: Call, y: Call, z: Call)
    ensures Run(b, [x, y, z]) == After(After(After(b, x), y), z)
  {
    RunOneMore(b, [], x);
    RunOneMore(b, [x], y);
    RunOneMore(b, [x, y], z);
    assert [] + [x] == [x] && [x] + [y] == [x, y] && [x, y] + [z] == [x, y, z];
  }

  /** An explicit scope can break that: a merchant signed in under the customer scope is
      signed back in on the merchant page after signing out there. */
  lemma MisplacedSessionComesBack(user: AuthUser)
    requires user.userType == MerchantUser
    ensures var calls := [
              CallSetAuth(0, Default, "t", user), CallClearAuth(0, MerchantScope), CallGetToken(0, MerchantScope)];
            ValidSession(Run(Browser(map[], map[]), calls), 0, MerchantScope) == Some(Session("t", user))
  {
    var login, logout := CallSetAuth(0, Default, "t", user), CallClearAuth(0, MerchantScope);
    RunOfThree(Browser(map[], map[]), login, logout, CallGetToken(0, MerchantScope));
    var b := After(Browser(map[], map[]), login);
    MisplacedInShared(user);
    SignOutIsFinalUnlessMigrated(b, 0, MerchantScope);
    SharedSlotSurvives(b, 0, MerchantScope);
  }

  lemma MisplacedInShared(user: AuthUser)
    requires user.userType == MerchantUser
    ensures LegacySession(AfterSetAuth(Browser(map[], map[]), 0, Default, "t", user), MerchantScope) ==
            Some(Session("t", user))
  {
  }

  lemma SharedSlotSurvives(b: Browser, tab: nat, scope: Scope)
    requires scope != Default
    ensures LegacySession(AfterClearAuth(b, tab, scope), scope) == LegacySession(b, scope)
  {
  }
}
