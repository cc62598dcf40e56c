/** People, the messenger accounts they write from, and how an incoming contact becomes one of them. */
module Users {
  import opened Outcome
  import opened Events

  datatype Account = Account(platform: Platform, externalId: string, username: Option<string>)

  datatype UserState = UserState(
    id: UserId, phoneNumber: string, notifyVia: Platform, locale: string, isAdmin: bool,
    isBlocked: bool, blockReason: Option<string>, accounts: seq<Account>)

  /** The position of the account of a platform, or the number of accounts when there is none. */
  function AccountFor(accounts: seq<Account>, platform: Platform): (i: nat)
    ensures i <= |accounts|
    ensures i < |accounts| ==> accounts[i].platform == platform
    ensures forall j :: 0 <= j < i ==> accounts[j].platform != platform
  {
    if accounts == [] || accounts[0].platform == platform then 0 else 1 + AccountFor(accounts[1..], platform)
  }

  predicate HasPlatform(u: UserState, platform: Platform) {
    AccountFor(u.accounts, platform) < |u.accounts|
  }

  predicate HasAccount(u: UserState, platform: Platform, externalId: string) {
    exists i :: 0 <= i < |u.accounts| && u.accounts[i].platform == platform && u.accounts[i].externalId == externalId
  }

  datatype UserOp =
    | LinkAccount(account: Account)
    | UnlinkAccount(platform: Platform)
    | RefreshUsername(platform: Platform, username: Option<string>)
    | ChangePhoneNumber(phoneNumber: string)
    | ChangePreferences(notifyVia: Platform, locale: string)
    | AssignRole(isAdmin: bool)
    | Block(reason: string)
    | Unblock

  datatype UserStep = UserStep(answer: Result<()>, state: UserState, events: seq<Event>)

  function Linking(u: UserState, a: Account): UserStep {
    var i := AccountFor(u.accounts, a.platform);
    if i < |u.accounts| then
      if u.accounts[i].externalId == a.externalId then
        UserStep(Ok(()), u.(accounts := u.accounts[i := u.accounts[i].(username := a.username)]), [])
      else UserStep(Err(PlatformAlreadyLinked), u, [])
    else
      UserStep(Ok(()), u.(accounts := u.accounts + [a]), [MessengerAccountLinked(u.id, a.platform, a.externalId)])
  }

  function Unlinking(u: UserState, platform: Platform): UserStep {
    var i := AccountFor(u.accounts, platform);
    if i == |u.accounts| then UserStep(Err(MessengerAccountNotLinked), u, [])
    else if |u.accounts| == 1 then UserStep(Err(LastMessengerAccount), u, [])
    else
      var left := u.accounts[..i] + u.accounts[i + 1..];
      var via := if u.notifyVia == platform then left[0].platform else u.notifyVia;
      UserStep(Ok(()), u.(accounts := left, notifyVia := via),
               [MessengerAccountUnlinked(u.id, platform, u.accounts[i].externalId)])
  }

  function Refreshing(u: UserState, platform: Platform, username: Option<string>): UserState {
    var i := AccountFor(u.accounts, platform);
    if i < |u.accounts| then u.(accounts := u.accounts[i := u.accounts[i].(username := username)]) else u
  }

  function Apply(u: UserState, op: UserOp): UserStep {
    match op
    case LinkAccount(a) => Linking(u, a)
    case UnlinkAccount(p) => Unlinking(u, p)
    case RefreshUsername(p, name) => UserStep(Ok(()), Refreshing(u, p, name), [])
    case ChangePhoneNumber(n) =>
      if n == u.phoneNumber then UserStep(Ok(()), u, [])
      else UserStep(Ok(()), u.(phoneNumber := n), [UserPhoneNumberChanged(u.id, u.phoneNumber, n)])
    case ChangePreferences(via, locale) =>
      if !HasPlatform(u, via) then UserStep(Err(NotificationTargetNotLinked), u, [])
      else if via == u.notifyVia && locale == u.locale then UserStep(Ok(()), u, [])
      else UserStep(Ok(()), u.(notifyVia := via, locale := locale), [UserPreferencesChanged(u.id, via, locale)])
    case AssignRole(admin) =>
      if admin == u.isAdmin then UserStep(Ok(()), u, [])
      else UserStep(Ok(()), u.(isAdmin := admin), [UserRoleChanged(u.id, admin)])
    case Block(reason) =>
      if u.isBlocked then UserStep(Err(UserAlreadyBlocked), u, [])
      else UserStep(Ok(()), u.(isBlocked := true, blockReason := Some(reason)), [UserBlocked(u.id, reason)])
    case Unblock =>
      if !u.isBlocked then UserStep(Err(UserNotBlocked), u, [])
      else UserStep(Ok(()), u.(isBlocked := false, blockReason := None), [UserUnblocked(u.id)])
  }

  // ---- The aggregate --------------------------------------------------------------------

  class User {
    const id: UserId
    const log: EventsCollection
    var phoneNumber: string
    var notifyVia: Platform
    var locale: string
    var isAdmin: bool
    var isBlocked: bool
    var blockReason: Option<string>
    var accounts: seq<Account>

    function Value(): UserState
      reads this
    {
      UserState(id, phoneNumber, notifyVia, locale, isAdmin, isBlocked, blockReason, accounts)
    }

    constructor (u: UserState, log: EventsCollection)
      ensures Value() == u && this.log == log
    {
      id, phoneNumber, notifyVia, locale, isAdmin := u.id, u.phoneNumber, u.notifyVia, u.locale, u.isAdmin;
      isBlocked, blockReason, accounts, this.log := u.isBlocked, u.blockReason, u.accounts, log;
    }

    method LinkOne(account: Account) returns (r: Result<()>)
      modifies this, log
      ensures var step := Apply(old(Value()), LinkAccount(account));
              r == step.answer && Value() == step.state && log.events == old(log.events) + step.events
    {
      var i := AccountFor(accounts, account.platform);
      if i < |accounts| {
        if accounts[i].externalId == account.externalId {
          accounts := accounts[i := accounts[i].(username := account.username)];
          return Ok(());
        }
        return Err(PlatformAlreadyLinked);
      }
      accounts := accounts + [account];
      log.AddEvent(MessengerAccountLinked(id, account.platform, account.externalId));
      r := Ok(());
    }

    method UnlinkOne(platform: Platform) returns (r: Result<()>)
      modifies this, log
      ensures var step := Apply(old(Value()), UnlinkAccount(platform));
              r == step.answer && Value() == step.state && log.events == old(log.events) + step.events
    {
      var i := AccountFor(accounts, platform);
      if i == |accounts| {
        return Err(MessengerAccountNotLinked);
      }
      if |accounts| == 1 {
        return Err(LastMessengerAccount);
      }
      var account := accounts[i];
      accounts := accounts[..i] + accounts[i + 1..];
      if notifyVia == platform {
        notifyVia := accounts[0].platform;
      }
      log.AddEvent(MessengerAccountUnlinked(id, platform, account.externalId));
      r := Ok(());
    }

    method SetPreferences(via: Platform, newLocale: string) returns (r: Result<()>)
      modifies this, log
      ensures var step := Apply(old(Value()), ChangePreferences(via, newLocale));
              r == step.answer && Value() == step.state && log.events == old(log.events) + step.events
    {
      if AccountFor(accounts, via) == |accounts| {
        return Err(NotificationTargetNotLinked);
      }
      if via != notifyVia || newLocale != locale {
        notifyVia, locale := via, newLocale;
        log.AddEvent(UserPreferencesChanged(id, via, newLocale));
      }
      r := Ok(());
    }

    method Bar(reason: string) returns (r: Result<()>)
      modifies this, log
      ensures var step := Apply(old(Value()), Block(reason));
              r == step.answer && Value() == step.state && log.events == old(log.events) + step.events
    {
      if isBlocked {
        return Err(UserAlreadyBlocked);
      }
      isBlocked, blockReason := true, Some(reason);
      log.AddEvent(UserBlocked(id, reason));
      r := Ok(());
    }

    method Unbar() returns (r: Result<()>)
      modifies this, log
      ensures var step := Apply(old(Value()), Unblock);
              r == step.answer && Value() == step.state && log.events == old(log.events) + step.events
    {
      if !isBlocked {
        return Err(UserNotBlocked);
      }
      isBlocked, blockReason := false, None;
      log.AddEvent(UserUnblocked(id));
      r := Ok(());
    }

    /** The account notifications go to; a person in good order always has one. */
    method NotificationAccount() returns (r: Result<Account>)
      requires WellFormed(Value())
      ensures r.Ok? && r.value in accounts && r.value.platform == notifyVia
    {
      var i := AccountFor(accounts, notifyVia);
      r := if i == |accounts| then Err(NotificationTargetNotLinked) else Ok(accounts[i]);
    }
  }

  ghost predicate OnePerPlatform(accounts: seq<Account>) {
    forall i, j :: 0 <= i < j < |accounts| ==> accounts[i].platform != accounts[j].platform
  }

  ghost predicate WellFormed(u: UserState) {
    && u.accounts != []
    && OnePerPlatform(u.accounts)
    && HasPlatform(u, u.notifyVia)
    && (u.isBlocked <==> u.blockReason.Some?)
  }

  lemma HasPlatformMeans(u: UserState, platform: Platform)
    ensures HasPlatform(u, platform) <==> exists i :: 0 <= i < |u.accounts| && u.accounts[i].platform == platform
  {
    if i :| 0 <= i < |u.accounts| && u.accounts[i].platform == platform {
      assert !(i < AccountFor(u.accounts, platform));
    }
    if HasPlatform(u, platform) {
      assert u.accounts[AccountFor(u.accounts, platform)].platform == platform;
    }
  }

  lemma StillOnePerPlatform(accounts: seq<Account>, i: nat, a: Account)
    requires OnePerPlatform(accounts) && i <= |accounts|
    requires forall j :: 0 <= j < |accounts| && j != i ==> accounts[j].platform != a.platform
    ensures if i < |accounts| then OnePerPlatform(accounts[i := a]) else OnePerPlatform(accounts + [a])
  {
  }

  lemma OneFewer(accounts: seq<Account>, i: nat)
    requires OnePerPlatform(accounts) && i < |accounts|
    ensures OnePerPlatform(accounts[..i] + accounts[i + 1..])
  {
  }

  lemma OthersDiffer(accounts: seq<Account>, platform: Platform)
    requires OnePerPlatform(accounts)
    ensures forall j :: 0 <= j < |accounts| && j != AccountFor(accounts, platform) ==> accounts[j].platform != platform
  {
    hide AccountFor;
  }

  lemma LinkingKeepsWellFormed(u: UserState, a: Account)
    requires WellFormed(u)
    ensures WellFormed(Linking(u, a).state)
  {
    hide AccountFor, OnePerPlatform;
    var t := Linking(u, a).state;
    HasPlatformMeans(u, u.notifyVia);
    HasPlatformMeans(t, t.notifyVia);
    var k :| 0 <= k < |u.accounts| && u.accounts[k].platform == u.notifyVia;
    assert t.accounts[k].platform == t.notifyVia;
    OthersDiffer(u.accounts, a.platform);
    StillOnePerPlatform(u.accounts, AccountFor(u.accounts, a.platform), a);
  }

  lemma UnlinkingKeepsWellFormed(u: UserState, platform: Platform)
    requires WellFormed(u)
    ensures WellFormed(Unlinking(u, platform).state)
  {
    hide AccountFor, OnePerPlatform;
    var t := Unlinking(u, platform).state;
    var i := AccountFor(u.accounts, platform);
    HasPlatformMeans(u, u.notifyVia);
    HasPlatformMeans(t, t.notifyVia);
    var k :| 0 <= k < |u.accounts| && u.accounts[k].platform == u.notifyVia;
    if i < |u.accounts| && |u.accounts| > 1 {
      assert t.accounts[if u.notifyVia == platform then 0 else if k < i then k else k - 1].platform == t.notifyVia;
      OneFewer(u.accounts, i);
    }
  }

  lemma RefreshingKeepsWellFormed(u: UserState, platform: Platform, username: Option<string>)
    requires WellFormed(u)
    ensures WellFormed(Refreshing(u, platform, username))
  {
    hide AccountFor, OnePerPlatform;
    var t := Refreshing(u, platform, username);
    HasPlatformMeans(u, u.notifyVia);
    HasPlatformMeans(t, t.notifyVia);
    var k :| 0 <= k < |u.accounts| && u.accounts[k].platform == u.notifyVia;
    assert t.accounts[k].platform == t.notifyVia;
    var i := AccountFor(u.accounts, platform);
    OthersDiffer(u.accounts, platform);
    if i < |u.accounts| { StillOnePerPlatform(u.accounts, i, u.accounts[i].(username := username)); }
  }

  /** Every operation, refused or not, leaves a person reachable: at least one account, one per platform,
      notifications pointed at one of them, blocked exactly when a reason is stored. */
  lemma StepKeepsWellFormed(u: UserState, op: UserOp)
    requires WellFormed(u)
    ensures WellFormed(Apply(u, op).state) && Apply(u, op).state.id == u.id
    ensures Apply(u, op).answer.Err? ==> Apply(u, op).state == u && Apply(u, op).events == []
  {
    match op
    case LinkAccount(a) => LinkingKeepsWellFormed(u, a);
    case RefreshUsername(p, name) => RefreshingKeepsWellFormed(u, p, name);
    case UnlinkAccount(p) => UnlinkingKeepsWellFormed(u, p);
    case _ =>
  }

  lemma RefreshedAccounts(u: UserState, platform: Platform, username: Option<string>)
    ensures forall p, e :: HasAccount(Refreshing(u, platform, username), p, e) <==> HasAccount(u, p, e)
    ensures Refreshing(u, platform, username).phoneNumber == u.phoneNumber
  {
    var t := Refreshing(u, platform, username);
    forall p, e ensures HasAccount(t, p, e) <==> HasAccount(u, p, e) {
      if i :| 0 <= i < |t.accounts| && t.accounts[i].platform == p && t.accounts[i].externalId == e {
        assert u.accounts[i].platform == p && u.accounts[i].externalId == e;
      }
      if i :| 0 <= i < |u.accounts| && u.accounts[i].platform == p && u.accounts[i].externalId == e {
        assert t.accounts[i].platform == p && t.accounts[i].externalId == e;
      }
    }
  }

  lemma LinkedAccounts(u: UserState, a: Account)
    requires Linking(u, a).answer.Ok?
    ensures var t := Linking(u, a).state;
            && (forall p, e :: HasAccount(t, p, e) <==> HasAccount(u, p, e) || (p == a.platform && e == a.externalId))
            && t.phoneNumber == u.phoneNumber
  {
    hide AccountFor;
    var i := AccountFor(u.accounts, a.platform);
    var t := Linking(u, a).state;
    assert t.accounts[i].platform == a.platform && t.accounts[i].externalId == a.externalId;
    forall p, e ensures HasAccount(t, p, e) <==> HasAccount(u, p, e) || (p == a.platform && e == a.externalId) {
      if j :| 0 <= j < |t.accounts| && t.accounts[j].platform == p && t.accounts[j].externalId == e {
        if j < |u.accounts| { assert u.accounts[j].platform == p && u.accounts[j].externalId == e; }
      }
      if j :| 0 <= j < |u.accounts| && u.accounts[j].platform == p && u.accounts[j].externalId == e {
        assert t.accounts[j].platform == p && t.accounts[j].externalId == e;
      }
    }
  }

  lemma UnlinkedAccounts(u: UserState, platform: Platform)
    requires WellFormed(u) && Unlinking(u, platform).answer.Ok?
    ensures forall p, e :: HasAccount(Unlinking(u, platform).state, p, e) <==> HasAccount(u, p, e) && p != platform
  {
    OthersDiffer(u.accounts, platform);
    hide AccountFor;
    var i := AccountFor(u.accounts, platform);
    var t := Unlinking(u, platform).state;
    forall p, e ensures HasAccount(t, p, e) <==> HasAccount(u, p, e) && p != platform {
      if j :| 0 <= j < |t.accounts| && t.accounts[j].platform == p && t.accounts[j].externalId == e {
        var k := if j < i then j else j + 1;
        assert u.accounts[k].platform == p && u.accounts[k].externalId == e;
      }
      if j :| 0 <= j < |u.accounts| && u.accounts[j].platform == p && u.accounts[j].externalId == e {
        if j != i {
          var k := if j < i then j else j - 1;
          assert t.accounts[k].platform == p && t.accounts[k].externalId == e;
        }
      }
    }
  }

  /** Linking adds the one account and is refused exactly for a second account of its platform; unlinking
      takes the one account away and is refused exactly when there is none or no other. */
  lemma LinkingAndUnlinking(u: UserState, op: UserOp)
    requires WellFormed(u) && (op.LinkAccount? || op.UnlinkAccount?)
    ensures var step := Apply(u, op);
            match op
            case LinkAccount(a) =>
              && (step.answer.Ok? <==> forall e :: HasAccount(u, a.platform, e) ==> e == a.externalId)
              && (step.answer.Ok? ==> forall p, e :: HasAccount(step.state, p, e) <==>
                                                       HasAccount(u, p, e) || (p == a.platform && e == a.externalId))
            case UnlinkAccount(q) =>
              && (step.answer.Ok? <==> (exists e :: HasAccount(u, q, e)) && |u.accounts| > 1)
              && (step.answer.Ok? ==> forall p, e :: HasAccount(step.state, p, e) <==> HasAccount(u, p, e) && p != q)
            case _ => true
  {
    var q := if op.LinkAccount? then op.account.platform else op.platform;
    OthersDiffer(u.accounts, q);
    hide AccountFor;
    var i := AccountFor(u.accounts, q);
    if i < |u.accounts| { assert HasAccount(u, q, u.accounts[i].externalId); }
    if op.LinkAccount? {
      if Linking(u, op.account).answer.Ok? { LinkedAccounts(u, op.account); }
    } else if Unlinking(u, q).answer.Ok? {
      UnlinkedAccounts(u, q);
    }
  }

  /** The same accounts in the same places, the one of this platform under this handle. */
  ghost predicate OnlyHandleChanged(before: seq<Account>, after: seq<Account>, platform: Platform,
                                    username: Option<string>) {
    && |after| == |before|
    && forall i :: 0 <= i < |before| ==>
                     && after[i].platform == before[i].platform && after[i].externalId == before[i].externalId
                     && after[i].username == if before[i].platform == platform then username else before[i].username
  }

  lemma RefreshingChangesTheHandle(u: UserState, platform: Platform, username: Option<string>)
    requires WellFormed(u)
    ensures var t := Refreshing(u, platform, username);
            OnlyHandleChanged(u.accounts, t.accounts, platform, username) && t == u.(accounts := t.accounts)
  {
    OthersDiffer(u.accounts, platform);
    hide AccountFor, HasPlatform, OnePerPlatform;
    var i := AccountFor(u.accounts, platform);
    if i < |u.accounts| {
      var t := u.accounts[i := u.accounts[i].(username := username)];
      forall j | 0 <= j < |u.accounts|
        ensures t[j].platform == u.accounts[j].platform && t[j].externalId == u.accounts[j].externalId
        ensures t[j].username == if u.accounts[j].platform == platform then username else u.accounts[j].username
      {
      }
    } else {
      assert forall j :: 0 <= j < |u.accounts| ==> u.accounts[j].platform != platform;
    }
  }

  /** Linking in full: a new platform is added last and announced, the same account again only takes the new
      handle, and another account of a linked platform is refused. */
  lemma WhatLinkingDoes(u: UserState, a: Account)
    requires WellFormed(u)
    ensures var step := Apply(u, LinkAccount(a));
            var linked := exists i :: 0 <= i < |u.accounts| && u.accounts[i].platform == a.platform;
            if !linked then
              step == UserStep(Ok(()), u.(accounts := u.accounts + [a]),
                               [MessengerAccountLinked(u.id, a.platform, a.externalId)])
            else if HasAccount(u, a.platform, a.externalId) then
              && step.answer == Ok(()) && step.events == []
              && step.state == u.(accounts := step.state.accounts)
              && OnlyHandleChanged(u.accounts, step.state.accounts, a.platform, a.username)
            else step == UserStep(Err(PlatformAlreadyLinked), u, [])
  {
    HasPlatformMeans(u, a.platform);
    OthersDiffer(u.accounts, a.platform);
    RefreshingChangesTheHandle(u, a.platform, a.username);
    hide AccountFor;
    var i := AccountFor(u.accounts, a.platform);
    if i < |u.accounts| && u.accounts[i].externalId == a.externalId {
      assert HasAccount(u, a.platform, a.externalId);
    }
  }

  /** Unlinking in full: the one account goes and is announced, the others keep their order, and notifications
      move to the first of them only if they went to the one that is gone. */
  lemma WhatUnlinkingDoes(u: UserState, platform: Platform)
    requires WellFormed(u)
    ensures var step := Apply(u, UnlinkAccount(platform));
            && ((forall i :: 0 <= i < |u.accounts| ==> u.accounts[i].platform != platform) ==>
                  step == UserStep(Err(MessengerAccountNotLinked), u, []))
            && forall i :: 0 <= i < |u.accounts| && u.accounts[i].platform == platform ==>
                             if |u.accounts| == 1 then step == UserStep(Err(LastMessengerAccount), u, [])
                             else
                               var left := u.accounts[..i] + u.accounts[i + 1..];
                               var via := if u.notifyVia == platform then left[0].platform else u.notifyVia;
                               && step.answer == Ok(())
                               && step.state == u.(accounts := left, notifyVia := via)
                               && step.events == [MessengerAccountUnlinked(u.id, platform, u.accounts[i].externalId)]
  {
    OthersDiffer(u.accounts, platform);
    hide AccountFor;
    var i := AccountFor(u.accounts, platform);
    if i < |u.accounts| { assert u.accounts[i].platform == platform; }
  }

  /** The other edits in full: what each changes and records, and when it is refused. */
  lemma WhatEditsDo(u: UserState, op: UserOp)
    requires WellFormed(u)
    ensures var step := Apply(u, op);
            match op
            case RefreshUsername(platform, name) =>
              && step.answer == Ok(()) && step.events == [] && step.state == u.(accounts := step.state.accounts)
              && OnlyHandleChanged(u.accounts, step.state.accounts, platform, name)
            case ChangePhoneNumber(n) =>
              && step.answer == Ok(()) && step.state == u.(phoneNumber := n)
              && step.events == if n == u.phoneNumber then [] else [UserPhoneNumberChanged(u.id, u.phoneNumber, n)]
            case ChangePreferences(via, locale) =>
              if forall i :: 0 <= i < |u.accounts| ==> u.accounts[i].platform != via then
                step == UserStep(Err(NotificationTargetNotLinked), u, [])
              else
                && step.answer == Ok(()) && step.state == u.(notifyVia := via, locale := locale)
                && step.events == if via == u.notifyVia && locale == u.locale then []
                                  else [UserPreferencesChanged(u.id, via, locale)]
            case AssignRole(admin) =>
              && step.answer == Ok(()) && step.state == u.(isAdmin := admin)
              && step.events == if admin == u.isAdmin then [] else [UserRoleChanged(u.id, admin)]
            case Block(reason) =>
              if u.isBlocked then step == UserStep(Err(UserAlreadyBlocked), u, [])
              else
                step == UserStep(Ok(()), u.(isBlocked := true, blockReason := Some(reason)),
                                 [UserBlocked(u.id, reason)])
            case Unblock =>
              if !u.isBlocked then step == UserStep(Err(UserNotBlocked), u, [])
              else step == UserStep(Ok(()), u.(isBlocked := false, blockReason := None), [UserUnblocked(u.id)])
            case _ => true
  {
    if op.RefreshUsername? { RefreshingChangesTheHandle(u, op.platform, op.username); }
    if op.ChangePreferences? { HasPlatformMeans(u, op.notifyVia); }
    hide AccountFor, HasPlatform;
  }

  // ---- The registry -----------------------------------------------------------------------

  type Registry = map<UserId, UserState>

  /** What the unique indexes hold. */
  ghost predicate Unique(users: Registry) {
    && (forall u :: u in users ==> users[u].id == u)
    && (forall u, v :: u in users && v in users && users[u].phoneNumber == users[v].phoneNumber ==> u == v)
    && (forall u, v, p, e :: (u in users && v in users && HasAccount(users[u], p, e)
                              && HasAccount(users[v], p, e)) ==> u == v)
  }

  predicate AccountIsKnown(users: Registry, platform: Platform, externalId: string) {
    exists u :: u in users && HasAccount(users[u], platform, externalId)
  }

  predicate PhoneIsKnown(users: Registry, phoneNumber: string) {
    exists u :: u in users && users[u].phoneNumber == phoneNumber
  }

  ghost function OwnerOfAccount(users: Registry, platform: Platform, externalId: string): (u: UserId)
    requires AccountIsKnown(users, platform, externalId)
    ensures u in users && HasAccount(users[u], platform, externalId)
  {
    var u :| u in users && HasAccount(users[u], platform, externalId);
    u
  }

  ghost function OwnerOfPhone(users: Registry, phoneNumber: string): (u: UserId)
    requires PhoneIsKnown(users, phoneNumber)
    ensures u in users && users[u].phoneNumber == phoneNumber
  {
    var u :| u in users && users[u].phoneNumber == phoneNumber;
    u
  }

  /** A contact as a platform vouches for it: the phone number is parsed only if it is needed. */
  datatype Contact = Contact(account: Account, phoneNumber: Result<string>, locale: string, isConfiguredAdmin: bool)

  datatype Registered = Registered(answer: Result<UserId>, users: Registry, events: seq<Event>)

  function NewPerson(id: UserId, phoneNumber: string, c: Contact): UserState {
    UserState(id, phoneNumber, c.account.platform, c.locale, c.isConfiguredAdmin, false, None, [c.account])
  }

  function Welcome(id: UserId, phoneNumber: string, c: Contact): seq<Event> {
    [UserRegistered(id, phoneNumber, c.account.platform, c.account.externalId)]
    + if c.isConfiguredAdmin then [UserRoleChanged(id, true)] else []
  }

  /** The three ways a contact resolves, in the order they are tried. */
  ghost function Registering(users: Registry, c: Contact, newId: UserId): Registered {
    var (platform, externalId) := (c.account.platform, c.account.externalId);
    if AccountIsKnown(users, platform, externalId) then
      var u := OwnerOfAccount(users, platform, externalId);
      Registered(Ok(u), users[u := Refreshing(users[u], platform, c.account.username)], [])
    else if c.phoneNumber.Err? then Registered(Err(c.phoneNumber.error), users, [])
    else if PhoneIsKnown(users, c.phoneNumber.value) then
      var u := OwnerOfPhone(users, c.phoneNumber.value);
      var step := Linking(users[u], c.account);
      if step.answer.Err? then Registered(Err(step.answer.error), users, [])
      else Registered(Ok(u), users[u := step.state], step.events)
    else
      Registered(Ok(newId), users[newId := NewPerson(newId, c.phoneNumber.value, c)],
                 Welcome(newId, c.phoneNumber.value, c))
  }

  class UserRegistry {
    var users: Registry

    constructor ()
      ensures users == map[]
    {
      users := map[];
    }

    method Register(c: Contact, newId: UserId, log: EventsCollection) returns (r: Result<UserId>)
      requires Unique(users) && newId !in users
      modifies this, log
      ensures var registered := Registering(old(users), c, newId);
              r == registered.answer && users == registered.users && log.events == old(log.events) + registered.events
    {
      var platform, externalId := c.account.platform, c.account.externalId;
      if u :| u in users && HasAccount(users[u], platform, externalId) {
        users := users[u := Refreshing(users[u], platform, c.account.username)];
        return Ok(u);
      }
      if c.phoneNumber.Err? {
        return Err(c.phoneNumber.error);
      }
      var phoneNumber := c.phoneNumber.value;
      if u :| u in users && users[u].phoneNumber == phoneNumber {
        var person := new User(users[u], log);
        var linked := person.LinkOne(c.account);
        if linked.Err? {
          return Err(linked.error);
        }
        users := users[u := person.Value()];
        return Ok(u);
      }
      users := users[newId := NewPerson(newId, phoneNumber, c)];
      log.AddEvent(UserRegistered(newId, phoneNumber, platform, externalId));
      if c.isConfiguredAdmin {
        log.AddEvent(UserRoleChanged(newId, true));
      }
      r := Ok(newId);
    }
  }

  // ---- Every run -------------------------------------------------------------------------------

  ghost predicate Inv(users: Registry) {
    Unique(users) && forall u :: u in users ==> WellFormed(users[u])
  }

  datatype Command =
    | Register(contact: Contact, newId: UserId)
    | Edit(user: UserId, op: UserOp)

  /** The unique index that refuses an edit: another person has the number, or the account. */
  ghost predicate TakenByAnother(users: Registry, u: UserId, op: UserOp) {
    match op
    case ChangePhoneNumber(n) => exists v :: v in users && v != u && users[v].phoneNumber == n
    case LinkAccount(a) => exists v :: v in users && v != u && HasAccount(users[v], a.platform, a.externalId)
    case _ => false
  }

  /** The registry after one command; a command that an index refuses changes nothing. */
  ghost function After(users: Registry, c: Command): Registry {
    match c
    case Register(contact, newId) => if newId in users then users else Registering(users, contact, newId).users
    case Edit(u, op) =>
      if u !in users || TakenByAnother(users, u, op) then users else users[u := Apply(users[u], op).state]
  }

  ghost function AfterAll(users: Registry, run: seq<Command>): Registry
    decreases |run|
  {
    if run == [] then users else AfterAll(After(users, run[0]), run[1..])
  }

  /** Changing one person in a way that takes nothing from anybody keeps the indexes. */
  lemma OnePersonChanged(users: Registry, u: UserId, person: UserState)
    requires Inv(users) && WellFormed(person) && person.id == u
    requires forall v :: v in users && v != u ==>
                           users[v].phoneNumber != person.phoneNumber
                           && forall p, e :: HasAccount(person, p, e) ==> !HasAccount(users[v], p, e)
    ensures Inv(users[u := person])
  {
  }

  lemma RegisterKeepsInv(users: Registry, c: Contact, newId: UserId)
    requires Inv(users) && newId !in users
    ensures Inv(Registering(users, c, newId).users)
  {
    var (platform, externalId) := (c.account.platform, c.account.externalId);
    if AccountIsKnown(users, platform, externalId) {
      var u := OwnerOfAccount(users, platform, externalId);
      RefreshedAccounts(users[u], platform, c.account.username);
      StepKeepsWellFormed(users[u], RefreshUsername(platform, c.account.username));
      OnePersonChanged(users, u, Refreshing(users[u], platform, c.account.username));
    } else if c.phoneNumber.Ok? && PhoneIsKnown(users, c.phoneNumber.value) {
      var u := OwnerOfPhone(users, c.phoneNumber.value);
      if Linking(users[u], c.account).answer.Ok? {
        LinkedAccounts(users[u], c.account);
        StepKeepsWellFormed(users[u], LinkAccount(c.account));
        OnePersonChanged(users, u, Linking(users[u], c.account).state);
      }
    } else if c.phoneNumber.Ok? {
      var person := NewPerson(newId, c.phoneNumber.value, c);
      HasPlatformMeans(person, platform);
      assert person.accounts[0].platform == platform;
      OnePersonChanged(users, newId, person);
    }
  }

  /** What an operation can take from others: the number it sets and the account it links. */
  lemma WhatAnEditTakes(u: UserState, op: UserOp)
    requires WellFormed(u)
    ensures var t := Apply(u, op).state;
            && (t.phoneNumber == u.phoneNumber || (op.ChangePhoneNumber? && t.phoneNumber == op.phoneNumber))
            && (forall p, e :: HasAccount(t, p, e) ==>
                                 || HasAccount(u, p, e)
                                 || (op.LinkAccount? && p == op.account.platform && e == op.account.externalId))
  {
    match op
    case LinkAccount(a) => if Linking(u, a).answer.Ok? { LinkedAccounts(u, a); }
    case UnlinkAccount(p) => if Unlinking(u, p).answer.Ok? { UnlinkedAccounts(u, p); }
    case RefreshUsername(p, name) => RefreshedAccounts(u, p, name);
    case _ =>
  }

  lemma EditKeepsInv(users: Registry, u: UserId, op: UserOp)
    requires Inv(users) && u in users && !TakenByAnother(users, u, op)
    ensures Inv(users[u := Apply(users[u], op).state])
  {
    hide Apply, HasAccount, WellFormed;
    StepKeepsWellFormed(users[u], op);
    WhatAnEditTakes(users[u], op);
    var t := Apply(users[u], op).state;
    forall v, p, e | v in users && v != u && HasAccount(t, p, e) ensures !HasAccount(users[v], p, e) {
    }
    OnePersonChanged(users, u, t);
  }

  /** Of the edits a person allows, the indexes have to refuse exactly those that take from another. */
  lemma IndexesRefuseExactly(users: Registry, u: UserId, op: UserOp)
    requires Inv(users) && u in users && Apply(users[u], op).answer.Ok?
    ensures Unique(users[u := Apply(users[u], op).state]) <==> !TakenByAnother(users, u, op)
  {
    if !TakenByAnother(users, u, op) {
      EditKeepsInv(users, u, op);
    } else if op.LinkAccount? {
      LinkedAccounts(users[u], op.account);
      var v :| v in users && v != u && HasAccount(users[v], op.account.platform, op.account.externalId);
      var next := users[u := Apply(users[u], op).state];
      assert HasAccount(next[u], op.account.platform, op.account.externalId) && next[v] == users[v];
    } else {
      var v :| v in users && v != u && users[v].phoneNumber == op.phoneNumber;
      var next := users[u := Apply(users[u], op).state];
      assert next[u].phoneNumber == op.phoneNumber && next[v] == users[v];
    }
  }

  /** In every run of registrations and edits no phone number and no account belongs to two people, and
      everybody stays reachable. */
  lemma {:induction false} EveryRunKeepsInv(users: Registry, run: seq<Command>)
    requires Inv(users)
    ensures Inv(AfterAll(users, run))
    decreases |run|
  {
    if run != [] {
      match run[0] {
        case Register(c, newId) => if newId !in users { RegisterKeepsInv(users, c, newId); }
        case Edit(u, op) => if u in users && !TakenByAnother(users, u, op) { EditKeepsInv(users, u, op); }
      }
      EveryRunKeepsInv(After(users, run[0]), run[1..]);
    }
  }

  /** A contact from a known account: its owner is the answer, and nothing but the handle changes. */
  lemma KnownAccountRegisters(users: Registry, c: Contact, newId: UserId, u: UserId)
    requires Inv(users) && u in users && HasAccount(users[u], c.account.platform, c.account.externalId)
    ensures var r := Registering(users, c, newId);
            && r.answer == Ok(u) && r.events == []
            && r.users.Keys == users.Keys && (forall v :: v in users && v != u ==> r.users[v] == users[v])
            && r.users[u] == users[u].(accounts := r.users[u].accounts)
            && OnlyHandleChanged(users[u].accounts, r.users[u].accounts, c.account.platform, c.account.username)
  {
    assert OwnerOfAccount(users, c.account.platform, c.account.externalId) == u;
    RefreshingChangesTheHandle(users[u], c.account.platform, c.account.username);
  }

  /** A contact from a new account whose number somebody has: the account becomes theirs, unless they write
      from that platform already. */
  lemma KnownPersonRegisters(users: Registry, c: Contact, newId: UserId, u: UserId)
    requires Inv(users) && !AccountIsKnown(users, c.account.platform, c.account.externalId)
    requires u in users && c.phoneNumber == Ok(users[u].phoneNumber)
    ensures var r := Registering(users, c, newId);
            if exists i :: 0 <= i < |users[u].accounts| && users[u].accounts[i].platform == c.account.platform then
              r == Registered(Err(PlatformAlreadyLinked), users, [])
            else
              r == Registered(Ok(u), users[u := users[u].(accounts := users[u].accounts + [c.account])],
                              [MessengerAccountLinked(u, c.account.platform, c.account.externalId)])
  {
    assert OwnerOfPhone(users, users[u].phoneNumber) == u;
    WhatLinkingDoes(users[u], c.account);
    hide Linking;
  }

  /** A contact nobody knows: refused when the number cannot be read, otherwise a new person with that number
      and language, reached where the contact came from, not blocked, an administrator exactly when configured. */
  lemma NewPersonRegisters(users: Registry, c: Contact, newId: UserId)
    requires Inv(users) && !AccountIsKnown(users, c.account.platform, c.account.externalId)
    requires c.phoneNumber.Ok? ==> forall u :: u in users ==> users[u].phoneNumber != c.phoneNumber.value
    ensures var r := Registering(users, c, newId);
            if c.phoneNumber.Err? then r == Registered(Err(c.phoneNumber.error), users, [])
            else
              && r.answer == Ok(newId) && r.users == users[newId := r.users[newId]]
              && var p := r.users[newId];
                 && p.id == newId && p.phoneNumber == c.phoneNumber.value && p.locale == c.locale
                 && p.accounts == [c.account] && p.notifyVia == c.account.platform
                 && p.isAdmin == c.isConfiguredAdmin && !p.isBlocked && p.blockReason.None?
                 && r.events == [UserRegistered(newId, p.phoneNumber, c.account.platform, c.account.externalId)]
                                + if c.isConfiguredAdmin then [UserRoleChanged(newId, true)] else []
  {
  }

  /** A contact is turned away exactly when its account is new and either its number cannot be read or the
      owner of the number already writes from another account of that platform. */
  lemma WhenRegistrationSucceeds(users: Registry, c: Contact, newId: UserId)
    requires Inv(users) && newId !in users
    ensures Registering(users, c, newId).answer.Ok? <==>
            || AccountIsKnown(users, c.account.platform, c.account.externalId)
            || (c.phoneNumber.Ok?
                && forall u :: u in users && users[u].phoneNumber == c.phoneNumber.value ==>
                    !HasPlatform(users[u], c.account.platform))
  {
    if c.phoneNumber.Ok? && PhoneIsKnown(users, c.phoneNumber.value) {
      var u := OwnerOfPhone(users, c.phoneNumber.value);
      var i := AccountFor(users[u].accounts, c.account.platform);
      if i < |users[u].accounts| && users[u].accounts[i].externalId == c.account.externalId {
        assert HasAccount(users[u], c.account.platform, c.account.externalId);
      }
    }
  }

  /** A registration that lost a race is tried again against a registry that knows its account or its number.
      The retry never adds a person, but it need not succeed: two first messages with one number may come from
      two accounts of one platform. */
  lemma RetryMayBeRefused()
    ensures exists users: Registry, c: Contact, newId: UserId ::
              && Inv(users) && newId !in users && c.phoneNumber.Ok? && PhoneIsKnown(users, c.phoneNumber.value)
              && Registering(users, c, newId) == Registered(Err(PlatformAlreadyLinked), users, [])
  {
    var other := Contact(Account(Telegram, "a", None), Ok("1"), "en", false);
    var clash := Contact(Account(Telegram, "b", None), Ok("1"), "en", false);
    RegisterKeepsInv(map[], other, 0);
    var users := Registering(map[], other, 0).users;
    assert users == map[0 := NewPerson(0, "1", other)];
    assert users[0].phoneNumber == "1" && AccountFor(users[0].accounts, Telegram) == 0;
    assert !AccountIsKnown(users, Telegram, "b");
    assert OwnerOfPhone(users, "1") == 0;
    assert Registering(users, clash, 1) == Registered(Err(PlatformAlreadyLinked), users, []);
  }

  /** Registering the same contact again adds nobody, changes nothing and records nothing. */
  lemma RegisteringAgain(users: Registry, c: Contact, firstId: UserId, secondId: UserId)
    requires Inv(users) && firstId !in users
    requires Registering(users, c, firstId).answer.Ok?
    ensures var once := Registering(users, c, firstId);
            Registering(once.users, c, secondId) == Registered(once.answer, once.users, [])
  {
    var (platform, externalId) := (c.account.platform, c.account.externalId);
    var once := Registering(users, c, firstId);
    var u := once.answer.value;
    RegisterKeepsInv(users, c, firstId);
    RegisteredIsKnown(users, c, firstId);
    assert OwnerOfAccount(once.users, platform, externalId) == u;
    NothingToRefresh(once.users[u], c.account);
  }

  /** A registration that succeeds leaves the contact's account, handle and all, with the person it names. */
  lemma RegisteredIsKnown(users: Registry, c: Contact, newId: UserId)
    requires Inv(users) && newId !in users && Registering(users, c, newId).answer.Ok?
    ensures var once := Registering(users, c, newId);
            once.answer.value in once.users && c.account in once.users[once.answer.value].accounts
  {
    var (platform, externalId) := (c.account.platform, c.account.externalId);
    if AccountIsKnown(users, platform, externalId) {
      var u := OwnerOfAccount(users, platform, externalId);
      OneAccountPerPlatform(users[u], platform, externalId);
      var i := AccountFor(users[u].accounts, platform);
      assert Refreshing(users[u], platform, c.account.username).accounts[i] == c.account;
    } else if PhoneIsKnown(users, c.phoneNumber.value) {
      var u := OwnerOfPhone(users, c.phoneNumber.value);
      var i := AccountFor(users[u].accounts, platform);
      assert Linking(users[u], c.account).state.accounts[i] == c.account;
    }
  }

  lemma NothingToRefresh(u: UserState, a: Account)
    requires WellFormed(u) && a in u.accounts
    ensures HasAccount(u, a.platform, a.externalId) && Refreshing(u, a.platform, a.username) == u
  {
    var i :| 0 <= i < |u.accounts| && u.accounts[i] == a;
    HasPlatformMeans(u, a.platform);
    assert AccountFor(u.accounts, a.platform) == i;
  }

  lemma OneAccountPerPlatform(u: UserState, platform: Platform, externalId: string)
    requires WellFormed(u) && HasAccount(u, platform, externalId)
    ensures HasPlatform(u, platform) && u.accounts[AccountFor(u.accounts, platform)].externalId == externalId
  {
    var i :| 0 <= i < |u.accounts| && u.accounts[i].platform == platform && u.accounts[i].externalId == externalId;
    HasPlatformMeans(u, platform);
    var k := AccountFor(u.accounts, platform);
    assert u.accounts[k].platform == u.accounts[i].platform;
  }
}
