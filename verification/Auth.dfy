/** Authorisation of packets by the state cached on a pooled session, over runs in which sessions
    are borrowed, returned and borrowed again. Signatures are ideal: verification succeeds exactly
    on payloads the server signed. */
module Auth {
  import opened Common
  import RefreshFamilies

  const ACCESS_TOKEN_LIFETIME: nat := 900

  /** Payload of an access token. */
  datatype Token = Token(user: nat, issuedAt: nat, expiry: nat, keyId: nat)

  /** The cached fields of one pooled session (user 0 is the all-zero id), and whether the pool counts it as free. */
  datatype Slot = Slot(free: bool, authenticated: bool, expiry: nat, user: nat)

  /** Packet types that are handled without authorisation, and all others. */
  datatype PacketType = LoginPacket | SignUp | OtpRequest | OtpVerify | TokenPacket | RefreshPacket | Other(code: nat)

  predicate BypassesAuth(p: PacketType)
  {
    !p.Other?
  }

  /** ValidateSessionHotPath */
  predicate HotPath(slot: Slot, now: nat)
  {
    slot.authenticated && now < slot.expiry
  }

  predicate Admitted(p: PacketType, slot: Slot, now: nat)
  {
    BypassesAuth(p) || HotPath(slot, now)
  }

  function Issued(user: nat, now: nat): (t: Token)
  {
    Token(user, now, now + ACCESS_TOKEN_LIFETIME, 0)
  }

  predicate Verified(signed: set<Token>, t: Token, now: nat)
  {
    t in signed && now < t.expiry && t.keyId == 0
  }

  function Cached(slot: Slot, user: nat, expiry: nat): (s: Slot)
  {
    slot.(authenticated := true, expiry := expiry, user := user)
  }

  // ---- The code ----

  /** The cached fields of a session */
  class Session {
    var authState: bool
    var cachedExpiry: nat
    var cachedUserId: nat

    constructor ()
      ensures View(true) == Slot(true, false, 0, 0)
    {
      authState, cachedExpiry, cachedUserId := false, 0, 0;
    }

    /** With free as the pool has it. */
    function View(free: bool): (s: Slot)
      reads this
    {
      Slot(free, authState, cachedExpiry, cachedUserId)
    }

    /** The part of returnSession that clears the cache */
    method Reset()
      modifies this
      ensures View(true) == Slot(true, false, 0, 0)
    {
      authState := false;
      cachedUserId := 0;
      cachedExpiry := 0;
    }
  }

  /** signed stands for the signing key: the payloads that verify under it. */
  class AuthManager {
    var signed: set<Token>
    var nextFamilyId: nat
    const families: RefreshFamilies.RefreshFamilyStore

    constructor ()
      ensures signed == {} && nextFamilyId == 1 && fresh(families) && families.families == map[]
    {
      signed, nextFamilyId := {}, 1;
      families := new RefreshFamilies.RefreshFamilyStore();
    }

    method IssueTokenPair(user: nat, now: nat) returns (access: Token, family: nat)
      modifies this
      ensures access == Issued(user, now) && signed == old(signed) + {access}
      ensures access.user == user && access.issuedAt == now && access.expiry == now + 900 && access.keyId == 0
      ensures family == old(nextFamilyId) && nextFamilyId == family + 1
    {
      access := Token(user, now, now + ACCESS_TOKEN_LIFETIME, 0);
      signed := signed + {access};
      family := nextFamilyId;
      nextFamilyId := nextFamilyId + 1;
    }

    method ValidateAccessToken(t: Token, now: nat) returns (ok: bool)
      ensures ok <==> Verified(signed, t, now)
    {
      if t !in signed { return false; }
      if now >= t.expiry { return false; }
      if t.keyId != 0 { return false; }
      return true;
    }

    method CacheAuthOnSession(s: Session, user: nat, expiry: nat)
      modifies s
      ensures forall free :: s.View(free) == Cached(old(s.View(free)), user, expiry)
    {
      s.cachedUserId := user;
      s.cachedExpiry := expiry;
      s.authState := true;
    }

    /** ProcessLogin; whether the user is known, verified and gave the right password is given. */
    method ProcessLogin(s: Session, credentialsOk: bool, user: nat, now: nat) returns (ok: bool)
      modifies this, s, families
      ensures ok == credentialsOk
      ensures ok ==> forall free :: (s.View(free), signed) == AfterLogin(old(s.View(free)), old(signed), user, now)
      ensures ok ==> families.families == old(families.families)[old(nextFamilyId) := RefreshFamilies.Family(1, false)]
      ensures !ok ==> unchanged(this) && unchanged(s) && unchanged(families)
    {
      if !credentialsOk { return false; }
      var access, family := IssueTokenPair(user, now);
      families.Insert(family, RefreshFamilies.Family(1, false));
      CacheAuthOnSession(s, user, access.expiry);
      return true;
    }

    method HandleTokenPacket(s: Session, t: Token, now: nat) returns (ok: bool)
      modifies this, s
      ensures ok == Verified(old(signed), t, now)
      ensures forall free :: (s.View(free), signed) == AfterToken(old(s.View(free)), old(signed), t, now)
    {
      var valid := ValidateAccessToken(t, now);
      if !valid { return false; }
      CacheAuthOnSession(s, t.user, t.expiry);
      var access, family := IssueTokenPair(t.user, now);
      return true;
    }

    /** HandleRefreshPacket on a refresh token for this user, family and token id; valid says
        whether its signature and expiry are in order. */
    method HandleRefreshPacket(s: Session, valid: bool, user: nat, family: nat, token: nat, now: nat) returns (ok: bool)
      modifies this, s, families
      ensures ok == (valid && RefreshFamilies.Matches(old(families.families), family, token))
      ensures valid ==> families.families == RefreshFamilies.Advanced(old(families.families), family, token)
      ensures valid ==> forall free :: (s.View(free), signed) == AfterRefresh(old(s.View(free)), old(signed), user, ok, now)
      ensures !valid ==> unchanged(this) && unchanged(s) && unchanged(families)
    {
      if !valid { return false; }
      var familyValid := families.AdvanceTokenId(family, token);
      if !familyValid {
        s.authState := false;
        s.cachedExpiry := 0;
        return false;
      }
      var access, next := IssueTokenPair(user, now);
      CacheAuthOnSession(s, user, access.expiry);
      return true;
    }
  }

  function AfterLogin(slot: Slot, signed: set<Token>, user: nat, now: nat): (r: (Slot, set<Token>))
  {
    (Cached(slot, user, Issued(user, now).expiry), signed + {Issued(user, now)})
  }

  function AfterToken(slot: Slot, signed: set<Token>, t: Token, now: nat): (r: (Slot, set<Token>))
  {
    if Verified(signed, t, now) then (Cached(slot, t.user, t.expiry), signed + {Issued(t.user, now)}) else (slot, signed)
  }

  function AfterRefresh(slot: Slot, signed: set<Token>, user: nat, accepted: bool, now: nat): (r: (Slot, set<Token>))
  {
    if accepted then (Cached(slot, user, Issued(user, now).expiry), signed + {Issued(user, now)})
    else (slot.(authenticated := false, expiry := 0), signed)
  }

  // ---- Runs ----

  datatype State = State(slots: seq<Slot>, signed: set<Token>)

  /** A slot is borrowed or returned; or a login with good credentials, a token, or a refresh token
      with a good signature is handled at this time for the session in this slot. */
  datatype Event =
    | Borrow(slot: nat)
    | Return(slot: nat)
    | Login(slot: nat, user: nat, at: nat)
    | Present(slot: nat, token: Token, at: nat)
    | Refresh(slot: nat, user: nat, accepted: bool, at: nat)

  function Init(n: nat): (s: State)
  {
    State(seq(n, i => Slot(true, false, 0, 0)), {})
  }

  function Put(s: State, i: nat, r: (Slot, set<Token>)): (s': State)
    requires i < |s.slots|
  {
    State(s.slots[i := r.0], r.1)
  }

  function Step(s: State, e: Event): (s': State)
    ensures |s'.slots| == |s.slots|
  {
    if e.slot >= |s.slots| then s else
    var slot := s.slots[e.slot];
    match e
    case Borrow(i) => Put(s, i, (slot.(free := false), s.signed))
    case Return(i) => Put(s, i, (Slot(true, false, 0, 0), s.signed))
    case Login(i, user, at) => Put(s, i, AfterLogin(slot, s.signed, user, at))
    case Present(i, t, at) => Put(s, i, AfterToken(slot, s.signed, t, at))
    case Refresh(i, user, accepted, at) => Put(s, i, AfterRefresh(slot, s.signed, user, accepted, at))
  }

  function Run(n: nat, events: seq<Event>): (s: State)
    ensures |s.slots| == n
  {
    if events == [] then Init(n) else Step(Run(n, events[..|events| - 1]), events[|events| - 1])
  }

  /** For whom and when an access token was issued. */
  datatype Grant = Grant(user: nat, issuedAt: nat)

  /** The grant that backs the authentication of slot i by this event, if the event authenticates
      that slot. */
  function Backing(s: State, e: Event, i: nat): (g: Option<Grant>)
  {
    if e.slot != i then None else
    match e
    case Login(_, user, at) => Some(Grant(user, at))
    case Present(_, t, at) => if Verified(s.signed, t, at) then Some(Grant(t.user, t.issuedAt)) else None
    case Refresh(_, user, accepted, at) => if accepted then Some(Grant(user, at)) else None
    case _ => None
  }

  /** The event takes the authentication of slot i away: a return, or a refused refresh token. */
  predicate Clears(e: Event, i: nat)
  {
    e.slot == i && (e.Return? || (e.Refresh? && !e.accepted))
  }

  /** Event j authenticated slot i with a token of this grant. */
  predicate AuthenticatedAt(n: nat, events: seq<Event>, j: nat, i: nat, g: Grant)
    requires j < |events|
  {
    Backing(Run(n, events[..j]), events[j], i) == Some(g)
  }

  /** Event k neither authenticates slot i nor takes its authentication away. */
  predicate Leaves(n: nat, events: seq<Event>, k: nat, i: nat)
    requires k < |events|
  {
    !Clears(events[k], i) && Backing(Run(n, events[..k]), events[k], i) == None
  }

  /** No event behind j touches the authentication of slot i. */
  ghost predicate LastWord(n: nat, events: seq<Event>, j: nat, i: nat)
  {
    forall k: nat :: j < k < |events| ==> Leaves(n, events, k, i)
  }

  /** Every signed token lives for 900 seconds. */
  ghost predicate TokensOk(s: State)
  {
    forall t :: t in s.signed ==> t.expiry == t.issuedAt + ACCESS_TOKEN_LIFETIME && t.keyId == 0
  }

  lemma {:induction false} RunTokens(n: nat, events: seq<Event>)
    ensures TokensOk(Run(n, events))
  {
    if events == [] {
    } else {
      RunTokens(n, events[..|events| - 1]);
    }
  }

  lemma PrefixOf(events: seq<Event>, k: nat)
    requires events != [] && k <= |events| - 1
    ensures events[..|events| - 1][..k] == events[..k]
  {
  }

  lemma LastWordExtends(n: nat, events: seq<Event>, j: nat, i: nat)
    requires events != [] && j < |events| - 1
    ensures var last := |events| - 1;
      LastWord(n, events, j, i) <==> LastWord(n, events[..last], j, i) && Leaves(n, events, last, i)
  {
    var last := |events| - 1;
    forall k: nat | j < k < last ensures Leaves(n, events[..last], k, i) <==> Leaves(n, events, k, i) {
      PrefixOf(events, k);
    }
  }

  lemma BackingStands(s: State, e: Event, i: nat)
    requires TokensOk(s) && i < |s.slots| && Backing(s, e, i).Some?
    ensures Step(s, e).slots[i].authenticated
    ensures Step(s, e).slots[i].expiry == Backing(s, e, i).value.issuedAt + ACCESS_TOKEN_LIFETIME
    ensures Step(s, e).slots[i].user == Backing(s, e, i).value.user
  {
  }

  lemma UntouchedStays(s: State, e: Event, i: nat)
    requires i < |s.slots| && !Clears(e, i) && Backing(s, e, i).None?
    ensures Step(s, e).slots[i] == s.slots[i].(free := Step(s, e).slots[i].free)
  {
  }

  /** If slot i is authenticated after a run, some event did it and had the last word. */
  lemma {:induction false} AuthenticationHasASource(n: nat, events: seq<Event>, i: nat) returns (j: nat, g: Grant)
    requires i < n && Run(n, events).slots[i].authenticated
    ensures j < |events| && AuthenticatedAt(n, events, j, i, g) && LastWord(n, events, j, i)
    ensures Run(n, events).slots[i].expiry == g.issuedAt + ACCESS_TOKEN_LIFETIME && Run(n, events).slots[i].user == g.user
  {
    var last := |events| - 1;
    var s, e := Run(n, events[..last]), events[last];
    RunTokens(n, events[..last]);
    if Backing(s, e, i).Some? {
      j, g := last, Backing(s, e, i).value;
      BackingStands(s, e, i);
    } else {
      UntouchedStays(s, e, i);
      j, g := AuthenticationHasASource(n, events[..last], i);
      PrefixOf(events, j);
      LastWordExtends(n, events, j, i);
    }
  }

  /** An authentication that had the last word still stands. */
  lemma {:induction false} LastWordStands(n: nat, events: seq<Event>, i: nat, j: nat, g: Grant)
    requires i < n && j < |events| && AuthenticatedAt(n, events, j, i, g) && LastWord(n, events, j, i)
    ensures var slot := Run(n, events).slots[i];
      slot.authenticated && slot.expiry == g.issuedAt + ACCESS_TOKEN_LIFETIME && slot.user == g.user
    decreases |events|
  {
    var last := |events| - 1;
    if j == last {
      RunTokens(n, events[..last]);
      BackingStands(Run(n, events[..last]), events[last], i);
    } else {
      PrefixOf(events, j);
      LastWordExtends(n, events, j, i);
      LastWordStands(n, events[..last], i, j, g);
      UntouchedStays(Run(n, events[..last]), events[last], i);
    }
  }

  /** Event j authenticated slot i with a token less than 900 seconds old at now, and had the last word. */
  ghost predicate Backs(n: nat, events: seq<Event>, i: nat, now: nat, j: nat, g: Grant)
  {
    j < |events| && AuthenticatedAt(n, events, j, i, g) && now < g.issuedAt + ACCESS_TOKEN_LIFETIME && LastWord(n, events, j, i)
  }

  /** A packet that needs authorisation passes the gate at a time exactly when the last event to
      touch the slot's authentication is an authentication backed by an access token issued less
      than 900 seconds before. */
  lemma GateExactly(n: nat, events: seq<Event>, i: nat, p: PacketType, now: nat)
    requires i < n && p.Other?
    ensures Admitted(p, Run(n, events).slots[i], now) <==> exists j: nat, g: Grant :: Backs(n, events, i, now, j, g)
  {
    if Admitted(p, Run(n, events).slots[i], now) {
      var j, g := AuthenticationHasASource(n, events, i);
      assert Backs(n, events, i, now, j, g);
    }
    if exists j: nat, g: Grant :: Backs(n, events, i, now, j, g) {
      var j: nat, g: Grant :| Backs(n, events, i, now, j, g);
      LastWordStands(n, events, i, j, g);
    }
  }

  // ---- Reuse of sessions ----

  /** Event k takes slot i out of the pool. */
  predicate BorrowedAt(n: nat, events: seq<Event>, k: nat, i: nat)
    requires k < |events| && i < n
  {
    events[k] == Borrow(i) && Run(n, events[..k]).slots[i].free
  }

  lemma NotReturned(s: State, e: Event, i: nat)
    requires i < |s.slots| && !s.slots[i].free && e != Return(i)
    ensures !Step(s, e).slots[i].free
  {
  }

  lemma {:induction false} StaysBorrowed(n: nat, events: seq<Event>, i: nat, j: nat, k: nat)
    requires i < n && j < k <= |events| && LastWord(n, events, j, i)
    requires !Run(n, events[..j]).slots[i].free && events[j] != Return(i)
    ensures !Run(n, events[..k]).slots[i].free
    decreases k
  {
    assert events[..k][..k - 1] == events[..k - 1] && events[..k][k - 1] == events[k - 1];
    if k - 1 > j {
      StaysBorrowed(n, events, i, j, k - 1);
      assert Leaves(n, events, k - 1, i);
    }
    NotReturned(Run(n, events[..k - 1]), events[k - 1], i);
  }

  /** If the authentication was handled for a session that was not back in the pool, the slot has not
      been borrowed again since: it is this borrower who authenticated. */
  lemma SameBorrower(n: nat, events: seq<Event>, i: nat, now: nat, j: nat, g: Grant, k: nat)
    requires i < n && Backs(n, events, i, now, j, g) && !Run(n, events[..j]).slots[i].free
    requires j < k < |events|
    ensures !BorrowedAt(n, events, k, i)
  {
    StaysBorrowed(n, events, i, j, k);
  }

  /** As Backs, for a slot that lay in the pool when it was authenticated. */
  ghost predicate BacksWhileFree(n: nat, events: seq<Event>, i: nat, now: nat, j: nat, g: Grant)
  {
    Backs(n, events, i, now, j, g) && i < n && Run(n, events[..j]).slots[i].free
  }

  /** A freshly borrowed session passes the gate exactly when its slot was authenticated while it
      lay in the pool, by a handler that still held the returned session. */
  lemma FreshPassesExactly(n: nat, events: seq<Event>, i: nat, p: PacketType, now: nat)
    requires i < n && p.Other? && Run(n, events).slots[i].free
    ensures Admitted(p, Step(Run(n, events), Borrow(i)).slots[i], now) <==>
      exists j: nat, g: Grant :: BacksWhileFree(n, events, i, now, j, g)
  {
    GateExactly(n, events, i, p, now);
    if Admitted(p, Run(n, events).slots[i], now) {
      var j: nat, g: Grant :| Backs(n, events, i, now, j, g);
      assert events[..|events|] == events;
      if !Run(n, events[..j]).slots[i].free { StaysBorrowed(n, events, i, j, |events|); }
      assert BacksWhileFree(n, events, i, now, j, g);
    }
  }

  /** No handler authenticates a session that is back in the pool. */
  ghost predicate HandlersHoldTheirSession(n: nat, events: seq<Event>)
  {
    forall j, i :: 0 <= j < |events| && 0 <= i < n ==>
      Backing(Run(n, events[..j]), events[j], i).Some? ==> !Run(n, events[..j]).slots[i].free
  }

  /** Then a packet that passes the gate follows, since the slot was last borrowed, an authentication
      backed by an access token that the server signed less than 900 seconds before. */
  lemma GateMeansBorrowerAuthenticated(n: nat, events: seq<Event>, i: nat, p: PacketType, now: nat) returns (j: nat, token: Token)
    requires i < n && p.Other? && HandlersHoldTheirSession(n, events)
    requires Admitted(p, Run(n, events).slots[i], now)
    ensures j < |events| && AuthenticatedAt(n, events, j, i, Grant(token.user, token.issuedAt))
    ensures Run(n, events).slots[i].user == token.user
    ensures token in Run(n, events[..j + 1]).signed && now < token.issuedAt + ACCESS_TOKEN_LIFETIME
    ensures forall k :: j < k < |events| ==> !BorrowedAt(n, events, k, i)
  {
    var g;
    j, g := AuthenticationHasASource(n, events, i);
    assert Backs(n, events, i, now, j, g);
    forall k | j < k < |events| ensures !BorrowedAt(n, events, k, i) { SameBorrower(n, events, i, now, j, g, k); }
    token := BackingToken(Run(n, events[..j]), events[j], i);
    assert events[..j + 1][..j] == events[..j] && events[..j + 1][j] == events[j];
  }

  /** The token that backs an authentication. */
  function BackingToken(s: State, e: Event, i: nat): (t: Token)
    requires Backing(s, e, i).Some?
    ensures Grant(t.user, t.issuedAt) == Backing(s, e, i).value
    ensures i < |s.slots| ==> t in Step(s, e).signed
  {
    match e
    case Login(_, user, at) => Issued(user, at)
    case Present(_, t, _) => t
    case Refresh(_, user, _, at) => Issued(user, at)
  }

  /** Then a freshly borrowed session never passes. */
  lemma FreshNeverPasses(n: nat, events: seq<Event>, i: nat, p: PacketType, now: nat)
    requires i < n && p.Other? && Run(n, events).slots[i].free && HandlersHoldTheirSession(n, events)
    ensures !Admitted(p, Step(Run(n, events), Borrow(i)).slots[i], now)
  {
    FreshPassesExactly(n, events, i, p, now);
  }

  /** And it does pass after a logout and a login that arrived in one batch: the login is handled
      for the session the logout returned. */
  lemma LoginAfterReturnPersists(user: nat, at: nat, p: PacketType)
    requires p.Other?
    ensures var events := [Borrow(0), Login(0, user, at), Return(0), Login(0, user, at)];
      && Run(1, events).slots[0].free
      && Admitted(p, Step(Run(1, events), Borrow(0)).slots[0], at)
  {
    var events := [Borrow(0), Login(0, user, at), Return(0), Login(0, user, at)];
    assert events[..3][..2] == events[..2] && events[..2][..1] == events[..1] && events[..1][..0] == [];
    assert Run(1, events[..3]).slots[0] == Slot(true, false, 0, 0);
  }

  // ---- Tokens ----

  /** The event makes the server sign this token. */
  predicate Signs(s: State, e: Event, t: Token)
  {
    && e.slot < |s.slots| && t.keyId == 0 && t.expiry == t.issuedAt + 900
    && match e
       case Login(_, user, at) => t.user == user && t.issuedAt == at
       case Present(_, presented, at) => Verified(s.signed, presented, at) && t.user == presented.user && t.issuedAt == at
       case Refresh(_, user, accepted, at) => accepted && t.user == user && t.issuedAt == at
       case _ => false
  }

  predicate SignedAt(n: nat, events: seq<Event>, j: nat, t: Token)
    requires j < |events|
  {
    Signs(Run(n, events[..j]), events[j], t)
  }

  lemma SignsStep(s: State, e: Event, t: Token)
    ensures t in Step(s, e).signed <==> t in s.signed || Signs(s, e, t)
  {
  }

  /** In every run the tokens that verify are those the server signed in answer to a login, an accepted
      refresh or a verified token, for the user concerned and with the time of that event. */
  lemma {:induction false} SignedExactly(n: nat, events: seq<Event>, t: Token)
    ensures t in Run(n, events).signed <==> exists j: nat :: j < |events| && SignedAt(n, events, j, t)
  {
    if events == [] {
    } else {
      var last := |events| - 1;
      SignedExactly(n, events[..last], t);
      SignsStep(Run(n, events[..last]), events[last], t);
      forall j: nat | j < last ensures SignedAt(n, events[..last], j, t) <==> SignedAt(n, events, j, t) {
        PrefixOf(events, j);
      }
      if t in Run(n, events[..last]).signed {
        var j: nat :| j < last && SignedAt(n, events[..last], j, t);
        assert SignedAt(n, events, j, t);
      } else if Signs(Run(n, events[..last]), events[last], t) {
        assert SignedAt(n, events, last, t);
      }
    }
  }

  /** A token is accepted at a time if and only if the server signed it less than 900 seconds before. */
  lemma TokenAcceptedExactly(n: nat, events: seq<Event>, t: Token, now: nat)
    ensures Verified(Run(n, events).signed, t, now) <==>
      now < t.issuedAt + 900 && exists j: nat :: j < |events| && SignedAt(n, events, j, t)
  {
    RunTokens(n, events);
    SignedExactly(n, events, t);
  }

  /** The event is a login or an accepted refresh of this user. */
  predicate Vouches(e: Event, user: nat)
  {
    (e.Login? && e.user == user) || (e.Refresh? && e.accepted && e.user == user)
  }

  /** Every token names a user who logged in, or whose refresh token was accepted, before. */
  lemma {:induction false} EveryTokenHasALogin(n: nat, events: seq<Event>, t: Token) returns (j: nat)
    requires t in Run(n, events).signed
    ensures j < |events| && Vouches(events[j], t.user)
  {
    var last := |events| - 1;
    var s, e := Run(n, events[..last]), events[last];
    SignsStep(s, e, t);
    if t in s.signed {
      j := EveryTokenHasALogin(n, events[..last], t);
    } else if e.Present? {
      j := EveryTokenHasALogin(n, events[..last], e.token);
    } else {
      j := last;
    }
  }

  /** An authenticated slot's cached user id is that of the grant that had the last word, and that user
      logged in, or had a refresh token accepted, before. */
  lemma CachedUserHasALogin(n: nat, events: seq<Event>, i: nat) returns (j: nat)
    requires i < n && Run(n, events).slots[i].authenticated
    ensures j < |events| && Vouches(events[j], Run(n, events).slots[i].user)
  {
    var k, g := AuthenticationHasASource(n, events, i);
    var t := BackingToken(Run(n, events[..k]), events[k], i);
    if events[k].Present? {
      j := EveryTokenHasALogin(n, events[..k], t);
    } else {
      j := k;
    }
  }

  /** A borrow takes the slot out of the pool and leaves its cache; a return puts it back with the cache
      cleared; and no event touches another slot or, but for these two, the pool. */
  lemma SlotEffects(s: State, e: Event, i: nat)
    requires i < |s.slots|
    ensures var slot, slot' := s.slots[i], Step(s, e).slots[i];
      && (e.slot != i ==> slot' == slot)
      && (e == Borrow(i) ==> slot' == slot.(free := false))
      && (e == Return(i) ==> slot' == Slot(true, false, 0, 0))
      && (e != Borrow(i) && e != Return(i) ==> slot'.free == slot.free)
  {
  }

  /** Packets of the bypassing types are admitted whatever the session. */
  lemma BypassIsAdmitted(slot: Slot, now: nat)
    ensures forall p :: p in {LoginPacket, SignUp, OtpRequest, OtpVerify, TokenPacket, RefreshPacket} ==> Admitted(p, slot, now)
  {
  }
}
