/** The session maps and the session pool: which slot a user id stands for, which id a socket
    stands for, and which slots are free. */
module Sessions {
  import opened Common

  type Id = string
  type Socket = int
  const INVALID_SOCKET: Socket := -1

  /** The fields of a pooled session that the maps depend on. */
  datatype Session = Session(socket: Socket, userId: Id, updated: bool)

  datatype State = State(sessions: map<Id, nat>, ids: map<Socket, Id>, pool: seq<Session>, free: seq<nat>)

  // ---- The invariant ----

  /** The session under id i is known by its socket, and the socket leads back to i. */
  predicate IdOk(s: State, i: Id)
    requires i in s.sessions
  {
    var slot := s.sessions[i];
    slot < |s.pool| && s.pool[slot].socket in s.ids && s.ids[s.pool[slot].socket] == i
  }

  predicate SocketOk(s: State, k: Socket)
    requires k in s.ids
  {
    && k != INVALID_SOCKET && s.ids[k] in s.sessions && s.sessions[s.ids[k]] < |s.pool|
    && s.pool[s.sessions[s.ids[k]]].socket == k
  }

  ghost predicate Live(s: State, slot: nat)
  {
    exists i :: i in s.sessions && s.sessions[i] == slot
  }

  /** The two maps are mutually inverse, and free list and live slots partition the pool. */
  ghost predicate Valid(s: State)
  {
    && (forall i :: i in s.sessions ==> IdOk(s, i))
    && (forall k :: k in s.ids ==> SocketOk(s, k))
    && NoDuplicates(s.free)
    && (forall j :: 0 <= j < |s.free| ==> s.free[j] < |s.pool|)
    && (forall slot: nat :: slot < |s.pool| ==> (slot in s.free <==> !Live(s, slot)))
  }

  /** Each live slot stands under exactly one id. */
  lemma OneId(s: State, a: Id, b: Id)
    requires Valid(s) && a in s.sessions && b in s.sessions && s.sessions[a] == s.sessions[b]
    ensures a == b
  {
    assert IdOk(s, a) && IdOk(s, b);
  }

  // ---- Operations ----

  /** returnSession: updated is the one field it leaves. */
  function Return(s: State, slot: nat): (s': State)
    requires slot < |s.pool|
  {
    s.(pool := s.pool[slot := Session(INVALID_SOCKET, "", s.pool[slot].updated)], free := s.free + [slot])
  }

  /** borrowSession and addSession for a socket without a session */
  function Add(s: State, id: Id, k: Socket): (s': State)
    requires forall j :: 0 <= j < |s.free| ==> s.free[j] < |s.pool|
  {
    if s.free == [] then s else
    var slot := s.free[0];
    State(s.sessions[id := slot], s.ids[k := id],
          s.pool[slot := Session(k, id, s.pool[slot].updated)], s.free[1..])
  }

  function Remove(s: State, id: Id): (s': State)
    requires id in s.sessions ==> s.sessions[id] < |s.pool|
  {
    if id !in s.sessions then s else
    var slot := s.sessions[id];
    Return(s.(ids := s.ids - {s.pool[slot].socket}, sessions := s.sessions - {id}), slot)
  }

  function RemoveBySocket(s: State, k: Socket): (s': State)
    requires k in s.ids && s.ids[k] in s.sessions ==> s.sessions[s.ids[k]] < |s.pool|
  {
    if k !in s.ids then s else
    var u, r := s.ids[k], s.(ids := s.ids - {k});
    if u !in s.sessions then r else Return(r.(sessions := s.sessions - {u}), s.sessions[u])
  }

  /** The session that already stands under the new id on another socket is put out. */
  predicate Displaces(s: State, slot: nat)
    requires slot < |s.pool|
  {
    var u := s.pool[slot].userId;
    u in s.sessions && s.sessions[u] < |s.pool| && s.pool[s.sessions[u]].socket != s.pool[slot].socket
  }

  function Displace(s: State, slot: nat): (s': State)
    requires slot < |s.pool|
    ensures |s'.pool| == |s.pool|
  {
    if Displaces(s, slot) then Remove(s, s.pool[slot].userId) else s
  }

  /** updateNewId: the slot, until now under id, is to stand under its userId. */
  function UpdateNewId(s: State, id: Id, slot: nat): (s': State)
    requires slot < |s.pool|
  {
    var d := Displace(s, slot);
    var u, k := s.pool[slot].userId, s.pool[slot].socket;
    State((d.sessions - {id})[u := slot], d.ids[k := u], d.pool[slot := s.pool[slot].(updated := true)], d.free)
  }

  // ---- Each operation keeps the invariant ----

  lemma AddKeeps(s: State, id: Id, k: Socket)
    requires Valid(s) && id !in s.sessions && k !in s.ids && k != INVALID_SOCKET
    ensures Valid(Add(s, id, k))
  {
    if s.free != [] {
      var s', slot := Add(s, id, k), s.free[0];
      assert slot in s.free && !Live(s, slot);
      assert Live(s', slot) by { assert s'.sessions[id] == slot; }
      forall i | i in s'.sessions ensures IdOk(s', i) {
        if i != id { assert IdOk(s, i); assert Live(s, s.sessions[i]); }
      }
      forall x | x in s'.ids ensures SocketOk(s', x) {
        if x != k { assert SocketOk(s, x); assert Live(s, s.sessions[s.ids[x]]); }
      }
      AddPartitions(s, id, k);
    }
  }

  lemma AddPartitions(s: State, id: Id, k: Socket)
    requires Valid(s) && id !in s.sessions && s.free != []
    ensures var s' := Add(s, id, k);
      && NoDuplicates(s'.free)
      && forall slot: nat :: slot < |s'.pool| ==> (slot in s'.free <==> !Live(s', slot))
  {
    var s' := Add(s, id, k);
    assert s.free == [s.free[0]] + s'.free;
    assert s.free[0] !in s'.free;
    forall slot: nat | slot < |s'.pool| ensures slot in s'.free <==> !Live(s', slot) {
      if slot == s.free[0] {
        assert s'.sessions[id] == slot;
      } else {
        assert slot in s'.free <==> slot in s.free;
        if Live(s, slot) { var i :| i in s.sessions && s.sessions[i] == slot; assert s'.sessions[i] == slot; }
        if Live(s', slot) { var i :| i in s'.sessions && s'.sessions[i] == slot; assert s.sessions[i] == slot; }
      }
    }
  }

  lemma RemovePartitions(s: State, id: Id, s': State)
    requires Valid(s) && id in s.sessions
    requires s'.sessions == s.sessions - {id} && s'.free == s.free + [s.sessions[id]] && |s'.pool| == |s.pool|
    ensures NoDuplicates(s'.free)
    ensures forall slot: nat :: slot < |s'.pool| ==> (slot in s'.free <==> !Live(s', slot))
  {
    assert IdOk(s, id);
    assert Live(s, s.sessions[id]);
    forall slot: nat | slot < |s'.pool| ensures slot in s'.free <==> !Live(s', slot) {
      if slot != s.sessions[id] && Live(s, slot) {
        var i :| i in s.sessions && s.sessions[i] == slot;
        assert s'.sessions[i] == slot;
      }
    }
  }

  lemma RemoveKeeps(s: State, id: Id)
    requires Valid(s)
    ensures id in s.sessions ==> s.sessions[id] < |s.pool|
    ensures Valid(Remove(s, id))
  {
    if id in s.sessions {
      assert IdOk(s, id);
      var s', slot := Remove(s, id), s.sessions[id];
      RemovePartitions(s, id, s');
      forall i | i in s'.sessions ensures IdOk(s', i) {
        assert IdOk(s, i);
        if s.sessions[i] == slot { OneId(s, i, id); }
      }
      forall k | k in s'.ids ensures SocketOk(s', k) { assert SocketOk(s, k); }
    }
  }

  /** Removal by socket is removal of the id the socket stands for. */
  lemma RemoveBySocketIsRemove(s: State, k: Socket)
    requires Valid(s)
    ensures k in s.ids ==> s.ids[k] in s.sessions && s.sessions[s.ids[k]] < |s.pool|
    ensures RemoveBySocket(s, k) == if k in s.ids then Remove(s, s.ids[k]) else s
  {
    if k in s.ids { assert SocketOk(s, k); }
  }

  // ---- Renaming a session after login ----

  /** The slot stands under id; or it already stands under its userId, and id is not in use. */
  predicate MayUpdate(s: State, id: Id, slot: nat)
    requires slot < |s.pool|
  {
    var u := s.pool[slot].userId;
    (id in s.sessions && s.sessions[id] == slot) || (u in s.sessions && s.sessions[u] == slot && id !in s.sessions)
  }

  /** The session with slot's entry moved from id to u. */
  function Renamed(d: State, id: Id, u: Id, slot: nat): (s': State)
    requires slot < |d.pool|
  {
    State((d.sessions - {id})[u := slot], d.ids[d.pool[slot].socket := u], d.pool[slot := d.pool[slot].(updated := true)], d.free)
  }

  lemma RenameKeeps(d: State, id: Id, u: Id, slot: nat)
    requires Valid(d) && id in d.sessions && d.sessions[id] == slot < |d.pool| && (u !in d.sessions || u == id)
    ensures Valid(Renamed(d, id, u, slot))
  {
    var s' := Renamed(d, id, u, slot);
    assert IdOk(d, id);
    forall i | i in s'.sessions ensures IdOk(s', i) {
      if i != u { assert IdOk(d, i); if d.sessions[i] == slot { OneId(d, i, id); } }
    }
    forall k | k in s'.ids ensures SocketOk(s', k) { if k != d.pool[slot].socket { assert SocketOk(d, k); } }
    forall x: nat | x < |s'.pool| ensures x in s'.free <==> !Live(s', x) {
      RenameLive(d, id, u, slot, x);
    }
  }

  lemma RenameLive(d: State, id: Id, u: Id, slot: nat, x: nat)
    requires id in d.sessions && d.sessions[id] == slot < |d.pool| && (u !in d.sessions || u == id)
    ensures Live(Renamed(d, id, u, slot), x) <==> Live(d, x)
  {
    var s' := Renamed(d, id, u, slot);
    if Live(d, x) {
      var i :| i in d.sessions && d.sessions[i] == x;
      assert s'.sessions[if i == id then u else i] == x;
    }
    if Live(s', x) {
      var i :| i in s'.sessions && s'.sessions[i] == x;
      assert d.sessions[if i == u then id else i] == x;
    }
  }

  lemma UpdateKeeps(s: State, id: Id, slot: nat)
    requires Valid(s) && slot < |s.pool| && MayUpdate(s, id, slot)
    ensures Valid(UpdateNewId(s, id, slot))
  {
    var u, d := s.pool[slot].userId, Displace(s, slot);
    if id in s.sessions && s.sessions[id] == slot {
      assert IdOk(s, id);
      if u in s.sessions { assert IdOk(s, u); if !Displaces(s, slot) { OneIdPerSocket(s, id, u); } }
      if Displaces(s, slot) { RemoveKeeps(s, u); }
      assert d.pool[slot] == s.pool[slot];
      RenameKeeps(d, id, u, slot);
    } else {
      assert IdOk(s, u);
      assert s.sessions - {id} == s.sessions;
      RenameKeeps(s, u, u, slot);
      assert (s.sessions - {u})[u := slot] == s.sessions;
    }
  }

  lemma OneIdPerSocket(s: State, a: Id, b: Id)
    requires Valid(s) && a in s.sessions && b in s.sessions && IdOk(s, a) && IdOk(s, b)
    requires s.pool[s.sessions[a]].socket == s.pool[s.sessions[b]].socket
    ensures a == b
  {
  }

  /** A free slot, a slot under a third id, or an id that belongs to someone else breaks the maps. */
  lemma UpdateBreaks(s: State, id: Id, slot: nat)
    requires Valid(s) && slot < |s.pool| && !MayUpdate(s, id, slot)
    ensures !Valid(UpdateNewId(s, id, slot))
  {
    var u, d, s' := s.pool[slot].userId, Displace(s, slot), UpdateNewId(s, id, slot);
    assert s'.sessions[u] == slot && Live(s', slot);
    if slot in s.free {
      assert slot in s'.free;
    } else {
      var r :| r in s.sessions && s.sessions[r] == slot;
      assert IdOk(s, r);
      if r != u {
        assert r in s'.sessions && s'.sessions[r] == slot;
        assert !IdOk(s', r);
      } else {
        assert IdOk(s, id);
        var k := s.pool[s.sessions[id]].socket;
        if k == s.pool[slot].socket { OneIdPerSocket(s, id, r); }
        assert k in s'.ids && s'.ids[k] == id && id !in s'.sessions;
        assert !SocketOk(s', k);
      }
    }
  }

  /** updateNewId keeps the maps inverse and the pool partitioned exactly when the slot stands under
      the id it is called with, or already under its userId with that id not in use. */
  lemma UpdateKeepsExactly(s: State, id: Id, slot: nat)
    requires Valid(s) && slot < |s.pool|
    ensures Valid(UpdateNewId(s, id, slot)) <==> MayUpdate(s, id, slot)
  {
    if MayUpdate(s, id, slot) { UpdateKeeps(s, id, slot); } else { UpdateBreaks(s, id, slot); }
  }

  // ---- Temporary ids ----

  function Digits(n: nat): (d: string)
    ensures d != [] && forall c :: c in d ==> '0' <= c <= '9'
  {
    (if n < 10 then "" else Digits(n / 10)) + ["0123456789"[n % 10]]
  }

  lemma {:induction false} DigitsInjective(a: nat, b: nat)
    requires Digits(a) == Digits(b)
    ensures a == b
    decreases a
  {
    var x, y := Digits(a), Digits(b);
    assert x[|x| - 1] == "0123456789"[a % 10] && y[|y| - 1] == "0123456789"[b % 10];
    assert x[..|x| - 1] == (if a < 10 then "" else Digits(a / 10));
    assert y[..|y| - 1] == (if b < 10 then "" else Digits(b / 10));
    if a >= 10 && b >= 10 { DigitsInjective(a / 10, b / 10); }
  }

  /** The id a socket's session has before login. */
  function TempId(k: nat): (id: Id)
  {
    Digits(k) + "id"
  }

  /** User ids are rendered in hexadecimal. */
  predicate IsUserId(id: Id)
  {
    forall c :: c in id ==> '0' <= c <= '9' || 'a' <= c <= 'f'
  }

  lemma TempIdsDiffer(a: nat, b: nat, id: Id)
    ensures TempId(a) == TempId(b) ==> a == b
    ensures IsUserId(id) ==> id != TempId(a)
  {
    assert 'i' in TempId(a) by { assert TempId(a)[|Digits(a)|] == 'i'; }
    if TempId(a) == TempId(b) {
      assert |Digits(a)| == |Digits(b)|;
      assert Digits(a) == TempId(a)[..|Digits(a)|] == Digits(b);
      DigitsInjective(a, b);
    }
  }

  // ---- Runs ----

  const POOL_SIZE: nat := 10000

  function AllFree(n: nat): (free: seq<nat>)
    ensures |free| == n && forall i :: 0 <= i < n ==> free[i] == i
  {
    if n == 0 then [] else AllFree(n - 1) + [n - 1]
  }

  function Init(): (s: State)
  {
    State(map[], map[], seq(POOL_SIZE, i => Session(INVALID_SOCKET, "", false)), AllFree(POOL_SIZE))
  }

  /** Packets arrive on a socket that has no session yet; a login, token or refresh succeeds for a
      user; a logout; the socket closes; a session is removed by id or by socket. */
  datatype Event =
    | Connect(socket: nat)
    | Login(socket: nat, user: Id)
    | Logout(socket: nat)
    | Disconnect(socket: nat)
    | RemoveId(id: Id)
    | RemoveSocket(socket: nat)

  function SlotOf(s: State, k: Socket): (slot: Option<nat>)
    ensures slot.Some? ==> k in s.ids && s.ids[k] in s.sessions && slot.value == s.sessions[s.ids[k]] < |s.pool|
    ensures slot.None? <==> !(k in s.ids && s.ids[k] in s.sessions && s.sessions[s.ids[k]] < |s.pool|)
  {
    if k in s.ids && s.ids[k] in s.sessions && s.sessions[s.ids[k]] < |s.pool| then Some(s.sessions[s.ids[k]]) else None
  }

  function LoggedIn(s: State, slot: nat, user: Id): (s': State)
    requires slot < |s.pool|
  {
    var r := s.(pool := s.pool[slot := s.pool[slot].(userId := user)]);
    if s.pool[slot].updated then r else UpdateNewId(r, s.pool[slot].userId, slot)
  }

  function Step(s: State, e: Event): (s': State)
    requires Valid(s)
  {
    match e
    case Connect(k) => if k in s.ids then s else Add(s, TempId(k), k)
    case Login(k, user) =>
      (match SlotOf(s, k)
       case None => s
       case Some(slot) => if IsUserId(user) then LoggedIn(s, slot, user) else s)
    case Logout(k) =>
      (match SlotOf(s, k)
       case None => s
       case Some(slot) => RemoveKeeps(s, s.pool[slot].userId); Remove(s, s.pool[slot].userId))
    case Disconnect(k) =>
      if k !in s.ids then s else RemoveKeeps(s, s.ids[k]); Remove(s, s.ids[k])
    case RemoveId(id) => RemoveKeeps(s, id); Remove(s, id)
    case RemoveSocket(k) => RemoveBySocketIsRemove(s, k); RemoveBySocket(s, k)
  }

  /** A session not yet renamed stands under its userId, and temporary ids under their own socket. */
  ghost predicate NamesOk(s: State)
    requires Valid(s)
  {
    forall i :: i in s.sessions ==> NameOk(s, i)
  }

  ghost predicate NameOk(s: State, i: Id)
    requires i in s.sessions
  {
    && s.sessions[i] < |s.pool|
    && (!s.pool[s.sessions[i]].updated ==> s.pool[s.sessions[i]].userId == i)
    && forall k: nat :: i == TempId(k) ==> s.pool[s.sessions[i]].socket == k
  }

  ghost predicate Inv(s: State)
  {
    Valid(s) && NamesOk(s)
  }

  lemma InitInv()
    ensures Inv(Init())
  {
    var s := Init();
    forall slot: nat | slot < POOL_SIZE ensures slot in s.free { assert s.free[slot] == slot; }
  }

  lemma ConnectKeeps(s: State, k: nat)
    requires Inv(s) && k !in s.ids
    ensures Inv(Add(s, TempId(k), k))
  {
    var s' := Add(s, TempId(k), k);
    assert TempId(k) !in s.sessions;
    AddKeeps(s, TempId(k), k);
    forall i | i in s'.sessions ensures NameOk(s', i) {
      if i == TempId(k) {
        forall j: nat | i == TempId(j) ensures j == k { TempIdsDiffer(j, k, i); }
      } else {
        assert NameOk(s, i) && Live(s, s.sessions[i]);
      }
    }
  }

  lemma RemoveNames(s: State, id: Id)
    requires Inv(s)
    ensures Inv(Remove(s, id))
  {
    RemoveKeeps(s, id);
    var s' := Remove(s, id);
    forall i | i in s'.sessions ensures NameOk(s', i) {
      assert NameOk(s, i) && IdOk(s, i);
      if id in s.sessions && i != id && s.sessions[i] == s.sessions[id] { OneId(s, i, id); }
    }
  }

  lemma LoginKeeps(s: State, k: Socket, slot: nat, user: Id)
    requires Inv(s) && SlotOf(s, k) == Some(slot) && IsUserId(user)
    ensures Inv(LoggedIn(s, slot, user))
  {
    var id, r := s.ids[k], s.(pool := s.pool[slot := s.pool[slot].(userId := user)]);
    assert SocketOk(s, k) && NameOk(s, id) && IdOk(s, id);
    RetitleKeeps(s, r, slot, user);
    if !s.pool[slot].updated {
      UpdateKeeps(r, id, slot);
      UpdateNames(s, r, id, slot, user);
    } else {
      forall i | i in r.sessions ensures NameOk(r, i) { assert NameOk(s, i); }
    }
  }

  lemma RetitleKeeps(s: State, r: State, slot: nat, user: Id)
    requires Valid(s) && slot < |s.pool| && r == s.(pool := s.pool[slot := s.pool[slot].(userId := user)])
    ensures Valid(r)
  {
    forall i | i in r.sessions ensures IdOk(r, i) { assert IdOk(s, i); }
    forall k | k in r.ids ensures SocketOk(r, k) { assert SocketOk(s, k); }
    forall x: nat | x < |r.pool| ensures x in r.free <==> !Live(r, x) { assert Live(r, x) <==> Live(s, x); }
  }

  lemma UpdateNames(s: State, r: State, id: Id, slot: nat, user: Id)
    requires Inv(s) && Valid(r) && id in s.sessions && s.sessions[id] == slot < |s.pool| && IsUserId(user)
    requires r == s.(pool := s.pool[slot := s.pool[slot].(userId := user)]) && Valid(UpdateNewId(r, id, slot))
    ensures NamesOk(UpdateNewId(r, id, slot))
  {
    var s' := UpdateNewId(r, id, slot);
    forall i | i in s'.sessions ensures NameOk(s', i) {
      if i == user {
        forall j: nat | i == TempId(j) ensures false { TempIdsDiffer(j, j, user); }
      } else {
        assert NameOk(s, i) && IdOk(s, i) && IdOk(r, i);
        if s.sessions[i] == slot { OneId(s, i, id); }
        if user in s.sessions && s.sessions[i] == s.sessions[user] { OneId(s, i, user); }
      }
    }
  }

  lemma StepKeeps(s: State, e: Event)
    requires Inv(s)
    ensures Inv(Step(s, e))
  {
    match e
    case Connect(k) => if k !in s.ids { ConnectKeeps(s, k); }
    case Login(k, user) =>
      if SlotOf(s, k).Some? && IsUserId(user) { LoginKeeps(s, k, SlotOf(s, k).value, user); }
    case Logout(k) => if SlotOf(s, k).Some? { RemoveNames(s, s.pool[SlotOf(s, k).value].userId); }
    case Disconnect(k) => if k in s.ids { RemoveNames(s, s.ids[k]); }
    case RemoveId(id) => RemoveNames(s, id);
    case RemoveSocket(k) => RemoveBySocketIsRemove(s, k); if k in s.ids { RemoveNames(s, s.ids[k]); }
  }

  /** The state after any run, from the empty maps and the full pool. */
  ghost function Reached(events: seq<Event>): (s: State)
    ensures Inv(s) && |s.pool| == POOL_SIZE
  {
    if events == [] then InitInv(); Init() else
    var before, e := Reached(events[..|events| - 1]), events[|events| - 1];
    StepKeeps(before, e);
    Step(before, e)
  }

  /** After every run the map from ids to sessions and the map from sockets to ids are inverse to
      each other, and every slot of the pool is either free, listed once, or live under exactly one
      id. So no session is ever returned twice. */
  lemma EveryRunKeepsTheMaps(events: seq<Event>)
    ensures var s := Reached(events);
      && (forall i :: i in s.sessions ==> SlotOf(s, s.pool[s.sessions[i]].socket) == Some(s.sessions[i]))
      && (forall k :: k in s.ids ==> SlotOf(s, k).Some? && s.pool[SlotOf(s, k).value].socket == k)
      && (forall a, b :: a in s.sessions && b in s.sessions && s.sessions[a] == s.sessions[b] ==> a == b)
      && (forall slot: nat :: slot < POOL_SIZE ==> (slot in s.free <==> !Live(s, slot)))
      && (forall i, j :: 0 <= i < j < |s.free| ==> s.free[i] != s.free[j])
      && |s.free| + |s.sessions| == POOL_SIZE
  {
    var s := Reached(events);
    FreePlusLive(s);
    forall i | i in s.sessions ensures SlotOf(s, s.pool[s.sessions[i]].socket) == Some(s.sessions[i]) {
      assert IdOk(s, i);
    }
    forall k | k in s.ids ensures SlotOf(s, k).Some? && s.pool[SlotOf(s, k).value].socket == k {
      assert SocketOk(s, k);
    }
    forall a, b | a in s.sessions && b in s.sessions && s.sessions[a] == s.sessions[b] ensures a == b {
      OneId(s, a, b);
    }
  }

  /** Free slots plus sessions in the maps are the whole pool. */
  lemma {:induction false} FreePlusLive(s: State)
    requires Valid(s)
    ensures |s.free| + |s.sessions| == |s.pool|
    decreases |s.sessions|
  {
    if s.sessions == map[] {
      var none := seq(|s.pool|, i => false);
      forall slot: nat | slot < |s.pool| ensures slot in s.free { assert !Live(s, slot); }
      NoneInUse(|s.pool|);
      FreePlusInUse(s.free, none);
    } else {
      var id :| id in s.sessions;
      RemoveKeeps(s, id);
      assert |s.sessions - {id}| == |s.sessions| - 1;
      FreePlusLive(Remove(s, id));
    }
  }

  /** After a first login the user's id leads to this socket's session alone; a session that stood
      there on another socket is out of both maps and back in the pool. */
  lemma LoginTakesOver(s: State, k: nat, user: Id)
    requires Inv(s) && SlotOf(s, k).Some? && !s.pool[SlotOf(s, k).value].updated && IsUserId(user)
    ensures var slot, s' := SlotOf(s, k).value, Step(s, Login(k, user));
      && s'.sessions[user] == slot && s'.ids[k] == user && s'.pool[slot] == Session(k, user, true)
      && (user in s.sessions && s.sessions[user] != slot ==>
            s'.free == s.free + [s.sessions[user]] && s.pool[s.sessions[user]].socket !in s'.ids)
  {
    assert SocketOk(s, k) && NameOk(s, s.ids[k]);
    if user in s.sessions && s.sessions[user] != SlotOf(s, k).value {
      assert IdOk(s, user) && IdOk(s, s.ids[k]);
    }
  }

  // ---- What each event leaves behind ----

  /** From s to s' the session in slot, under this id, is out of both maps and last in the free list, with
      its socket and user id cleared; everything else is as before. */
  ghost predicate Gone(s: State, s': State, id: Id, slot: nat)
    requires slot < |s.pool|
  {
    && id !in s'.sessions && s.pool[slot].socket !in s'.ids && s'.free == s.free + [slot]
    && s'.pool == s.pool[slot := Session(INVALID_SOCKET, "", s.pool[slot].updated)]
    && (forall i :: i != id ==> (i in s'.sessions <==> i in s.sessions) && (i in s.sessions ==> s'.sessions[i] == s.sessions[i]))
    && (forall k :: k != s.pool[slot].socket ==> (k in s'.ids <==> k in s.ids) && (k in s.ids ==> s'.ids[k] == s.ids[k]))
  }

  /** A closed socket, or a removal by socket, takes the session of that socket away. */
  lemma DisconnectLeaves(s: State, k: nat)
    requires Valid(s)
    ensures forall e :: e in {Disconnect(k), RemoveSocket(k)} ==>
      if SlotOf(s, k).Some? then Gone(s, Step(s, e), s.ids[k], SlotOf(s, k).value) && k !in Step(s, e).ids else Step(s, e) == s
  {
    if k in s.ids { assert SocketOk(s, k); }
  }

  /** A logout takes away the session that stands under the user id of the socket's session, if any; a
      removal by id the one that stands under the id. */
  lemma LogoutLeaves(s: State, k: nat, id: Id)
    requires Valid(s) && (SlotOf(s, k).Some? ==> s.pool[SlotOf(s, k).value].userId == id)
    ensures forall e :: e in {Logout(k), RemoveId(id)} && (e.Logout? ==> SlotOf(s, k).Some?) ==>
      if id in s.sessions then s.sessions[id] < |s.pool| && Gone(s, Step(s, e), id, s.sessions[id]) else Step(s, e) == s
  {
    if id in s.sessions { assert IdOk(s, id); }
  }

  /** The first packets on a socket give it the first free slot, under its temporary id; without a free
      slot, or with a session already there, nothing changes. */
  lemma ConnectLeaves(s: State, k: nat)
    requires Inv(s)
    ensures var s' := Step(s, Connect(k));
      if k in s.ids || s.free == [] then s' == s
      else
        var slot := s.free[0];
        && s'.free == s.free[1..] && TempId(k) !in s.sessions
        && s'.sessions == s.sessions[TempId(k) := slot] && s'.ids == s.ids[k := TempId(k)]
        && slot < |s.pool| && s'.pool == s.pool[slot := Session(k, TempId(k), s.pool[slot].updated)]
  {
    assert k !in s.ids ==> TempId(k) !in s.sessions;
  }

  /** A login on a session that was renamed before changes its user id alone. */
  lemma RepeatedLoginLeaves(s: State, k: nat, user: Id)
    requires Valid(s) && SlotOf(s, k).Some? && s.pool[SlotOf(s, k).value].updated && IsUserId(user)
    ensures var slot := SlotOf(s, k).value;
      Step(s, Login(k, user)) == s.(pool := s.pool[slot := s.pool[slot].(userId := user)])
  {
  }

  // ---- The code ----

  /** SessionPool: a queue of free indices over a fixed array of sessions */
  class SessionPool {
    var pool: seq<Session>
    var freeIndices: seq<nat>

    ghost predicate Sound()
      reads this
    {
      forall j :: 0 <= j < |freeIndices| ==> freeIndices[j] < |pool|
    }

    constructor ()
      ensures Sound() && pool == Init().pool && freeIndices == Init().free
    {
      pool := seq(POOL_SIZE, i => Session(INVALID_SOCKET, "", false));
      freeIndices := [];
      new;
      for i := 0 to POOL_SIZE
        invariant freeIndices == AllFree(i) && pool == Init().pool
      {
        freeIndices := freeIndices + [i];
      }
    }

    /** None is the null pointer, returned only when no slot is free. */
    method BorrowSession(k: Socket) returns (r: Option<nat>)
      requires Sound()
      modifies this
      ensures Sound()
      ensures r.None? <==> old(freeIndices) == []
      ensures r.None? ==> pool == old(pool) && freeIndices == old(freeIndices)
      ensures r.Some? ==> old(freeIndices) == [r.value] + freeIndices
      ensures r.Some? ==> r.value < |old(pool)| && pool == old(pool)[r.value := old(pool)[r.value].(socket := k)]
    {
      if freeIndices == [] { return None; }
      var idx := freeIndices[0];
      freeIndices := freeIndices[1..];
      pool := pool[idx := pool[idx].(socket := k)];
      return Some(idx);
    }

    method ReturnSession(slot: nat)
      requires Sound() && slot < |pool|
      modifies this
      ensures Sound() && freeIndices == old(freeIndices) + [slot]
      ensures pool == old(pool)[slot := Session(INVALID_SOCKET, "", old(pool)[slot].updated)]
    {
      pool := pool[slot := pool[slot].(socket := INVALID_SOCKET)];
      pool := pool[slot := pool[slot].(userId := "")];
      freeIndices := freeIndices + [slot];
    }
  }

  /** SessionManager, and the dispatcher's step that gives a new socket its session */
  class SessionManager {
    var sessions: map<Id, nat>
    var socketToUserId: map<Socket, Id>
    const store: SessionPool

    ghost function View(): (s: State)
      reads this, store
    {
      State(sessions, socketToUserId, store.pool, store.freeIndices)
    }

    constructor ()
      ensures View() == Init() && fresh(store)
    {
      sessions, socketToUserId := map[], map[];
      store := new SessionPool();
    }

    method AddSession(id: Id, k: Socket) returns (ok: bool)
      requires Valid(View())
      modifies this, store
      ensures View() == Add(old(View()), id, k)
      ensures ok <==> old(store.freeIndices) != []
    {
      var r := store.BorrowSession(k);
      if r.None? { return false; }
      store.pool := store.pool[r.value := store.pool[r.value].(socket := k, userId := id)];
      sessions := sessions[id := r.value];
      socketToUserId := socketToUserId[store.pool[r.value].socket := id];
      return true;
    }

    method RemoveSession(id: Id)
      requires Valid(View())
      modifies this, store
      ensures id in old(sessions) ==> old(sessions)[id] < |old(store.pool)|
      ensures View() == Remove(old(View()), id)
    {
      RemoveKeeps(View(), id);
      if id in sessions {
        socketToUserId := socketToUserId - {store.pool[sessions[id]].socket};
        store.ReturnSession(sessions[id]);
        sessions := sessions - {id};
      }
    }

    method RemoveBySocketHandle(k: Socket)
      requires Valid(View())
      modifies this, store
      ensures k in old(socketToUserId) ==>
        var id := old(socketToUserId)[k]; id in old(sessions) && old(sessions)[id] < |old(store.pool)|
      ensures View() == RemoveBySocket(old(View()), k)
    {
      RemoveBySocketIsRemove(View(), k);
      if k in socketToUserId {
        var userId := socketToUserId[k];
        socketToUserId := socketToUserId - {k};
        if userId in sessions {
          store.ReturnSession(sessions[userId]);
          sessions := sessions - {userId};
        }
      }
    }

    /** The first part of updateNewId: the session that stands under the new id on another socket goes. */
    method PutOut(slot: nat)
      requires Valid(View()) && slot < |store.pool|
      modifies this, store
      ensures View() == Displace(old(View()), slot)
    {
      var newid, newSocket := store.pool[slot].userId, store.pool[slot].socket;
      assert newid in sessions ==> IdOk(View(), newid);
      if newid in sessions && newSocket != store.pool[sessions[newid]].socket {
        var oldSocket := store.pool[sessions[newid]].socket;
        socketToUserId := socketToUserId - {oldSocket};
        store.ReturnSession(sessions[newid]);
        sessions := sessions - {newid};
      }
    }

    /** updateNewId; the maps stay inverse exactly when MayUpdate says so. */
    method UpdateId(id: Id, slot: nat)
      requires Valid(View()) && slot < |store.pool|
      modifies this, store
      ensures View() == UpdateNewId(old(View()), id, slot)
      ensures Valid(View()) <==> MayUpdate(old(View()), id, slot)
    {
      UpdateKeepsExactly(View(), id, slot);
      PutOut(slot);
      assert store.pool[slot] == old(store.pool)[slot];
      assert id !in sessions ==> sessions - {id} == sessions;
      if id in sessions { sessions := sessions - {id}; }
      socketToUserId := socketToUserId[store.pool[slot].socket := store.pool[slot].userId];
      sessions := sessions[store.pool[slot].userId := slot];
      store.pool := store.pool[slot := store.pool[slot].(updated := true)];
    }

    /** The session found is not in the pool, and its socket leads back to the id; none is found
        exactly when no slot stands under the id. */
    method FindSession(id: Id) returns (r: Option<nat>)
      requires Valid(View())
      ensures r.Some? ==> r.value < |store.pool| && r.value !in store.freeIndices
      ensures r.Some? ==> SlotOf(View(), store.pool[r.value].socket) == r && socketToUserId[store.pool[r.value].socket] == id
      ensures r.None? <==> forall k :: k in socketToUserId ==> socketToUserId[k] != id
    {
      if id in sessions {
        assert IdOk(View(), id) && Live(View(), sessions[id]);
        return Some(sessions[id]);
      }
      assert forall k :: k in socketToUserId ==> SocketOk(View(), k);
      return None;
    }

    method FindBySocket(k: Socket) returns (r: Option<nat>)
      requires Valid(View())
      ensures r == SlotOf(View(), k)
      ensures r.Some? ==> store.pool[r.value].socket == k
    {
      if k in socketToUserId {
        assert SocketOk(View(), k);
        return Some(sessions[socketToUserId[k]]);
      }
      return None;
    }

    /** The id leads back to the socket's session, or it is empty and no live session has this socket. */
    method GetUserIdBySocket(k: Socket) returns (id: Id)
      requires Valid(View())
      ensures
        || (id in sessions && SlotOf(View(), k) == Some(sessions[id]) && store.pool[sessions[id]].socket == k)
        || (id == "" && forall i :: i in sessions ==> sessions[i] < |store.pool| && store.pool[sessions[i]].socket != k)
    {
      assert forall i :: i in sessions ==> IdOk(View(), i);
      if k in socketToUserId {
        assert SocketOk(View(), k);
        return socketToUserId[k];
      }
      return "";
    }
  }
}
