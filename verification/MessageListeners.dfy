// The message listeners of an application and the client listeners that feed them.
module MessageListeners {
  import opened JsCollections

  // A `Map` finds a handle id by its object identity; the client of a handle goes by its text.
  datatype HandleId = HandleId(identity: nat, text: string)

  // A listener function of the application.
  type Listener = nat

  type RoomListeners = JsMap<string, Listener>
  type HandleListeners = JsMap<string, RoomListeners>

  function NoMap<K(!new), V>(): JsMap<K, V> {
    JsMap([], map[])
  }

  function Get<K(!new), V>(m: JsMap<K, V>, k: K, missing: V): V {
    if k in m.at then m.at[k] else missing
  }

  // `fed` are the handles whose client listener is kept; `clients` are the client listeners that are
  // attached, in the order in which the clients call them, each named by the handle it was made for.
  datatype State = State(listeners: JsMap<HandleId, HandleListeners>, fed: set<HandleId>, clients: seq<HandleId>)

  // `clientFound` says whether `getMatrixClient` would return when this call asks for the client.
  datatype Call =
    | Register(handle: HandleId, room: string, name: string, listener: Listener, clientFound: bool)
    | Unregister(handle: HandleId, room: string, name: string, clientFound: bool)

  // ---------- the calls ----------

  function ListenersOf(s: State, h: HandleId, room: string): RoomListeners {
    Get(Get(s.listeners, h, NoMap()), room, NoMap())
  }

  // Setting a name that is taken changes nothing.
  function SetIfAbsent(m: RoomListeners, name: string, l: Listener): RoomListeners {
    if name in m.at then m else m.Set(name, l)
  }

  function WithListener(s: State, h: HandleId, room: string, name: string, l: Listener): State {
    var rooms := Get(s.listeners, h, NoMap());
    s.(listeners := s.listeners.Set(h, rooms.Set(room, SetIfAbsent(Get(rooms, room, NoMap()), name, l))))
  }

  // What is left of the rooms of a handle without a listener: a room without listeners goes.
  function RoomsWithout(rooms: HandleListeners, room: string, name: string): HandleListeners
    requires room in rooms.at
  {
    var left := rooms.at[room].Delete(name);
    if left.keys == [] then rooms.Delete(room) else rooms.Set(room, left)
  }

  function Detached(s: State, h: HandleId): State {
    State(s.listeners.Delete(h), s.fed - {h}, if h in s.fed then Without(s.clients, h) else s.clients)
  }

  // The state after a call, whether it returns or throws.
  function Next(s: State, c: Call): State {
    match c
    case Register(h, room, name, l, found) =>
      var t := WithListener(s, h, room, name, l);
      if h in s.fed || !found then t else t.(fed := t.fed + {h}, clients := t.clients + [h])
    case Unregister(h, room, name, found) =>
      if name !in ListenersOf(s, h, room).at then s
      else
        var rooms := RoomsWithout(s.listeners.at[h], room, name);
        var t := s.(listeners := s.listeners.Set(h, rooms));
        if rooms.keys == [] && found then Detached(t, h) else t
  }

  // Whether a call returns: it throws when it asks for the client and gets none.
  predicate Returns(s: State, c: Call) {
    c.clientFound ||
    if c.Register? then c.handle in s.fed
    else
      var rooms := Get(s.listeners, c.handle, NoMap());
      c.name !in ListenersOf(s, c.handle, c.room).at || RoomsWithout(rooms, c.room, c.name).keys != []
  }

  // A call of one listener.
  datatype Delivery = Delivery(handle: HandleId, name: string, listener: Listener)

  // The calls that the client listener of a handle makes on an event of a room.
  ghost function Dispatch(s: State, h: HandleId, room: string): seq<Delivery>
    requires Inv(s)
  {
    var m := ListenersOf(s, h, room);
    seq(|m.keys|, i requires 0 <= i < |m.keys| => Delivery(h, m.keys[i], m.at[m.keys[i]]))
  }

  lemma SetTwice<K(!new), V>(m: JsMap<K, V>, k: K, v: V, w: V)
    ensures m.Set(k, v).Set(k, w) == m.Set(k, w)
  {
    assert m.at[k := v][k := w] == m.at[k := w];
  }

  // The calls that the clients of a handle text make on an event, the first `n` client listeners one
  // after the other.
  ghost function EventCalls(s: State, text: string, room: string, n: nat): seq<Delivery>
    requires Inv(s) && n <= |s.clients|
  {
    if n == 0 then []
    else
      EventCalls(s, text, room, n - 1) +
      if s.clients[n - 1].text == text then Dispatch(s, s.clients[n - 1], room) else []
  }

  // ---------- the module ----------

  class MessagingModule {
    var messageListeners: JsMap<HandleId, HandleListeners>
    var matrixEventListeners: set<HandleId>
    // The listeners attached to the clients.
    var clients: seq<HandleId>

    constructor ()
      ensures Value() == Start()
    {
      messageListeners, matrixEventListeners, clients := NoMap(), {}, [];
    }

    function Value(): State
      reads this
    {
      State(messageListeners, matrixEventListeners, clients)
    }

    method RegisterMessageListener(handle: HandleId, room: string, name: string, listener: Listener, clientFound: bool)
      returns (ok: bool)
      modifies this
      ensures var c := Register(handle, room, name, listener, clientFound);
              Value() == Next(old(Value()), c) && (ok <==> Returns(old(Value()), c))
    {
      if !messageListeners.Has(handle) {
        messageListeners := messageListeners.Set(handle, NoMap());
      }
      var recipientMap := messageListeners.at[handle];
      if !recipientMap.Has(room) {
        recipientMap := recipientMap.Set(room, NoMap());
      }
      var listenerMap := recipientMap.at[room];
      if !listenerMap.Has(name) {
        listenerMap := listenerMap.Set(name, listener);
      }
      messageListeners := messageListeners.Set(handle, recipientMap.Set(room, listenerMap));
      assert Value() == WithListener(old(Value()), handle, room, name, listener) by {
        SetTwice(old(messageListeners), handle, NoMap(), messageListeners.at[handle]);
        SetTwice(Get(old(messageListeners), handle, NoMap()), room, NoMap(), listenerMap);
      }
      if handle !in matrixEventListeners {
        if !clientFound {
          return false;
        }
        clients := clients + [handle];
        matrixEventListeners := matrixEventListeners + {handle};
      }
      return true;
    }

    method UnregisterMessageListener(handle: HandleId, room: string, name: string, clientFound: bool)
      returns (ok: bool)
      modifies this
      ensures var c := Unregister(handle, room, name, clientFound);
              Value() == Next(old(Value()), c) && (ok <==> Returns(old(Value()), c))
    {
      if !messageListeners.Has(handle) || !messageListeners.at[handle].Has(room) {
        return true;
      }
      var recipientMap := messageListeners.at[handle];
      var listenerMap := recipientMap.at[room];
      if !listenerMap.Has(name) {
        return true;
      }
      listenerMap := listenerMap.Delete(name);
      if |listenerMap.keys| == 0 {
        recipientMap := recipientMap.Delete(room);
      } else {
        recipientMap := recipientMap.Set(room, listenerMap);
      }
      messageListeners := messageListeners.Set(handle, recipientMap);
      if |recipientMap.keys| == 0 {
        if !clientFound {
          return false;
        }
        if handle in matrixEventListeners {
          clients := Without(clients, handle);
          matrixEventListeners := matrixEventListeners - {handle};
        }
        messageListeners := messageListeners.Delete(handle);
      }
      return true;
    }

    // The listener of a handle at work on an event of a room. A listener that throws is logged; the
    // next one is called all the same.
    method HandleMessageListener(handle: HandleId, room: string, throwing: set<Listener>)
      returns (calls: seq<Delivery>, errors: seq<Delivery>)
      requires Inv(Value())
      ensures calls == Dispatch(Value(), handle, room)
      ensures |errors| <= |calls| && forall d :: d in errors <==> d in calls && d.listener in throwing
    {
      calls, errors := [], [];
      if !messageListeners.Has(handle) || !messageListeners.at[handle].Has(room) {
        return;
      }
      var recipientListeners := messageListeners.at[handle].at[room];
      var names := recipientListeners.keys;
      for i := 0 to |names|
        invariant calls == Dispatch(Value(), handle, room)[..i]
        invariant |errors| <= |calls| && forall d :: d in errors <==> d in calls && d.listener in throwing
      {
        var d := Delivery(handle, names[i], recipientListeners.at[names[i]]);
        calls := calls + [d];
        if d.listener in throwing {
          errors := errors + [d];
        }
      }
    }

    // The client of a handle text emits an event.
    method ClientEvent(text: string, room: string, throwing: set<Listener>) returns (calls: seq<Delivery>)
      requires Inv(Value())
      ensures calls == EventCalls(Value(), text, room, |clients|)
    {
      calls := [];
      for n := 0 to |clients|
        invariant calls == EventCalls(Value(), text, room, n)
      {
        if clients[n].text == text {
          var handleCalls, _ := HandleMessageListener(clients[n], room, throwing);
          calls := calls + handleCalls;
        }
      }
    }
  }

  // ---------- runs ----------

  function Start(): State {
    State(NoMap(), {}, [])
  }

  function After(run: seq<Call>): State {
    if run == [] then Start() else Next(After(run[..|run| - 1]), run[|run| - 1])
  }

  // Every call of the run returned.
  ghost predicate Completed(run: seq<Call>) {
    forall n :: 0 <= n < |run| ==> Returns(After(run[..n]), run[n])
  }

  ghost predicate RoomsValid(rooms: HandleListeners) {
    rooms.Valid() && forall r :: r in rooms.at ==> rooms.at[r].Valid() && rooms.at[r].keys != []
  }

  // No room is left without listeners, and a handle whose client has a listener has it once.
  ghost predicate Inv(s: State) {
    && s.listeners.Valid() && NoDup(s.clients)
    && (forall h :: h in s.listeners.at ==> RoomsValid(s.listeners.at[h]))
    && (forall h :: h in s.clients <==> h in s.fed)
    && (forall h :: h in s.fed ==> h in s.listeners.at)
  }

  // Exactly the handles with listeners have a client listener.
  ghost predicate Linked(s: State) {
    && (forall h :: h in s.listeners.at ==> s.listeners.at[h].keys != [])
    && (forall h :: h in s.fed <==> h in s.listeners.at)
  }

  lemma RoomsWithoutValid(rooms: HandleListeners, room: string, name: string)
    requires RoomsValid(rooms) && room in rooms.at
    ensures RoomsValid(RoomsWithout(rooms, room, name))
  {
    DeleteValid(rooms.at[room], name);
    DeleteValid(rooms, room);
  }

  lemma WithListenerKeepsInv(s: State, h: HandleId, room: string, name: string, l: Listener)
    requires Inv(s)
    ensures Inv(WithListener(s, h, room, name, l))
  {
    var rooms := Get(s.listeners, h, NoMap());
    var m := SetIfAbsent(Get(rooms, room, NoMap()), name, l);
    assert m.Valid() && m.keys != [] by {
      assert name in m.at;
    }
    assert RoomsValid(rooms.Set(room, m));
  }

  lemma RegisterKeepsInv(s: State, c: Call)
    requires Inv(s) && c.Register?
    ensures Inv(Next(s, c))
  {
    WithListenerKeepsInv(s, c.handle, c.room, c.name, c.listener);
    RegisteredHandle(s, c.handle, c.room, c.name, c.listener);
    hide Inv, WithListener;
    AttachKeepsInv(WithListener(s, c.handle, c.room, c.name, c.listener), c.handle);
  }

  lemma RegisterLinks(s: State, c: Call)
    requires Inv(s) && c.Register?
    ensures Linked(s) ==> (Linked(Next(s, c)) <==> Returns(s, c))
  {
    RegisteredHandle(s, c.handle, c.room, c.name, c.listener);
    hide Inv, WithListener, ListenersOf, RoomsWithout;
  }

  // A registration leaves the handle with a room, and the other handles as they are.
  lemma RegisteredHandle(s: State, h: HandleId, room: string, name: string, l: Listener)
    requires Inv(s)
    ensures var t := WithListener(s, h, room, name, l);
            && t.fed == s.fed && t.clients == s.clients
            && h in t.listeners.at && t.listeners.at[h].keys != []
            && (forall g :: g in t.listeners.at <==> g == h || g in s.listeners.at)
            && (forall g :: g in s.listeners.at && g != h ==> t.listeners.at[g] == s.listeners.at[g])
  {
    hide SetIfAbsent;
    var rooms := WithListener(s, h, room, name, l).listeners.at[h];
    assert room in rooms.at;
    WithListenerKeepsInv(s, h, room, name, l);
    ValidRooms(rooms);
  }

  lemma AttachKeepsInv(t: State, h: HandleId)
    requires Inv(t) && h in t.listeners.at
    ensures h !in t.fed ==> Inv(t.(fed := t.fed + {h}, clients := t.clients + [h]))
  {
    hide RoomsValid;
  }

  lemma ValidRooms(rooms: HandleListeners)
    requires RoomsValid(rooms)
    ensures rooms.Valid()
  {
  }

  lemma DetachedKeepsInv(s: State, h: HandleId)
    requires Inv(s)
    ensures Inv(Detached(s, h))
  {
    DeleteValid(s.listeners, h);
    ExceptNoDup(s.clients, {h});
    InExcept(s.clients, {h});
  }

  lemma UnregisterKeepsInv(s: State, c: Call)
    requires Inv(s) && c.Unregister?
    ensures Inv(Next(s, c))
    ensures Linked(s) ==> (Linked(Next(s, c)) <==> Returns(s, c))
  {
    hide RoomsWithout, RoomsValid;
    if c.name in ListenersOf(s, c.handle, c.room).at {
      RoomsWithoutValid(s.listeners.at[c.handle], c.room, c.name);
      var rooms := RoomsWithout(s.listeners.at[c.handle], c.room, c.name);
      var t := s.(listeners := s.listeners.Set(c.handle, rooms));
      assert Inv(t);
      if rooms.keys == [] && c.clientFound {
        DetachedKeepsInv(t, c.handle);
      }
    }
  }

  lemma NextKeepsInv(s: State, c: Call)
    requires Inv(s)
    ensures Inv(Next(s, c))
    ensures Linked(s) ==> (Linked(Next(s, c)) <==> Returns(s, c))
  {
    hide Inv, Linked, Next, Returns;
    if c.Register? {
      RegisterKeepsInv(s, c);
      RegisterLinks(s, c);
    } else {
      UnregisterKeepsInv(s, c);
    }
  }

  lemma CompletedEarlier(run: seq<Call>)
    requires run != [] && Completed(run)
    ensures var n := |run| - 1; Completed(run[..n]) && Returns(After(run[..n]), run[n])
  {
    hide Returns, After;
    var n := |run| - 1;
    assert forall k :: 0 <= k < n ==> run[..n][..k] == run[..k] && Returns(After(run[..k]), run[k]);
  }

  lemma StartLinked()
    ensures Inv(Start()) && Linked(Start())
  {
  }

  // After any run no room of a handle is without listeners, and no client has two listeners for a
  // handle. If all calls of the run returned, exactly the handles with a listener have one at the
  // client.
  lemma {:induction false} RunKeepsListeners(run: seq<Call>)
    ensures Inv(After(run))
    ensures Completed(run) ==> Linked(After(run))
  {
    hide Inv, Linked, Next, Returns, Completed, Start;
    if run == [] {
      StartLinked();
    } else {
      var n := |run| - 1;
      RunKeepsListeners(run[..n]);
      NextKeepsInv(After(run[..n]), run[n]);
      if Completed(run) {
        CompletedEarlier(run);
      }
    }
  }

  // ---------- which listeners are registered ----------

  // One flat list of names per room: the first registration of a name wins, until it is unregistered.
  function Registered(run: seq<Call>, h: HandleId, room: string): RoomListeners {
    if run == [] then NoMap()
    else
      var before := Registered(run[..|run| - 1], h, room);
      var c := run[|run| - 1];
      if c.handle != h || c.room != room then before
      else if c.Register? then SetIfAbsent(before, c.name, c.listener)
      else before.Delete(c.name)
  }

  lemma EmptyIsNoMap(m: RoomListeners)
    requires m.Valid() && m.keys == []
    ensures m == NoMap()
  {
    assert forall k :: k in m.at ==> k in m.keys;
    assert m.at == map[];
  }

  lemma NextListeners(s: State, c: Call, h: HandleId, room: string)
    requires Inv(s)
    ensures ListenersOf(Next(s, c), h, room) ==
            if c.handle != h || c.room != room then ListenersOf(s, h, room)
            else if c.Register? then SetIfAbsent(ListenersOf(s, h, room), c.name, c.listener)
            else ListenersOf(s, h, room).Delete(c.name)
  {
    if c.Unregister? && c.name in ListenersOf(s, c.handle, c.room).at {
      var m := ListenersOf(s, c.handle, c.room);
      DeleteValid(m, c.name);
      if m.Delete(c.name).keys == [] {
        EmptyIsNoMap(m.Delete(c.name));
      }
      var rooms := RoomsWithout(s.listeners.at[c.handle], c.room, c.name);
      RoomsWithoutValid(s.listeners.at[c.handle], c.room, c.name);
      assert rooms.keys == [] ==> forall r :: r !in rooms.at;
    }
  }

  // The nested maps hold the same listeners, in the same order, as the flat lists, after every run.
  lemma {:induction false} RunRegisters(run: seq<Call>, h: HandleId, room: string)
    ensures ListenersOf(After(run), h, room) == Registered(run, h, room)
  {
    if run != [] {
      var n := |run| - 1;
      RunRegisters(run[..n], h, room);
      RunKeepsListeners(run[..n]);
      NextListeners(After(run[..n]), run[n], h, room);
    }
  }

  predicate Names(c: Call, h: HandleId, room: string, name: string) {
    c.handle == h && c.room == room && c.name == name
  }

  // Call `i` registers the name, it was free then, and it was not unregistered since.
  ghost predicate Live(run: seq<Call>, h: HandleId, room: string, name: string, i: nat) {
    && i < |run| && run[i].Register? && Names(run[i], h, room, name)
    && (forall k :: i < k < |run| && run[k].Unregister? ==> !Names(run[k], h, room, name))
    && (forall j :: 0 <= j < i && run[j].Register? && Names(run[j], h, room, name) ==> Freed(run, h, room, name, j, i))
  }

  ghost predicate Freed(run: seq<Call>, h: HandleId, room: string, name: string, from: nat, to: nat) {
    exists k :: from < k < to <= |run| && run[k].Unregister? && Names(run[k], h, room, name)
  }

  // The call that each registered name comes from.
  ghost function Since(run: seq<Call>, h: HandleId, room: string): map<string, nat> {
    if run == [] then map[]
    else
      var n := |run| - 1;
      var before := Since(run[..n], h, room);
      var c := run[n];
      if c.handle != h || c.room != room then before
      else if c.Register? then if c.name in before then before else before[c.name := n]
      else before - {c.name}
  }

  ghost predicate Increasing(keys: seq<string>, at: map<string, nat>) {
    && (forall k :: k in keys <==> k in at)
    && (forall a, b :: 0 <= a < b < |keys| ==> at[keys[a]] < at[keys[b]])
  }

  lemma {:induction false} ExceptIncreasing(keys: seq<string>, at: map<string, nat>, name: string)
    requires forall k :: k in keys ==> k in at
    requires forall a, b :: 0 <= a < b < |keys| ==> at[keys[a]] < at[keys[b]]
    ensures forall k :: k in Without(keys, name) <==> k in keys && k != name
    ensures var left := Without(keys, name);
            forall a, b :: 0 <= a < b < |left| ==> at[left[a]] < at[left[b]]
  {
    InExcept(keys, {name});
    if keys != [] {
      var n := |keys| - 1;
      ExceptIncreasing(keys[..n], at, name);
      InExcept(keys[..n], {name});
      var before := Without(keys[..n], name);
      assert forall k :: k in before ==> k in keys[..n];
      assert forall a :: 0 <= a < |before| ==> before[a] in keys[..n];
    }
  }

  lemma IncreasingAdd(keys: seq<string>, at: map<string, nat>, name: string, n: nat)
    requires Increasing(keys, at) && name !in at && forall k :: k in at ==> at[k] < n
    ensures Increasing(keys + [name], at[name := n])
  {
    assert forall a :: 0 <= a < |keys| ==> keys[a] in keys;
  }

  lemma IncreasingDelete(keys: seq<string>, at: map<string, nat>, name: string)
    requires Increasing(keys, at)
    ensures Increasing(Without(keys, name), at - {name})
  {
    ExceptIncreasing(keys, at, name);
    var left := Without(keys, name);
    assert forall a :: 0 <= a < |left| ==> left[a] in left;
  }

  lemma {:induction false} SinceOrdersKeys(run: seq<Call>, h: HandleId, room: string)
    ensures Increasing(Registered(run, h, room).keys, Since(run, h, room))
    ensures forall k :: k in Since(run, h, room) ==> Since(run, h, room)[k] < |run|
  {
    if run == [] {
      assert Increasing([], map[]);
    } else {
      hide Increasing;
      var n := |run| - 1;
      var c := run[n];
      var m := Registered(run[..n], h, room);
      var since := Since(run[..n], h, room);
      SinceOrdersKeys(run[..n], h, room);
      if c.handle == h && c.room == room {
        SinceTellsListener(run[..n], h, room, c.name);
        if c.Unregister? {
          IncreasingDelete(m.keys, since, c.name);
          assert c.name !in since ==> since - {c.name} == since;
        } else if c.name !in since {
          IncreasingAdd(m.keys, since, c.name, n);
        }
      }
    }
  }

  lemma {:induction false} SinceTellsListener(run: seq<Call>, h: HandleId, room: string, name: string)
    ensures var since := Since(run, h, room);
            && (name in since <==> name in Registered(run, h, room).at)
            && (name in since ==>
                 && since[name] < |run| && run[since[name]].Register?
                 && Registered(run, h, room).at[name] == run[since[name]].listener)
  {
    if run != [] {
      SinceTellsListener(run[..|run| - 1], h, room, name);
    }
  }

  // A registration of a name that no later call undoes leaves the name registered, by that call or by
  // an earlier one.
  lemma {:induction false} SomeLive(run: seq<Call>, h: HandleId, room: string, name: string, j: nat) returns (i: nat)
    requires j < |run| && run[j].Register? && Names(run[j], h, room, name)
    requires !Freed(run, h, room, name, j, |run|)
    ensures Live(run, h, room, name, i)
  {
    if k: nat :| k < j && run[k].Register? && Names(run[k], h, room, name) && !Freed(run, h, room, name, k, j) {
      i := SomeLive(run, h, room, name, k);
    } else {
      i := j;
    }
  }

  lemma LiveEarlier(run: seq<Call>, h: HandleId, room: string, name: string, i: nat)
    requires i < |run| - 1
    ensures var n := |run| - 1;
            Live(run, h, room, name, i) <==>
            Live(run[..n], h, room, name, i) && !(run[n].Unregister? && Names(run[n], h, room, name))
  {
    var n := |run| - 1;
    forall j: nat | j < i
      ensures Freed(run, h, room, name, j, i) <==> Freed(run[..n], h, room, name, j, i)
    {
      if k :| j < k < i && run[k].Unregister? && Names(run[k], h, room, name) {
        assert run[..n][k] == run[k];
      }
    }
  }

  lemma LiveLast(run: seq<Call>, h: HandleId, room: string, name: string)
    requires run != []
    ensures var n := |run| - 1;
            Live(run, h, room, name, n) <==>
            run[n].Register? && Names(run[n], h, room, name) && forall i: nat :: !Live(run[..n], h, room, name, i)
  {
    var n := |run| - 1;
    if Live(run, h, room, name, n) {
      forall i: nat
        ensures !Live(run[..n], h, room, name, i)
      {
        if Live(run[..n], h, room, name, i) {
          assert false;
        }
      }
    }
    if j: nat :| j < n && run[j].Register? && Names(run[j], h, room, name) && !Freed(run, h, room, name, j, n) {
      assert !Freed(run[..n], h, room, name, j, n);
      var i := SomeLive(run[..n], h, room, name, j);
    }
  }

  lemma {:induction false} LiveIsSince(run: seq<Call>, h: HandleId, room: string, name: string)
    ensures forall i: nat :: Live(run, h, room, name, i) <==>
              name in Since(run, h, room) && Since(run, h, room)[name] == i
  {
    hide Live;
    if run == [] {
      assert forall i: nat :: !Live(run, h, room, name, i) by {
        NothingLive(h, room, name);
      }
    } else {
      var n := |run| - 1;
      LiveIsSince(run[..n], h, room, name);
      SinceOrdersKeys(run[..n], h, room);
      LiveLast(run, h, room, name);
      var before := Since(run[..n], h, room);
      if name in before {
        assert Live(run[..n], h, room, name, before[name]);
      }
      forall i: nat
        ensures Live(run, h, room, name, i) <==> name in Since(run, h, room) && Since(run, h, room)[name] == i
      {
        if i < n {
          LiveEarlier(run, h, room, name, i);
        } else if i > n {
          LiveInRange(run, h, room, name, i);
        }
      }
    }
  }

  lemma NothingLive(h: HandleId, room: string, name: string)
    ensures forall i: nat :: !Live([], h, room, name, i)
  {
  }

  lemma LiveInRange(run: seq<Call>, h: HandleId, room: string, name: string, i: nat)
    ensures Live(run, h, room, name, i) ==> i < |run|
  {
  }

  // Some registration of the name with this listener is live.
  ghost predicate Registers(run: seq<Call>, h: HandleId, room: string, name: string, l: Listener) {
    exists i: nat :: Live(run, h, room, name, i) && run[i].listener == l
  }

  predicate Holds(s: State, h: HandleId, room: string, name: string, l: Listener) {
    name in ListenersOf(s, h, room).at && ListenersOf(s, h, room).at[name] == l
  }

  // A name has a listener exactly when some registration of it with that listener is live: it found the
  // name free, and no later call unregistered the name.
  lemma FirstRegistrationWins(run: seq<Call>, h: HandleId, room: string, name: string, l: Listener)
    ensures Holds(After(run), h, room, name, l) <==> Registers(run, h, room, name, l)
  {
    hide Live, Registered, Since;
    RunRegisters(run, h, room);
    LiveIsSince(run, h, room, name);
    SinceTellsListener(run, h, room, name);
    if name in Since(run, h, room) {
      assert Live(run, h, room, name, Since(run, h, room)[name]);
    }
  }

  // The names of a room are kept, and so called, in the order of their live registrations.
  lemma NamesInOrder(run: seq<Call>, h: HandleId, room: string, i: nat, j: nat)
    requires i < j < |run|
    requires Live(run, h, room, run[i].name, i) && Live(run, h, room, run[j].name, j)
    ensures var keys := ListenersOf(After(run), h, room).keys;
            exists a, b :: 0 <= a < b < |keys| && keys[a] == run[i].name && keys[b] == run[j].name
  {
    hide Live, Registered, Since, ListenersOf, After;
    RunRegisters(run, h, room);
    SinceOrdersKeys(run, h, room);
    LiveIsSince(run, h, room, run[i].name);
    LiveIsSince(run, h, room, run[j].name);
    var keys := Registered(run, h, room).keys;
    assert run[i].name in keys && run[j].name in keys;
    var a :| 0 <= a < |keys| && keys[a] == run[i].name;
    var b :| 0 <= b < |keys| && keys[b] == run[j].name;
    assert a < b;
  }

  lemma {:induction false} EventCallsSpec(s: State, text: string, room: string, n: nat)
    requires Inv(s) && n <= |s.clients|
    ensures NoDup(EventCalls(s, text, room, n))
    ensures forall d :: d in EventCalls(s, text, room, n) <==>
              && d.handle in s.clients[..n] && d.handle.text == text
              && Holds(s, d.handle, room, d.name, d.listener)
  {
    if n > 0 {
      EventCallsSpec(s, text, room, n - 1);
      DispatchSpec(s, s.clients[n - 1], room);
    }
  }

  lemma DispatchSpec(s: State, h: HandleId, room: string)
    requires Inv(s)
    ensures NoDup(Dispatch(s, h, room))
    ensures forall d :: d in Dispatch(s, h, room) <==>
              d.handle == h && Holds(s, h, room, d.name, d.listener)
  {
    var m := ListenersOf(s, h, room);
    assert m.Valid();
    forall d: Delivery | d.handle == h && Holds(s, h, room, d.name, d.listener)
      ensures d in Dispatch(s, h, room)
    {
      assert d.name in m.keys;
      var i :| 0 <= i < |m.keys| && m.keys[i] == d.name;
      assert Dispatch(s, h, room)[i] == d;
    }
  }

  // An event of a room reaches, once each, the listeners that live registrations put there for the
  // handles with a client listener; when all calls returned, for all handles of that text.
  lemma EventReachesListeners(run: seq<Call>, text: string, room: string)
    ensures Inv(After(run))
    ensures var s := After(run);
            var calls := EventCalls(s, text, room, |s.clients|);
            && NoDup(calls)
            && (forall d :: d in calls <==>
                 && d.handle.text == text && (Completed(run) || d.handle in s.fed)
                 && Registers(run, d.handle, room, d.name, d.listener))
  {
    hide Live, EventCalls, Registers, ListenersOf, Holds, Inv, Linked, After, Completed;
    var s := After(run);
    RunKeepsListeners(run);
    EventCallsSpec(s, text, room, |s.clients|);
    assert s.clients[..|s.clients|] == s.clients;
    forall h: HandleId, name, l
      ensures Holds(s, h, room, name, l) <==> Registers(run, h, room, name, l)
      ensures Completed(run) && Holds(s, h, room, name, l) ==> h in s.fed
    {
      FirstRegistrationWins(run, h, room, name, l);
      HolderIsFed(s, h, room, name, l);
    }
    FedAttached(s);
  }

  // The call that a registration stands for.
  function DeliveryOf(c: Call): Delivery
    requires c.Register?
  {
    Delivery(c.handle, c.name, c.listener)
  }

  // Of two live registrations of a handle and room the earlier one is called first.
  lemma EventCallsInOrder(run: seq<Call>, h: HandleId, room: string, i: nat, j: nat)
    requires i < j < |run| && h in After(run).fed
    requires Live(run, h, room, run[i].name, i) && Live(run, h, room, run[j].name, j)
    ensures Inv(After(run))
    ensures var s := After(run);
            var calls := EventCalls(s, h.text, room, |s.clients|);
            exists a, b :: 0 <= a < b < |calls| && calls[a] == DeliveryOf(run[i]) && calls[b] == DeliveryOf(run[j])
  {
    var s := After(run);
    RunKeepsListeners(run);
    NamesInOrder(run, h, room, i, j);
    assert Registers(run, h, room, run[i].name, run[i].listener);
    assert Registers(run, h, room, run[j].name, run[j].listener);
    FirstRegistrationWins(run, h, room, run[i].name, run[i].listener);
    FirstRegistrationWins(run, h, room, run[j].name, run[j].listener);
    assert h in s.clients;
    hide Live, After, EventCalls, Registers;
    var keys := ListenersOf(s, h, room).keys;
    var a, b :| 0 <= a < b < |keys| && keys[a] == run[i].name && keys[b] == run[j].name;
    var at := DispatchWithin(s, h, room, |s.clients|);
    var calls := EventCalls(s, h.text, room, |s.clients|);
    assert calls[at..][..|keys|][a] == calls[at + a] && calls[at..][..|keys|][b] == calls[at + b];
  }

  // A new client listener is called after those attached before it; the others keep their order.
  lemma ClientsInOrder(s: State, c: Call)
    requires Inv(s)
    ensures var clients := Next(s, c).clients;
            if c.handle !in s.clients && c.handle in clients then clients == s.clients + [c.handle]
            else if c.handle in s.clients && c.handle !in clients then clients == Without(s.clients, c.handle)
            else clients == s.clients
  {
    hide RoomsWithout, RoomsValid;
    InExcept(s.clients, {c.handle});
  }

  // The calls of one handle follow each other.
  lemma {:induction false} DispatchWithin(s: State, h: HandleId, room: string, n: nat) returns (at: nat)
    requires Inv(s) && n <= |s.clients| && h in s.clients[..n]
    ensures var calls := EventCalls(s, h.text, room, n);
            at + |Dispatch(s, h, room)| <= |calls| && calls[at..][..|Dispatch(s, h, room)|] == Dispatch(s, h, room)
  {
    hide Inv;
    var before := EventCalls(s, h.text, room, n - 1);
    if s.clients[n - 1] == h {
      at := |before|;
    } else {
      at := DispatchWithin(s, h, room, n - 1);
    }
  }

  lemma HolderIsFed(s: State, h: HandleId, room: string, name: string, l: Listener)
    ensures Linked(s) && Holds(s, h, room, name, l) ==> h in s.fed
  {
  }

  lemma FedAttached(s: State)
    requires Inv(s)
    ensures forall h :: h in s.clients <==> h in s.fed
  {
  }

  // When the client could not be had for the last listener of a handle, its client listener stays, and
  // no later call to unregister takes it away.
  lemma LeftAttached(s: State, c: Call, later: Call)
    requires Inv(s) && Linked(s)
    requires c.Unregister? && !Returns(s, c)
    requires later.Unregister? && later.handle == c.handle
    ensures var t := Next(s, c); c.handle in t.fed && Returns(t, later) && Next(t, later) == t
  {
    RoomsWithoutValid(s.listeners.at[c.handle], c.room, c.name);
  }

  // One registration, then an unregistration that cannot get the client, then one that could: nobody
  // listens, and the client listener is still attached.
  lemma AttachedForNothing()
    ensures var h := HandleId(1, "h");
            var a := Register(h, "r", "n", 7, true);
            var (b, c) := (Unregister(h, "r", "n", false), Unregister(h, "r", "n", true));
            var s := After([a, b, c]);
            s.clients == [h] && forall room :: ListenersOf(s, h, room) == NoMap()
  {
    var h := HandleId(1, "h");
    var a := Register(h, "r", "n", 7, true);
    var (b, c) := (Unregister(h, "r", "n", false), Unregister(h, "r", "n", true));
    var run := [a, b, c];
    assert run[..2] == [a, b] && [a, b][..1] == [a] && [a][..0] == [];
    var s1 := Next(Start(), a);
    assert s1.clients == [h] && h in s1.fed;
    RunKeepsListeners([a]);
    RunKeepsListeners([a, b]);
    forall room
      ensures ListenersOf(After(run), h, room) == NoMap()
    {
      RunRegisters(run, h, room);
      assert Registered([a], h, "r").Delete("n") == NoMap() by {
        assert Without(["n"], "n") == [];
      }
    }
  }
}
