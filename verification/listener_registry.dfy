/** The help-desk service wrapper: at most one client, created on first
    initialisation, and a registry from event names to callbacks that
    `on`, `off`, `emit` and `close` maintain. Callbacks are opaque tokens
    compared by identity; the client and its network are represented only
    by whether one exists. */
module ListenerRegistry {
  import opened Base

  /** An opaque callback, compared by identity. */
  datatype Callback = Callback(token: nat)

  /** The client, known only by the configuration it was created from. */
  datatype Client = Client(projectId: string)

  /** The service: the client, if any, and the listeners per event. */
  datatype Service = Service(client: Option<Client>, listeners: map<string, seq<Callback>>)

  /** What initialisation hands back. */
  datatype Initialized = Existing(existing: Client) | Created(created: Client)

  /** A call forwarded to the client. */
  datatype ClientCall = SendMessage(payload: string) | GetConversations | GetConversationById(id: string)

  /** The result of a forwarded call: passed to the client, or thrown. */
  datatype CallResult = Forwarded(to: Client, call: ClientCall) | Thrown(message: string)

  const NotInitialized := "Tiledesk client not initialized."

  /** The service as constructed: no client, no listeners. */
  function NewService(): (s: Service)
    ensures s.client.None? && |s.listeners| == 0
  {
    Service(None, map[])
  }

  /** The callbacks registered for an event, none when the event is unknown. */
  function ListenersOf(s: Service, event: string): seq<Callback> {
    if event in s.listeners then s.listeners[event] else []
  }

  /** Initialisation: an existing client is handed back and nothing else
      happens; otherwise a client is created from the configuration and
      kept, whether or not it later authenticates. */
  function Initialize(s: Service, projectId: string): (r: (Service, Initialized))
    ensures s.client.Some? ==> r == (s, Existing(s.client.value))
    ensures s.client.None? ==>
      r == (s.(client := Some(Client(projectId))), Created(Client(projectId)))
  {
    match s.client
    case Some(c) => (s, Existing(c))
    case None => (s.(client := Some(Client(projectId))), Created(Client(projectId)))
  }

  /** Initialising twice creates one client: the second call hands back the
      first call's client, whatever configuration it is given. */
  lemma InitializeOnce(s: Service, first: string, second: string)
    ensures var (once, made) := Initialize(s, first);
            var (twice, again) := Initialize(once, second);
            && twice == once
            && again.Existing?
            && again.existing == (if made.Created? then made.created else made.existing)
  {
  }

  /** `on`: the callback goes at the end of the event's list, which is
      started when absent. The same callback may be registered twice. */
  function On(s: Service, event: string, cb: Callback): (t: Service)
    ensures t.client == s.client
    ensures t.listeners.Keys == s.listeners.Keys + {event}
    ensures t.listeners[event] == ListenersOf(s, event) + [cb]
    ensures forall e :: e in s.listeners && e != event ==> t.listeners[e] == s.listeners[e]
  {
    s.(listeners := s.listeners[event := ListenersOf(s, event) + [cb]])
  }

  /** `off`: every registration of the callback under the event goes,
      the rest stay in order; an unknown event is left unknown, and a known
      one keeps its entry even when its list empties. */
  function Off(s: Service, event: string, cb: Callback): (t: Service)
    ensures t.client == s.client && t.listeners.Keys == s.listeners.Keys
    ensures event !in s.listeners ==> t == s
    ensures forall e :: e in s.listeners && e != event ==> t.listeners[e] == s.listeners[e]
    ensures cb !in ListenersOf(t, event)
    ensures IsSubsequence(ListenersOf(t, event), ListenersOf(s, event))
    ensures forall c :: c != cb ==> multiset(ListenersOf(t, event))[c] == multiset(ListenersOf(s, event))[c]
  {
    if event in s.listeners then
      FilterIsSubsequence(s.listeners[event], (c: Callback) => c != cb);
      FilterCounts(s.listeners[event], (c: Callback) => c != cb);
      s.(listeners := s.listeners[event := Filter(s.listeners[event], (c: Callback) => c != cb)])
    else s
  }

  /** `emit`: the callbacks invoked, in registration order, once per
      registration; none for an unknown event. */
  function Emit(s: Service, event: string): (calls: seq<Callback>)
    ensures event !in s.listeners ==> calls == []
    ensures event in s.listeners ==> calls == s.listeners[event]
  {
    ListenersOf(s, event)
  }

  /** A forwarded call: thrown when there is no client. */
  function Invoke(s: Service, call: ClientCall): (r: CallResult)
    ensures s.client.None? <==> r.Thrown?
    ensures r.Thrown? ==> r.message == NotInitialized
    ensures r.Forwarded? ==> r.to == s.client.value && r.call == call
  {
    match s.client
    case None => Thrown(NotInitialized)
    case Some(c) => Forwarded(c, call)
  }

  /** `close`: with a client, the client goes and every listener with it;
      without one, nothing changes and the listeners stay. */
  function Close(s: Service): (t: Service)
    ensures s.client.None? ==> t == s
    ensures s.client.Some? ==> t.client.None? && |t.listeners| == 0
  {
    if s.client.Some? then Service(None, map[]) else s
  }

  /** Registering then emitting invokes the earlier registrations and then
      the new one; other events are unaffected. */
  lemma EmitAfterOn(s: Service, event: string, cb: Callback, other: string)
    requires other != event
    ensures Emit(On(s, event, cb), event) == Emit(s, event) + [cb]
    ensures Emit(On(s, event, cb), other) == Emit(s, other)
  {
  }

  /** After `off`, emitting invokes exactly the other registrations of the
      event, each as often as before, in their old order. */
  lemma EmitAfterOff(s: Service, event: string, cb: Callback, c: Callback)
    ensures c in Emit(Off(s, event, cb), event) <==> c in Emit(s, event) && c != cb
    ensures multiset(Emit(Off(s, event, cb), event))[c] == if c != cb then multiset(Emit(s, event))[c] else 0
    ensures IsSubsequence(Emit(Off(s, event, cb), event), Emit(s, event))
  {
    if event in s.listeners {
      FilterMembership(s.listeners[event], (x: Callback) => x != cb, c);
      FilterCount(s.listeners[event], (x: Callback) => x != cb, c);
    }
  }

  /** Removing twice is removing once. */
  lemma OffIdempotent(s: Service, event: string, cb: Callback)
    ensures Off(Off(s, event, cb), event, cb) == Off(s, event, cb)
  {
    if event in s.listeners {
      FilterIdempotent(s.listeners[event], (c: Callback) => c != cb);
    }
  }

  /** Registering a callback that was not registered and then removing it
      restores what the event invokes. */
  lemma OnThenOff(s: Service, event: string, cb: Callback)
    requires cb !in ListenersOf(s, event)
    ensures Emit(Off(On(s, event, cb), event, cb), event) == Emit(s, event)
  {
    var before := ListenersOf(s, event);
    FilterKeepsAll(before, (c: Callback) => c != cb);
    FilterAppendDropped(before, cb);
  }

  /** Dropping the appended callback from a list that did not contain it. */
  lemma {:induction false} FilterAppendDropped(xs: seq<Callback>, cb: Callback)
    requires cb !in xs
    ensures Filter(xs + [cb], (c: Callback) => c != cb) == xs
    decreases |xs|
  {
    if |xs| == 0 {
      assert xs + [cb] == [cb];
    } else {
      assert (xs + [cb])[1..] == xs[1..] + [cb];
      FilterAppendDropped(xs[1..], cb);
    }
  }

  /** After a close with a client, nothing is invoked by any event and every
      forwarded call throws, until the next initialisation. */
  lemma ClosedServiceIsInert(s: Service, event: string, call: ClientCall)
    requires s.client.Some?
    ensures Emit(Close(s), event) == []
    ensures Invoke(Close(s), call) == Thrown(NotInitialized)
  {
  }

  /** A close without a client keeps the registrations. */
  lemma CloseWithoutClientKeepsListeners(s: Service, event: string)
    requires s.client.None?
    ensures Emit(Close(s), event) == Emit(s, event)
  {
  }
}
