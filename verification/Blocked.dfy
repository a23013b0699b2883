/**
 Clients blocked on keys (blocked.c).

 Two indexes say who waits for what: each client's table of keys, and each key's list of
 waiting clients.  A key that may now serve somebody is put once in the queue of ready
 keys.  Serving a client may push to another key and so make that key ready in turn.

 Operations are functions on `State`; `Server` performs them in place.
 */
module Blocked {

  import opened Options

  type Key = nat
  type ClientId = nat
  type Elem = int

  /** What a client is blocked for.  Keys of other kinds than lists are served elsewhere. */
  datatype Kind = ListKind | ZSetKind | StreamKind | ModuleKind

  datatype Where = Head | Tail

  datatype Client = Client(kind: Option<Kind>, keys: set<Key>, target: Option<Key>, from: Where, to: Where)

  /** A value other than a list may be of a type that clients can wait for. */
  datatype Value = ListValue(items: seq<Elem>) | OtherValue(kind: Option<Kind>)

  /** A served client took the element, had it moved to its target, or was told that the target is no list. */
  datatype Outcome = Taken | Moved | WrongType

  datatype Reply = Reply(client: ClientId, key: Key, elem: Elem, outcome: Outcome)

  datatype State = State(
    clients: map<ClientId, Client>,
    waiting: map<Key, seq<ClientId>>,     // db->blocking_keys
    ready: set<Key>,                      // db->ready_keys
    queue: seq<Key>,                      // server.ready_keys
    counts: map<Kind, nat>,               // blocked_clients_by_type
    db: map<Key, Value>,
    replies: seq<Reply>
  )

  // ----------------------------------------------------------------- Primitives

  function Without(s: seq<ClientId>, c: ClientId): seq<ClientId> {
    if s == [] then []
    else Without(s[..|s| - 1], c) + (if s[|s| - 1] == c then [] else [s[|s| - 1]])
  }

  predicate NoDuplicates<T(==)>(s: seq<T>) {
    forall i, j | 0 <= i < j < |s| :: s[i] != s[j]
  }

  lemma {:induction false} WithoutFacts(s: seq<ClientId>, c: ClientId)
    ensures forall x :: x in Without(s, c) <==> x in s && x != c
    ensures c !in s ==> Without(s, c) == s
    ensures NoDuplicates(s) ==> NoDuplicates(Without(s, c))
    decreases |s|
  {
    if s != [] {
      var t, last := s[..|s| - 1], s[|s| - 1];
      WithoutFacts(t, c);
      assert s == t + [last];
      forall x ensures x in Without(s, c) <==> x in s && x != c {
        assert x in s <==> x in t || x == last;
        assert x in Without(s, c) <==> x in Without(t, c) || (last != c && x == last);
      }
      if NoDuplicates(s) {
        assert NoDuplicates(t) by { assert forall i | 0 <= i < |t| :: t[i] == s[i]; }
        assert last !in t;
        assert last !in Without(t, c);
        var w := Without(t, c);
        assert NoDuplicates(w + [last]);
      }
    }
  }

  lemma WithoutFirst(s: seq<ClientId>)
    requires s != [] && NoDuplicates(s)
    ensures Without(s, s[0]) == s[1..]
  {
    WithoutPrefix(s, |s|);
    assert s[..|s|] == s;
  }

  lemma {:induction false} WithoutPrefix(s: seq<ClientId>, n: nat)
    requires s != [] && NoDuplicates(s) && 1 <= n <= |s|
    ensures Without(s[..n], s[0]) == s[1..n]
    decreases n
  {
    if n == 1 {
      assert s[..1] == [s[0]] && s[..1][..0] == [];
    } else {
      WithoutPrefix(s, n - 1);
      assert s[..n][..n - 1] == s[..n - 1];
      assert s[1..n] == s[1..n - 1] + [s[n - 1]];
    }
  }

  function KeySet(keys: seq<Key>): set<Key> { set k | k in keys }

  function OfKind(clients: map<ClientId, Client>, t: Kind): set<ClientId> {
    set c | c in clients && clients[c].kind == Some(t)
  }

  function BlockedClients(clients: map<ClientId, Client>): set<ClientId> {
    set c | c in clients && clients[c].kind.Some?
  }

  /** How many clients are blocked on keys. */
  function Blocked(st: State): nat { |BlockedClients(st.clients)| }

  function CountOf(st: State, t: Kind): nat { if t in st.counts then st.counts[t] else 0 }

  // ----------------------------------------------------------------- Operations

  /** Puts the key in the queue if somebody may be waiting for it and it is not there yet. */
  function Signal(st: State, k: Key, t: Kind): State {
    if CountOf(st, t) == 0 && CountOf(st, ModuleKind) == 0 then st
    else if k !in st.waiting || k in st.ready then st
    else st.(queue := st.queue + [k], ready := st.ready + {k})
  }

  function BlockOnKey(st: State, c: ClientId, k: Key): State
    requires c in st.clients
  {
    if k in st.clients[c].keys then st
    else
      st.(clients := st.clients[c := st.clients[c].(keys := st.clients[c].keys + {k})],
          waiting := st.waiting[k := (if k in st.waiting then st.waiting[k] else []) + [c]])
  }

  function BlockOnKeys(st: State, c: ClientId, keys: seq<Key>): (r: State)
    requires c in st.clients
    ensures c in r.clients
  {
    if keys == [] then st else BlockOnKey(BlockOnKeys(st, c, keys[..|keys| - 1]), c, keys[|keys| - 1])
  }

  function Aimed(st: State, c: ClientId, target: Option<Key>, from: Where, to: Where): State
    requires c in st.clients
  {
    st.(clients := st.clients[c := st.clients[c].(target := target, from := from, to := to)])
  }

  function BlockForKeys(st: State, c: ClientId, t: Kind, keys: seq<Key>, target: Option<Key>, from: Where, to: Where)
    : State
    requires c in st.clients
  {
    var s1 := BlockOnKeys(Aimed(st, c, target, from, to), c, keys);
    s1.(clients := s1.clients[c := s1.clients[c].(kind := Some(t))], counts := s1.counts[t := CountOf(s1, t) + 1])
  }

  /** Takes the client off every list, and lists that become empty out of the index. */
  function RemoveFromAll(waiting: map<Key, seq<ClientId>>, c: ClientId): map<Key, seq<ClientId>> {
    map k | k in waiting && Without(waiting[k], c) != [] :: Without(waiting[k], c)
  }

  function UnblockClient(st: State, c: ClientId): State
    requires c in st.clients && st.clients[c].kind.Some?
  {
    var t := st.clients[c].kind.value;
    st.(clients := st.clients[c := st.clients[c].(kind := None, keys := {}, target := None)],
        waiting := RemoveFromAll(st.waiting, c),
        counts := st.counts[t := if CountOf(st, t) > 0 then CountOf(st, t) - 1 else 0])
  }

  // --------------------------------------------------------------------- Lists

  function Rest(l: seq<Elem>, w: Where): seq<Elem>
    requires l != []
  { if w == Head then l[1..] else l[..|l| - 1] }

  function Popped(l: seq<Elem>, w: Where): Elem
    requires l != []
  { if w == Head then l[0] else l[|l| - 1] }

  function Push(l: seq<Elem>, v: Elem, w: Where): seq<Elem> {
    if w == Head then [v] + l else l + [v]
  }

  predicate IsList(st: State, k: Key) { k in st.db && st.db[k].ListValue? }

  predicate IsListClient(st: State, c: ClientId) {
    c in st.clients && st.clients[c].kind == Some(ListKind)
  }

  predicate HasItems(st: State, k: Key) { IsList(st, k) && st.db[k].items != [] }

  function SetList(st: State, k: Key, l: seq<Elem>): State {
    st.(db := st.db[k := ListValue(l)])
  }

  /** A push to a list, created and signalled if it was not there. */
  function PushTo(st: State, k: Key, v: Elem, w: Where): State
    requires k in st.db ==> st.db[k].ListValue?
  {
    if k in st.db then SetList(st, k, Push(st.db[k].items, v, w))
    else
      var s1 := Signal(SetList(st, k, []), k, ListKind);
      SetList(s1, k, Push([], v, w))
  }

  /** Takes the head or tail of the list at `k` for client `c`, and puts it where the client wants it. */
  function MoveElement(st: State, k: Key, c: ClientId): State
    requires HasItems(st, k) && IsListClient(st, c)
  {
    var cl, l := st.clients[c], st.db[k].items;
    var v := Popped(l, cl.from);
    var s1 := SetList(st, k, Rest(l, cl.from));
    if cl.target.None? then s1
    else if cl.target.value in s1.db && s1.db[cl.target.value].OtherValue?
    then SetList(s1, k, Push(s1.db[k].items, v, cl.from))
    else PushTo(s1, cl.target.value, v, cl.to)
  }

  function ReplyTo(st: State, k: Key, c: ClientId): Reply
    requires HasItems(st, k) && IsListClient(st, c)
  {
    var cl := st.clients[c];
    Reply(c, k, Popped(st.db[k].items, cl.from),
          if cl.target.None? then Taken
          else if cl.target.value in st.db && st.db[cl.target.value].OtherValue? then WrongType
          else Moved)
  }

  function ServeClient(st: State, k: Key, c: ClientId): State
    requires HasItems(st, k) && IsListClient(st, c)
  {
    UnblockClient(MoveElement(st, k, c).(replies := st.replies + [ReplyTo(st, k, c)]), c)
  }

  function Rotate(st: State, k: Key): State
    requires k in st.waiting && st.waiting[k] != []
  {
    st.(waiting := st.waiting[k := st.waiting[k][1..] + [st.waiting[k][0]]])
  }

  function Waiters(st: State, k: Key): seq<ClientId> {
    if k in st.waiting then st.waiting[k] else []
  }

  // ------------------------------------------------------------------ Invariants

  /** A client is once in the list of each of its keys, and in no other list; no list is empty. */
  predicate Linked(st: State) {
    (forall k | k in st.waiting :: st.waiting[k] != [] && NoDuplicates(st.waiting[k])) &&
    (forall k, c | k in st.waiting && c in st.waiting[k] :: c in st.clients && k in st.clients[c].keys) &&
    (forall c, k | c in st.clients && k in st.clients[c].keys :: k in st.waiting && c in st.waiting[k])
  }

  /** Also, exactly the blocked clients have keys. */
  predicate IndexOk(st: State) {
    Linked(st) && forall c | c in st.clients :: st.clients[c].keys != {} <==> st.clients[c].kind.Some?
  }

  predicate CountsOk(st: State) {
    forall t: Kind :: CountOf(st, t) == |OfKind(st.clients, t)|
  }

  /** The ready keys are those queued, or in the batch being handled, each once. */
  predicate ReadyOk(st: State, batch: seq<Key>) {
    NoDuplicates(batch + st.queue) && st.ready == KeySet(batch + st.queue)
  }

  predicate ListWaits(st: State, k: Key) {
    exists c :: c in Waiters(st, k) && IsListClient(st, c)
  }

  /** Empty lists are deleted. */
  predicate NoEmptyListBut(st: State, serving: Option<Key>) {
    forall k | k in st.db && st.db[k].ListValue? && Some(k) != serving :: st.db[k].items != []
  }

  /** A list with elements for which a client waits is in the queue. */
  predicate WokenBut(st: State, serving: Option<Key>) {
    forall k | k in st.db && Some(k) != serving && HasItems(st, k) && ListWaits(st, k) :: k in st.ready
  }

  /** What holds in every state: of all of them while key `serving` is looked after, with `batch` still to do. */
  predicate Inv(st: State, batch: seq<Key>, serving: Option<Key>) {
    IndexOk(st) && CountsOk(st) && ReadyOk(st, batch) && NoEmptyListBut(st, serving)
  }

  // -------------------------------------------------------- Blocking and unblocking

  lemma CardinalityChange<T>(a: set<T>, b: set<T>, c: T)
    requires a - {c} == b - {c}
    ensures |b| + (if c in a then 1 else 0) == |a| + (if c in b then 1 else 0)
  {
    assert a == (a - {c}) + (if c in a then {c} else {});
    assert b == (b - {c}) + (if c in b then {c} else {});
  }

  lemma CountChange(clients: map<ClientId, Client>, c: ClientId, cl: Client, t: Kind)
    requires c in clients
    ensures |OfKind(clients[c := cl], t)| + (if clients[c].kind == Some(t) then 1 else 0)
         == |OfKind(clients, t)| + (if cl.kind == Some(t) then 1 else 0)
  {
    CardinalityChange(OfKind(clients, t), OfKind(clients[c := cl], t), c);
  }

  lemma BlockedChange(clients: map<ClientId, Client>, c: ClientId, cl: Client)
    requires c in clients
    ensures |BlockedClients(clients[c := cl])| + (if clients[c].kind.Some? then 1 else 0)
         == |BlockedClients(clients)| + (if cl.kind.Some? then 1 else 0)
  {
    CardinalityChange(BlockedClients(clients), BlockedClients(clients[c := cl]), c);
  }

  lemma UnblockFacts(st: State, c: ClientId)
    requires IndexOk(st) && c in st.clients && st.clients[c].kind.Some?
    ensures var s1 := UnblockClient(st, c);
            forall k :: Waiters(s1, k) == Without(Waiters(st, k), c)
  {
  }

  lemma UnblockIndex(st: State, c: ClientId)
    requires IndexOk(st) && c in st.clients && st.clients[c].kind.Some?
    ensures IndexOk(UnblockClient(st, c))
  {
    forall k | k in st.waiting { WithoutFacts(st.waiting[k], c); }
  }

  lemma UnblockCounts(st: State, c: ClientId)
    requires CountsOk(st) && c in st.clients && st.clients[c].kind.Some?
    ensures CountsOk(UnblockClient(st, c))
    ensures Blocked(UnblockClient(st, c)) == Blocked(st) - 1
  {
    var s1 := UnblockClient(st, c);
    forall t: Kind ensures CountOf(s1, t) == |OfKind(s1.clients, t)| {
      CountChange(st.clients, c, s1.clients[c], t);
    }
    BlockedChange(st.clients, c, s1.clients[c]);
  }

  lemma BlockOnKeyLinked(st: State, c: ClientId, k: Key)
    requires Linked(st) && c in st.clients
    ensures Linked(BlockOnKey(st, c, k))
  {
  }

  function WithKeys(clients: map<ClientId, Client>, c: ClientId, keys: set<Key>): map<ClientId, Client>
    requires c in clients
  {
    clients[c := clients[c].(keys := keys)]
  }

  lemma BlockOnKeyFacts(st: State, c: ClientId, k: Key)
    requires c in st.clients
    ensures var r := BlockOnKey(st, c, k);
            r == st.(clients := r.clients, waiting := r.waiting) &&
            r.clients == WithKeys(st.clients, c, st.clients[c].keys + {k}) &&
            forall j :: Waiters(r, j) == Waiters(st, j) + (if j == k && k !in st.clients[c].keys then [c] else [])
  {
    if k in st.clients[c].keys {
      assert st.clients[c].keys + {k} == st.clients[c].keys;
    }
  }

  lemma {:induction false} BlockOnKeysLinked(st: State, c: ClientId, keys: seq<Key>)
    requires Linked(st) && c in st.clients
    ensures Linked(BlockOnKeys(st, c, keys))
    decreases |keys|
  {
    hide Linked, BlockOnKey;
    if keys != [] {
      BlockOnKeysLinked(st, c, keys[..|keys| - 1]);
      BlockOnKeyLinked(BlockOnKeys(st, c, keys[..|keys| - 1]), c, keys[|keys| - 1]);
    }
  }

  /** A key given twice is taken once. */
  lemma {:induction false} BlockOnKeysClients(st: State, c: ClientId, keys: seq<Key>)
    requires c in st.clients
    ensures var r := BlockOnKeys(st, c, keys);
            r == st.(clients := r.clients, waiting := r.waiting) &&
            r.clients == WithKeys(st.clients, c, st.clients[c].keys + KeySet(keys))
    decreases |keys|
  {
    if keys == [] {
      assert st.clients[c].keys + KeySet(keys) == st.clients[c].keys;
    } else {
      var init, last := keys[..|keys| - 1], keys[|keys| - 1];
      BlockOnKeysClients(st, c, init);
      BlockOnKeyFacts(BlockOnKeys(st, c, init), c, last);
      assert keys == init + [last];
      assert st.clients[c].keys + KeySet(keys) == st.clients[c].keys + KeySet(init) + {last};
      hide BlockOnKey, KeySet, Waiters;
    }
  }

  lemma {:induction false} BlockOnKeysWaiters(st: State, c: ClientId, keys: seq<Key>, k: Key)
    requires c in st.clients
    ensures Waiters(BlockOnKeys(st, c, keys), k)
         == Waiters(st, k) + (if k in keys && k !in st.clients[c].keys then [c] else [])
    decreases |keys|
  {
    if keys != [] {
      var init, last := keys[..|keys| - 1], keys[|keys| - 1];
      BlockOnKeysWaiters(st, c, init, k);
      BlockOnKeysClients(st, c, init);
      BlockOnKeyFacts(BlockOnKeys(st, c, init), c, last);
      assert k in keys <==> k in init || k == last;
      assert k in KeySet(init) <==> k in init;
      hide BlockOnKey, KeySet, Waiters;
    }
  }

  lemma BlockResult(st: State, c: ClientId, t: Kind, keys: seq<Key>, target: Option<Key>, from: Where, to: Where)
    requires c in st.clients && st.clients[c].keys == {}
    ensures var r := BlockForKeys(st, c, t, keys, target, from, to);
            r == st.(clients := r.clients, waiting := r.waiting, counts := r.counts) &&
            r.clients == st.clients[c := Client(Some(t), KeySet(keys), target, from, to)] &&
            r.counts == st.counts[t := CountOf(st, t) + 1]
  {
    BlockOnKeysClients(Aimed(st, c, target, from, to), c, keys);
    assert st.clients[c].keys + KeySet(keys) == KeySet(keys);
    hide KeySet, BlockOnKeys;
  }

  /** A client goes last in line for each of its keys. */
  lemma BlockWaiters(st: State, c: ClientId, t: Kind, keys: seq<Key>, target: Option<Key>, from: Where, to: Where,
                     k: Key)
    requires c in st.clients && st.clients[c].keys == {}
    ensures Waiters(BlockForKeys(st, c, t, keys, target, from, to), k)
         == Waiters(st, k) + (if k in keys then [c] else [])
  {
    BlockOnKeysWaiters(Aimed(st, c, target, from, to), c, keys, k);
    hide BlockOnKeys;
  }

  /** Blocking keeps the indexes and the counters. */
  lemma BlockKeeps(st: State, c: ClientId, t: Kind, keys: seq<Key>, target: Option<Key>, from: Where, to: Where)
    requires IndexOk(st) && CountsOk(st) && c in st.clients && st.clients[c].kind.None? && keys != []
    ensures IndexOk(BlockForKeys(st, c, t, keys, target, from, to))
    ensures CountsOk(BlockForKeys(st, c, t, keys, target, from, to))
  {
    var s0, r := Aimed(st, c, target, from, to), BlockForKeys(st, c, t, keys, target, from, to);
    assert Linked(s0);
    BlockOnKeysLinked(s0, c, keys);
    BlockResult(st, c, t, keys, target, from, to);
    assert keys[0] in KeySet(keys);
    hide BlockOnKeys, KeySet;
    KindKept(BlockOnKeys(s0, c, keys), r, c, Some(t));
    BlockCounts(st, r, c, t);
    hide Linked, CountsOk;
  }

  lemma BlockCounts(st: State, r: State, c: ClientId, t: Kind)
    requires CountsOk(st) && c in st.clients && st.clients[c].kind.None? && c in r.clients
    requires r.clients == st.clients[c := r.clients[c]] && r.clients[c].kind == Some(t)
    requires r.counts == st.counts[t := CountOf(st, t) + 1]
    ensures CountsOk(r)
  {
    forall u: Kind ensures CountOf(r, u) == |OfKind(r.clients, u)| {
      CountChange(st.clients, c, r.clients[c], u);
    }
  }

  lemma KindKept(st: State, r: State, c: ClientId, kind: Option<Kind>)
    requires Linked(st) && c in st.clients && r.waiting == st.waiting
    requires r.clients == st.clients[c := st.clients[c].(kind := kind)]
    ensures Linked(r)
  {
  }

  // --------------------------------------------------------------------- Signals

  lemma SignalReady(st: State, k: Key, t: Kind, batch: seq<Key>)
    requires ReadyOk(st, batch)
    ensures ReadyOk(Signal(st, k, t), batch)
  {
    var s1 := Signal(st, k, t);
    if s1 != st {
      assert batch + s1.queue == (batch + st.queue) + [k];
    }
  }

  lemma CountsTell(st: State, t: Kind)
    requires CountsOk(st)
    ensures CountOf(st, t) == 0 <==> forall c | c in st.clients :: st.clients[c].kind != Some(t)
  {
    assert CountOf(st, t) == |OfKind(st.clients, t)|;
    if CountOf(st, t) != 0 {
      var c :| c in OfKind(st.clients, t);
    } else {
      assert OfKind(st.clients, t) == {};
      forall c | c in st.clients ensures st.clients[c].kind != Some(t) { assert c !in OfKind(st.clients, t); }
    }
  }

  /** A signal queues the key exactly if somebody waits for it, it is not queued already, and some client
      anywhere waits for values of its type or of a module's. */
  lemma SignalExactly(st: State, k: Key, t: Kind)
    requires CountsOk(st)
    ensures var wakes := k in st.waiting && k !in st.ready &&
                         exists c :: c in st.clients && st.clients[c].kind in {Some(t), Some(ModuleKind)};
            Signal(st, k, t) == if wakes then st.(queue := st.queue + [k], ready := st.ready + {k}) else st
  {
    hide CountsOk, CountOf;
    CountsTell(st, t);
    CountsTell(st, ModuleKind);
  }

  /** A signal for lists cannot be skipped while a list client waits for the key. */
  lemma SignalWakes(st: State, k: Key)
    requires CountsOk(st) && ListWaits(st, k)
    ensures k in Signal(st, k, ListKind).ready
  {
    var c :| c in Waiters(st, k) && IsListClient(st, c);
    assert c in OfKind(st.clients, ListKind);
    assert k in st.waiting;
    assert CountOf(st, ListKind) == |OfKind(st.clients, ListKind)|;
  }

  /** A signal changes the queue only. */
  lemma SignalFrame(st: State, k: Key, t: Kind)
    ensures var r := Signal(st, k, t);
            r == st.(queue := r.queue, ready := r.ready) && st.ready <= r.ready <= st.ready + {k}
  {
  }

  // --------------------------------------------------------------- Serving one client

  lemma MoveFrame(st: State, k: Key, c: ClientId)
    requires HasItems(st, k) && IsListClient(st, c)
    ensures var r := MoveElement(st, k, c);
            r == st.(db := r.db, queue := r.queue, ready := r.ready) && IsList(r, k) && st.ready <= r.ready
  {
  }

  lemma MoveReady(st: State, k: Key, c: ClientId, batch: seq<Key>)
    requires HasItems(st, k) && IsListClient(st, c) && ReadyOk(st, batch)
    ensures ReadyOk(MoveElement(st, k, c), batch)
  {
    var cl := st.clients[c];
    if cl.target.Some? && cl.target.value !in st.db {
      var d := cl.target.value;
      var s1 := SetList(SetList(st, k, Rest(st.db[k].items, cl.from)), d, []);
      SignalReady(s1, d, ListKind, batch);
    }
  }

  lemma MoveDb(st: State, k: Key, c: ClientId, serving: Option<Key>)
    requires HasItems(st, k) && IsListClient(st, c) && serving == Some(k) && NoEmptyListBut(st, serving)
    ensures NoEmptyListBut(MoveElement(st, k, c), serving)
  {
  }

  /** A key that got its first element now is signalled if a list client waits for it. */
  lemma MoveWakes(st: State, k: Key, c: ClientId, serving: Option<Key>)
    requires HasItems(st, k) && IsListClient(st, c) && serving == Some(k)
    requires CountsOk(st) && NoEmptyListBut(st, serving) && WokenBut(st, serving)
    ensures WokenBut(MoveElement(st, k, c), serving)
  {
    var r := MoveElement(st, k, c);
    MoveFrame(st, k, c);
    forall j | j in r.db && j != k && HasItems(r, j) && ListWaits(r, j) ensures j in r.ready {
      assert ListWaits(st, j) by {
        var x :| x in Waiters(r, j) && IsListClient(r, x);
        assert x in Waiters(st, j) && IsListClient(st, x);
      }
      if j !in st.db {
        var s1 := SetList(SetList(st, k, Rest(st.db[k].items, st.clients[c].from)), j, []);
        assert ListWaits(s1, j) by {
          var x :| x in Waiters(st, j) && IsListClient(st, x);
          assert x in Waiters(s1, j) && IsListClient(s1, x);
        }
        SignalWakes(s1, j);
      }
    }
  }

  lemma UnblockWoken(st: State, c: ClientId, serving: Option<Key>)
    requires IndexOk(st) && c in st.clients && st.clients[c].kind.Some? && WokenBut(st, serving)
    ensures WokenBut(UnblockClient(st, c), serving)
  {
    var r := UnblockClient(st, c);
    UnblockFacts(st, c);
    forall j | j in r.db && Some(j) != serving && HasItems(r, j) && ListWaits(r, j) ensures j in r.ready {
      var x :| x in Waiters(r, j) && IsListClient(r, x);
      WithoutFacts(Waiters(st, j), c);
      assert x in Waiters(st, j) && IsListClient(st, x);
    }
  }

  lemma ServeKeeps(st: State, k: Key, c: ClientId, batch: seq<Key>)
    requires Inv(st, batch, Some(k)) && HasItems(st, k) && IsListClient(st, c)
    ensures Inv(ServeClient(st, k, c), batch, Some(k)) && IsList(ServeClient(st, k, c), k)
    ensures WokenBut(st, Some(k)) ==> WokenBut(ServeClient(st, k, c), Some(k))
    ensures Blocked(ServeClient(st, k, c)) == Blocked(st) - 1
    ensures forall j :: Waiters(ServeClient(st, k, c), j) == Without(Waiters(st, j), c)
  {
    hide MoveElement, UnblockClient, WokenBut, CountsOk, IndexOk, NoEmptyListBut, ReadyOk, Blocked, ReplyTo, Waiters;
    var m := MoveElement(st, k, c);
    MoveFrame(st, k, c);
    MoveReady(st, k, c, batch);
    MoveDb(st, k, c, Some(k));
    if WokenBut(st, Some(k)) { MoveWakes(st, k, c, Some(k)); }
    var n := m.(replies := st.replies + [ReplyTo(st, k, c)]);
    SameKept(st, m, n, batch, Some(k));
    UnblockIndex(n, c);
    UnblockCounts(n, c);
    UnblockFacts(n, c);
    if WokenBut(st, Some(k)) { UnblockWoken(n, c, Some(k)); }
    UnblockFrame(n, c);
    RestKept(n, UnblockClient(n, c), batch, Some(k));
  }

  lemma UnblockFrame(st: State, c: ClientId)
    requires c in st.clients && st.clients[c].kind.Some?
    ensures var r := UnblockClient(st, c);
            r == st.(clients := r.clients, waiting := r.waiting, counts := r.counts)
  {
  }

  lemma SameWaits(a: State, b: State)
    requires b.clients == a.clients && b.waiting == a.waiting
    ensures forall k :: ListWaits(a, k) == ListWaits(b, k)
  {
    forall k ensures ListWaits(a, k) == ListWaits(b, k) {
      assert Waiters(a, k) == Waiters(b, k);
      assert forall c :: IsListClient(a, c) == IsListClient(b, c);
    }
  }

  /** Replies are told apart from the rest of the state. */
  lemma SameKept(st: State, m: State, n: State, batch: seq<Key>, serving: Option<Key>)
    requires m == st.(db := m.db, queue := m.queue, ready := m.ready) && n == m.(replies := n.replies)
    requires IndexOk(st) && CountsOk(st) && ReadyOk(m, batch) && NoEmptyListBut(m, serving)
    ensures IndexOk(n) && CountsOk(n) && ReadyOk(n, batch) && NoEmptyListBut(n, serving)
    ensures WokenBut(m, serving) ==> WokenBut(n, serving)
    ensures Blocked(n) == Blocked(st) && forall j :: Waiters(n, j) == Waiters(st, j)
  {
    SameWaits(m, n);
    hide ListWaits;
  }

  lemma RestKept(n: State, r: State, batch: seq<Key>, serving: Option<Key>)
    requires r == n.(clients := r.clients, waiting := r.waiting, counts := r.counts)
    requires ReadyOk(n, batch) && NoEmptyListBut(n, serving)
    ensures ReadyOk(r, batch) && NoEmptyListBut(r, serving)
    ensures forall j :: IsList(r, j) == IsList(n, j)
  {
  }

  // ------------------------------------------------------------------ Serving a key

  lemma RotateIndex(st: State, k: Key)
    requires IndexOk(st) && k in st.waiting
    ensures IndexOk(Rotate(st, k)) && Waiters(Rotate(st, k), k) == Waiters(st, k)[1..] + [Waiters(st, k)[0]]
    ensures forall j, c :: c in Waiters(Rotate(st, k), j) <==> c in Waiters(st, j)
  {
  }

  lemma RotateKeeps(st: State, k: Key, batch: seq<Key>, serving: Option<Key>)
    requires Inv(st, batch, serving) && k in st.waiting
    ensures Inv(Rotate(st, k), batch, serving) && Blocked(Rotate(st, k)) == Blocked(st)
    ensures WokenBut(st, serving) ==> WokenBut(Rotate(st, k), serving)
  {
    var r := Rotate(st, k);
    RotateIndex(st, k);
    forall j | ListWaits(r, j) ensures ListWaits(st, j) {
      var x :| x in Waiters(r, j) && IsListClient(r, x);
      assert x in Waiters(st, j) && IsListClient(st, x);
    }
    hide IndexOk, ListWaits;
  }

  lemma ServeIndex(st: State, k: Key, c: ClientId)
    requires IndexOk(st) && HasItems(st, k) && IsListClient(st, c)
    ensures IndexOk(ServeClient(st, k, c)) && IsList(ServeClient(st, k, c), k)
    ensures forall j :: Waiters(ServeClient(st, k, c), j) == Without(Waiters(st, j), c)
    ensures ServeClient(st, k, c).clients == st.clients[c := st.clients[c].(kind := None, keys := {}, target := None)]
    ensures ServeClient(st, k, c).replies == st.replies + [ReplyTo(st, k, c)]
  {
    hide MoveElement, ReplyTo, Linked, Without, RemoveFromAll, Waiters, UnblockClient;
    MoveFrame(st, k, c);
    var n := MoveElement(st, k, c).(replies := st.replies + [ReplyTo(st, k, c)]);
    SameIndex(st, n);
    SameWaiters(st, n);
    UnblockIndex(n, c);
    UnblockFacts(n, c);
    UnblockFrame(n, c);
    UnblockClients(n, c);
  }

  lemma SameWaiters(a: State, b: State)
    requires b.waiting == a.waiting
    ensures forall j :: Waiters(b, j) == Waiters(a, j)
  {
  }

  lemma UnblockClients(st: State, c: ClientId)
    requires c in st.clients && st.clients[c].kind.Some?
    ensures UnblockClient(st, c).clients == st.clients[c := st.clients[c].(kind := None, keys := {}, target := None)]
  {
  }

  lemma ServeFirst(st: State, k: Key)
    requires IndexOk(st) && HasItems(st, k) && k in st.waiting && IsListClient(st, st.waiting[k][0])
    ensures IndexOk(ServeClient(st, k, st.waiting[k][0])) && IsList(ServeClient(st, k, st.waiting[k][0]), k)
    ensures Waiters(ServeClient(st, k, st.waiting[k][0]), k) == st.waiting[k][1..]
  {
    ServeIndex(st, k, st.waiting[k][0]);
    WithoutFirst(st.waiting[k]);
    hide ServeClient, Without;
  }

  /** One look at each of the first `n` waiters: others than list clients go to the end of the line. */
  function ServeLoop(st: State, k: Key, n: nat): State
    requires IndexOk(st) && IsList(st, k) && n <= |Waiters(st, k)|
    decreases n
  {
    if n == 0 then st
    else
      var c := Waiters(st, k)[0];
      if !IsListClient(st, c) then
        RotateIndex(st, k);
        ServeLoop(Rotate(st, k), k, n - 1)
      else if st.db[k].items == [] then st
      else
        ServeFirst(st, k);
        ServeLoop(ServeClient(st, k, c), k, n - 1)
  }

  function ServeKey(st: State, k: Key): State
    requires IndexOk(st) && IsList(st, k)
  {
    var r := ServeLoop(st, k, |Waiters(st, k)|);
    ServeLoopIsList(st, k, |Waiters(st, k)|);
    if r.db[k].items == [] then r.(db := r.db - {k}) else r
  }

  lemma {:induction false} ServeLoopIsList(st: State, k: Key, n: nat)
    requires IndexOk(st) && IsList(st, k) && n <= |Waiters(st, k)|
    ensures IsList(ServeLoop(st, k, n), k)
    decreases n
  {
    hide Linked, ServeClient, Inv, Without;
    if n > 0 {
      var c := Waiters(st, k)[0];
      if !IsListClient(st, c) {
        RotateIndex(st, k);
        ServeLoopIsList(Rotate(st, k), k, n - 1);
      } else if st.db[k].items != [] {
        ServeFirst(st, k);
        ServeLoopIsList(ServeClient(st, k, c), k, n - 1);
      }
    }
  }

  /** No list client stands behind the first `n`. */
  predicate NoneBehind(st: State, k: Key, n: nat) {
    forall i | n <= i < |Waiters(st, k)| :: !IsListClient(st, Waiters(st, k)[i])
  }

  /** The loop keeps the invariant; it stops with the list empty or with no list client in line. */
  lemma {:induction false} ServeLoopKeeps(st: State, k: Key, n: nat, batch: seq<Key>)
    requires Inv(st, batch, Some(k)) && IsList(st, k) && n <= |Waiters(st, k)| && NoneBehind(st, k, n)
    ensures var r := ServeLoop(st, k, n);
            Inv(r, batch, Some(k)) && IsList(r, k) && (HasItems(r, k) ==> !ListWaits(r, k)) &&
            (WokenBut(st, Some(k)) ==> WokenBut(r, Some(k))) &&
            Blocked(r) <= Blocked(st) && (Blocked(r) == Blocked(st) ==> r.queue == st.queue)
    decreases n
  {
    hide Linked, CountsOk, ReadyOk, NoEmptyListBut, WokenBut, ServeClient, Without, Blocked;
    var w := Waiters(st, k);
    if n > 0 {
      var c := w[0];
      if !IsListClient(st, c) {
        RotateKeeps(st, k, batch, Some(k));
        RotateIndex(st, k);
        var r := Rotate(st, k);
        assert NoneBehind(r, k, n - 1);
        ServeLoopKeeps(r, k, n - 1, batch);
      } else if st.db[k].items != [] {
        ServeFirst(st, k);
        ServeKeeps(st, k, c, batch);
        var r := ServeClient(st, k, c);
        assert r.clients == st.clients[c := r.clients[c]] by { ServeIndex(st, k, c); }
        assert NoneBehind(r, k, n - 1);
        ServeLoopKeeps(r, k, n - 1, batch);
      }
    }
  }

  lemma ServeKeyKeeps(st: State, k: Key, batch: seq<Key>)
    requires Inv(st, batch, Some(k)) && IsList(st, k)
    ensures var r := ServeKey(st, k);
            Inv(r, batch, None) && (WokenBut(st, Some(k)) ==> WokenBut(r, None)) &&
            Blocked(r) <= Blocked(st) && (Blocked(r) == Blocked(st) ==> r.queue == st.queue)
  {
    hide ServeLoop, Linked, CountsOk;
    var n := |Waiters(st, k)|;
    ServeLoopKeeps(st, k, n, batch);
    ServeLoopIsList(st, k, n);
    var r := ServeLoop(st, k, n);
    var q := ServeKey(st, k);
    SameIndex(r, q);
    SameWaits(r, q);
    hide ListWaits;
  }

  lemma SameIndex(a: State, b: State)
    requires b.clients == a.clients && b.waiting == a.waiting && b.counts == a.counts
    ensures Linked(a) ==> Linked(b)
    ensures CountsOk(a) ==> CountsOk(b)
  {
  }

  // -------------------------------------------------------------- Serving ready keys

  function HandleKey(st: State, k: Key): State
    requires IndexOk(st)
  {
    var s1 := st.(ready := st.ready - {k});
    if IsList(s1, k) then ServeKey(s1, k) else s1
  }

  lemma WithoutFirstKey(k: Key, rest: seq<Key>)
    requires NoDuplicates([k] + rest)
    ensures NoDuplicates(rest) && KeySet([k] + rest) - {k} == KeySet(rest)
  {
    var s := [k] + rest;
    assert forall i | 0 <= i < |rest| :: rest[i] == s[i + 1] && s[i + 1] != s[0];
    assert k !in rest;
    forall x ensures x in KeySet(s) - {k} <==> x in KeySet(rest) {
      assert x in s <==> x == k || x in rest;
    }
  }

  lemma HandleKeyKeeps(st: State, batch: seq<Key>)
    requires Inv(st, batch, None) && batch != []
    ensures var r := HandleKey(st, batch[0]);
            Inv(r, batch[1..], None) && (WokenBut(st, None) ==> WokenBut(r, None)) &&
            Blocked(r) <= Blocked(st) && (Blocked(r) == Blocked(st) ==> r.queue == st.queue)
  {
    var k := batch[0];
    var s1 := st.(ready := st.ready - {k});
    assert batch + st.queue == [k] + (batch[1..] + st.queue);
    WithoutFirstKey(k, batch[1..] + st.queue);
    SameIndex(st, s1);
    SameWaits(st, s1);
    hide ListWaits;
    assert Inv(s1, batch[1..], Some(k)) && (WokenBut(st, None) ==> WokenBut(s1, Some(k)));
    hide ServeKey, IndexOk, CountsOk, ReadyOk;
    if IsList(s1, k) {
      ServeKeyKeeps(s1, k, batch[1..]);
    }
  }

  function HandleBatch(st: State, batch: seq<Key>): State
    requires Inv(st, batch, None)
    decreases |batch|
  {
    if batch == [] then st
    else
      HandleKeyKeeps(st, batch);
      HandleBatch(HandleKey(st, batch[0]), batch[1..])
  }

  lemma {:induction false} HandleBatchKeeps(st: State, batch: seq<Key>)
    requires Inv(st, batch, None)
    ensures var r := HandleBatch(st, batch);
            Inv(r, [], None) && (WokenBut(st, None) ==> WokenBut(r, None)) &&
            Blocked(r) <= Blocked(st) && (Blocked(r) == Blocked(st) ==> r.queue == st.queue)
    decreases |batch|
  {
    assert IndexOk(st);
    hide Inv, HandleKey, Blocked, WokenBut;
    if batch != [] {
      HandleKeyKeeps(st, batch);
      HandleBatchKeeps(HandleKey(st, batch[0]), batch[1..]);
    }
  }

  lemma TakeQueue(st: State)
    requires Inv(st, [], None)
    ensures Inv(st.(queue := []), st.queue, None) && Blocked(st.(queue := [])) == Blocked(st)
    ensures WokenBut(st, None) ==> WokenBut(st.(queue := []), None)
  {
    var s1 := st.(queue := []);
    assert [] + st.queue == st.queue + [] == st.queue;
    SameIndex(st, s1);
    SameWaits(st, s1);
    hide IndexOk, CountsOk, ListWaits;
  }

  /** Batches are handled until none is left: each serves a client or leaves the queue empty. */
  function Handle(st: State): State
    requires Inv(st, [], None)
    decreases Blocked(st), |st.queue|
  {
    if st.queue == [] then st
    else
      TakeQueue(st);
      HandleBatchKeeps(st.(queue := []), st.queue);
      Handle(HandleBatch(st.(queue := []), st.queue))
  }

  /** No wake-up is lost: afterwards no list with elements has a list client in line. */
  lemma {:induction false} HandleServesAll(st: State)
    requires Inv(st, [], None)
    ensures var r := Handle(st);
            Inv(r, [], None) && r.queue == [] && r.ready == {} &&
            (WokenBut(st, None) ==> forall k :: !(HasItems(r, k) && ListWaits(r, k)))
    decreases Blocked(st), |st.queue|
  {
    if st.queue == [] {
      assert [] + st.queue == [];
    } else {
      TakeQueue(st);
      HandleBatchKeeps(st.(queue := []), st.queue);
      hide Inv, Blocked, HandleBatch;
      HandleServesAll(HandleBatch(st.(queue := []), st.queue));
    }
  }

  // ---------------------------------------------------- What serving does to whom

  function Told(replies: seq<Reply>, c: ClientId): nat {
    if replies == [] then 0
    else Told(replies[..|replies| - 1], c) + (if replies[|replies| - 1].client == c then 1 else 0)
  }

  function TakenBy(e: Reply): multiset<Elem> { if e.outcome == Taken then multiset{e.elem} else multiset{} }

  function TakenElems(replies: seq<Reply>): multiset<Elem> {
    if replies == [] then multiset{}
    else
      var last := replies[|replies| - 1];
      TakenElems(replies[..|replies| - 1]) + TakenBy(last)
  }

  function ItemsOf(v: Value): multiset<Elem> {
    if v.ListValue? then multiset(v.items) else multiset{}
  }

  ghost function Pick(db: map<Key, Value>): (k: Key)
    requires db != map[]
    ensures k in db
  {
    var k :| k in db;
    k
  }

  ghost function AllItems(db: map<Key, Value>): multiset<Elem>
    decreases |db|
  {
    if db == map[] then multiset{} else ItemsOf(db[Pick(db)]) + AllItems(db - {Pick(db)})
  }

  lemma Exchange(a: multiset<Elem>, b: multiset<Elem>, c: multiset<Elem>)
    ensures a + (b + c) == b + (a + c)
  {
  }

  lemma Cancel(a: multiset<Elem>, b: multiset<Elem>, c: multiset<Elem>)
    requires a + c == b + c
    ensures a == b
  {
    forall x ensures a[x] == b[x] {
      assert (a + c)[x] == (b + c)[x];
    }
  }

  lemma AllItemsFirst(db: map<Key, Value>)
    requires db != map[]
    ensures AllItems(db) == ItemsOf(db[Pick(db)]) + AllItems(db - {Pick(db)})
  {
  }

  /** The order in which the keys are taken does not matter. */
  lemma {:induction false} AllItemsPick(db: map<Key, Value>, k: Key)
    requires k in db
    ensures AllItems(db) == ItemsOf(db[k]) + AllItems(db - {k})
    decreases |db|
  {
    hide ItemsOf, Pick, AllItems;
    var x := Pick(db);
    AllItemsFirst(db);
    if x != k {
      AllItemsPick(db - {x}, k);
      AllItemsPick(db - {k}, x);
      assert db - {x} - {k} == db - {k} - {x};
      Exchange(ItemsOf(db[x]), ItemsOf(db[k]), AllItems(db - {k} - {x}));
    }
  }

  lemma AllItemsSet(db: map<Key, Value>, k: Key, v: Value)
    ensures AllItems(db[k := v]) + (if k in db then ItemsOf(db[k]) else multiset{}) == AllItems(db) + ItemsOf(v)
  {
    hide ItemsOf, AllItems;
    AllItemsPick(db[k := v], k);
    assert db[k := v] - {k} == db - {k};
    if k in db {
      AllItemsPick(db, k);
      Regroup(ItemsOf(v), AllItems(db - {k}), ItemsOf(db[k]));
    } else {
      assert db - {k} == db;
      Exchange(ItemsOf(v), AllItems(db), multiset{});
    }
  }

  lemma Regroup(a: multiset<Elem>, b: multiset<Elem>, c: multiset<Elem>)
    ensures (a + b) + c == (c + b) + a
  {
  }

  lemma PopParts(l: seq<Elem>, w: Where)
    requires l != []
    ensures multiset(Rest(l, w)) + multiset{Popped(l, w)} == multiset(l)
    ensures Push(Rest(l, w), Popped(l, w), w) == l
  {
    assert l == [l[0]] + l[1..] == l[..|l| - 1] + [l[|l| - 1]];
  }

  /** The elements in all lists and in the replies of clients that took one. */
  ghost function Stock(st: State): multiset<Elem> { AllItems(st.db) + TakenElems(st.replies) }

  function Unblocked(cl: Client): Client { cl.(kind := None, keys := {}, target := None) }

  /** From `a` to `b` every client stays as it is, or was blocked on lists, is unblocked, and is told once. */
  predicate ServesEachOnce(a: State, b: State) {
    a.clients.Keys == b.clients.Keys && a.replies <= b.replies &&
    forall c | c in a.clients ::
      (b.clients[c] == a.clients[c] && Told(b.replies, c) == Told(a.replies, c)) ||
      (IsListClient(a, c) && b.clients[c] == Unblocked(a.clients[c]) && Told(b.replies, c) == Told(a.replies, c) + 1)
  }

  ghost predicate Serves(a: State, b: State) {
    ServesEachOnce(a, b) && Stock(a) == Stock(b)
  }

  lemma ServesTransitive(a: State, b: State, c: State)
    requires Serves(a, b) && Serves(b, c)
    ensures Serves(a, c)
  {
  }

  lemma PushParts(l: seq<Elem>, v: Elem, w: Where)
    ensures multiset(Push(l, v, w)) == multiset(l) + multiset{v}
  {
  }

  lemma MoveDbIs(st: State, k: Key, c: ClientId)
    requires HasItems(st, k) && IsListClient(st, c)
    ensures var cl, l, r := st.clients[c], st.db[k].items, MoveElement(st, k, c);
            var db1 := st.db[k := ListValue(Rest(l, cl.from))];
            match ReplyTo(st, k, c).outcome
            case Taken => r.db == db1
            case WrongType => r.db == st.db
            case Moved =>
              var d := cl.target.value;
              (d in db1 ==> db1[d].ListValue?) &&
              r.db == db1[d := ListValue(Push(if d in db1 then db1[d].items else [], Popped(l, cl.from), cl.to))]
  {
    PopParts(st.db[k].items, st.clients[c].from);
  }

  lemma MoveStock(st: State, k: Key, c: ClientId)
    requires HasItems(st, k) && IsListClient(st, c)
    ensures AllItems(MoveElement(st, k, c).db) + TakenBy(ReplyTo(st, k, c)) == AllItems(st.db)
  {
    hide MoveElement, AllItems, Rest, Push, Popped;
    MoveDbIs(st, k, c);
    var cl, l := st.clients[c], st.db[k].items;
    var db1 := st.db[k := ListValue(Rest(l, cl.from))];
    PopStock(st.db, k, cl.from);
    if ReplyTo(st, k, c).outcome == Moved {
      PushStock(db1, cl.target.value, Popped(l, cl.from), cl.to);
    }
  }

  /** Taking an element off a list. */
  lemma PopStock(db: map<Key, Value>, k: Key, w: Where)
    requires k in db && db[k].ListValue? && db[k].items != []
    ensures AllItems(db[k := ListValue(Rest(db[k].items, w))]) + multiset{Popped(db[k].items, w)} == AllItems(db)
  {
    hide AllItems, Rest, Popped, Push;
    var l := db[k].items;
    var rest, v := multiset(Rest(l, w)), Popped(l, w);
    var db1 := db[k := ListValue(Rest(l, w))];
    PopParts(l, w);
    AllItemsSet(db, k, ListValue(Rest(l, w)));
    assert (AllItems(db1) + multiset{v}) + rest == AllItems(db1) + (rest + multiset{v});
    Cancel(AllItems(db1) + multiset{v}, AllItems(db), rest);
  }

  /** Putting one on a list, or on one that is new. */
  lemma PushStock(db: map<Key, Value>, k: Key, v: Elem, w: Where)
    requires k in db ==> db[k].ListValue?
    ensures var was := if k in db then db[k].items else [];
            AllItems(db[k := ListValue(Push(was, v, w))]) == AllItems(db) + multiset{v}
  {
    hide AllItems, Push;
    var was := if k in db then db[k].items else [];
    PushParts(was, v, w);
    AllItemsSet(db, k, ListValue(Push(was, v, w)));
    var all := AllItems(db[k := ListValue(Push(was, v, w))]);
    assert AllItems(db) + (multiset(was) + multiset{v}) == (AllItems(db) + multiset{v}) + multiset(was);
    Cancel(all, AllItems(db) + multiset{v}, multiset(was));
  }

  lemma ReplyAdded(replies: seq<Reply>, e: Reply)
    ensures TakenElems(replies + [e]) == TakenElems(replies) + TakenBy(e)
    ensures forall c :: Told(replies + [e], c) == Told(replies, c) + (if e.client == c then 1 else 0)
  {
  }

  lemma ServeClientStock(st: State, k: Key, c: ClientId)
    requires IndexOk(st) && HasItems(st, k) && IsListClient(st, c)
    ensures Stock(ServeClient(st, k, c)) == Stock(st)
  {
    MoveStock(st, k, c);
    var e, r := ReplyTo(st, k, c), ServeClient(st, k, c);
    ReplyAdded(st.replies, e);
    var items := AllItems(r.db);
    assert r.db == MoveElement(st, k, c).db && r.replies == st.replies + [e] by { ServeIndex(st, k, c); }
    hide *;
    assert items + (TakenElems(st.replies) + TakenBy(e)) == (items + TakenBy(e)) + TakenElems(st.replies);
  }

  lemma ServeClientServes(st: State, k: Key, c: ClientId)
    requires IndexOk(st) && HasItems(st, k) && IsListClient(st, c)
    ensures Serves(st, ServeClient(st, k, c))
  {
    ServeIndex(st, k, c);
    ServeClientStock(st, k, c);
    var r := ServeClient(st, k, c);
    ServedOnce(st, r, c, ReplyTo(st, k, c));
  }

  lemma ServedOnce(a: State, b: State, c: ClientId, e: Reply)
    requires IsListClient(a, c) && b.clients == a.clients[c := Unblocked(a.clients[c])]
    requires b.replies == a.replies + [e] && e.client == c
    ensures ServesEachOnce(a, b)
  {
  }

  lemma RotateServes(st: State, k: Key)
    requires k in st.waiting && st.waiting[k] != []
    ensures Serves(st, Rotate(st, k))
  {
  }

  lemma {:induction false} ServeLoopServes(st: State, k: Key, n: nat)
    requires IndexOk(st) && IsList(st, k) && n <= |Waiters(st, k)|
    ensures Serves(st, ServeLoop(st, k, n))
    decreases n
  {
    hide IndexOk, ServeClient, Serves;
    if n == 0 {
      SelfServes(st);
    } else {
      var c := Waiters(st, k)[0];
      if !IsListClient(st, c) {
        RotateIndex(st, k);
        RotateServes(st, k);
        ServeLoopServes(Rotate(st, k), k, n - 1);
        ServesTransitive(st, Rotate(st, k), ServeLoop(st, k, n));
      } else if st.db[k].items == [] {
        SelfServes(st);
      } else {
        ServeFirst(st, k);
        ServeClientServes(st, k, c);
        ServeLoopServes(ServeClient(st, k, c), k, n - 1);
        ServesTransitive(st, ServeClient(st, k, c), ServeLoop(st, k, n));
      }
    }
  }

  lemma SelfServes(st: State)
    ensures Serves(st, st)
  {
  }

  lemma DeleteEmptyServes(st: State, k: Key)
    requires IsList(st, k) && st.db[k].items == []
    ensures Serves(st, st.(db := st.db - {k}))
  {
    AllItemsPick(st.db, k);
    hide AllItems, TakenElems;
  }

  lemma ServeKeyServes(st: State, k: Key)
    requires IndexOk(st) && IsList(st, k)
    ensures Serves(st, ServeKey(st, k))
  {
    hide ServeLoop, Linked, Serves;
    var n := |Waiters(st, k)|;
    ServeLoopServes(st, k, n);
    ServeLoopIsList(st, k, n);
    var r := ServeLoop(st, k, n);
    if r.db[k].items == [] {
      DeleteEmptyServes(r, k);
      ServesTransitive(st, r, ServeKey(st, k));
    }
  }

  lemma HandleKeyServes(st: State, k: Key)
    requires IndexOk(st)
    ensures Serves(st, HandleKey(st, k))
  {
    var s1 := st.(ready := st.ready - {k});
    assert Serves(st, s1);
    if IsList(s1, k) {
      SameIndex(st, s1);
      hide Serves, ServeKey, Linked;
      ServeKeyServes(s1, k);
      ServesTransitive(st, s1, ServeKey(s1, k));
    }
  }

  lemma {:induction false} HandleBatchServes(st: State, batch: seq<Key>)
    requires Inv(st, batch, None)
    ensures Serves(st, HandleBatch(st, batch))
    decreases |batch|
  {
    assert IndexOk(st);
    hide Inv, HandleKey, Serves;
    if batch == [] {
      SelfServes(st);
    } else {
      HandleKeyKeeps(st, batch);
      HandleKeyServes(st, batch[0]);
      HandleBatchServes(HandleKey(st, batch[0]), batch[1..]);
      ServesTransitive(st, HandleKey(st, batch[0]), HandleBatch(st, batch));
    }
  }

  /** Each client is served at most once, only list clients are, and no element is lost or doubled. */
  lemma {:induction false} HandleServes(st: State)
    requires Inv(st, [], None)
    ensures Serves(st, Handle(st))
    decreases Blocked(st), |st.queue|
  {
    if st.queue == [] {
      SelfServes(st);
    } else {
      var s1 := st.(queue := []);
      assert Serves(st, s1);
      TakeQueue(st);
      HandleBatchKeeps(s1, st.queue);
      HandleBatchServes(s1, st.queue);
      hide Inv, Blocked, HandleBatch, Serves;
      var s2 := HandleBatch(s1, st.queue);
      HandleServes(s2);
      ServesTransitive(st, s1, s2);
      ServesTransitive(st, s2, Handle(st));
    }
  }

  // ------------------------------------------------------------------- The order

  function OnlyLists(clients: map<ClientId, Client>, s: seq<ClientId>, lists: bool): seq<ClientId> {
    if s == [] then []
    else
      var head, rest := s[0], OnlyLists(clients, s[1..], lists);
      if (head in clients && clients[head].kind == Some(ListKind)) == lists then [head] + rest else rest
  }

  lemma {:induction false} OnlyListsSame(a: map<ClientId, Client>, b: map<ClientId, Client>, s: seq<ClientId>,
                                         lists: bool)
    requires forall c | c in s :: (c in a <==> c in b) && (c in a ==> a[c] == b[c])
    ensures OnlyLists(a, s, lists) == OnlyLists(b, s, lists)
    decreases |s|
  {
    if s != [] { OnlyListsSame(a, b, s[1..], lists); }
  }

  function Names(replies: seq<Reply>): seq<ClientId> {
    seq(|replies|, i requires 0 <= i < |replies| => replies[i].client)
  }

  lemma NamesAdded(replies: seq<Reply>, e: Reply)
    ensures Names(replies + [e]) == Names(replies) + [e.client]
  {
  }

  /** How many waiters the loop looks at before it stops. */
  function Visited(st: State, k: Key, n: nat): (v: nat)
    requires IndexOk(st) && IsList(st, k) && n <= |Waiters(st, k)|
    ensures v <= n
    decreases n
  {
    if n == 0 then 0
    else
      var c := Waiters(st, k)[0];
      if !IsListClient(st, c) then
        RotateIndex(st, k);
        1 + Visited(Rotate(st, k), k, n - 1)
      else if st.db[k].items == [] then 0
      else
        ServeFirst(st, k);
        1 + Visited(ServeClient(st, k, c), k, n - 1)
  }

  lemma LoopRotates(st: State, k: Key, n: nat)
    requires IndexOk(st) && IsList(st, k) && 0 < n <= |Waiters(st, k)| && !IsListClient(st, Waiters(st, k)[0])
    ensures k in st.waiting && st.waiting[k] != []
    ensures var r := Rotate(st, k);
            IndexOk(r) && IsList(r, k) && Waiters(r, k) == Waiters(st, k)[1..] + [Waiters(st, k)[0]] &&
            r == st.(waiting := r.waiting) &&
            ServeLoop(st, k, n) == ServeLoop(r, k, n - 1) && Visited(st, k, n) == 1 + Visited(r, k, n - 1)
  {
    RotateIndex(st, k);
    hide IndexOk;
  }

  lemma LoopServes(st: State, k: Key, n: nat)
    requires IndexOk(st) && HasItems(st, k) && 0 < n <= |Waiters(st, k)| && IsListClient(st, Waiters(st, k)[0])
    ensures var r := ServeClient(st, k, Waiters(st, k)[0]);
            IndexOk(r) && IsList(r, k) && Waiters(r, k) == Waiters(st, k)[1..] &&
            ServeLoop(st, k, n) == ServeLoop(r, k, n - 1) && Visited(st, k, n) == 1 + Visited(r, k, n - 1)
  {
    ServeFirst(st, k);
    hide IndexOk, ServeClient;
  }

  lemma LoopStops(st: State, k: Key, n: nat)
    requires IndexOk(st) && IsList(st, k) && n <= |Waiters(st, k)|
    requires n == 0 || (st.db[k].items == [] && IsListClient(st, Waiters(st, k)[0]))
    ensures ServeLoop(st, k, n) == st && Visited(st, k, n) == 0
  {
  }

  lemma RotatedOrder(clients: map<ClientId, Client>, w: seq<ClientId>, u: seq<ClientId>, v: nat)
    requires w != [] && u == w[1..] + [w[0]] && 1 <= v <= |w|
    requires !(w[0] in clients && clients[w[0]].kind == Some(ListKind))
    ensures u[v - 1..] + OnlyLists(clients, u[..v - 1], false) == w[v..] + OnlyLists(clients, w[..v], false)
    ensures OnlyLists(clients, u[..v - 1], true) == OnlyLists(clients, w[..v], true)
  {
    assert w[..v][1..] == u[..v - 1] && u[v - 1..] == w[v..] + [w[0]];
  }

  lemma ServedOrder(a: map<ClientId, Client>, b: map<ClientId, Client>, w: seq<ClientId>, v: nat)
    requires w != [] && NoDuplicates(w) && 1 <= v <= |w| && w[0] in a && w[0] in b
    requires a[w[0]].kind == Some(ListKind) && b == a[w[0] := b[w[0]]]
    ensures w[1..][v - 1..] + OnlyLists(b, w[1..][..v - 1], false) == w[v..] + OnlyLists(a, w[..v], false)
    ensures [w[0]] + OnlyLists(b, w[1..][..v - 1], true) == OnlyLists(a, w[..v], true)
  {
    assert w[..v][1..] == w[1..][..v - 1] && w[v..] == w[1..][v - 1..];
    assert w[0] !in w[1..][..v - 1];
    OnlyListsSame(a, b, w[1..][..v - 1], true);
    OnlyListsSame(a, b, w[1..][..v - 1], false);
  }

  lemma NoDuplicateWaiters(st: State, k: Key)
    requires IndexOk(st)
    ensures NoDuplicates(Waiters(st, k))
  {
  }

  /** All are looked at unless the list runs empty before. */
  lemma {:induction false} StopsWhenEmpty(st: State, k: Key, n: nat)
    requires IndexOk(st) && IsList(st, k) && n <= |Waiters(st, k)| && Visited(st, k, n) < n
    ensures !HasItems(ServeLoop(st, k, n), k)
    decreases n
  {
    hide IndexOk, ServeClient, ServeLoop, Visited, Rotate, Waiters;
    if IsListClient(st, Waiters(st, k)[0]) && st.db[k].items == [] {
      LoopStops(st, k, n);
    } else if !IsListClient(st, Waiters(st, k)[0]) {
      LoopRotates(st, k, n);
      StopsWhenEmpty(Rotate(st, k), k, n - 1);
    } else {
      LoopServes(st, k, n);
      StopsWhenEmpty(ServeClient(st, k, Waiters(st, k)[0]), k, n - 1);
    }
  }

  /** List clients are served in the order in which they stand in line. */
  lemma {:induction false} ServedInOrder(st: State, k: Key, n: nat)
    requires IndexOk(st) && IsList(st, k) && n <= |Waiters(st, k)|
    ensures Names(ServeLoop(st, k, n).replies)
         == Names(st.replies) + OnlyLists(st.clients, Waiters(st, k)[..Visited(st, k, n)], true)
    decreases n
  {
    hide IndexOk, ServeClient, ServeLoop, Visited, Rotate, Waiters, OnlyLists, NoDuplicates, Names, ReplyTo;
    var w, v := Waiters(st, k), Visited(st, k, n);
    if n == 0 || (IsListClient(st, w[0]) && st.db[k].items == []) {
      LoopStops(st, k, n);
      NoneVisited(st.clients, w);
    } else if !IsListClient(st, w[0]) {
      LoopRotates(st, k, n);
      var s1 := Rotate(st, k);
      ServedInOrder(s1, k, n - 1);
      RotatedOrder(st.clients, w, Waiters(s1, k), v);
    } else {
      LoopServes(st, k, n);
      ServeIndex(st, k, w[0]);
      NoDuplicateWaiters(st, k);
      var s1 := ServeClient(st, k, w[0]);
      ServedInOrder(s1, k, n - 1);
      ServedOrder(st.clients, s1.clients, w, v);
      NamesAdded(st.replies, ReplyTo(st, k, w[0]));
      ReplyNames(st, k, w[0]);
    }
  }

  lemma ReplyNames(st: State, k: Key, c: ClientId)
    requires HasItems(st, k) && IsListClient(st, c)
    ensures ReplyTo(st, k, c).client == c && ReplyTo(st, k, c).key == k
  {
  }

  /** Those looked at that wait for something else end up, in their order, behind those not looked at. */
  lemma {:induction false} LineAfterwards(st: State, k: Key, n: nat)
    requires IndexOk(st) && IsList(st, k) && n <= |Waiters(st, k)|
    ensures var w, v := Waiters(st, k), Visited(st, k, n);
            Waiters(ServeLoop(st, k, n), k) == w[v..] + OnlyLists(st.clients, w[..v], false)
    decreases n
  {
    hide IndexOk, ServeClient, ServeLoop, Visited, Rotate, Waiters, OnlyLists, NoDuplicates, Without;
    var w, v := Waiters(st, k), Visited(st, k, n);
    if n == 0 || (IsListClient(st, w[0]) && st.db[k].items == []) {
      LoopStops(st, k, n);
      NoneVisited(st.clients, w);
    } else if !IsListClient(st, w[0]) {
      LoopRotates(st, k, n);
      var s1 := Rotate(st, k);
      LineAfterwards(s1, k, n - 1);
      RotatedOrder(st.clients, w, Waiters(s1, k), v);
    } else {
      LoopServes(st, k, n);
      ServeIndex(st, k, w[0]);
      NoDuplicateWaiters(st, k);
      var s1 := ServeClient(st, k, w[0]);
      LineAfterwards(s1, k, n - 1);
      ServedOrder(st.clients, s1.clients, w, v);
    }
  }

  lemma NoneVisited(clients: map<ClientId, Client>, w: seq<ClientId>)
    ensures w[..0] == [] && w[0..] + OnlyLists(clients, w[..0], false) == w && OnlyLists(clients, w[..0], true) == []
  {
  }

  // ------------------------------------------------------------------------ Runs

  function KindOf(v: Value): Option<Kind> {
    if v.ListValue? then Some(ListKind) else v.kind
  }

  /** A key set as a whole is signalled if it was not there, and not if it was. */
  function SetKey(st: State, k: Key, v: Value): State {
    var s1 := st.(db := st.db[k := v]);
    if k in st.db || KindOf(v).None? then s1 else Signal(s1, k, KindOf(v).value)
  }

  datatype Event =
    | Connect(c: ClientId)
    | Block(c: ClientId, kind: Kind, keys: seq<Key>, target: Option<Key>, from: Where, to: Where)
    | Unblock(c: ClientId)
    | PushOne(k: Key, elem: Elem, to: Where)
    | PopOne(k: Key, from: Where)
    | Set(k: Key, value: Value)
    | Delete(k: Key)
    | HandleReady

  /** List commands block only if none of their keys exists. */
  predicate Enabled(st: State, e: Event) {
    match e
    case Connect(c) => c !in st.clients
    case Block(c, t, keys, _, _, _) =>
      c in st.clients && st.clients[c].kind.None? && keys != [] &&
      (t == ListKind ==> forall k | k in keys :: k !in st.db)
    case Unblock(c) => c in st.clients && st.clients[c].kind.Some?
    case PushOne(k, _, _) => k in st.db ==> st.db[k].ListValue?
    case PopOne(k, _) => HasItems(st, k)
    case Set(_, v) => v.ListValue? ==> v.items != []
    case Delete(_) => true
    case HandleReady => Inv(st, [], None)
  }

  function PopFrom(st: State, k: Key, w: Where): State
    requires HasItems(st, k)
  {
    var rest := Rest(st.db[k].items, w);
    if rest == [] then st.(db := st.db - {k}) else SetList(st, k, rest)
  }

  function Next(st: State, e: Event): State
    requires Enabled(st, e)
  {
    match e
    case Connect(c) => st.(clients := st.clients[c := Client(None, {}, None, Head, Head)])
    case Block(c, t, keys, target, from, to) => BlockForKeys(st, c, t, keys, target, from, to)
    case Unblock(c) => UnblockClient(st, c)
    case PushOne(k, v, w) => PushTo(st, k, v, w)
    case PopOne(k, w) => PopFrom(st, k, w)
    case Set(k, v) => SetKey(st, k, v)
    case Delete(k) => st.(db := st.db - {k})
    case HandleReady => Handle(st)
  }

  /** The wake-ups that are lost: a key that exists becomes a list for which a list client is not yet to be served. */
  predicate LosesWakeUp(st: State, e: Event) {
    e.Set? && e.value.ListValue? && e.k in st.db && ListWaits(st, e.k) && e.k !in st.ready
  }

  lemma ConnectKeeps(st: State, c: ClientId)
    requires Inv(st, [], None) && c !in st.clients
    ensures Inv(Next(st, Connect(c)), [], None) && (WokenBut(st, None) ==> WokenBut(Next(st, Connect(c)), None))
  {
    var r := Next(st, Connect(c));
    forall t: Kind ensures CountOf(r, t) == |OfKind(r.clients, t)| {
      assert OfKind(r.clients, t) == OfKind(st.clients, t);
    }
    forall j | ListWaits(r, j) ensures ListWaits(st, j) {
      var x :| x in Waiters(r, j) && IsListClient(r, x);
      assert x in Waiters(st, j) && IsListClient(st, x);
    }
  }

  lemma BlockKeepsInv(st: State, e: Event)
    requires Inv(st, [], None) && e.Block? && Enabled(st, e)
    ensures Inv(Next(st, e), [], None) && (WokenBut(st, None) ==> WokenBut(Next(st, e), None))
  {
    var r := Next(st, e);
    BlockKeeps(st, e.c, e.kind, e.keys, e.target, e.from, e.to);
    BlockResult(st, e.c, e.kind, e.keys, e.target, e.from, e.to);
    hide BlockForKeys, CountsOk;
    forall j | j in r.db && ListWaits(r, j) ensures ListWaits(st, j) {
      BlockWaiters(st, e.c, e.kind, e.keys, e.target, e.from, e.to, j);
      var x :| x in Waiters(r, j) && IsListClient(r, x);
      assert e.c !in Waiters(st, j);
      assert x in Waiters(st, j) && IsListClient(st, x);
    }
    hide IndexOk, ListWaits;
  }

  lemma UnblockKeepsInv(st: State, c: ClientId)
    requires Inv(st, [], None) && Enabled(st, Unblock(c))
    ensures Inv(Next(st, Unblock(c)), [], None) && (WokenBut(st, None) ==> WokenBut(Next(st, Unblock(c)), None))
  {
    UnblockIndex(st, c);
    UnblockCounts(st, c);
    if WokenBut(st, None) { UnblockWoken(st, c, None); }
    UnblockFrame(st, c);
    RestKept(st, UnblockClient(st, c), [], None);
    hide UnblockClient, IndexOk, CountsOk, ReadyOk, NoEmptyListBut, WokenBut;
  }

  /** Changes of one key's value, with or without a signal. */
  lemma ValueChange(st: State, r: State, k: Key)
    requires Inv(st, [], None) && r == st.(db := r.db, queue := r.queue, ready := r.ready)
    requires ReadyOk(r, []) && st.ready <= r.ready
    requires forall j | j != k :: (j in r.db <==> j in st.db) && (j in r.db ==> r.db[j] == st.db[j])
    requires IsList(r, k) ==> HasItems(r, k)
    ensures Inv(r, [], None)
    ensures WokenBut(st, None) ==> (WokenBut(r, None) <==> (HasItems(r, k) && ListWaits(st, k) ==> k in r.ready))
  {
    SameIndex(st, r);
    SameWaits(st, r);
    hide Linked, CountsOk, ReadyOk, ListWaits;
    if WokenBut(st, None) {
      forall j | j in r.db && j != k && HasItems(r, j) && ListWaits(r, j) ensures j in r.ready {
        assert HasItems(st, j);
      }
    }
  }

  lemma PushKeeps(st: State, k: Key, v: Elem, w: Where)
    requires Inv(st, [], None) && Enabled(st, PushOne(k, v, w))
    ensures Inv(PushTo(st, k, v, w), [], None) && (WokenBut(st, None) ==> WokenBut(PushTo(st, k, v, w), None))
  {
    var r := PushTo(st, k, v, w);
    var s1 := SetList(st, k, []);
    if k !in st.db {
      SignalReady(s1, k, ListKind, []);
      SignalFrame(s1, k, ListKind);
      SameWaits(st, s1);
      if ListWaits(st, k) { SignalWakes(s1, k); }
    }
    hide Signal, ListWaits;
    assert HasItems(r, k);
    ValueChange(st, r, k);
    hide Inv;
  }

  lemma SetKeeps(st: State, e: Event)
    requires Inv(st, [], None) && e.Set? && Enabled(st, e)
    ensures Inv(Next(st, e), [], None)
    ensures WokenBut(st, None) ==> (WokenBut(Next(st, e), None) <==> !LosesWakeUp(st, e))
  {
    var k, v := e.k, e.value;
    var r, s1 := SetKey(st, k, v), st.(db := st.db[k := v]);
    if k !in st.db && KindOf(v).Some? {
      SignalReady(s1, k, KindOf(v).value, []);
      SignalFrame(s1, k, KindOf(v).value);
      SameWaits(st, s1);
      if v.ListValue? && ListWaits(st, k) { SignalWakes(s1, k); }
    }
    hide Signal, ListWaits;
    ValueChange(st, r, k);
    hide Inv;
  }

  /** Every step keeps the indexes, and every step but the losing one keeps list clients awake. */
  lemma StepKeeps(st: State, e: Event)
    requires Inv(st, [], None) && Enabled(st, e)
    ensures Inv(Next(st, e), [], None)
    ensures WokenBut(st, None) ==> (WokenBut(Next(st, e), None) <==> !LosesWakeUp(st, e))
  {
    match e
    case Connect(c) => ConnectKeeps(st, c);
    case Block(_, _, _, _, _, _) => BlockKeepsInv(st, e);
    case Unblock(c) => UnblockKeepsInv(st, c);
    case PushOne(k, v, w) => PushKeeps(st, k, v, w);
    case PopOne(k, w) => PopKeeps(st, k, w);
    case Set(_, _) => SetKeeps(st, e);
    case Delete(k) => ValueChange(st, st.(db := st.db - {k}), k);
    case HandleReady => HandleServesAll(st);
  }

  lemma PopKeeps(st: State, k: Key, w: Where)
    requires Inv(st, [], None) && HasItems(st, k)
    ensures Inv(PopFrom(st, k, w), [], None) && (WokenBut(st, None) ==> WokenBut(PopFrom(st, k, w), None))
  {
    ValueChange(st, PopFrom(st, k, w), k);
  }

  predicate IsRun(st: State, run: seq<Event>)
    decreases |run|
  {
    run == [] || (Enabled(st, run[0]) && IsRun(Next(st, run[0]), run[1..]))
  }

  function Final(st: State, run: seq<Event>): State
    requires IsRun(st, run)
    decreases |run|
  {
    if run == [] then st else Final(Next(st, run[0]), run[1..])
  }

  predicate LosesNone(st: State, run: seq<Event>)
    requires IsRun(st, run)
    decreases |run|
  {
    run == [] || (!LosesWakeUp(st, run[0]) && LosesNone(Next(st, run[0]), run[1..]))
  }

  const Initial := State(map[], map[], {}, [], map[], map[], [])

  /** The indexes, the counters and the queue agree in every state of every run. */
  lemma {:induction false} RunKeeps(st: State, run: seq<Event>)
    requires Inv(st, [], None) && IsRun(st, run)
    ensures Inv(Final(st, run), [], None)
    ensures WokenBut(st, None) && LosesNone(st, run) ==> WokenBut(Final(st, run), None)
    decreases |run|
  {
    hide Inv, Next, WokenBut, LosesWakeUp;
    if run != [] {
      StepKeeps(st, run[0]);
      RunKeeps(Next(st, run[0]), run[1..]);
    }
  }

  lemma InitialInv()
    ensures Inv(Initial, [], None) && WokenBut(Initial, None)
  {
    forall t: Kind ensures CountOf(Initial, t) == |OfKind(Initial.clients, t)| {
      assert OfKind(Initial.clients, t) == {};
    }
  }

  /** Whenever ready keys have been handled, no list client waits for a list with elements. */
  lemma NoWakeUpLost(run: seq<Event>)
    requires IsRun(Initial, run)
    ensures Inv(Final(Initial, run), [], None)
    ensures LosesNone(Initial, run) ==>
              forall k :: !(HasItems(Handle(Final(Initial, run)), k) && ListWaits(Handle(Final(Initial, run)), k))
  {
    InitialInv();
    RunKeeps(Initial, run);
    HandleServesAll(Final(Initial, run));
  }

  /** Nor can an event be found disabled because the queue is in disorder. */
  lemma CanAlwaysHandle(run: seq<Event>)
    requires IsRun(Initial, run)
    ensures Enabled(Final(Initial, run), HandleReady)
  {
    InitialInv();
    RunKeeps(Initial, run);
  }

  /** A client that waits for a key which is set to something else and then to a list sleeps on. */
  lemma OverwriteLosesWakeUp(st: State, k: Key, v: Elem)
    requires Inv(st, [], None) && st.queue == [] && k !in st.db && ListWaits(st, k)
    ensures var run := [Set(k, OtherValue(None)), Set(k, ListValue([v])), HandleReady];
            IsRun(st, run) && HasItems(Final(st, run), k) && ListWaits(Final(st, run), k)
  {
    hide Inv, ListWaits;
    var a, b := Set(k, OtherValue(None)), Set(k, ListValue([v]));
    var s1 := st.(db := st.db[k := OtherValue(None)]);
    var s2 := s1.(db := s1.db[k := ListValue([v])]);
    assert Next(st, a) == s1 && Next(s1, b) == s2;
    SetKeeps(st, a);
    SetKeeps(s1, b);
    SameWaits(st, s2);
    assert Enabled(s2, HandleReady) && Next(s2, HandleReady) == s2;
    hide Next, Enabled;
    ThreeSteps(st, a, b, HandleReady);
  }

  lemma ThreeSteps(st: State, a: Event, b: Event, c: Event)
    requires Enabled(st, a) && Enabled(Next(st, a), b) && Enabled(Next(Next(st, a), b), c)
    ensures IsRun(st, [a, b, c]) && Final(st, [a, b, c]) == Next(Next(Next(st, a), b), c)
  {
    hide Enabled, Next;
    var s1 := Next(st, a);
    var s2 := Next(s1, b);
    assert [a, b, c][1..] == [b, c] && [b, c][1..] == [c] && [c][1..] == [];
    var s3 := Next(s2, c);
    assert IsRun(s3, []) && Final(s3, []) == s3;
    assert IsRun(s2, [c]) && Final(s2, [c]) == s3;
    assert IsRun(s1, [b, c]) && Final(s1, [b, c]) == s3;
  }

  /** Such a state is reached by a client that connects and blocks. */
  lemma WaitingIsReachable(k: Key)
    ensures var run := [Connect(0), Block(0, ListKind, [k], None, Head, Head)];
            IsRun(Initial, run) && Final(Initial, run).queue == [] && k !in Final(Initial, run).db &&
            ListWaits(Final(Initial, run), k)
  {
    var b := Block(0, ListKind, [k], None, Head, Head);
    var s1 := Next(Initial, Connect(0));
    BlockResult(s1, 0, ListKind, [k], None, Head, Head);
    BlockWaiters(s1, 0, ListKind, [k], None, Head, Head, k);
    var s2 := Next(s1, b);
    assert 0 in Waiters(s2, k) && IsListClient(s2, 0);
    var run := [Connect(0), b];
    assert run[1..] == [b] && [b][1..] == [];
    hide BlockForKeys;
    assert Enabled(s1, b) && Enabled(Initial, Connect(0));
    assert IsRun(s2, []) && Final(s2, []) == s2;
    assert IsRun(s1, [b]) && Final(s1, [b]) == s2;
    assert IsRun(Initial, run) && Final(Initial, run) == s2;
  }

  // ------------------------------------------------------------- First come, first served

  predicate Before(s: seq<ClientId>, x: ClientId, y: ClientId) {
    exists i, j :: 0 <= i < j < |s| && s[i] == x && s[j] == y
  }

  lemma BeforeLast(s: seq<ClientId>, z: ClientId, x: ClientId, y: ClientId)
    ensures Before(s + [z], x, y) <==> Before(s, x, y) || (y == z && x in s)
  {
    var t := s + [z];
    if Before(t, x, y) {
      var i, j :| 0 <= i < j < |t| && t[i] == x && t[j] == y;
      assert s[i] == x;
      if j < |s| { assert s[j] == y; }
    }
    if Before(s, x, y) {
      var i, j :| 0 <= i < j < |s| && s[i] == x && s[j] == y;
      assert t[i] == x && t[j] == y;
    }
    if y == z && x in s {
      var i :| 0 <= i < |s| && s[i] == x;
      assert t[i] == x && t[|s|] == y;
    }
  }

  /** Taking one client off a line does not change the order of the others. */
  lemma {:induction false} WithoutOrder(s: seq<ClientId>, c: ClientId, x: ClientId, y: ClientId)
    requires x != c && y != c
    ensures Before(Without(s, c), x, y) <==> Before(s, x, y)
    decreases |s|
  {
    if s != [] {
      var t, last := s[..|s| - 1], s[|s| - 1];
      WithoutOrder(t, c, x, y);
      WithoutFacts(t, c);
      assert s == t + [last];
      BeforeLast(t, last, x, y);
      if last == c {
        assert Without(s, c) == Without(t, c) + [] == Without(t, c);
      } else {
        BeforeLast(Without(t, c), last, x, y);
      }
    }
  }

  /** Nor does sending the first to the end. */
  lemma RotatedKeepsOrder(s: seq<ClientId>, x: ClientId, y: ClientId)
    requires s != [] && x != s[0] && y != s[0]
    ensures Before(s[1..] + [s[0]], x, y) <==> Before(s, x, y)
  {
    BeforeLast(s[1..], s[0], x, y);
    if Before(s, x, y) {
      var i, j :| 0 <= i < j < |s| && s[i] == x && s[j] == y;
      assert s[1..][i - 1] == x && s[1..][j - 1] == y;
    }
    if Before(s[1..], x, y) {
      var i, j :| 0 <= i < j < |s[1..]| && s[1..][i] == x && s[1..][j] == y;
      assert s[i + 1] == x && s[j + 1] == y;
    }
  }

  /** A list client that still waits is as it was and has its place among those that still wait. */
  ghost predicate PlacesKept(a: State, b: State) {
    (forall c | IsListClient(b, c) :: IsListClient(a, c) && b.clients[c] == a.clients[c]) &&
    forall k, x, y | IsListClient(b, x) && IsListClient(b, y) ::
      Before(Waiters(b, k), x, y) <==> Before(Waiters(a, k), x, y)
  }

  /** Among the replies from number `n` on and in front of number `m`. */
  predicate ToldBetween(replies: seq<Reply>, n: nat, m: nat, c: ClientId) {
    exists i :: n <= i < m && i < |replies| && replies[i].client == c
  }

  /** The reply goes to a list client in line for the key, and those ahead of it were told before. */
  ghost predicate InTurn(a: State, replies: seq<Reply>, n: nat, j: nat)
    requires j < |replies|
  {
    var c, k := replies[j].client, replies[j].key;
    IsListClient(a, c) && c in Waiters(a, k) &&
    forall x | IsListClient(a, x) && Before(Waiters(a, k), x, c) :: ToldBetween(replies, n, j, x)
  }

  /** From `a` to `b` clients are served in turn: nobody overtakes. */
  ghost predicate InTurns(a: State, b: State) {
    a.replies <= b.replies && PlacesKept(a, b) &&
    (forall c | IsListClient(a, c) && !IsListClient(b, c) ::
       ToldBetween(b.replies, |a.replies|, |b.replies|, c)) &&
    forall j | |a.replies| <= j < |b.replies| :: InTurn(a, b.replies, |a.replies|, j)
  }

  lemma InTurnLater(a: State, b: State, d: State, j: nat)
    requires IndexOk(a) && IndexOk(b) && InTurns(a, b) && b.replies <= d.replies && |b.replies| <= j < |d.replies|
    requires InTurn(b, d.replies, |b.replies|, j)
    ensures InTurn(a, d.replies, |a.replies|, j)
  {
    var c, k := d.replies[j].client, d.replies[j].key;
    assert IsListClient(a, c) && a.clients[c] == b.clients[c];
    assert c in Waiters(a, k) by { WaitsFor(b, c, k); WaitsFor(a, c, k); }
    forall x | IsListClient(a, x) && Before(Waiters(a, k), x, c) ensures ToldBetween(d.replies, |a.replies|, j, x) {
      if IsListClient(b, x) {
        assert Before(Waiters(b, k), x, c);
        var i :| |b.replies| <= i < j && i < |d.replies| && d.replies[i].client == x;
      } else {
        var i :| |a.replies| <= i < |b.replies| && b.replies[i].client == x;
        assert d.replies[i] == b.replies[i];
      }
    }
  }

  lemma WaitsFor(st: State, c: ClientId, k: Key)
    requires IndexOk(st) && c in st.clients
    ensures c in Waiters(st, k) <==> k in st.clients[c].keys
  {
  }

  lemma InTurnSooner(a: State, b: State, d: State, j: nat)
    requires b.replies <= d.replies && |a.replies| <= j < |b.replies| && InTurn(a, b.replies, |a.replies|, j)
    ensures InTurn(a, d.replies, |a.replies|, j)
  {
    var c, k := b.replies[j].client, b.replies[j].key;
    assert d.replies[j] == b.replies[j];
    forall x | IsListClient(a, x) && Before(Waiters(a, k), x, c) ensures ToldBetween(d.replies, |a.replies|, j, x) {
      var i :| |a.replies| <= i < j && i < |b.replies| && b.replies[i].client == x;
      assert d.replies[i] == b.replies[i];
    }
  }

  lemma InTurnsTransitive(a: State, b: State, d: State)
    requires IndexOk(a) && IndexOk(b) && InTurns(a, b) && InTurns(b, d)
    ensures InTurns(a, d)
  {
    hide IndexOk, InTurn, Before;
    forall j | |a.replies| <= j < |d.replies| ensures InTurn(a, d.replies, |a.replies|, j) {
      if j < |b.replies| { InTurnSooner(a, b, d, j); } else { InTurnLater(a, b, d, j); }
    }
    forall c | IsListClient(a, c) && !IsListClient(d, c)
      ensures ToldBetween(d.replies, |a.replies|, |d.replies|, c)
    {
      if IsListClient(b, c) {
        var i :| |b.replies| <= i < |d.replies| && d.replies[i].client == c;
      } else {
        var i :| |a.replies| <= i < |b.replies| && b.replies[i].client == c;
        assert d.replies[i] == b.replies[i];
      }
    }
  }

  lemma SameLines(a: State, b: State)
    requires b.clients == a.clients && b.waiting == a.waiting && b.replies == a.replies
    ensures InTurns(a, b)
  {
    assert forall k :: Waiters(a, k) == Waiters(b, k);
  }

  lemma RotateInTurns(st: State, k: Key)
    requires IndexOk(st) && k in st.waiting && st.waiting[k] != [] && !IsListClient(st, st.waiting[k][0])
    ensures InTurns(st, Rotate(st, k))
  {
    hide IndexOk, Before;
    var r := Rotate(st, k);
    RotateIndex(st, k);
    forall j, x, y | IsListClient(r, x) && IsListClient(r, y)
      ensures Before(Waiters(r, j), x, y) <==> Before(Waiters(st, j), x, y)
    {
      if j == k {
        RotatedKeepsOrder(Waiters(st, k), x, y);
      } else {
        assert Waiters(r, j) == Waiters(st, j);
      }
    }
  }

  lemma FirstHasNoneAhead(s: seq<ClientId>, x: ClientId)
    requires s != [] && NoDuplicates(s)
    ensures !Before(s, x, s[0])
  {
  }

  lemma ServeInTurns(st: State, k: Key)
    requires IndexOk(st) && HasItems(st, k) && k in st.waiting && st.waiting[k] != []
    requires IsListClient(st, st.waiting[k][0])
    ensures InTurns(st, ServeClient(st, k, st.waiting[k][0]))
  {
    hide IndexOk, ServeClient, Without, Before, NoDuplicates;
    var c := st.waiting[k][0];
    var r := ServeClient(st, k, c);
    ServeIndex(st, k, c);
    forall j, x, y | IsListClient(r, x) && IsListClient(r, y)
      ensures Before(Waiters(r, j), x, y) <==> Before(Waiters(st, j), x, y)
    {
      WithoutOrder(Waiters(st, j), c, x, y);
    }
    assert r.replies[|st.replies|] == ReplyTo(st, k, c);
    NoDuplicateWaiters(st, k);
    forall x ensures !Before(Waiters(st, k), x, c) { FirstHasNoneAhead(Waiters(st, k), x); }
  }

  lemma {:induction false} ServeLoopInTurns(st: State, k: Key, n: nat)
    requires IndexOk(st) && IsList(st, k) && n <= |Waiters(st, k)|
    ensures InTurns(st, ServeLoop(st, k, n)) && IndexOk(ServeLoop(st, k, n))
    decreases n
  {
    hide IndexOk, ServeClient, InTurns;
    if n == 0 {
      SameLines(st, st);
    } else {
      var c := Waiters(st, k)[0];
      if !IsListClient(st, c) {
        RotateIndex(st, k);
        RotateInTurns(st, k);
        ServeLoopInTurns(Rotate(st, k), k, n - 1);
        InTurnsTransitive(st, Rotate(st, k), ServeLoop(st, k, n));
      } else if st.db[k].items == [] {
        SameLines(st, st);
      } else {
        ServeFirst(st, k);
        ServeInTurns(st, k);
        ServeLoopInTurns(ServeClient(st, k, c), k, n - 1);
        InTurnsTransitive(st, ServeClient(st, k, c), ServeLoop(st, k, n));
      }
    }
  }

  lemma HandleKeyInTurns(st: State, k: Key)
    requires IndexOk(st)
    ensures InTurns(st, HandleKey(st, k))
  {
    hide ServeLoop, Linked, InTurns;
    var s1 := st.(ready := st.ready - {k});
    SameIndex(st, s1);
    SameLines(st, s1);
    if IsList(s1, k) {
      var n := |Waiters(s1, k)|;
      ServeLoopInTurns(s1, k, n);
      var r := ServeLoop(s1, k, n);
      ServeLoopIsList(s1, k, n);
      SameLines(r, ServeKey(s1, k));
      InTurnsTransitive(s1, r, ServeKey(s1, k));
      InTurnsTransitive(st, s1, ServeKey(s1, k));
    }
  }

  lemma {:induction false} HandleBatchInTurns(st: State, batch: seq<Key>)
    requires Inv(st, batch, None)
    ensures InTurns(st, HandleBatch(st, batch))
    decreases |batch|
  {
    assert IndexOk(st);
    if batch == [] {
      SameLines(st, st);
    } else {
      HandleKeyKeeps(st, batch);
      var s1 := HandleKey(st, batch[0]);
      assert IndexOk(s1);
      hide Inv, HandleKey, InTurns;
      HandleKeyInTurns(st, batch[0]);
      HandleBatchInTurns(s1, batch[1..]);
      InTurnsTransitive(st, s1, HandleBatch(st, batch));
    }
  }

  /** However many keys become ready while others are served, nobody overtakes. */
  lemma {:induction false} HandleInTurns(st: State)
    requires Inv(st, [], None)
    ensures InTurns(st, Handle(st))
    decreases Blocked(st), |st.queue|
  {
    if st.queue == [] {
      SameLines(st, st);
    } else {
      var s1 := st.(queue := []);
      SameLines(st, s1);
      TakeQueue(st);
      HandleBatchKeeps(s1, st.queue);
      HandleBatchInTurns(s1, st.queue);
      var s2 := HandleBatch(s1, st.queue);
      assert IndexOk(st) && IndexOk(s1) && IndexOk(s2);
      hide Inv, Blocked, HandleBatch, InTurns, IndexOk;
      HandleInTurns(s2);
      InTurnsTransitive(st, s1, s2);
      InTurnsTransitive(st, s2, Handle(st));
    }
  }

  /** When each client blocked last: `stamps` tells it by the number of the event. */
  function Stamped(stamps: map<ClientId, nat>, now: nat, run: seq<Event>): map<ClientId, nat>
    decreases |run|
  {
    if run == [] then stamps
    else Stamped(if run[0].Block? then stamps[run[0].c := now] else stamps, now + 1, run[1..])
  }

  /** In each line the list clients stand in the order in which they blocked. */
  ghost predicate InBlockingOrder(st: State, stamps: map<ClientId, nat>, now: nat) {
    (forall c | c in st.clients && st.clients[c].kind.Some? :: c in stamps && stamps[c] < now) &&
    forall k, x, y | IsListClient(st, x) && IsListClient(st, y) && Before(Waiters(st, k), x, y) ::
      stamps[x] < stamps[y]
  }

  lemma PlacesKeepOrder(a: State, b: State, stamps: map<ClientId, nat>, now: nat)
    requires InBlockingOrder(a, stamps, now) && PlacesKept(a, b)
    requires forall c | c in b.clients && b.clients[c].kind.Some? :: c in a.clients && a.clients[c].kind.Some?
    ensures InBlockingOrder(b, stamps, now + 1)
  {
    hide Before;
  }

  lemma UnblockPlaces(st: State, c: ClientId)
    requires IndexOk(st) && c in st.clients && st.clients[c].kind.Some?
    ensures PlacesKept(st, UnblockClient(st, c))
  {
    hide Before, Without;
    UnblockFacts(st, c);
    var r := UnblockClient(st, c);
    forall k, x, y | IsListClient(r, x) && IsListClient(r, y)
      ensures Before(Waiters(r, k), x, y) <==> Before(Waiters(st, k), x, y)
    {
      WithoutOrder(Waiters(st, k), c, x, y);
    }
  }

  lemma BlockOrder(st: State, e: Event, stamps: map<ClientId, nat>, now: nat)
    requires IndexOk(st) && e.Block? && Enabled(st, e) && InBlockingOrder(st, stamps, now)
    ensures InBlockingOrder(Next(st, e), stamps[e.c := now], now + 1)
  {
    hide BlockForKeys, KeySet, Linked, Before, Waiters;
    var r := Next(st, e);
    BlockResult(st, e.c, e.kind, e.keys, e.target, e.from, e.to);
    forall k, x, y | IsListClient(r, x) && IsListClient(r, y) && Before(Waiters(r, k), x, y)
      ensures stamps[e.c := now][x] < stamps[e.c := now][y]
    {
      BlockWaiters(st, e.c, e.kind, e.keys, e.target, e.from, e.to, k);
      WaitsFor(st, e.c, k);
      LineGrows(Waiters(st, k), Waiters(r, k), e.c, x, y);
    }
  }

  /** Who is ahead in a line that may have grown by one. */
  lemma LineGrows(s: seq<ClientId>, t: seq<ClientId>, c: ClientId, x: ClientId, y: ClientId)
    requires (t == s || t == s + [c]) && c !in s && Before(t, x, y)
    ensures x != c && (y != c ==> Before(s, x, y))
  {
    if t == s { BeforeMembers(s, x, y); }
    BeforeLast(s, c, x, y);
    if Before(s, x, y) { BeforeMembers(s, x, y); }
    hide Before;
  }

  lemma BeforeMembers(s: seq<ClientId>, x: ClientId, y: ClientId)
    requires Before(s, x, y)
    ensures x in s && y in s
  {
  }

  lemma HandleKinds(st: State)
    requires Inv(st, [], None)
    ensures forall c | c in Handle(st).clients && Handle(st).clients[c].kind.Some? ::
              c in st.clients && st.clients[c].kind.Some?
  {
    HandleServes(st);
    hide Handle, Inv;
  }

  /** Every event keeps the lines in the order of blocking. */
  lemma StepOrder(st: State, e: Event, stamps: map<ClientId, nat>, now: nat)
    requires Inv(st, [], None) && Enabled(st, e) && InBlockingOrder(st, stamps, now)
    ensures InBlockingOrder(Next(st, e), if e.Block? then stamps[e.c := now] else stamps, now + 1)
  {
    hide Before, InBlockingOrder, Handle, BlockForKeys, UnblockClient, PushTo, SetKey;
    match e
    case Block(_, _, _, _, _, _) => BlockOrder(st, e, stamps, now);
    case Unblock(c) =>
      UnblockPlaces(st, c);
      UnblockKinds(st, c);
      PlacesKeepOrder(st, UnblockClient(st, c), stamps, now);
    case HandleReady =>
      HandleInTurns(st);
      HandleKinds(st);
      PlacesKeepOrder(st, Handle(st), stamps, now);
    case _ =>
      OtherPlaces(st, e);
      PlacesKeepOrder(st, Next(st, e), stamps, now);
  }

  lemma UnblockKinds(st: State, c: ClientId)
    requires c in st.clients && st.clients[c].kind.Some?
    ensures var r := UnblockClient(st, c);
            forall x | x in r.clients && r.clients[x].kind.Some? :: x in st.clients && st.clients[x].kind.Some?
  {
  }

  /** The other events leave lines and blocked clients alone. */
  lemma OtherPlaces(st: State, e: Event)
    requires Inv(st, [], None) && Enabled(st, e) && !e.Block? && !e.Unblock? && !e.HandleReady?
    ensures PlacesKept(st, Next(st, e))
    ensures forall c | c in Next(st, e).clients && Next(st, e).clients[c].kind.Some? ::
              c in st.clients && st.clients[c].kind.Some?
  {
    hide Before, Inv;
    var r := Next(st, e);
    assert r.waiting == st.waiting;
    assert forall k :: Waiters(r, k) == Waiters(st, k);
  }

  lemma {:induction false} RunOrder(st: State, run: seq<Event>, stamps: map<ClientId, nat>, now: nat)
    requires Inv(st, [], None) && IsRun(st, run) && InBlockingOrder(st, stamps, now)
    ensures InBlockingOrder(Final(st, run), Stamped(stamps, now, run), now + |run|)
    decreases |run|
  {
    hide Inv, Next, InBlockingOrder;
    if run != [] {
      StepKeeps(st, run[0]);
      StepOrder(st, run[0], stamps, now);
      RunOrder(Next(st, run[0]), run[1..], if run[0].Block? then stamps[run[0].c := now] else stamps, now + 1);
    }
  }

  /** In every reachable state the list clients of each line stand in the order of blocking. */
  lemma LinesInBlockingOrder(run: seq<Event>)
    requires IsRun(Initial, run)
    ensures InBlockingOrder(Final(Initial, run), Stamped(map[], 0, run), |run|)
  {
    InitialInv();
    RunOrder(Initial, run, map[], 0);
  }

  lemma BeforeOrAfter(s: seq<ClientId>, x: ClientId, y: ClientId)
    requires x in s && y in s && x != y
    ensures Before(s, x, y) || Before(s, y, x)
  {
    var i :| 0 <= i < |s| && s[i] == x;
    var j :| 0 <= j < |s| && s[j] == y;
  }

  /** The state after a run and the handling of the keys that are ready then. */
  function Handled(run: seq<Event>): State
    requires IsRun(Initial, run)
  {
    CanAlwaysHandle(run);
    Next(Final(Initial, run), HandleReady)
  }

  /** First blocked, first served.  After any run, let the ready keys be handled.  When a client
      is served from a key, every list client that waits for this key and had blocked before it
      has been served before it. */
  lemma FirstBlockedFirstServed(run: seq<Event>, j: nat, x: ClientId)
    requires IsRun(Initial, run) && |Final(Initial, run).replies| <= j < |Handled(run).replies|
    ensures var st, replies, stamps := Final(Initial, run), Handled(run).replies, Stamped(map[], 0, run);
            var c, k := replies[j].client, replies[j].key;
            IsListClient(st, c) && c in Waiters(st, k) && c in stamps &&
            (IsListClient(st, x) && x in Waiters(st, k) ==>
               x in stamps && (stamps[x] < stamps[c] ==> ToldBetween(replies, |st.replies|, j, x)))
  {
    hide IsRun, Final, Inv, Handle, Before, Stamped;
    var st, stamps := Final(Initial, run), Stamped(map[], 0, run);
    CanAlwaysHandle(run);
    HandledNext(st);
    LinesInBlockingOrder(run);
    HandleInTurns(st);
    var replies := Handle(st).replies;
    var c, k := replies[j].client, replies[j].key;
    assert InTurn(st, replies, |st.replies|, j);
    if IsListClient(st, x) && x in Waiters(st, k) && stamps[x] < stamps[c] {
      BeforeOrAfter(Waiters(st, k), x, c);
    }
  }

  // ----------------------------------------------------------- What clients are told

  function ListAt(db: map<Key, Value>, k: Key): seq<Elem> {
    if k in db && db[k].ListValue? then db[k].items else []
  }

  predicate OtherAt(db: map<Key, Value>, k: Key) { k in db && db[k].OtherValue? }

  ghost predicate SameLists(a: map<Key, Value>, b: map<Key, Value>) {
    forall k :: ListAt(a, k) == ListAt(b, k) && OtherAt(a, k) == OtherAt(b, k)
  }

  /** The client is told the element that goes: the first of the list if it pops at the head, the
      last if it pops at the tail.  Then either this element is gone from there and nothing else
      changes, or it stands besides at the end of the target that the client wants, or nothing
      changes because the target is of another type. */
  lemma ReplyIsTrue(st: State, k: Key, c: ClientId)
    requires HasItems(st, k) && IsListClient(st, c)
    ensures var e, cl, l, db := ReplyTo(st, k, c), st.clients[c], st.db[k].items, ServeClient(st, k, c).db;
            var rest := if cl.from == Head then l[1..] else l[..|l| - 1];
            e.client == c && e.key == k && e.elem == (if cl.from == Head then l[0] else l[|l| - 1]) &&
            multiset(l) == multiset(rest) + multiset{e.elem} &&
            match cl.target
            case None => e.outcome == Taken && db == st.db[k := ListValue(rest)]
            case Some(d) =>
              if OtherAt(st.db, d) then e.outcome == WrongType && db == st.db
              else
                var was := if d == k then rest else ListAt(st.db, d);
                e.outcome == Moved &&
                db == st.db[k := ListValue(rest)][d := ListValue(if cl.to == Head then [e.elem] + was
                                                                 else was + [e.elem])]
  {
    MoveDbIs(st, k, c);
    ServedDb(st, k, c);
    PopParts(st.db[k].items, st.clients[c].from);
    hide MoveElement, ServeClient;
  }

  /** What a reply says was done to the lists. */
  function Played(db: map<Key, Value>, e: Reply, cl: Client): map<Key, Value>
    requires ListAt(db, e.key) != []
  {
    var db1 := db[e.key := ListValue(Rest(ListAt(db, e.key), cl.from))];
    if e.outcome == WrongType then db
    else if cl.target.None? then db1
    else db1[cl.target.value := ListValue(Push(ListAt(db1, cl.target.value), e.elem, cl.to))]
  }

  /** The reply names the element at the client's end of the list, and the outcome fits its target. */
  predicate Fits(db: map<Key, Value>, e: Reply, cl: Client) {
    ListAt(db, e.key) != [] && e.elem == Popped(ListAt(db, e.key), cl.from) &&
    e.outcome == if cl.target.None? then Taken else if OtherAt(db, cl.target.value) then WrongType else Moved
  }

  /** The replies, each taken for true in its turn, lead from the first lists to the second. */
  ghost predicate Explains(db: map<Key, Value>, replies: seq<Reply>, clients: map<ClientId, Client>,
                           db': map<Key, Value>)
    decreases |replies|
  {
    if replies == [] then SameLists(db, db')
    else
      replies[0].client in clients && Fits(db, replies[0], clients[replies[0].client]) &&
      Explains(Played(db, replies[0], clients[replies[0].client]), replies[1..], clients, db')
  }

  lemma PlayedSame(a: map<Key, Value>, b: map<Key, Value>, e: Reply, cl: Client)
    requires SameLists(a, b) && Fits(b, e, cl)
    ensures Fits(a, e, cl) && SameLists(Played(a, e, cl), Played(b, e, cl))
  {
    hide Push, Rest, Popped;
    assert ListAt(a, e.key) == ListAt(b, e.key);
    if cl.target.Some? {
      var d := cl.target.value;
      assert ListAt(a, d) == ListAt(b, d) && OtherAt(a, d) == OtherAt(b, d);
    }
    var a1, b1 := Played(a, e, cl), Played(b, e, cl);
    forall k ensures ListAt(a1, k) == ListAt(b1, k) && OtherAt(a1, k) == OtherAt(b1, k) {
      assert ListAt(a, k) == ListAt(b, k) && OtherAt(a, k) == OtherAt(b, k);
    }
  }

  lemma {:induction false} ExplainsSame(a: map<Key, Value>, b: map<Key, Value>, replies: seq<Reply>,
                                        clients: map<ClientId, Client>, db': map<Key, Value>)
    requires SameLists(a, b) && Explains(b, replies, clients, db')
    ensures Explains(a, replies, clients, db')
    decreases |replies|
  {
    hide Played, Fits;
    if replies != [] {
      var e, cl := replies[0], clients[replies[0].client];
      PlayedSame(a, b, e, cl);
      assert Fits(b, e, cl) && Fits(a, e, cl);
      FitsHasItems(a, e, cl);
      FitsHasItems(b, e, cl);
      hide SameLists;
      ExplainsSame(Played(a, e, cl), Played(b, e, cl), replies[1..], clients, db');
    }
  }

  lemma FitsHasItems(db: map<Key, Value>, e: Reply, cl: Client)
    requires Fits(db, e, cl)
    ensures ListAt(db, e.key) != []
  {
  }

  /** First some replies, then others. */
  lemma {:induction false} ExplainsOn(a: map<Key, Value>, r1: seq<Reply>, b: map<Key, Value>, r2: seq<Reply>,
                                      clients: map<ClientId, Client>, later: map<ClientId, Client>,
                                      db': map<Key, Value>)
    requires Explains(a, r1, clients, b) && Explains(b, r2, later, db')
    requires forall i | 0 <= i < |r2| :: r2[i].client in later && r2[i].client in clients &&
                                         later[r2[i].client] == clients[r2[i].client]
    ensures Explains(a, r1 + r2, clients, db')
    decreases |r1|
  {
    hide Played, Fits, SameLists;
    if r1 == [] {
      assert r1 + r2 == r2;
      SameClients(b, r2, clients, later, db');
      ExplainsSame(a, b, r2, clients, db');
    } else {
      assert (r1 + r2)[1..] == r1[1..] + r2 && (r1 + r2)[0] == r1[0];
      FitsHasItems(a, r1[0], clients[r1[0].client]);
      ExplainsOn(Played(a, r1[0], clients[r1[0].client]), r1[1..], b, r2, clients, later, db');
    }
  }

  lemma {:induction false} SameClients(db: map<Key, Value>, replies: seq<Reply>, clients: map<ClientId, Client>,
                                       later: map<ClientId, Client>, db': map<Key, Value>)
    requires Explains(db, replies, later, db')
    requires forall i | 0 <= i < |replies| :: replies[i].client in later && replies[i].client in clients &&
                                              later[replies[i].client] == clients[replies[i].client]
    ensures Explains(db, replies, clients, db')
    decreases |replies|
  {
    hide Played, Fits, SameLists;
    if replies != [] {
      FitsHasItems(db, replies[0], later[replies[0].client]);
      SameClients(Played(db, replies[0], later[replies[0].client]), replies[1..], clients, later, db');
    }
  }

  /** From `a` to `b` the new replies explain all that happened to the lists. */
  ghost predicate Accounts(a: State, b: State) {
    a.replies <= b.replies && Explains(a.db, b.replies[|a.replies|..], a.clients, b.db) &&
    (forall c | IsListClient(b, c) :: IsListClient(a, c) && b.clients[c] == a.clients[c]) &&
    forall i | |a.replies| <= i < |b.replies| :: IsListClient(a, b.replies[i].client)
  }

  lemma AccountsTransitive(a: State, b: State, d: State)
    requires Accounts(a, b) && Accounts(b, d)
    ensures Accounts(a, d)
  {
    hide Explains;
    var r1, r2 := b.replies[|a.replies|..], d.replies[|b.replies|..];
    forall i | 0 <= i < |r2|
      ensures r2[i].client in b.clients && r2[i].client in a.clients &&
              b.clients[r2[i].client] == a.clients[r2[i].client]
    {
      assert r2[i] == d.replies[|b.replies| + i];
      assert IsListClient(b, r2[i].client);
    }
    ExplainsOn(a.db, r1, b.db, r2, a.clients, b.clients, d.db);
    assert d.replies[|a.replies|..] == r1 + r2;
    forall i | |a.replies| <= i < |d.replies| ensures IsListClient(a, d.replies[i].client) {
      if i < |b.replies| { assert d.replies[i] == b.replies[i]; }
    }
  }

  /** Nothing is told and no list changes. */
  lemma QuietAccounts(a: State, b: State)
    requires b.clients == a.clients && b.replies == a.replies && SameLists(a.db, b.db)
    ensures Accounts(a, b)
  {
    hide SameLists;
    assert b.replies[|a.replies|..] == [];
  }

  lemma ServeAccounts(st: State, k: Key, c: ClientId)
    requires IndexOk(st) && HasItems(st, k) && IsListClient(st, c)
    ensures Accounts(st, ServeClient(st, k, c))
  {
    var r, e, cl := ServeClient(st, k, c), ReplyTo(st, k, c), st.clients[c];
    ServeIndex(st, k, c);
    ServePlays(st, k, c);
    hide ServeClient, IndexOk, Played, Fits, ReplyTo;
    assert r.replies[|st.replies|..] == [e] && [e][1..] == [];
    ReplyNames(st, k, c);
    SelfLists(r.db);
    assert Explains(r.db, [], st.clients, r.db);
    assert Explains(st.db, [e], st.clients, r.db);
  }

  lemma SelfLists(db: map<Key, Value>)
    ensures SameLists(db, db)
  {
  }

  lemma ServePlays(st: State, k: Key, c: ClientId)
    requires HasItems(st, k) && IsListClient(st, c)
    ensures Fits(st.db, ReplyTo(st, k, c), st.clients[c])
    ensures ListAt(st.db, ReplyTo(st, k, c).key) != []
    ensures Played(st.db, ReplyTo(st, k, c), st.clients[c]) == ServeClient(st, k, c).db
  {
    MoveDbIs(st, k, c);
    ServedDb(st, k, c);
    hide MoveElement, ServeClient, Push, Rest, Popped;
  }

  lemma {:induction false} ServeLoopAccounts(st: State, k: Key, n: nat)
    requires IndexOk(st) && IsList(st, k) && n <= |Waiters(st, k)|
    ensures Accounts(st, ServeLoop(st, k, n))
    decreases n
  {
    hide IndexOk, ServeClient, ServeLoop, Visited, Rotate, Waiters, Accounts;
    if n == 0 || (IsListClient(st, Waiters(st, k)[0]) && st.db[k].items == []) {
      LoopStops(st, k, n);
      SelfLists(st.db);
      QuietAccounts(st, st);
    } else if !IsListClient(st, Waiters(st, k)[0]) {
      LoopRotates(st, k, n);
      SelfLists(st.db);
      QuietAccounts(st, Rotate(st, k));
      ServeLoopAccounts(Rotate(st, k), k, n - 1);
      AccountsTransitive(st, Rotate(st, k), ServeLoop(st, k, n));
    } else {
      var s1 := ServeClient(st, k, Waiters(st, k)[0]);
      LoopServes(st, k, n);
      ServeAccounts(st, k, Waiters(st, k)[0]);
      ServeLoopAccounts(s1, k, n - 1);
      AccountsTransitive(st, s1, ServeLoop(st, k, n));
    }
  }

  lemma HandleKeyAccounts(st: State, k: Key)
    requires IndexOk(st)
    ensures Accounts(st, HandleKey(st, k))
  {
    hide ServeLoop, Linked, Accounts;
    var s1 := st.(ready := st.ready - {k});
    SameIndex(st, s1);
    SelfLists(st.db);
    QuietAccounts(st, s1);
    if IsList(s1, k) {
      var n := |Waiters(s1, k)|;
      ServeLoopAccounts(s1, k, n);
      ServeLoopIsList(s1, k, n);
      var r := ServeLoop(s1, k, n);
      assert SameLists(r.db, ServeKey(s1, k).db);
      QuietAccounts(r, ServeKey(s1, k));
      AccountsTransitive(s1, r, ServeKey(s1, k));
      AccountsTransitive(st, s1, ServeKey(s1, k));
    }
  }

  lemma {:induction false} HandleBatchAccounts(st: State, batch: seq<Key>)
    requires Inv(st, batch, None)
    ensures Accounts(st, HandleBatch(st, batch))
    decreases |batch|
  {
    assert IndexOk(st);
    hide Accounts;
    if batch == [] {
      SelfLists(st.db);
      QuietAccounts(st, st);
    } else {
      HandleKeyKeeps(st, batch);
      var s1 := HandleKey(st, batch[0]);
      hide Inv, HandleKey;
      HandleKeyAccounts(st, batch[0]);
      HandleBatchAccounts(s1, batch[1..]);
      AccountsTransitive(st, s1, HandleBatch(st, batch));
    }
  }

  /** The replies of a whole handling of ready keys, in their order, tell exactly what happened: each
      client is told the element that stood then at its end of the list, and taking these elements
      away and putting them where their clients want them gives the lists as they are afterwards. */
  lemma {:induction false} HandleAccounts(st: State)
    requires Inv(st, [], None)
    ensures Accounts(st, Handle(st))
    decreases Blocked(st), |st.queue|
  {
    hide Accounts;
    SelfLists(st.db);
    if st.queue == [] {
      QuietAccounts(st, st);
    } else {
      var s1 := st.(queue := []);
      QuietAccounts(st, s1);
      TakeQueue(st);
      HandleBatchKeeps(s1, st.queue);
      HandleBatchAccounts(s1, st.queue);
      var s2 := HandleBatch(s1, st.queue);
      hide Inv, Blocked, HandleBatch;
      HandleAccounts(s2);
      AccountsTransitive(st, s1, s2);
      AccountsTransitive(st, s2, Handle(st));
    }
  }

  // -------------------------------------------------- The order of those that wait for something else

  predicate HasKind(st: State, c: ClientId, t: Kind) { c in st.clients && st.clients[c].kind == Some(t) }

  /** Serving the client takes an element away: it does not move it back to the same list, nor
      is its target of another type. */
  predicate Uses(st: State, k: Key, c: ClientId) {
    IsListClient(st, c) &&
    var target := st.clients[c].target;
    target.None? || (target.value != k && !(target.value in st.db && st.db[target.value].OtherValue?))
  }

  /** Where a pass stops, told from the line and the length of the list: at the first list client
      for which no element is left by those ahead of it. */
  function Stop(st: State, k: Key, w: seq<ClientId>, left: nat): (v: nat)
    ensures v <= |w|
  {
    if w == [] || (IsListClient(st, w[0]) && left == 0) then 0
    else 1 + Stop(st, k, w[1..], if Uses(st, k, w[0]) then left - 1 else left)
  }

  function UsesIn(st: State, k: Key, w: seq<ClientId>): nat {
    if w == [] then 0 else (if Uses(st, k, w[0]) then 1 else 0) + UsesIn(st, k, w[1..])
  }

  /** Up to there every list client finds an element, and the one there finds none. */
  lemma {:induction false} StopIs(st: State, k: Key, w: seq<ClientId>, left: nat)
    ensures var v := Stop(st, k, w, left);
            (forall i | 0 <= i < v && IsListClient(st, w[i]) :: UsesIn(st, k, w[..i]) < left) &&
            (v < |w| ==> IsListClient(st, w[v]) && UsesIn(st, k, w[..v]) == left)
    decreases |w|
  {
    hide Uses, IsListClient;
    var v := Stop(st, k, w, left);
    if w != [] && v > 0 {
      UsesListClient(st, k, w[0]);
      var rest := if Uses(st, k, w[0]) then left - 1 else left;
      StopIs(st, k, w[1..], rest);
      forall i | 1 <= i <= |w|
        ensures UsesIn(st, k, w[..i]) == UsesIn(st, k, w[1..][..i - 1]) + left - rest
      {
        assert w[..i][1..] == w[1..][..i - 1];
      }
    }
  }

  lemma UsesListClient(st: State, k: Key, c: ClientId)
    ensures Uses(st, k, c) ==> IsListClient(st, c)
  {
  }

  /** The same clients, and keys of other types, stop the pass at the same place. */
  lemma {:induction false} StopSame(a: State, b: State, k: Key, w: seq<ClientId>, left: nat)
    requires forall c | c in w :: IsListClient(a, c) == IsListClient(b, c) && Uses(a, k, c) == Uses(b, k, c)
    ensures Stop(a, k, w, left) == Stop(b, k, w, left)
    decreases |w|
  {
    hide Uses, IsListClient;
    if w != [] {
      UsesListClient(a, k, w[0]);
      if !(IsListClient(a, w[0]) && left == 0) {
        StopSame(a, b, k, w[1..], if Uses(a, k, w[0]) then left - 1 else left);
      }
    }
  }

  /** Serving a client shortens the list exactly if the client uses an element up. */
  lemma ServeShortens(st: State, k: Key, c: ClientId)
    requires IndexOk(st) && HasItems(st, k) && IsListClient(st, c)
    ensures var r := ServeClient(st, k, c);
            IsList(r, k) && |r.db[k].items| == |st.db[k].items| - if Uses(st, k, c) then 1 else 0
  {
    MoveDbIs(st, k, c);
    ServedDb(st, k, c);
    hide IndexOk, ServeClient, MoveElement;
  }

  lemma ServedDb(st: State, k: Key, c: ClientId)
    requires HasItems(st, k) && IsListClient(st, c)
    ensures ServeClient(st, k, c).db == MoveElement(st, k, c).db
  {
    MoveFrame(st, k, c);
    hide MoveElement, ReplyTo;
  }

  /** It leaves the other clients alone, and no key turns into another type or out of it. */
  lemma ServeKeepsUses(st: State, k: Key, c: ClientId, x: ClientId)
    requires IndexOk(st) && HasItems(st, k) && IsListClient(st, c) && x != c
    ensures var r := ServeClient(st, k, c);
            IsListClient(r, x) == IsListClient(st, x) && Uses(r, k, x) == Uses(st, k, x)
  {
    ServeIndex(st, k, c);
    MoveDbIs(st, k, c);
    ServedDb(st, k, c);
    hide IndexOk, ServeClient, MoveElement;
  }

  lemma {:induction false} VisitedIsStop(st: State, k: Key, n: nat)
    requires IndexOk(st) && IsList(st, k) && n <= |Waiters(st, k)|
    ensures Visited(st, k, n) == Stop(st, k, Waiters(st, k)[..n], |st.db[k].items|)
    decreases n
  {
    hide IndexOk, ServeClient, ServeLoop, Visited, Rotate, Waiters, Uses;
    var w := Waiters(st, k);
    if n == 0 || (IsListClient(st, w[0]) && st.db[k].items == []) {
      LoopStops(st, k, n);
    } else if !IsListClient(st, w[0]) {
      LoopRotates(st, k, n);
      var s1 := Rotate(st, k);
      VisitedIsStop(s1, k, n - 1);
      assert Waiters(s1, k)[..n - 1] == w[..n][1..];
      UsesListClient(st, k, w[0]);
      RotateKeepsUses(st, s1, k, w[..n][1..]);
      StopSame(st, s1, k, w[..n][1..], |st.db[k].items|);
    } else {
      LoopServes(st, k, n);
      var s1 := ServeClient(st, k, w[0]);
      VisitedIsStop(s1, k, n - 1);
      assert Waiters(s1, k)[..n - 1] == w[..n][1..];
      ServeShortens(st, k, w[0]);
      NoDuplicateWaiters(st, k);
      forall c | c in w[..n][1..]
        ensures IsListClient(st, c) == IsListClient(s1, c) && Uses(st, k, c) == Uses(s1, k, c)
      {
        assert c in w[1..];
        ServeKeepsUses(st, k, w[0], c);
      }
      StopSame(st, s1, k, w[..n][1..], |s1.db[k].items|);
    }
  }

  lemma RotateKeepsUses(st: State, r: State, k: Key, w: seq<ClientId>)
    requires r == st.(waiting := r.waiting)
    ensures forall c | c in w :: IsListClient(st, c) == IsListClient(r, c) && Uses(st, k, c) == Uses(r, k, c)
  {
  }

  /** A client of the kind was sent to the end while one behind it was not looked at. */
  predicate Overtaken(st: State, k: Key, v: nat, t: Kind) {
    var w := Waiters(st, k);
    exists i, j :: 0 <= i < v <= j < |w| && HasKind(st, w[i], t) && HasKind(st, w[j], t)
  }

  ghost predicate SameOrder(st: State, t: Kind, s: seq<ClientId>, s': seq<ClientId>) {
    forall x, y | HasKind(st, x, t) && HasKind(st, y, t) :: Before(s', x, y) <==> Before(s, x, y)
  }

  lemma {:induction false} OnlyListsMember(clients: map<ClientId, Client>, s: seq<ClientId>, c: ClientId)
    ensures c in OnlyLists(clients, s, false) <==>
            c in s && !(c in clients && clients[c].kind == Some(ListKind))
    decreases |s|
  {
    if s != [] {
      OnlyListsMember(clients, s[1..], c);
      assert c in s <==> c == s[0] || c in s[1..];
    }
  }

  lemma BeforeConcat(a: seq<ClientId>, b: seq<ClientId>, x: ClientId, y: ClientId)
    ensures Before(a + b, x, y) <==> Before(a, x, y) || Before(b, x, y) || (x in a && y in b)
  {
    var s := a + b;
    if Before(s, x, y) {
      var i, j :| 0 <= i < j < |s| && s[i] == x && s[j] == y;
      if j < |a| {
        assert a[i] == x && a[j] == y;
      } else if i >= |a| {
        assert b[i - |a|] == x && b[j - |a|] == y;
      } else {
        assert a[i] == x && b[j - |a|] == y;
      }
    }
    if Before(a, x, y) {
      var i, j :| 0 <= i < j < |a| && a[i] == x && a[j] == y;
      assert s[i] == x && s[j] == y;
    }
    if Before(b, x, y) {
      var i, j :| 0 <= i < j < |b| && b[i] == x && b[j] == y;
      assert s[|a| + i] == x && s[|a| + j] == y;
    }
    if x in a && y in b {
      var i :| 0 <= i < |a| && a[i] == x;
      var j :| 0 <= j < |b| && b[j] == y;
      assert s[i] == x && s[|a| + j] == y;
    }
  }

  lemma {:induction false} OnlyListsOrder(clients: map<ClientId, Client>, s: seq<ClientId>, x: ClientId, y: ClientId)
    requires !(x in clients && clients[x].kind == Some(ListKind))
    requires !(y in clients && clients[y].kind == Some(ListKind))
    ensures Before(OnlyLists(clients, s, false), x, y) <==> Before(s, x, y)
    decreases |s|
  {
    hide Before;
    if s == [] {
      NoneBefore(x, y);
    } else {
      var rest := OnlyLists(clients, s[1..], false);
      OnlyListsOrder(clients, s[1..], x, y);
      OnlyListsMember(clients, s[1..], y);
      assert s == [s[0]] + s[1..];
      BeforeConcat([s[0]], s[1..], x, y);
      BeforeConcat([s[0]], rest, x, y);
      OneBefore(s[0], x, y);
    }
  }

  lemma NoneBefore(x: ClientId, y: ClientId)
    ensures !Before([], x, y)
  {
  }

  lemma OneBefore(z: ClientId, x: ClientId, y: ClientId)
    ensures !Before([z], x, y)
  {
  }

  /** A pass over the line keeps the order among the clients of another kind exactly if the list
      client for which no element is left does not stand between two of them. */
  lemma OtherKindsInOrder(st: State, k: Key, t: Kind)
    requires IndexOk(st) && IsList(st, k) && t != ListKind
    ensures var w, v := Waiters(st, k), Stop(st, k, Waiters(st, k), |st.db[k].items|);
            v <= |w| && (SameOrder(st, t, w, Waiters(ServeLoop(st, k, |w|), k)) <==> !Overtaken(st, k, v, t))
  {
    hide IndexOk, ServeLoop, Visited, Waiters, OnlyLists, Before, NoDuplicates, Stop;
    var w := Waiters(st, k);
    var v := Visited(st, k, |w|);
    VisitedIsStop(st, k, |w|);
    assert w[..|w|] == w;
    LineAfterwards(st, k, |w|);
    NoDuplicateWaiters(st, k);
    PassOrder(st, k, t, v);
  }

  lemma PassOrder(st: State, k: Key, t: Kind, v: nat)
    requires t != ListKind && v <= |Waiters(st, k)| && NoDuplicates(Waiters(st, k))
    ensures var w := Waiters(st, k);
            SameOrder(st, t, w, w[v..] + OnlyLists(st.clients, w[..v], false)) <==> !Overtaken(st, k, v, t)
  {
    hide Waiters, OnlyLists, Before, NoDuplicates;
    var w := Waiters(st, k);
    var w' := w[v..] + OnlyLists(st.clients, w[..v], false);
    if Overtaken(st, k, v, t) {
      var i, j :| 0 <= i < v <= j < |w| && HasKind(st, w[i], t) && HasKind(st, w[j], t);
      OvertakingPair(st, k, v, i, j);
      assert !SameOrder(st, t, w, w');
    } else {
      forall x, y | HasKind(st, x, t) && HasKind(st, y, t) ensures Before(w', x, y) <==> Before(w, x, y) {
        PairKept(st, k, t, v, x, y);
      }
    }
  }

  lemma OvertakingPair(st: State, k: Key, v: nat, i: nat, j: nat)
    requires NoDuplicates(Waiters(st, k)) && i < v <= j < |Waiters(st, k)| && !IsListClient(st, Waiters(st, k)[i])
    ensures var w := Waiters(st, k);
            Before(w, w[i], w[j]) && Before(w[v..] + OnlyLists(st.clients, w[..v], false), w[j], w[i]) &&
            !Before(w, w[j], w[i])
  {
    hide OnlyLists;
    var w := Waiters(st, k);
    var x, y := w[i], w[j];
    assert w[..v][i] == x && w[v..][j - v] == y;
    OnlyListsMember(st.clients, w[..v], x);
    BeforeConcat(w[v..], OnlyLists(st.clients, w[..v], false), y, x);
  }

  lemma PairKept(st: State, k: Key, t: Kind, v: nat, x: ClientId, y: ClientId)
    requires t != ListKind && v <= |Waiters(st, k)| && !Overtaken(st, k, v, t)
    requires HasKind(st, x, t) && HasKind(st, y, t)
    ensures var w := Waiters(st, k);
            Before(w[v..] + OnlyLists(st.clients, w[..v], false), x, y) <==> Before(w, x, y)
  {
    var w := Waiters(st, k);
    var a, b := w[..v], w[v..];
    assert !(x in a && y in b) by { NotApart(st, k, t, v, x, y); }
    assert !(y in a && x in b) by { NotApart(st, k, t, v, y, x); }
    hide Waiters, OnlyLists, Before, Overtaken;
    assert w == a + b;
    BeforeConcat(a, b, x, y);
    BeforeConcat(b, OnlyLists(st.clients, a, false), x, y);
    OnlyListsOrder(st.clients, a, x, y);
    OnlyListsMember(st.clients, a, y);
  }

  lemma NotApart(st: State, k: Key, t: Kind, v: nat, x: ClientId, y: ClientId)
    requires v <= |Waiters(st, k)| && !Overtaken(st, k, v, t) && HasKind(st, x, t) && HasKind(st, y, t)
    ensures !(x in Waiters(st, k)[..v] && y in Waiters(st, k)[v..])
  {
  }

  lemma TakesTheOne(st: State, k: Key, c: ClientId)
    requires HasItems(st, k) && |st.db[k].items| == 1 && IsListClient(st, c) && st.clients[c].target.None?
    ensures var r := ServeClient(st, k, c); r.queue == st.queue && IsList(r, k) && r.db[k].items == []
  {
  }

  /** Two clients that wait for a sorted set, with two list clients between them, and one element
      for these: the second gets ahead of the first. */
  lemma OnePass(st: State, k: Key, z1: ClientId, l2: ClientId, l3: ClientId, z4: ClientId)
    requires IndexOk(st) && Waiters(st, k) == [z1, l2, l3, z4] && IsList(st, k) && |st.db[k].items| == 1
    requires HasKind(st, z1, ZSetKind) && IsListClient(st, l2) && IsListClient(st, l3) && HasKind(st, z4, ZSetKind)
    requires st.clients[l2].target.None?
    ensures var r := ServeLoop(st, k, 4); Waiters(r, k) == [l3, z4, z1] && r.queue == st.queue
  {
    hide IndexOk, ServeClient, Without, ServeLoop, Waiters, NoDuplicates, Rotate, Visited;
    LoopRotates(st, k, 4);
    var s1 := Rotate(st, k);
    assert Waiters(s1, k) == [l2, l3, z4, z1];
    OneServed(s1, k);
  }

  lemma OneServed(st: State, k: Key)
    requires IndexOk(st) && IsList(st, k) && |st.db[k].items| == 1 && |Waiters(st, k)| == 4
    requires IsListClient(st, Waiters(st, k)[0]) && IsListClient(st, Waiters(st, k)[1])
    requires st.clients[Waiters(st, k)[0]].target.None?
    ensures var r := ServeLoop(st, k, 3); Waiters(r, k) == Waiters(st, k)[1..] && r.queue == st.queue
  {
    hide IndexOk, ServeClient, Without, ServeLoop, Waiters, Rotate, Visited;
    var w := Waiters(st, k);
    NoDuplicateWaiters(st, k);
    assert w[0] != w[1];
    LoopServes(st, k, 3);
    TakesTheOne(st, k, w[0]);
    ServeIndex(st, k, w[0]);
    LoopStops(ServeClient(st, k, w[0]), k, 2);
  }

  lemma OnePassHandled(st: State, k: Key, z1: ClientId, l2: ClientId, l3: ClientId, z4: ClientId)
    requires Inv(st, [], None) && st.queue == [k]
    requires Waiters(st, k) == [z1, l2, l3, z4] && IsList(st, k) && |st.db[k].items| == 1
    requires HasKind(st, z1, ZSetKind) && IsListClient(st, l2) && IsListClient(st, l3) && HasKind(st, z4, ZSetKind)
    requires st.clients[l2].target.None?
    ensures Waiters(Handle(st), k) == [l3, z4, z1]
  {
    var s1 := st.(queue := []);
    TakeQueue(st);
    PassIs(s1, k, z1, l2, l3, z4);
    HandleKeyKeeps(s1, [k]);
    HandleBatchKeeps(s1, [k]);
    hide HandleKey, Inv, Waiters;
    var r := HandleKey(s1, k);
    assert [k][1..] == [];
    assert HandleBatch(s1, [k]) == r;
    assert Handle(st) == Handle(r) == r;
  }

  lemma PassIs(st: State, k: Key, z1: ClientId, l2: ClientId, l3: ClientId, z4: ClientId)
    requires Inv(st, [k], None) && st.queue == [] && Waiters(st, k) == [z1, l2, l3, z4]
    requires IsList(st, k) && |st.db[k].items| == 1
    requires HasKind(st, z1, ZSetKind) && IsListClient(st, l2) && IsListClient(st, l3) && HasKind(st, z4, ZSetKind)
    requires st.clients[l2].target.None?
    ensures var r := HandleKey(st, k); Waiters(r, k) == [l3, z4, z1] && r.queue == []
  {
    hide ServeLoop, Linked;
    var s1 := st.(ready := st.ready - {k});
    SameIndex(st, s1);
    OnePass(s1, k, z1, l2, l3, z4);
    ServeLoopIsList(s1, k, 4);
  }

  const Idle := Client(None, {}, None, Head, Head)

  function WaitFor(c: ClientId, t: Kind): Event { Block(c, t, [0], None, Head, Head) }

  function FourClients(a: Client, b: Client, c: Client, d: Client): map<ClientId, Client> {
    map[1 := a, 2 := b, 3 := c, 4 := d]
  }

  lemma WaitsNow(st: State, c: ClientId, t: Kind)
    requires c in st.clients && st.clients[c] == Idle && st.db == map[]
    ensures Enabled(st, WaitFor(c, t)) && Waiters(Next(st, WaitFor(c, t)), 0) == Waiters(st, 0) + [c]
    ensures var r := Next(st, WaitFor(c, t));
            r == st.(clients := r.clients, waiting := r.waiting, counts := r.counts) &&
            r.clients == st.clients[c := Client(Some(t), {0}, None, Head, Head)] &&
            r.counts == st.counts[t := CountOf(st, t) + 1]
  {
    BlockResult(st, c, t, [0], None, Head, Head);
    BlockWaiters(st, c, t, [0], None, Head, Head, 0);
    assert KeySet([0]) == {0};
    hide BlockForKeys;
  }

  const Connected: seq<Event> := [Connect(1), Connect(2), Connect(3), Connect(4)]

  const Queued: seq<Event> := [WaitFor(1, ZSetKind), WaitFor(2, ListKind), WaitFor(3, ListKind), WaitFor(4, ZSetKind)]

  const Crowd := Initial.(clients := FourClients(Idle, Idle, Idle, Idle))

  lemma StepOn(st: State, run: seq<Event>, e: Event)
    requires IsRun(st, run) && Enabled(Final(st, run), e)
    ensures IsRun(st, run + [e]) && Final(st, run + [e]) == Next(Final(st, run), e)
  {
    RunConcat(st, run, [e]);
    OneStep(Final(st, run), e);
  }

  lemma OneStep(st: State, e: Event)
    requires Enabled(st, e)
    ensures IsRun(st, [e]) && Final(st, [e]) == Next(st, e)
  {
    hide Enabled, Next;
    assert [e][1..] == [];
    assert IsRun(Next(st, e), []) && Final(Next(st, e), []) == Next(st, e);
  }

  lemma {:induction false} RunConcat(st: State, a: seq<Event>, b: seq<Event>)
    requires IsRun(st, a) && IsRun(Final(st, a), b)
    ensures IsRun(st, a + b) && Final(st, a + b) == Final(Final(st, a), b)
    decreases |a|
  {
    hide Next, Enabled;
    if a == [] {
      assert a + b == b;
    } else {
      assert (a + b)[1..] == a[1..] + b;
      RunConcat(Next(st, a[0]), a[1..], b);
    }
  }

  lemma FourConnect()
    ensures IsRun(Initial, Connected) && Final(Initial, Connected) == Crowd
  {
    var s1 := Next(Initial, Connect(1));
    var s2 := Next(s1, Connect(2));
    var s3 := Next(s2, Connect(3));
    var s4 := Next(s3, Connect(4));
    assert s4 == Crowd;
    FourSteps(Initial, Connect(1), Connect(2), Connect(3), Connect(4));
  }

  function Waits(t: Kind): Client { Client(Some(t), {0}, None, Head, Head) }

  predicate Crowded(st: State) {
    st.queue == [] && st.db == map[] && st.ready == {} && Waiters(st, 0) == [1, 2, 3, 4] &&
    st.clients == FourClients(Waits(ZSetKind), Waits(ListKind), Waits(ListKind), Waits(ZSetKind))
  }

  lemma FourWait()
    ensures IsRun(Crowd, Queued) && Crowded(Final(Crowd, Queued))
  {
    hide Enabled, Next, Waiters;
    NobodyWaits();
    WaitsNow(Crowd, 1, ZSetKind);
    var s1 := Next(Crowd, WaitFor(1, ZSetKind));
    WaitsNow(s1, 2, ListKind);
    var s2 := Next(s1, WaitFor(2, ListKind));
    WaitsNow(s2, 3, ListKind);
    var s3 := Next(s2, WaitFor(3, ListKind));
    WaitsNow(s3, 4, ZSetKind);
    var s4 := Next(s3, WaitFor(4, ZSetKind));
    assert [] + [1] + [2] + [3] + [4] == [1, 2, 3, 4];
    FourSteps(Crowd, Queued[0], Queued[1], Queued[2], Queued[3]);
  }

  lemma NobodyWaits()
    ensures Waiters(Crowd, 0) == []
  {
  }

  lemma FourSteps(st: State, a: Event, b: Event, c: Event, d: Event)
    requires Enabled(st, a) && Enabled(Next(st, a), b) && Enabled(Next(Next(st, a), b), c)
    requires Enabled(Next(Next(Next(st, a), b), c), d)
    ensures IsRun(st, [a, b, c, d]) && Final(st, [a, b, c, d]) == Next(Next(Next(Next(st, a), b), c), d)
  {
    hide Enabled, Next, IsRun, Final;
    ThreeSteps(st, a, b, c);
    StepOn(st, [a, b, c], d);
    assert [a, b, c] + [d] == [a, b, c, d];
  }

  /** After ten events from the empty server, client 4, which blocked last, stands ahead of client 1,
      which blocked first and waits for the same kind. */
  lemma LastOvertakesFirst()
    ensures var run := Connected + Queued + [PushOne(0, 7, Tail)] + [HandleReady];
            IsRun(Initial, run) && Waiters(Final(Initial, run), 0) == [3, 4, 1] &&
            HasKind(Final(Initial, run), 1, ZSetKind) && HasKind(Final(Initial, run), 4, ZSetKind)
  {
    hide Next, Handle, Inv, IsRun, Final;
    FourConnect();
    FourWait();
    RunConcat(Initial, Connected, Queued);
    var st := Final(Crowd, Queued);
    var run := Connected + Queued;
    InitialInv();
    RunKeeps(Initial, run);
    Pushed(st);
    StepOn(Initial, run, PushOne(0, 7, Tail));
    var s1 := Next(st, PushOne(0, 7, Tail));
    StepKeeps(st, PushOne(0, 7, Tail));
    OnePassHandled(s1, 0, 1, 2, 3, 4);
    HandleServes(s1);
    HandledNext(s1);
    StepOn(Initial, run + [PushOne(0, 7, Tail)], HandleReady);
  }

  lemma HandledNext(st: State)
    requires Inv(st, [], None)
    ensures Enabled(st, HandleReady) && Next(st, HandleReady) == Handle(st)
  {
  }

  lemma Pushed(st: State)
    requires Crowded(st) && Inv(st, [], None)
    ensures Enabled(st, PushOne(0, 7, Tail))
    ensures var r := Next(st, PushOne(0, 7, Tail));
            r.queue == [0] && IsList(r, 0) && |r.db[0].items| == 1 && Waiters(r, 0) == [1, 2, 3, 4] &&
            r.clients == st.clients
  {
    var s1 := SetList(st, 0, []);
    assert Waiters(st, 0)[1] == 2 && IsListClient(st, 2);
    assert ListWaits(s1, 0) by { assert 2 in Waiters(s1, 0) && IsListClient(s1, 2); }
    SignalWakes(s1, 0);
  }

  // ------------------------------------------------------------------ In place

  /** The lists, with the client taken off those of the given keys. */
  function RemoveFrom(waiting: map<Key, seq<ClientId>>, c: ClientId, keys: set<Key>): map<Key, seq<ClientId>> {
    map k | k in waiting && (k in keys ==> Without(waiting[k], c) != []) ::
      if k in keys then Without(waiting[k], c) else waiting[k]
  }

  lemma RemoveFromNone(waiting: map<Key, seq<ClientId>>, c: ClientId)
    ensures RemoveFrom(waiting, c, {}) == waiting
  {
  }

  lemma RemoveFromMore(waiting: map<Key, seq<ClientId>>, c: ClientId, keys: set<Key>, k: Key)
    requires k in waiting && k !in keys
    ensures k in RemoveFrom(waiting, c, keys)
    ensures RemoveFrom(RemoveFrom(waiting, c, keys), c, {k}) == RemoveFrom(waiting, c, keys + {k})
  {
  }

  /** A client is on the lists of its keys only. */
  lemma RemoveFromItsKeys(st: State, c: ClientId)
    requires IndexOk(st) && c in st.clients
    ensures RemoveFrom(st.waiting, c, st.clients[c].keys) == RemoveFromAll(st.waiting, c)
  {
    forall k | k in st.waiting { WithoutFacts(st.waiting[k], c); }
  }

  class Server {
    var clients: map<ClientId, Client>
    var waiting: map<Key, seq<ClientId>>
    var ready: set<Key>
    var queue: seq<Key>
    var counts: map<Kind, nat>
    var db: map<Key, Value>
    var replies: seq<Reply>

    function Value(): State
      reads this
    {
      State(clients, waiting, ready, queue, counts, db, replies)
    }

    method SignalKeyAsReady(k: Key, t: Kind)
      modifies this
      ensures Value() == Signal(old(Value()), k, t)
    {
      if (t !in counts || counts[t] == 0) && (ModuleKind !in counts || counts[ModuleKind] == 0) {
        return;
      }
      if k !in waiting || k in ready {
        return;
      }
      queue := queue + [k];
      ready := ready + {k};
    }

    method AddToLine(c: ClientId, k: Key)
      requires c in clients
      modifies this
      ensures c in clients && Value() == BlockOnKey(old(Value()), c, k)
    {
      if k in clients[c].keys {
        return;
      }
      clients := clients[c := clients[c].(keys := clients[c].keys + {k})];
      if k !in waiting {
        waiting := waiting[k := []];
      }
      waiting := waiting[k := waiting[k] + [c]];
    }

    method AddToLines(c: ClientId, keys: seq<Key>)
      requires c in clients
      modifies this
      ensures Value() == BlockOnKeys(old(Value()), c, keys)
    {
      hide BlockOnKey;
      for j := 0 to |keys|
        invariant c in clients && Value() == BlockOnKeys(old(Value()), c, keys[..j])
      {
        AddToLine(c, keys[j]);
        assert keys[..j + 1][..j] == keys[..j];
      }
      assert keys[..|keys|] == keys;
    }

    method BlockOn(c: ClientId, t: Kind, keys: seq<Key>, target: Option<Key>, from: Where, to: Where)
      requires c in clients
      modifies this
      ensures Value() == BlockForKeys(old(Value()), c, t, keys, target, from, to)
    {
      hide BlockOnKeys;
      clients := clients[c := clients[c].(target := target, from := from, to := to)];
      AddToLines(c, keys);
      clients := clients[c := clients[c].(kind := Some(t))];
      counts := counts[t := (if t in counts then counts[t] else 0) + 1];
    }

    method TakeOffLine(c: ClientId, k: Key)
      requires k in waiting
      modifies this`waiting
      ensures waiting == RemoveFrom(old(waiting), c, {k})
    {
      var rest := Without(waiting[k], c);
      waiting := waiting[k := rest];
      if rest == [] {
        waiting := waiting - {k};
      }
    }

    method UnblockWaitingData(c: ClientId)
      requires IndexOk(Value()) && c in clients
      modifies this`waiting, this`clients
      ensures waiting == RemoveFromAll(old(waiting), c)
      ensures clients == old(clients)[c := old(clients)[c].(keys := {}, target := None)]
    {
      ghost var was := waiting;
      var mine := clients[c].keys;
      var keys := mine;
      assert forall k | k in mine :: k in was;
      RemoveFromItsKeys(Value(), c);
      RemoveFromNone(waiting, c);
      hide IndexOk, RemoveFrom, RemoveFromAll;
      while keys != {}
        invariant keys <= mine
        invariant waiting == RemoveFrom(was, c, mine - keys)
        decreases |keys|
        modifies this`waiting
      {
        var k :| k in keys;
        RemoveFromMore(was, c, mine - keys, k);
        TakeOffLine(c, k);
        assert mine - (keys - {k}) == (mine - keys) + {k};
        keys := keys - {k};
      }
      assert mine - keys == mine;
      clients := clients[c := clients[c].(keys := {}, target := None)];
    }

    method Unblock(c: ClientId)
      requires IndexOk(Value()) && c in clients && clients[c].kind.Some?
      modifies this
      ensures Value() == UnblockClient(old(Value()), c)
    {
      var t := clients[c].kind.value;
      UnblockWaitingData(c);
      var n := if t in counts then counts[t] else 0;
      counts := counts[t := if n > 0 then n - 1 else 0];
      clients := clients[c := clients[c].(kind := None)];
    }

    /** The list that `k` holds, with an element taken from it for `c`. */
    method ServeBlockedOnList(k: Key, c: ClientId)
      requires IndexOk(Value()) && HasItems(Value(), k) && IsListClient(Value(), c)
      modifies this
      ensures Value() == ServeClient(old(Value()), k, c)
    {
      var target, from, to := clients[c].target, clients[c].from, clients[c].to;
      var v := Popped(db[k].items, from);
      db := db[k := ListValue(Rest(db[k].items, from))];
      if target.None? {
        replies := replies + [Reply(c, k, v, Taken)];
      } else {
        var d := target.value;
        if d in db && db[d].OtherValue? {
          replies := replies + [Reply(c, k, v, WrongType)];
          db := db[k := ListValue(Push(db[k].items, v, from))];
        } else {
          if d !in db {
            db := db[d := ListValue([])];
            SignalKeyAsReady(d, ListKind);
          }
          db := db[d := ListValue(Push(db[d].items, v, to))];
          replies := replies + [Reply(c, k, v, Moved)];
        }
      }
      ghost var m := old(MoveElement(Value(), k, c));
      MoveFrame(old(Value()), k, c);
      assert Value() == m.(replies := old(replies) + [old(ReplyTo(Value(), k, c))]);
      SameIndex(old(Value()), Value());
      Unblock(c);
    }

    /** Never looks past the end of the line, although it shrinks and may go away as clients are served. */
    method ServeClientsBlockedOnListKey(k: Key)
      requires IndexOk(Value()) && IsList(Value(), k)
      modifies this
      ensures Value() == ServeKey(old(Value()), k)
    {
      ghost var st := Value();
      hide IndexOk, ServeClient;
      ServeLoopIsList(st, k, |Waiters(st, k)|);
      if k in waiting {
        var numClients: nat := |waiting[k]|;
        while numClients > 0
          invariant IndexOk(Value()) && IsList(Value(), k) && numClients <= |Waiters(Value(), k)|
          invariant ServeLoop(Value(), k, numClients) == ServeLoop(st, k, |Waiters(st, k)|)
          decreases numClients
        {
          var receiver := waiting[k][0];
          if !(receiver in clients && clients[receiver].kind == Some(ListKind)) {
            RotateIndex(Value(), k);
            waiting := waiting[k := waiting[k][1..] + [receiver]];
          } else if db[k].items != [] {
            ServeFirst(Value(), k);
            ServeBlockedOnList(k, receiver);
          } else {
            assert ServeLoop(Value(), k, numClients) == Value();
            break;
          }
          numClients := numClients - 1;
        }
      }
      assert Value() == ServeLoop(st, k, |Waiters(st, k)|);
      if db[k].items == [] {
        db := db - {k};
      }
    }

    method HandleReadyKey(k: Key)
      requires IndexOk(Value())
      modifies this
      ensures Value() == HandleKey(old(Value()), k)
    {
      ready := ready - {k};
      SameIndex(old(Value()), Value());
      if k in db && db[k].ListValue? {
        ServeClientsBlockedOnListKey(k);
      }
    }

    method HandleClientsBlockedOnKeys()
      requires Inv(Value(), [], None)
      modifies this
      ensures Value() == Handle(old(Value()))
    {
      ghost var st := Value();
      hide HandleKey, WokenBut;
      while queue != []
        invariant Inv(Value(), [], None) && Handle(Value()) == Handle(st)
        decreases Blocked(Value()), |queue|
      {
        TakeQueue(Value());
        var l := queue;
        queue := [];
        ghost var first, all := Value(), l;
        HandleBatchKeeps(first, all);
        hide Inv, Blocked;
        while l != []
          invariant Inv(Value(), l, None) && HandleBatch(Value(), l) == HandleBatch(first, all)
          decreases |l|
        {
          assert IndexOk(Value()) by { InvIndex(Value(), l, None); }
          HandleKeyKeeps(Value(), l);
          HandleReadyKey(l[0]);
          l := l[1..];
        }
      }
    }
  }

  lemma InvIndex(st: State, batch: seq<Key>, serving: Option<Key>)
    requires Inv(st, batch, serving)
    ensures IndexOk(st)
  {
  }
}
