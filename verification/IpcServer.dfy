/** State snapshots for local subscribers: each has one slot that always holds the newest
    snapshot it has not read. */
module IpcServer {
  import opened Common

  /** A connection. `slot` is its one-place channel, `received` what its reader has taken;
      snapshots are known by their revision. */
  datatype Client = Client(subscribed: bool, closed: bool, slot: Option<nat>, received: seq<nat>)

  /** Everything a reader has got or will get next. */
  function Stream(c: Client): seq<nat> {
    c.received + if c.slot.Some? then [c.slot.value] else []
  }

  ghost predicate Increasing(s: seq<nat>) {
    forall i, k :: 0 <= i < k < |s| ==> s[i] < s[k]
  }

  ghost predicate UpTo(s: seq<nat>, revision: nat) {
    Increasing(s) && forall i :: 0 <= i < |s| ==> s[i] <= revision
  }

  /** The reader takes the waiting snapshot, if there is one. */
  function Taken(c: Client): (r: Client)
    ensures Stream(r) == Stream(c)
  {
    if c.slot.Some? then c.(slot := None, received := c.received + [c.slot.value]) else c
  }

  /** Offers a snapshot without waiting. The reader may take what is there before each of
      the three channel steps; `takes` says where it does. */
  method Offer(c: Client, revision: nat, takes: (bool, bool, bool)) returns (r: Client)
    requires Below(Stream(c), revision)
    ensures r.subscribed == c.subscribed && r.closed == c.closed
    ensures UpTo(Stream(r), revision) && c.received <= r.received
    ensures Stream(c) == [] && c.subscribed && !c.closed ==> Stream(r) == [revision]
    ensures c.subscribed && !c.closed ==> Stream(r) != [] && Stream(r)[|Stream(r)| - 1] == revision
    ensures !c.subscribed || c.closed ==> r == c
  {
    if !c.subscribed || c.closed {
      return c;
    }
    r := if takes.0 then Taken(c) else c;
    if r.slot == None {
      Push(r, revision);
      r := r.(slot := Some(revision));
      return;
    }
    r := if takes.1 then Taken(r) else r;
    if r.slot.Some? {
      Drop(r, revision);
      r := r.(slot := None);
    }
    r := if takes.2 then Taken(r) else r;
    // Only the reader could have touched the slot since, and it only empties it.
    if r.slot == None {
      Push(r, revision);
      r := r.(slot := Some(revision));
    }
  }

  ghost predicate Below(s: seq<nat>, revision: nat) {
    Increasing(s) && forall i :: 0 <= i < |s| ==> s[i] < revision
  }

  lemma Push(c: Client, revision: nat)
    requires c.slot == None && Below(Stream(c), revision)
    ensures Stream(c.(slot := Some(revision))) == Stream(c) + [revision] && UpTo(Stream(c) + [revision], revision)
  {
  }

  lemma Drop(c: Client, revision: nat)
    requires c.slot.Some? && Below(Stream(c), revision)
    ensures Below(Stream(c.(slot := None)), revision)
  {
    assert Stream(c.(slot := None)) == Stream(c)[..|Stream(c)| - 1];
  }

  /** A snapshot's revision and the state it shows. */
  datatype Snapshot = Snapshot(revision: nat, state: nat)

  datatype Event =
    | Publish(state: nat, takes: nat -> (bool, bool, bool), accepted: bool)
    | Subscribe(subscribed: bool, first: (bool, bool, bool))
    | Take(i: nat)
    | Close(i: nat)

  class Server {
    /** The service's last published snapshot and the server's current one. */
    var published: Snapshot
    var snapshot: Snapshot
    var clients: seq<Client>

    constructor (initial: Snapshot)
      ensures Valid() && clients == [] && snapshot == initial
    {
      published, snapshot, clients := initial, initial, [];
    }

    /** Every subscriber's snapshots have strictly increasing revisions, and the last one it
        has got or has waiting is the current one. */
    ghost predicate Valid()
      reads this
    {
      && published == snapshot
      && forall i :: 0 <= i < |clients| ==> UpToDate(clients[i], snapshot.revision)
    }

    /** Publishes the service's state if it differs. The revision grows by one. */
    method Publish(state: nat, takes: nat -> (bool, bool, bool), accepted: bool)
      requires Valid()
      modifies this
      ensures Valid() && |clients| == |old(clients)|
      ensures state == old(snapshot).state || !accepted ==> snapshot == old(snapshot) && clients == old(clients)
      ensures state != old(snapshot).state && accepted ==> snapshot == Snapshot(old(snapshot).revision + 1, state)
      ensures forall i :: 0 <= i < |clients| ==> old(clients)[i].received <= clients[i].received
    {
      hide UpToDate;
      if state == published.state || !accepted {
        return;
      }
      var next := Snapshot(published.revision + 1, state);
      var offered: seq<Client>, current := [], clients;
      for k := 0 to |current|
        modifies {}
        invariant |offered| == k
        invariant forall i :: 0 <= i < k ==> UpToDate(offered[i], next.revision) && current[i].received <= offered[i].received
      {
        var c := Advance(current[k], next.revision, takes(k));
        offered := offered + [c];
      }
      snapshot, clients, published := next, offered, next;
    }

    /** A new connection first gets the current snapshot. */
    method AddClient(subscribed: bool, takes: (bool, bool, bool))
      requires Valid()
      modifies this`clients
      ensures Valid() && |clients| == |old(clients)| + 1 && clients[..|old(clients)|] == old(clients)
      ensures subscribed ==> Stream(clients[|old(clients)|]) == [snapshot.revision]
    {
      var c := Client(subscribed, false, None, []);
      c := Offer(c, snapshot.revision, takes);
      clients := clients + [c];
    }

    /** A reader gets its next snapshot, or a connection ends. */
    method Read(i: nat)
      requires Valid()
      modifies this`clients
      ensures Valid() && |clients| == |old(clients)|
      ensures i < |clients| ==> clients[i] == Taken(old(clients)[i])
    {
      if i < |clients| {
        clients := clients[i := Taken(clients[i])];
      }
    }

    method Close(i: nat)
      requires Valid()
      modifies this`clients
      ensures Valid() && |clients| == |old(clients)|
      ensures i < |clients| ==> clients[i] == old(clients)[i].(closed := true)
    {
      if i < |clients| {
        clients := clients[i := clients[i].(closed := true)];
      }
    }

    /** Every interleaving of the one producer, new subscribers and slow readers. */
    method Run(events: seq<Event>)
      requires Valid()
      modifies this
      ensures Valid()
    {
      for k := 0 to |events|
        invariant Valid()
      {
        match events[k]
        case Publish(state, takes, accepted) => Publish(state, takes, accepted);
        case Subscribe(subscribed, first) => AddClient(subscribed, first);
        case Take(i) => Read(i);
        case Close(i) => Close(i);
      }
    }
  }

  /** Brings one connection from a snapshot to the next. */
  method Advance(c: Client, revision: nat, takes: (bool, bool, bool)) returns (r: Client)
    requires revision > 0 && UpToDate(c, revision - 1)
    ensures UpToDate(r, revision) && c.received <= r.received
  {
    hide Increasing, Stream;
    r := Offer(c, revision, takes);
  }

  /** What a connection is owed: increasing revisions and, while it is open, the newest. */
  ghost predicate UpToDate(c: Client, revision: nat) {
    && UpTo(Stream(c), revision)
    && (c.subscribed && !c.closed ==> Stream(c) != [] && Stream(c)[|Stream(c)| - 1] == revision)
    && (!c.subscribed ==> Stream(c) == [])
  }
}
