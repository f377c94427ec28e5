/** The relay connections of a call (internal/voip/transport/sctprelay.go).  The
    pointer to a connection is its place in a table of all connections dialed. */
module RelayTransport {
  import opened Bytes
  import opened Wrappers

  const MAX_DIAL_RELAYS: nat := 3
  const MAX_OPEN_RELAYS: nat := 2
  const WA_RELAY_PORT: nat := 3480

  datatype RelayConfig = RelayConfig(
    ip: string, port: nat, token: string, authToken: string, rawAuthToken: seq<byte>, rawToken: Option<seq<byte>>,
    key: string, relayID: int, name: string, authTokenID: string)

  /** What connID renders: address, port and, when there is one, the token id. */
  datatype ConnId = ConnId(ip: string, port: nat, authTokenID: string)

  datatype ConnState = Connecting | Open | Closed | Failed

  datatype Connection = Connection(id: ConnId, state: ConnState)

  datatype Relays = Relays(connections: map<ConnId, nat>, table: seq<Connection>) {
    /** A registered connection is registered under its own id. */
    ghost predicate Valid() {
      forall id :: id in connections ==> connections[id] < |table| && table[connections[id]].id == id
    }

    ghost function OpenIds(): set<ConnId>
      requires Valid()
    {
      set id | id in connections && table[connections[id]].state == Open
    }

    ghost predicate HasConnection()
      requires Valid()
    {
      OpenIds() != {}
    }
  }

  const NO_RELAYS: Relays := Relays(map[], [])

  // ------------------------------------------------------------------
  // The critical sections, as functions
  // ------------------------------------------------------------------

  /** connectToRelay registers the connection it is about to dial. */
  function Register(r: Relays, id: ConnId): (r': Relays)
    ensures r.Valid() ==> r'.Valid()
  {
    Relays(r.connections[id := |r.table|], r.table + [Connection(id, Connecting)])
  }

  /** OnOpen marks the connection open unless two are. */
  ghost function Opened(r: Relays, c: nat): (r': Relays)
    requires r.Valid() && c < |r.table|
    ensures r'.Valid()
  {
    if |r.OpenIds()| >= MAX_OPEN_RELAYS then r else r.(table := r.table[c := r.table[c].(state := Open)])
  }

  function Failing(r: Relays, c: nat): (r': Relays)
    requires c < |r.table|
    ensures r.Valid() ==> r'.Valid()
  {
    if r.table[c].state == Failed then r
    else Relays(r.connections - {r.table[c].id}, r.table[c := r.table[c].(state := Failed)])
  }

  function Closing(r: Relays, id: ConnId): (r': Relays)
    requires id in r.connections ==> r.connections[id] < |r.table|
    ensures r.Valid() ==> r'.Valid()
  {
    if id !in r.connections then r
    else
      var c := r.connections[id];
      Relays(r.connections - {id}, r.table[c := r.table[c].(state := Closed)])
  }

  function IdOf(rc: RelayConfig): ConnId {
    ConnId(rc.ip, if rc.port == 0 then WA_RELAY_PORT else rc.port, rc.authTokenID)
  }

  /** The configurations ConfigureRelays dials, when `dialed` connections count as
      dialed already. */
  function Dials(r: Relays, dialed: nat, rs: seq<RelayConfig>): (ds: seq<RelayConfig>)
    decreases |rs|
  {
    if rs == [] || dialed >= MAX_DIAL_RELAYS then []
    else if IdOf(rs[0]) in r.connections then Dials(r, dialed, rs[1..])
    else [rs[0].(port := IdOf(rs[0]).port)] + Dials(Register(r, IdOf(rs[0])), dialed + 1, rs[1..])
  }

  function RegisterAll(r: Relays, ds: seq<RelayConfig>): Relays
    decreases |ds|
  {
    if ds == [] then r else RegisterAll(Register(r, IdOf(ds[0])), ds[1..])
  }

  ghost function OpenAmong(r: Relays, ids: set<ConnId>): set<ConnId>
    requires r.Valid() && ids <= r.connections.Keys
  {
    set id | id in ids && r.table[r.connections[id]].state == Open
  }

  lemma CountOne(r: Relays, ids: set<ConnId>, id: ConnId)
    requires r.Valid() && ids <= r.connections.Keys && id in r.connections && id !in ids
    ensures |OpenAmong(r, ids + {id})|
         == |OpenAmong(r, ids)| + if r.table[r.connections[id]].state == Open then 1 else 0
  {
    if r.table[r.connections[id]].state == Open {
      assert OpenAmong(r, ids + {id}) == OpenAmong(r, ids) + {id};
    } else {
      assert OpenAmong(r, ids + {id}) == OpenAmong(r, ids);
    }
  }

  /** One turn of the loop of ConfigureRelays. */
  lemma DialNext(r: Relays, dialed: nat, rs: seq<RelayConfig>, i: nat)
    requires i < |rs| && dialed < MAX_DIAL_RELAYS
    ensures var id := IdOf(rs[i]);
            (Dials(r, dialed, rs[i..])
             == if id in r.connections then Dials(r, dialed, rs[i + 1..])
                else [rs[i].(port := id.port)] + Dials(Register(r, id), dialed + 1, rs[i + 1..]))
  {
    assert rs[i..][0] == rs[i] && rs[i..][1..] == rs[i + 1..];
  }

  lemma AppendOne<T>(a: seq<T>, x: T, b: seq<T>)
    ensures a + ([x] + b) == a + [x] + b
  {
  }

  class SctpRelayManager {
    var connections: map<ConnId, nat>
    var table: seq<Connection>

    function State(): Relays
      reads this
    {
      Relays(connections, table)
    }

    constructor ()
      ensures State() == NO_RELAYS
    {
      connections, table := map[], [];
    }

    method CountOpenLocked() returns (n: nat)
      requires State().Valid()
      ensures n == |State().OpenIds()|
    {
      n := 0;
      ghost var r := State();
      var left := connections.Keys;
      assert OpenAmong(r, connections.Keys - left) == {};
      while left != {}
        invariant left <= connections.Keys && n == |OpenAmong(r, connections.Keys - left)|
        decreases |left|
      {
        var id :| id in left;
        CountOne(r, connections.Keys - left, id);
        assert connections.Keys - (left - {id}) == connections.Keys - left + {id};
        if table[connections[id]].state == Open {
          n := n + 1;
        }
        left := left - {id};
      }
      assert r.OpenIds() == OpenAmong(r, connections.Keys - left);
    }

    method HasConnection() returns (has: bool)
      requires State().Valid()
      ensures has <==> State().HasConnection()
    {
      var left := connections.Keys;
      while left != {}
        invariant left <= connections.Keys
        invariant forall id :: id in connections && id !in left ==> table[connections[id]].state != Open
        decreases |left|
      {
        var id :| id in left;
        if table[connections[id]].state == Open {
          assert id in State().OpenIds();
          return true;
        }
        left := left - {id};
      }
      has := false;
      assert State().OpenIds() == {};
    }

    /** The connection is registered before it is dialed. */
    method ConnectToRelay(id: ConnId)
      requires State().Valid()
      modifies this
      ensures State() == Register(old(State()), id) && State().Valid()
    {
      table := table + [Connection(id, Connecting)];
      connections := connections[id := |table| - 1];
    }

    /** The OnOpen callback; the result says whether it goes on to report the connection. */
    method OnOpen(c: nat) returns (reports: bool)
      requires State().Valid() && c < |table|
      modifies `table
      ensures State() == Opened(old(State()), c) && State().Valid()
      ensures reports <==> |old(State()).OpenIds()| < MAX_OPEN_RELAYS
    {
      var open := CountOpenLocked();
      if open >= MAX_OPEN_RELAYS {
        return false;
      }
      table := table[c := table[c].(state := Open)];
      reports := true;
    }

    method FailConnection(c: nat)
      requires State().Valid() && c < |table|
      modifies this
      ensures State() == Failing(old(State()), c) && State().Valid()
    {
      if table[c].state == Failed {
        return;
      }
      table := table[c := table[c].(state := Failed)];
      connections := connections - {table[c].id};
    }

    method CloseConnection(id: ConnId)
      requires State().Valid()
      modifies this
      ensures State() == Closing(old(State()), id) && State().Valid()
    {
      if id !in connections {
        return;
      }
      var c := connections[id];
      table := table[c := table[c].(state := Closed)];
      connections := connections - {id};
    }

    method Cleanup()
      modifies this
      ensures State() == Relays(map[], old(table))
    {
      connections := map[];
    }

    /** The loop of ConfigureRelays before its `i`-th turn: `dials` have been dialed, and
        with what is still to come they make up `all`. */
    ghost predicate Configuring(r0: Relays, all: seq<RelayConfig>, relays: seq<RelayConfig>, i: nat, dialed: nat,
                                dials: seq<RelayConfig>)
      reads this
    {
      && i <= |relays| && State().Valid() && State() == RegisterAll(r0, dials)
      && all == dials + Dials(State(), dialed, relays[i..])
    }

    /** The loop body: a connection that is not known is dialed. */
    method Consider(relays: seq<RelayConfig>, i: nat, dialed: nat, dials: seq<RelayConfig>,
                    ghost r0: Relays, ghost all: seq<RelayConfig>)
      returns (dialed': nat, dials': seq<RelayConfig>)
      requires i < |relays| && dialed < MAX_DIAL_RELAYS && Configuring(r0, all, relays, i, dialed, dials)
      modifies this
      ensures Configuring(r0, all, relays, i + 1, dialed', dials')
    {
      dialed', dials' := dialed, dials;
      var r := relays[i];
      if r.port == 0 {
        r := r.(port := WA_RELAY_PORT);
      }
      DialNext(State(), dialed, relays, i);
      if IdOf(r) in connections {
        return;
      }
      dialed' := dialed + 1;
      RegisterSnoc(r0, dials, r);
      AppendOne(dials, r, Dials(Register(State(), IdOf(r)), dialed + 1, relays[i + 1..]));
      ConnectToRelay(IdOf(r));
      dials' := dials + [r];
    }

    /** Each dialed configuration is registered as it is dialed. */
    method ConfigureRelays(relays: seq<RelayConfig>) returns (dials: seq<RelayConfig>)
      requires State().Valid()
      modifies this
      ensures dials == Dials(old(State()), |old(connections)|, relays)
      ensures State() == RegisterAll(old(State()), dials) && State().Valid()
    {
      var dialed: nat := |connections|;
      dials := [];
      ghost var r0, all := State(), Dials(State(), dialed, relays);
      assert relays[0..] == relays && [] + all == all;
      var i := 0;
      while i < |relays| && dialed < MAX_DIAL_RELAYS
        invariant Configuring(r0, all, relays, i, dialed, dials)
      {
        dialed, dials := Consider(relays, i, dialed, dials, r0, all);
        i := i + 1;
      }
      assert dials + [] == dials;
    }
  }

  lemma {:induction false} RegisterSnoc(r: Relays, ds: seq<RelayConfig>, d: RelayConfig)
    ensures RegisterAll(r, ds + [d]) == Register(RegisterAll(r, ds), IdOf(d))
    decreases |ds|
  {
    if ds == [] {
      assert [] + [d] == [d] && [d][1..] == [];
    } else {
      assert (ds + [d])[0] == ds[0] && (ds + [d])[1..] == ds[1..] + [d];
      RegisterSnoc(Register(r, IdOf(ds[0])), ds[1..], d);
    }
  }

  /** All that are dialed are registered, and nothing else changes. */
  lemma {:induction false} AllRegistered(r: Relays, ds: seq<RelayConfig>, id: ConnId)
    ensures id in RegisterAll(r, ds).connections <==> id in r.connections || exists k :: 0 <= k < |ds| && IdOf(ds[k]) == id
    ensures |RegisterAll(r, ds).table| == |r.table| + |ds| && r.table <= RegisterAll(r, ds).table
    decreases |ds|
  {
    if ds != [] {
      AllRegistered(Register(r, IdOf(ds[0])), ds[1..], id);
      if k :| 0 <= k < |ds| && IdOf(ds[k]) == id {
        assert k > 0 ==> ds[1..][k - 1] == ds[k];
      }
    }
  }

  // ------------------------------------------------------------------
  // Which connections are open
  // ------------------------------------------------------------------

  /** A connection that opens is open if it is still the one registered under its id,
      unless two are open already. */
  lemma OpenAfterOpening(r: Relays, c: nat)
    requires r.Valid() && c < |r.table|
    ensures var id := r.table[c].id;
            Opened(r, c).OpenIds()
            == if |r.OpenIds()| >= 2 || id !in r.connections || r.connections[id] != c then r.OpenIds() else r.OpenIds() + {id}
  {
  }

  /** A connection that is dialed is registered and not open, whatever had its id. */
  lemma OpenAfterDialing(r: Relays, id: ConnId)
    requires r.Valid()
    ensures Register(r, id).OpenIds() == r.OpenIds() - {id} && Register(r, id).connections.Keys == r.connections.Keys + {id}
  {
  }

  /** One that fails takes its id off the register, the first time it does. */
  lemma OpenAfterFailing(r: Relays, c: nat)
    requires r.Valid() && c < |r.table|
    ensures var r', id := Failing(r, c), r.table[c].id;
            if r.table[c].state == Failed then r' == r
            else r'.OpenIds() == r.OpenIds() - {id} && r'.connections == r.connections - {id} && r'.table[c].state == Failed
  {
    var r', id := Failing(r, c), r.table[c].id;
    if r.table[c].state != Failed {
      assert forall other :: other in r'.connections ==> r'.connections[other] != c;
    }
  }

  /** One that is closed is taken off too, and is closed if it was there. */
  lemma OpenAfterClosing(r: Relays, id: ConnId)
    requires r.Valid()
    ensures var r' := Closing(r, id);
            && r'.OpenIds() == r.OpenIds() - {id} && r'.connections == r.connections - {id}
            && (id in r.connections ==> r'.table[r.connections[id]].state == Closed)
  {
    var r' := Closing(r, id);
    if id in r.connections {
      assert forall other :: other in r'.connections ==> r'.connections[other] != r.connections[id];
    }
  }

  /** Connections are told apart by address, port, which is 3480 by default, and token id. */
  lemma SameIdIff(a: RelayConfig, b: RelayConfig)
    ensures IdOf(a) == IdOf(b) <==>
      && a.ip == b.ip && a.authTokenID == b.authTokenID
      && (a.port == b.port || {a.port, b.port} == {0, 3480})
  {
    assert {a.port, b.port} == {0, 3480} <==> (a.port == 0 && b.port == 3480) || (a.port == 3480 && b.port == 0) by {
      if {a.port, b.port} == {0, 3480} {
        assert 0 in {a.port, b.port} && 3480 in {a.port, b.port};
      }
      if a.port == 3480 && b.port == 0 {
        assert {a.port, b.port} == {0, 3480};
      }
    }
  }

  // ------------------------------------------------------------------
  // No more than two open
  // ------------------------------------------------------------------

  ghost predicate Capped(r: Relays) {
    r.Valid() && |r.OpenIds()| <= MAX_OPEN_RELAYS
  }

  lemma FewerOpen(r: Relays, r': Relays)
    requires Capped(r) && r'.Valid() && r'.OpenIds() <= r.OpenIds()
    ensures Capped(r')
  {
    SubsetSmaller(r'.OpenIds(), r.OpenIds());
  }

  lemma {:induction false} SubsetSmaller<T>(a: set<T>, b: set<T>)
    requires a <= b
    ensures |a| <= |b|
    decreases |a|
  {
    if a != {} {
      var x :| x in a;
      SubsetSmaller(a - {x}, b - {x});
    }
  }

  lemma RegisterCapped(r: Relays, id: ConnId)
    requires Capped(r)
    ensures Capped(Register(r, id))
  {
    FewerOpen(r, Register(r, id));
  }

  lemma OpenedCapped(r: Relays, c: nat)
    requires Capped(r) && c < |r.table|
    ensures Capped(Opened(r, c))
  {
    var r' := Opened(r, c);
    SubsetSmaller(r'.OpenIds(), r.OpenIds() + {r.table[c].id});
  }

  lemma FailingCapped(r: Relays, c: nat)
    requires Capped(r) && c < |r.table|
    ensures Capped(Failing(r, c))
  {
    FewerOpen(r, Failing(r, c));
  }

  lemma ClosingCapped(r: Relays, id: ConnId)
    requires Capped(r)
    ensures Capped(Closing(r, id))
  {
    FewerOpen(r, Closing(r, id));
  }

  // ------------------------------------------------------------------
  // What is dialed
  // ------------------------------------------------------------------

  function FirstOf(rs: seq<RelayConfig>, n: nat): seq<RelayConfig> {
    if |rs| <= n then rs else rs[..n]
  }

  lemma FirstOfCons(rs: seq<RelayConfig>, n: nat)
    requires rs != []
    ensures FirstOf(rs, n + 1) == [rs[0]] + FirstOf(rs[1..], n)
  {
  }

  /** Each configuration has a port and an id that is new when its turn comes. */
  predicate AllNew(known: set<ConnId>, rs: seq<RelayConfig>)
    decreases |rs|
  {
    rs == [] || (rs[0].port != 0 && IdOf(rs[0]) !in known && AllNew(known + {IdOf(rs[0])}, rs[1..]))
  }

  lemma KeysAfter(r: Relays, id: ConnId)
    ensures Register(r, id).connections.Keys == r.connections.Keys + {id}
  {
  }

  lemma DialFirst(r: Relays, dialed: nat, rs: seq<RelayConfig>, more: seq<RelayConfig>)
    requires rs != [] && dialed < MAX_DIAL_RELAYS && IdOf(rs[0]) !in r.connections && rs[0].port != 0
    requires more == Dials(Register(r, IdOf(rs[0])), dialed + 1, rs[1..])
    requires more == FirstOf(rs[1..], MAX_DIAL_RELAYS - dialed - 1)
    ensures Dials(r, dialed, rs) == FirstOf(rs, MAX_DIAL_RELAYS - dialed)
  {
    assert rs[0].(port := IdOf(rs[0]).port) == rs[0];
    FirstOfCons(rs, MAX_DIAL_RELAYS - dialed - 1);
  }

  lemma {:induction false} DialsUnknown(r: Relays, dialed: nat, rs: seq<RelayConfig>)
    requires dialed <= MAX_DIAL_RELAYS && AllNew(r.connections.Keys, rs)
    ensures Dials(r, dialed, rs) == FirstOf(rs, MAX_DIAL_RELAYS - dialed)
    decreases |rs|
  {
    if rs != [] && dialed < MAX_DIAL_RELAYS {
      var r' := Register(r, IdOf(rs[0]));
      KeysAfter(r, IdOf(rs[0]));
      DialsUnknown(r', dialed + 1, rs[1..]);
      DialFirst(r, dialed, rs, Dials(r', dialed + 1, rs[1..]));
    }
  }

  /** What is dialed is what was given, with the port 3480 where there was none. */
  lemma {:induction false} DialsAreGiven(r: Relays, dialed: nat, rs: seq<RelayConfig>)
    ensures forall d :: d in Dials(r, dialed, rs) ==>
      d.port != 0 && exists k :: 0 <= k < |rs| && d == rs[k].(port := if rs[k].port == 0 then 3480 else rs[k].port)
    decreases |rs|
  {
    if rs != [] {
      var rest := rs[1..];
      assert forall k :: 0 <= k < |rest| ==> rest[k] == rs[k + 1];
      DialsAreGiven(r, dialed, rest);
      DialsAreGiven(Register(r, IdOf(rs[0])), dialed + 1, rest);
    }
  }

  /** A manager never dials beyond its limit, and dials nothing it already knows. */
  lemma {:induction false} DialsWithinLimit(r: Relays, dialed: nat, rs: seq<RelayConfig>)
    ensures dialed + |Dials(r, dialed, rs)| <= if dialed <= MAX_DIAL_RELAYS then MAX_DIAL_RELAYS else dialed
    ensures forall d :: d in Dials(r, dialed, rs) ==> IdOf(d) !in r.connections
    decreases |rs|
  {
    if rs != [] && dialed < MAX_DIAL_RELAYS {
      if IdOf(rs[0]) in r.connections {
        DialsWithinLimit(r, dialed, rs[1..]);
      } else {
        DialsWithinLimit(Register(r, IdOf(rs[0])), dialed + 1, rs[1..]);
      }
    }
  }
}
