/** Which relays of a call are dialed: sorted by round trip time
    (internal/voip/signaling/relayack.go:165-179), one for each address
    (internal/voip/call/callmanager_relay.go:38-64), the first three
    (internal/voip/transport/sctprelay.go:128-157). */
module RelayChoice {
  import opened Bytes
  import opened RelayTransport
  import opened Wrappers

  datatype Endpoint = Endpoint(
    ip: string, port: int, token: string, authToken: string, rawAuthToken: seq<byte>, rawToken: Option<seq<byte>>,
    key: string, relayID: int, protocol: int, c2rRtt: Option<int>, relayName: string, authTokenID: string)

  /** An endpoint and its place in the announcement. */
  datatype Announced = Announced(ep: Endpoint, pos: nat)

  // ------------------------------------------------------------------
  // Sorting
  // ------------------------------------------------------------------

  /** The comparison given to sort.SliceStable. */
  predicate Less(a: Endpoint, b: Endpoint) {
    if a.c2rRtt.None? then false
    else if b.c2rRtt.None? then true
    else a.c2rRtt.value < b.c2rRtt.value
  }

  /** The order a stable sort gives: less first, ties as announced. */
  predicate Before(a: Announced, b: Announced) {
    Less(a.ep, b.ep) || (!Less(b.ep, a.ep) && a.pos < b.pos)
  }

  predicate Ordered(s: seq<Announced>) {
    forall i, j :: 0 <= i < j < |s| ==> Before(s[i], s[j])
  }

  predicate DistinctIps(s: seq<Announced>) {
    forall i, j :: 0 <= i < j < |s| ==> s[i].ep.ip != s[j].ep.ip
  }

  function Insert(x: Announced, s: seq<Announced>): seq<Announced> {
    if s == [] then [x] else if Before(x, s[0]) then [x] + s else [s[0]] + Insert(x, s[1..])
  }

  /** sortRelaysByRtt of the first `n` endpoints. */
  function Sorted(es: seq<Endpoint>, n: nat): seq<Announced>
    requires n <= |es|
  {
    if n == 0 then [] else Insert(Announced(es[n - 1], n - 1), Sorted(es, n - 1))
  }

  lemma {:induction false} InsertMembers(x: Announced, s: seq<Announced>, a: Announced)
    ensures a in Insert(x, s) <==> a == x || a in s
  {
    if s != [] && !Before(x, s[0]) {
      InsertMembers(x, s[1..], a);
      assert s == [s[0]] + s[1..];
    }
  }

  lemma {:induction false} InsertOrdered(x: Announced, s: seq<Announced>)
    requires Ordered(s) && forall a :: a in s ==> a.pos != x.pos
    ensures Ordered(Insert(x, s))
  {
    if s != [] && !Before(x, s[0]) {
      var rest := Insert(x, s[1..]);
      InsertOrdered(x, s[1..]);
      forall j | 0 <= j < |rest| ensures Before(s[0], rest[j]) {
        InsertMembers(x, s[1..], rest[j]);
      }
    }
  }

  lemma {:induction false} SortedMembers(es: seq<Endpoint>, n: nat, a: Announced)
    requires n <= |es|
    ensures a in Sorted(es, n) <==> a.pos < n && a.ep == es[a.pos]
  {
    if n > 0 {
      SortedMembers(es, n - 1, a);
      InsertMembers(Announced(es[n - 1], n - 1), Sorted(es, n - 1), a);
    }
  }

  lemma {:induction false} SortedOrdered(es: seq<Endpoint>, n: nat)
    requires n <= |es|
    ensures Ordered(Sorted(es, n))
  {
    if n > 0 {
      SortedOrdered(es, n - 1);
      forall a | a in Sorted(es, n - 1) ensures a.pos != n - 1 {
        SortedMembers(es, n - 1, a);
      }
      InsertOrdered(Announced(es[n - 1], n - 1), Sorted(es, n - 1));
    }
  }

  lemma HasFirst(t: seq<Announced>)
    requires t != []
    ensures t[0] in t
  {
  }

  /** There is only one such arrangement, so any stable sort gives it. */
  lemma {:induction false} OnlyOneOrder(s: seq<Announced>, t: seq<Announced>)
    requires Ordered(s) && Ordered(t) && forall a :: a in s <==> a in t
    ensures s == t
    decreases |s|
  {
    if s == [] {
      if t != [] {
        HasFirst(t);
      }
    } else {
      assert s[0] in t && t != [] && t[0] in s;
      var i, j :| 0 <= i < |t| && t[i] == s[0] && 0 <= j < |s| && s[j] == t[0];
      assert s[0] == t[0];
      forall a ensures a in s[1..] <==> a in t[1..] {
        if a in s[1..] {
          assert Before(s[0], a) && a in s && a in t && a != t[0];
          assert t == [t[0]] + t[1..];
        }
        if a in t[1..] {
          assert Before(t[0], a) && a in t && a in s && a != s[0];
          assert s == [s[0]] + s[1..];
        }
      }
      OnlyOneOrder(s[1..], t[1..]);
      assert s == [s[0]] + s[1..] && t == [t[0]] + t[1..];
    }
  }

  /** A known round trip time comes before an unknown one and a shorter one before a longer;
      the rest stays as announced. */
  lemma BeforeIff(a: Announced, b: Announced)
    ensures var x, y := a.ep.c2rRtt, b.ep.c2rRtt;
            Before(a, b) <==>
              || (x.Some? && y.None?) || (x.Some? && y.Some? && x.value < y.value)
              || (x == y && a.pos < b.pos)
  {
  }

  // ------------------------------------------------------------------
  // One for each address
  // ------------------------------------------------------------------

  predicate Usable(ep: Endpoint) {
    ep.protocol == 0 && ep.key != "" && ep.rawToken.Some?
  }

  function Config(ep: Endpoint): RelayConfig {
    RelayConfig(ep.ip, 3478, ep.token, ep.authToken, ep.rawAuthToken, ep.rawToken, ep.key,
                ep.relayID, if ep.relayName == "" then ep.ip else ep.relayName, ep.authTokenID)
  }

  /** The usable endpoints of `s` whose address is not in `seen` nor came before. */
  function Pick(seen: set<string>, s: seq<Announced>): (picked: seq<Announced>)
    decreases |s|
  {
    if s == [] then []
    else if Usable(s[0].ep) && s[0].ep.ip !in seen then [s[0]] + Pick(seen + {s[0].ep.ip}, s[1..])
    else Pick(seen, s[1..])
  }

  function Configs(s: seq<Announced>): (cs: seq<RelayConfig>)
    ensures |cs| == |s|
  {
    seq(|s|, i requires 0 <= i < |s| => Config(s[i].ep))
  }

  method BuildRelayConfigs(endpoints: seq<Announced>) returns (relays: seq<RelayConfig>)
    ensures relays == Configs(Pick({}, endpoints))
  {
    var seen: set<string> := {};
    relays := [];
    ghost var picked: seq<Announced> := [];
    assert endpoints[0..] == endpoints;
    for i := 0 to |endpoints|
      invariant relays == Configs(picked)
      invariant Pick({}, endpoints) == picked + Pick(seen, endpoints[i..])
    {
      var ep := endpoints[i].ep;
      assert endpoints[i..][0] == endpoints[i] && endpoints[i..][1..] == endpoints[i + 1..];
      if ep.protocol != 0 {
        continue;
      }
      if ep.key == "" || !ep.rawToken.Some? {
        continue;
      }
      if ep.ip in seen {
        continue;
      }
      seen := seen + {ep.ip};
      var name := ep.relayName;
      if name == "" {
        name := ep.ip;
      }
      relays := relays + [RelayConfig(ep.ip, 3478, ep.token, ep.authToken, ep.rawAuthToken, ep.rawToken, ep.key,
                                     ep.relayID, name, ep.authTokenID)];
      AppendOne(picked, endpoints[i], Pick(seen, endpoints[i + 1..]));
      picked := picked + [endpoints[i]];
    }
    assert picked + [] == picked;
  }

  /** What is picked from an ordered list: of each address not seen, the usable
      endpoint that no other usable one of that address is before. */
  lemma {:induction false} PickIff(seen: set<string>, s: seq<Announced>, a: Announced)
    requires Ordered(s)
    ensures a in Pick(seen, s) <==>
      a in s && Usable(a.ep) && a.ep.ip !in seen
      && forall b :: b in s && b != a && Usable(b.ep) && b.ep.ip == a.ep.ip ==> Before(a, b)
    decreases |s|
  {
    if s != [] {
      var x, rest := s[0], s[1..];
      assert s == [x] + rest;
      assert forall b :: b in rest ==> b != x && Before(x, b);
      PickIff(if Usable(x.ep) && x.ep.ip !in seen then seen + {x.ep.ip} else seen, rest, a);
    }
  }

  lemma {:induction false} PickOrdered(seen: set<string>, s: seq<Announced>)
    requires Ordered(s)
    ensures Ordered(Pick(seen, s))
    ensures DistinctIps(Pick(seen, s))
    decreases |s|
  {
    if s != [] {
      var take := Usable(s[0].ep) && s[0].ep.ip !in seen;
      var seen' := if take then seen + {s[0].ep.ip} else seen;
      PickOrdered(seen', s[1..]);
      var rest := Pick(seen', s[1..]);
      forall j | 0 <= j < |rest| ensures Before(s[0], rest[j]) && rest[j].ep.ip !in seen' {
        PickIff(seen', s[1..], rest[j]);
      }
    }
  }

  lemma {:induction false} PickCovers(seen: set<string>, s: seq<Announced>, a: Announced) returns (k: nat)
    requires a in s && Usable(a.ep) && a.ep.ip !in seen
    ensures k < |Pick(seen, s)| && Pick(seen, s)[k].ep.ip == a.ep.ip
    decreases |s|
  {
    if Usable(s[0].ep) && s[0].ep.ip !in seen {
      if s[0].ep.ip == a.ep.ip {
        k := 0;
      } else {
        assert s == [s[0]] + s[1..];
        k := PickCovers(seen + {s[0].ep.ip}, s[1..], a);
        k := k + 1;
      }
    } else {
      assert s == [s[0]] + s[1..];
      k := PickCovers(seen, s[1..], a);
    }
  }

  /** An endpoint can be used when it speaks protocol 0 and has a key and a token. */
  lemma UsableIff(ep: Endpoint)
    ensures Usable(ep) <==> ep.protocol == 0 && ep.key != "" && ep.rawToken != None
  {
  }

  /** Its configuration carries its tokens, the fixed port and a name, its address by
      default; and so differs from that of any endpoint that differs in one of these. */
  lemma ConfigIs(ep: Endpoint)
    ensures var c := Config(ep);
            && c.ip == ep.ip && c.port == 3478 && c.key == ep.key && c.relayID == ep.relayID && c.authTokenID == ep.authTokenID
            && c.token == ep.token && c.authToken == ep.authToken && c.rawToken == ep.rawToken && c.rawAuthToken == ep.rawAuthToken
            && c.name == (if ep.relayName != "" then ep.relayName else ep.ip)
  {
  }

  // ------------------------------------------------------------------
  // What is dialed
  // ------------------------------------------------------------------

  /** The endpoints configured for an announcement. */
  function Chosen(es: seq<Endpoint>): seq<Announced> {
    Pick({}, Sorted(es, |es|))
  }

  /** Endpoint `i` is the best usable one of its address. */
  ghost predicate BestOfAddress(es: seq<Endpoint>, i: nat)
    requires i < |es|
  {
    && Usable(es[i])
    && forall j :: 0 <= j < |es| && j != i && Usable(es[j]) && es[j].ip == es[i].ip ==>
         Before(Announced(es[i], i), Announced(es[j], j))
  }

  /** An endpoint is configured exactly when it is usable and every other usable one of
      its address is slower or, as slow, announced later. */
  lemma ChosenIff(es: seq<Endpoint>, i: nat)
    requires i < |es|
    ensures Announced(es[i], i) in Chosen(es) <==> BestOfAddress(es, i)
  {
    var a, s := Announced(es[i], i), Sorted(es, |es|);
    SortedOrdered(es, |es|);
    PickIff({}, s, a);
    SortedMembers(es, |es|, a);
    forall j | 0 <= j < |es| ensures Announced(es[j], j) in s {
      SortedMembers(es, |es|, Announced(es[j], j));
    }
    forall b | b in s ensures b.pos < |es| && b.ep == es[b.pos] {
      SortedMembers(es, |es|, b);
    }
  }

  /** Every address with a usable endpoint is configured, none twice, and all come in
      order of round trip time, unknown ones last and ties as announced. */
  lemma ChosenOncePerAddress(es: seq<Endpoint>)
    ensures Ordered(Chosen(es))
    ensures DistinctIps(Chosen(es))
    ensures forall i :: 0 <= i < |es| && Usable(es[i]) ==>
      exists k :: 0 <= k < |Chosen(es)| && Chosen(es)[k].ep.ip == es[i].ip
    ensures forall a :: a in Chosen(es) ==> a.pos < |es| && a.ep == es[a.pos]
  {
    var s, c := Sorted(es, |es|), Chosen(es);
    SortedOrdered(es, |es|);
    PickOrdered({}, s);
    assert c == Pick({}, s);
    forall i | 0 <= i < |es| && Usable(es[i])
      ensures exists k :: 0 <= k < |c| && c[k].ep.ip == es[i].ip
    {
      SortedMembers(es, |es|, Announced(es[i], i));
      var k := PickCovers({}, s, Announced(es[i], i));
      assert c[k].ep.ip == es[i].ip;
    }
    forall a | a in Chosen(es) ensures a.pos < |es| && a.ep == es[a.pos] {
      PickIff({}, s, a);
      SortedMembers(es, |es|, a);
    }
  }

  /** Configurations of distinct addresses are all new to a manager that knows none. */
  lemma {:induction false} DistinctAllNew(known: set<ConnId>, s: seq<Announced>, cs: seq<RelayConfig>)
    requires DistinctIps(s) && cs == Configs(s)
    requires forall i :: 0 <= i < |s| ==> IdOf(Config(s[i].ep)) !in known
    ensures AllNew(known, cs)
    decreases |s|
  {
    if s != [] {
      assert cs[1..] == Configs(s[1..]);
      DistinctAllNew(known + {IdOf(cs[0])}, s[1..], cs[1..]);
    }
  }

  /** A manager without connections dials exactly the first three of them. */
  lemma FirstThreeDialed(es: seq<Endpoint>)
    ensures var cs := Configs(Chosen(es));
            Dials(NO_RELAYS, 0, cs) == FirstOf(cs, 3)
  {
    ChosenOncePerAddress(es);
    DistinctAllNew({}, Chosen(es), Configs(Chosen(es)));
    assert NO_RELAYS.connections.Keys == {};
    DialsUnknown(NO_RELAYS, 0, Configs(Chosen(es)));
  }
}
