/** The circuit graph: buses (junctions) and components (edges) and the lists each side
    keeps of the other.

    A component refers to its buses through non-owning (weak) references. Whether such a
    reference still resolves depends on who else owns the bus, so every operation that
    resolves one takes `live`, the set of buses that are still owned somewhere: a weak
    reference to `b` locks to `b` when `b in live` and to nothing otherwise. Bus and
    component identifiers are constants, so comparing them needs no reads clause. */
module Topology {
  import opened CircuitEnums

  type BusId = Uint32
  type ComponentId = Uint32

  /** One terminal of a component: the bus it is attached to and the terminal's role. */
  datatype Connection = Connection(bus: Bus, role: TerminalRole)

  // ---------------------------------------------------------------------------
  // The component side: lists of connections
  // ---------------------------------------------------------------------------

  /** The stored connection resolves to a live bus whose id is `busId`. */
  predicate LinksTo(c: Connection, busId: BusId, live: set<Bus>) {
    c.bus in live && c.bus.id == busId
  }

  /** Some stored connection resolves to a live bus whose id is `busId`. */
  predicate HasLiveLink(conns: seq<Connection>, busId: BusId, live: set<Bus>) {
    exists i :: 0 <= i < |conns| && LinksTo(conns[i], busId, live)
  }

  /** No two connections resolve to live buses sharing an id. */
  predicate LiveIdsDistinct(conns: seq<Connection>, live: set<Bus>) {
    forall i, j :: 0 <= i < j < |conns| && conns[i].bus in live && conns[j].bus in live ==>
      conns[i].bus.id != conns[j].bus.id
  }

  /** The list with its first connection to a live bus with id `busId` erased. */
  function RemoveFirstLink(conns: seq<Connection>, busId: BusId, live: set<Bus>): seq<Connection> {
    if conns == [] then []
    else if LinksTo(conns[0], busId, live) then conns[1..]
    else [conns[0]] + RemoveFirstLink(conns[1..], busId, live)
  }

  /** Erasing the first match at index `i` keeps every other connection, in order. */
  lemma {:induction false} RemoveFirstLinkAt(conns: seq<Connection>, i: nat, busId: BusId, live: set<Bus>)
    requires i < |conns| && LinksTo(conns[i], busId, live)
    requires forall j :: 0 <= j < i ==> !LinksTo(conns[j], busId, live)
    ensures RemoveFirstLink(conns, busId, live) == conns[..i] + conns[i + 1..]
  {
    if i > 0 {
      RemoveFirstLinkAt(conns[1..], i - 1, busId, live);
      assert conns[1..][..i - 1] == conns[1..i];
      assert conns[1..][i..] == conns[i + 1..];
      assert [conns[0]] + conns[1..i] == conns[..i];
    }
  }

  /** Without a match, erasing the first match changes nothing. */
  lemma {:induction false} RemoveFirstLinkAbsent(conns: seq<Connection>, busId: BusId, live: set<Bus>)
    requires !HasLiveLink(conns, busId, live)
    ensures RemoveFirstLink(conns, busId, live) == conns
  {
    if conns != [] {
      assert !LinksTo(conns[0], busId, live);
      assert forall i :: 0 <= i < |conns[1..]| ==> conns[1..][i] == conns[i + 1];
      RemoveFirstLinkAbsent(conns[1..], busId, live);
    }
  }

  /** Removing the match that was just appended restores the list. */
  lemma {:induction false} RemoveFirstLinkUndoesAppend(conns: seq<Connection>, c: Connection, busId: BusId, live: set<Bus>)
    requires !HasLiveLink(conns, busId, live) && LinksTo(c, busId, live)
    ensures RemoveFirstLink(conns + [c], busId, live) == conns
  {
    var s := conns + [c];
    assert forall j :: 0 <= j < |conns| ==> s[j] == conns[j];
    RemoveFirstLinkAt(s, |conns|, busId, live);
    assert s[..|conns|] == conns;
  }

  /** The index of the first connection to a live bus with id `busId` (|conns| when there is
      none), and the shape of the list once that connection is erased. */
  lemma FirstLink(conns: seq<Connection>, busId: BusId, live: set<Bus>) returns (i: nat)
    ensures i <= |conns|
    ensures forall j :: 0 <= j < i ==> !LinksTo(conns[j], busId, live)
    ensures i == |conns| ==> !HasLiveLink(conns, busId, live) && RemoveFirstLink(conns, busId, live) == conns
    ensures i < |conns| ==> LinksTo(conns[i], busId, live) &&
                            RemoveFirstLink(conns, busId, live) == conns[..i] + conns[i + 1..]
  {
    i := 0;
    while i < |conns| && !LinksTo(conns[i], busId, live)
      invariant 0 <= i <= |conns|
      invariant forall j :: 0 <= j < i ==> !LinksTo(conns[j], busId, live)
    {
      i := i + 1;
    }
    if i < |conns| {
      RemoveFirstLinkAt(conns, i, busId, live);
    } else {
      RemoveFirstLinkAbsent(conns, busId, live);
    }
  }

  /** Erasing a link to one id keeps the links to every other id; among connections with
      distinct live ids it leaves no link to the erased id and keeps the ids distinct. */
  lemma RemoveFirstLinkLinks(conns: seq<Connection>, busId: BusId, other: BusId, live: set<Bus>)
    requires LiveIdsDistinct(conns, live)
    ensures HasLiveLink(RemoveFirstLink(conns, busId, live), other, live) <==>
            HasLiveLink(conns, other, live) && other != busId
    ensures LiveIdsDistinct(RemoveFirstLink(conns, busId, live), live)
    ensures |RemoveFirstLink(conns, busId, live)| <= |conns|
  {
    var i := FirstLink(conns, busId, live);
    var r := RemoveFirstLink(conns, busId, live);
    if i < |conns| {
      assert |r| == |conns| - 1;
      assert forall k :: 0 <= k < i ==> r[k] == conns[k];
      assert forall k :: i <= k < |r| ==> r[k] == conns[k + 1];
      if HasLiveLink(r, other, live) {
        var k :| 0 <= k < |r| && LinksTo(r[k], other, live);
        var k' := if k < i then k else k + 1;
        assert r[k] == conns[k'] && k' != i;
        if k' < i {
          assert conns[k'].bus.id != conns[i].bus.id;
        } else {
          assert conns[i].bus.id != conns[k'].bus.id;
        }
      }
      if HasLiveLink(conns, other, live) && other != busId {
        var k :| 0 <= k < |conns| && LinksTo(conns[k], other, live);
        if k < i {
          assert LinksTo(r[k], other, live);
        } else {
          assert k != i;
          assert LinksTo(r[k - 1], other, live);
        }
      }
      forall a, b | 0 <= a < b < |r| && r[a].bus in live && r[b].bus in live
        ensures r[a].bus.id != r[b].bus.id
      {
        var a' := if a < i then a else a + 1;
        var b' := if b < i then b else b + 1;
        assert r[a] == conns[a'] && r[b] == conns[b'] && a' < b';
      }
    }
  }

  // ---------------------------------------------------------------------------
  // The bus side: lists of components
  // ---------------------------------------------------------------------------

  /** Some entry of the list has id `cid`. */
  predicate HasComponentId(cs: seq<Component>, cid: ComponentId) {
    exists k :: 0 <= k < |cs| && cs[k].id == cid
  }

  /** No two entries of the list share an id. */
  predicate ComponentIdsDistinct(cs: seq<Component>) {
    forall i, j :: 0 <= i < j < |cs| ==> cs[i].id != cs[j].id
  }

  /** The list with every entry of id `cid` erased (the erase/remove-if idiom). */
  function WithoutComponentId(cs: seq<Component>, cid: ComponentId): seq<Component> {
    if cs == [] then []
    else (if cs[0].id == cid then [] else [cs[0]]) + WithoutComponentId(cs[1..], cid)
  }

  /** The identifiers of the listed components. */
  function ComponentIds(cs: seq<Component>): set<ComponentId> {
    if cs == [] then {} else {cs[0].id} + ComponentIds(cs[1..])
  }

  /** The erased list holds exactly the entries whose id differs from `cid`. */
  lemma {:induction false} WithoutComponentIdMembers(cs: seq<Component>, cid: ComponentId, x: Component)
    ensures x in WithoutComponentId(cs, cid) <==> x in cs && x.id != cid
  {
    if cs != [] {
      WithoutComponentIdMembers(cs[1..], cid, x);
      assert x in cs <==> x == cs[0] || x in cs[1..];
    }
  }

  /** Erasing distributes over concatenation: the survivors keep their relative order. */
  lemma {:induction false} WithoutComponentIdConcat(a: seq<Component>, b: seq<Component>, cid: ComponentId)
    ensures WithoutComponentId(a + b, cid) == WithoutComponentId(a, cid) + WithoutComponentId(b, cid)
  {
    if a != [] {
      assert (a + b)[1..] == a[1..] + b;
      WithoutComponentIdConcat(a[1..], b, cid);
    } else {
      assert a + b == b;
    }
  }

  /** Erasing never grows the list, and it shrinks it exactly when some entry has id `cid`. */
  lemma {:induction false} WithoutComponentIdShrinks(cs: seq<Component>, cid: ComponentId)
    ensures |WithoutComponentId(cs, cid)| <= |cs|
    ensures |WithoutComponentId(cs, cid)| < |cs| <==> HasComponentId(cs, cid)
    ensures !HasComponentId(cs, cid) ==> WithoutComponentId(cs, cid) == cs
  {
    if cs != [] {
      WithoutComponentIdShrinks(cs[1..], cid);
      assert HasComponentId(cs, cid) <==> cs[0].id == cid || HasComponentId(cs[1..], cid) by {
        if HasComponentId(cs, cid) {
          var k :| 0 <= k < |cs| && cs[k].id == cid;
          if k > 0 { assert cs[1..][k - 1].id == cid; }
        }
        if HasComponentId(cs[1..], cid) {
          var k :| 0 <= k < |cs[1..]| && cs[1..][k].id == cid;
          assert cs[k + 1].id == cid;
        }
      }
      if !HasComponentId(cs, cid) {
        assert [cs[0]] + cs[1..] == cs;
      }
    }
  }

  /** After erasing `cid` the list still has an entry of id `other` exactly when it had one
      before and `other` is not `cid`. */
  lemma WithoutComponentIdHas(cs: seq<Component>, cid: ComponentId, other: ComponentId)
    ensures HasComponentId(WithoutComponentId(cs, cid), other) <==> HasComponentId(cs, other) && other != cid
  {
    var r := WithoutComponentId(cs, cid);
    if HasComponentId(r, other) {
      var k :| 0 <= k < |r| && r[k].id == other;
      WithoutComponentIdMembers(cs, cid, r[k]);
      var j :| 0 <= j < |cs| && cs[j] == r[k];
    }
    if HasComponentId(cs, other) && other != cid {
      var k :| 0 <= k < |cs| && cs[k].id == other;
      WithoutComponentIdMembers(cs, cid, cs[k]);
      var j :| 0 <= j < |r| && r[j] == cs[k];
    }
  }

  /** Erasing the component just appended (absent before) restores the original list. */
  lemma RemoveUndoesAdd(cs: seq<Component>, c: Component)
    requires !HasComponentId(cs, c.id)
    ensures WithoutComponentId(cs + [c], c.id) == cs
  {
    WithoutComponentIdConcat(cs, [c], c.id);
    WithoutComponentIdShrinks(cs, c.id);
    assert WithoutComponentId([c], c.id) == [];
  }

  /** In a list without repeated ids, the number of entries is the number of distinct
      components (by id) attached. */
  lemma {:induction false} DistinctIdsCount(cs: seq<Component>)
    ensures ComponentIdsDistinct(cs) ==> |ComponentIds(cs)| == |cs|
  {
    if cs != [] && ComponentIdsDistinct(cs) {
      var rest := cs[1..];
      assert ComponentIdsDistinct(rest);
      DistinctIdsCount(rest);
      if cs[0].id in ComponentIds(rest) {
        var k := IdIndex(rest, cs[0].id);
        assert false;
      }
    }
  }

  /** The id set of a list holds exactly the ids some entry carries. */
  lemma {:induction false} ComponentIdsHas(cs: seq<Component>, cid: ComponentId)
    ensures cid in ComponentIds(cs) <==> HasComponentId(cs, cid)
  {
    if cs != [] {
      ComponentIdsHas(cs[1..], cid);
      if HasComponentId(cs[1..], cid) {
        var k :| 0 <= k < |cs[1..]| && cs[1..][k].id == cid;
        assert cs[k + 1].id == cid;
      }
      if HasComponentId(cs, cid) && cs[0].id != cid {
        var k :| 0 <= k < |cs| && cs[k].id == cid;
        assert cs[1..][k - 1].id == cid;
      }
    }
  }

  /** An index of the list holding id `cid`, for an id the list carries. */
  lemma {:induction false} IdIndex(cs: seq<Component>, cid: ComponentId) returns (k: nat)
    requires cid in ComponentIds(cs)
    ensures k < |cs| && cs[k].id == cid
  {
    if cs[0].id == cid {
      k := 0;
    } else {
      k := IdIndex(cs[1..], cid);
      k := k + 1;
    }
  }

  /** The buses at the far end of `conns`: each live bus whose id differs from `self`. */
  function OtherEnds(conns: seq<Connection>, self: BusId, live: set<Bus>): seq<Bus> {
    if conns == [] then []
    else (if conns[0].bus in live && conns[0].bus.id != self then [conns[0].bus] else [])
         + OtherEnds(conns[1..], self, live)
  }

  /** The far-end buses of every component of `cs`, component by component. */
  function NeighborsVia(cs: seq<Component>, self: BusId, live: set<Bus>): seq<Bus>
    reads cs
  {
    if cs == [] then [] else OtherEnds(cs[0].connections, self, live) + NeighborsVia(cs[1..], self, live)
  }

  /** A bus is a far end of `conns` iff one of the connections names it, it is live and it is
      not the bus `self`. */
  lemma {:induction false} OtherEndsMembers(conns: seq<Connection>, self: BusId, live: set<Bus>, n: Bus)
    ensures n in OtherEnds(conns, self, live) <==>
            n in live && n.id != self && exists j :: 0 <= j < |conns| && conns[j].bus == n
  {
    if conns != [] {
      OtherEndsMembers(conns[1..], self, live, n);
      if exists j :: 0 <= j < |conns[1..]| && conns[1..][j].bus == n {
        var j :| 0 <= j < |conns[1..]| && conns[1..][j].bus == n;
        assert conns[j + 1].bus == n;
      }
      if exists j :: 0 <= j < |conns| && conns[j].bus == n {
        var j :| 0 <= j < |conns| && conns[j].bus == n;
        if j > 0 { assert conns[1..][j - 1].bus == n; }
      }
    }
  }

  /** Some connection of some component of `cs` names the bus `n`. */
  predicate SomeConnectionNames(cs: seq<Component>, n: Bus)
    reads cs
  {
    exists k, j :: 0 <= k < |cs| && 0 <= j < |cs[k].connections| && cs[k].connections[j].bus == n
  }

  /** A bus is a neighbour through `cs` iff it is live, is not `self`, and some connection of
      some component of `cs` names it. */
  lemma {:induction false} NeighborsViaMembers(cs: seq<Component>, self: BusId, live: set<Bus>, n: Bus)
    ensures n in NeighborsVia(cs, self, live) <==> n in live && n.id != self && SomeConnectionNames(cs, n)
  {
    if cs != [] {
      NeighborsViaMembers(cs[1..], self, live, n);
      OtherEndsMembers(cs[0].connections, self, live, n);
      if exists k, j :: 0 <= k < |cs| && 0 <= j < |cs[k].connections| && cs[k].connections[j].bus == n {
        var k, j :| 0 <= k < |cs| && 0 <= j < |cs[k].connections| && cs[k].connections[j].bus == n;
        if k > 0 { assert cs[1..][k - 1].connections[j].bus == n; }
      }
      if exists k, j :: 0 <= k < |cs[1..]| && 0 <= j < |cs[1..][k].connections| && cs[1..][k].connections[j].bus == n {
        var k, j :| 0 <= k < |cs[1..]| && 0 <= j < |cs[1..][k].connections| && cs[1..][k].connections[j].bus == n;
        assert cs[k + 1].connections[j].bus == n;
      }
    }
  }

  // ---------------------------------------------------------------------------
  // Bus: a junction of the circuit graph
  // ---------------------------------------------------------------------------

  /** A junction. It keeps (owning) references to the components attached to it. */
  class Bus {
    const id: BusId
    var components: seq<Component>

    /** Once built only through AddConnection, the list never repeats a component id. */
    ghost predicate Valid()
      reads this
    {
      ComponentIdsDistinct(components)
    }

    constructor (id: BusId)
      ensures this.id == id && components == [] && Valid()
    {
      this.id := id;
      components := [];
    }

    /** Some attached component has the id of `c`. */
    predicate IsConnectedToComponent(c: Component)
      reads this
    {
      HasComponentId(components, c.id)
    }

    /** Attaches `c` unless a component with its id is already attached. */
    method AddConnection(c: Component) returns (added: bool)
      modifies this`components
      ensures added <==> !old(IsConnectedToComponent(c))
      ensures components == if added then old(components) + [c] else old(components)
      ensures IsConnectedToComponent(c) && IsConnected()
      ensures old(Valid()) ==> Valid()
    {
      var present := IsConnectedToComponent(c);
      if present {
        return false;
      }
      components := components + [c];
      assert components[|components| - 1] == c;
      return true;
    }

    /** Detaches every component whose id is the id of `c`, keeping the others in order;
        reports whether the list shrank. */
    method RemoveConnection(c: Component) returns (removed: bool)
      modifies this`components
      ensures components == WithoutComponentId(old(components), c.id)
      ensures removed <==> |components| < |old(components)|
      ensures removed <==> old(IsConnectedToComponent(c))
      ensures !IsConnectedToComponent(c)
      ensures old(Valid()) ==> Valid()
    {
      var originalSize := |components|;
      ghost var before := components;
      components := WithoutComponentId(components, c.id);
      WithoutComponentIdShrinks(before, c.id);
      WithoutComponentIdHas(before, c.id, c.id);
      if ComponentIdsDistinct(before) {
        forall i, j | 0 <= i < j < |components| ensures components[i].id != components[j].id {
          DistinctAfterErase(before, c.id, i, j);
        }
      }
      removed := |components| < originalSize;
    }

    /** Number of attached components; with no repeated ids, the number of distinct
        components attached. */
    function NumberOfComponents(): (n: nat)
      reads this
      ensures n == 0 <==> !IsConnected()
      ensures Valid() ==> n == |ComponentIds(components)|
    {
      DistinctIdsCount(components);
      |components|
    }

    /** The bus is attached to at least one component. */
    predicate IsConnected()
      reads this
    {
      |components| > 0
    }

    /** A bus is connected exactly when some listed component is attached to it. */
    lemma ConnectedIffAttached()
      ensures IsConnected() <==> exists k :: 0 <= k < |components| && IsConnectedToComponent(components[k])
    {
      if IsConnected() {
        assert IsConnectedToComponent(components[0]);
      }
    }

    /** The buses reached through the attached components: every live bus other than this one
        that a connection of an attached component names. */
    function NeighborBuses(live: set<Bus>): (r: seq<Bus>)
      reads this, components
      ensures forall n :: n in r ==> n in live && n.id != id && SomeConnectionNames(components, n)
      ensures forall n :: n in live && n.id != id && SomeConnectionNames(components, n) ==> n in r
    {
      var neighbours := NeighborsVia(components, id, live);
      forall n | n in neighbours
        ensures n in live && n.id != id && SomeConnectionNames(components, n)
      {
        NeighborsViaMembers(components, id, live, n);
      }
      forall n | n in live && n.id != id && SomeConnectionNames(components, n)
        ensures n in neighbours
      {
        NeighborsViaMembers(components, id, live, n);
      }
      neighbours
    }
  }

  /** Entries of an id-distinct list stay id-distinct after erasing. */
  lemma DistinctAfterErase(cs: seq<Component>, cid: ComponentId, i: nat, j: nat)
    requires ComponentIdsDistinct(cs)
    requires i < j < |WithoutComponentId(cs, cid)|
    ensures WithoutComponentId(cs, cid)[i].id != WithoutComponentId(cs, cid)[j].id
  {
    var r := WithoutComponentId(cs, cid);
    if cs != [] {
      var rest := WithoutComponentId(cs[1..], cid);
      assert ComponentIdsDistinct(cs[1..]);
      if cs[0].id == cid {
        assert r == rest;
        DistinctAfterErase(cs[1..], cid, i, j);
      } else {
        assert r == [cs[0]] + rest;
        if i == 0 {
          WithoutComponentIdMembers(cs[1..], cid, r[j]);
          var k :| 0 <= k < |cs[1..]| && cs[1..][k] == r[j];
          assert cs[k + 1] == r[j];
        } else {
          DistinctAfterErase(cs[1..], cid, i - 1, j - 1);
        }
      }
    }
  }

  // ---------------------------------------------------------------------------
  // Component: an edge of the circuit graph
  // ---------------------------------------------------------------------------

  /** A device attached to buses. The base kind takes two terminals; a Ground, which
      overrides the addition of connections, takes one. */
  class Component {
    const id: ComponentId
    var kind: ComponentType
    var connections: seq<Connection>

    /** A base component. */
    constructor (id: ComponentId)
      ensures this.id == id && kind == Undefined && connections == []
    {
      this.id := id;
      kind := Undefined;
      connections := [];
    }

    /** A ground component. */
    constructor Ground(id: ComponentId)
      ensures this.id == id && kind == ComponentType.Ground && connections == []
    {
      this.id := id;
      kind := ComponentType.Ground;
      connections := [];
    }

    /** The most connections the kind accepts. */
    function Arity(): nat
      reads this
    {
      if kind == ComponentType.Ground then 1 else 2
    }

    /** At most Arity() connections, and no two live connections share a bus id. */
    ghost predicate Valid(live: set<Bus>)
      reads this
    {
      |connections| <= Arity() && LiveIdsDistinct(connections, live)
    }

    /** The check that refuses another connection: one held for a Ground, two otherwise. */
    predicate Full()
      reads this
    {
      |connections| == Arity()
    }

    /** The target resolves, and some stored connection resolves to a live bus with its id. */
    predicate HoldsBus(target: Bus, live: set<Bus>)
      reads this
    {
      target in live && HasLiveLink(connections, target.id, live)
    }

    /** Exactly two connections are held (for every kind, Ground included). */
    predicate IsConnected()
      reads this
    {
      |connections| == 2
    }

    /** Searches the connections for a live bus with the target's id; a dead target or a
        dead stored reference never matches. */
    method IsConnectedToBus(target: Bus, live: set<Bus>) returns (found: bool)
      ensures found <==> HoldsBus(target, live)
    {
      if target !in live {
        return false;
      }
      var i := 0;
      while i < |connections|
        invariant 0 <= i <= |connections|
        invariant forall j :: 0 <= j < i ==> !LinksTo(connections[j], target.id, live)
      {
        var n := connections[i].bus;
        if n in live && target.id == n.id {
          return true;
        }
        i := i + 1;
      }
      return false;
    }

    /** Appends `{bus, role}` unless it is refused. The base kind refuses a bus whose id it
        already holds and a third connection; a Ground refuses a second connection and does
        not look for duplicates. */
    method AddConnection(bus: Bus, role: TerminalRole, live: set<Bus>) returns (added: bool)
      modifies this`connections
      ensures added <==> !old(Full()) && (kind == ComponentType.Ground || !old(HoldsBus(bus, live)))
      ensures connections == if added then old(connections) + [Connection(bus, role)] else old(connections)
      ensures old(Valid(live)) ==> Valid(live)
    {
      if kind == ComponentType.Ground {
        if |connections| == 1 {
          return false;
        }
        connections := connections + [Connection(bus, role)];
        return true;
      }
      var isConnected := IsConnectedToBus(bus, live);
      if isConnected {
        return false;
      }
      if |connections| == 2 {
        return false;
      }
      ghost var before := connections;
      connections := connections + [Connection(bus, role)];
      assert forall j :: 0 <= j < |before| ==> connections[j] == before[j];
      return true;
    }

    /** Erases the first connection that resolves to a live bus with the target's id; a dead
        target erases nothing. */
    method RemoveConnection(target: Bus, live: set<Bus>) returns (removed: bool)
      modifies this`connections
      ensures removed <==> old(HoldsBus(target, live))
      ensures connections == if removed then RemoveFirstLink(old(connections), target.id, live)
                             else old(connections)
      ensures old(Valid(live)) ==> Valid(live) && !HoldsBus(target, live)
    {
      if target !in live {
        return false;
      }
      ghost var before := connections;
      var i := 0;
      while i < |connections|
        invariant 0 <= i <= |connections|
        invariant connections == before
        invariant forall j :: 0 <= j < i ==> !LinksTo(connections[j], target.id, live)
      {
        var n := connections[i].bus;
        if n in live && target.id == n.id {
          RemoveFirstLinkAt(connections, i, target.id, live);
          connections := connections[..i] + connections[i + 1..];
          if LiveIdsDistinct(before, live) {
            RemoveFirstLinkLinks(before, target.id, target.id, live);
          }
          return true;
        }
        i := i + 1;
      }
      return false;
    }
  }

  /** A Ground never reports itself connected: it holds at most one connection, while
      IsConnected asks for exactly two. */
  lemma GroundNeverConnected(g: Component, live: set<Bus>)
    requires g.kind == ComponentType.Ground && g.Valid(live)
    ensures !g.IsConnected()
  {
  }
}
