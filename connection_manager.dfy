/** Binding a bus and a component on both sides: the bus's component list and the
    component's connection list. The operations call the two sides in sequence and
    ignore both answers, so the two lists agree afterwards only when the component
    accepted the bus; Connect states exactly when that is. */
module ConnectionManager {
  import opened CircuitEnums
  import opened Topology

  /** The bus lists the component exactly when the component lists the bus. */
  ghost predicate Linked(b: Bus, c: Component, live: set<Bus>)
    reads b, c
  {
    b.IsConnectedToComponent(c) <==> c.HoldsBus(b, live)
  }

  /** A consistent circuit: live buses, unique ids on each side, components within their
      arity and without duplicate live buses, and every bus-component pair agreeing. */
  ghost predicate Consistent(buses: set<Bus>, comps: set<Component>, live: set<Bus>)
    reads buses, comps
  {
    && buses <= live
    && (forall b1, b2 :: b1 in buses && b2 in buses && b1.id == b2.id ==> b1 == b2)
    && (forall c1, c2 :: c1 in comps && c2 in comps && c1.id == c2.id ==> c1 == c2)
    && (forall c :: c in comps ==> c.Valid(live))
    && (forall b, c :: b in buses && c in comps ==> Linked(b, c, live))
  }

  /** Attaches the component to the (owned, hence live) bus, then the bus to the
      component, ignoring whether either side refused. */
  method ConnectBusAndComponent(bus: Bus, component: Component, role: TerminalRole, live: set<Bus>,
                                ghost buses: set<Bus>, ghost comps: set<Component>)
    requires bus in live
    modifies bus`components, component`connections
    ensures bus.components == if old(bus.IsConnectedToComponent(component)) then old(bus.components)
                              else old(bus.components) + [component]
    ensures component.connections ==
              if !old(component.Full()) && (component.kind == ComponentType.Ground || !old(component.HoldsBus(bus, live)))
              then old(component.connections) + [Connection(bus, role)]
              else old(component.connections)
    ensures bus.IsConnectedToComponent(component)
    ensures component.HoldsBus(bus, live) <==> old(component.HoldsBus(bus, live)) || !old(component.Full())
    ensures old(component.Full() && !component.HoldsBus(bus, live)) ==> !Linked(bus, component, live)
    ensures old(Consistent(buses, comps, live)) && bus in buses && component in comps ==>
              (Consistent(buses, comps, live) <==> old(component.HoldsBus(bus, live) || !component.Full()))
  {
    ghost var wasConsistent := Consistent(buses, comps, live);
    ghost var heldBefore := component.HoldsBus(bus, live);
    ghost var fullBefore := component.Full();
    ghost var connsBefore := component.connections;
    ghost var busListBefore := bus.components;
    ghost var othersBefore := map c | c in comps :: c.connections;
    ghost var listsBefore := map b | b in buses :: b.components;
    var _ := bus.AddConnection(component);
    var _ := component.AddConnection(bus, role, live);
    LinksAfterAppend(connsBefore, Connection(bus, role), bus.id, live);
    if wasConsistent && bus in buses && component in comps {
      assert component.HoldsBus(bus, live) <==> heldBefore || !fullBefore;
      forall c | c in comps ensures c.Valid(live) {
        assert old(c.Valid(live));
      }
      forall b, c | b in buses && c in comps
        ensures HasComponentId(listsBefore[b], c.id) <==> HasLiveLink(othersBefore[c], b.id, live)
      {
        assert old(Linked(b, c, live));
      }
      ConnectConsistency(bus, component, role, live, buses, comps, busListBefore, connsBefore,
                         listsBefore, othersBefore, heldBefore, fullBefore);
    }
  }

  /** Appending a connection adds exactly the link it makes. */
  lemma LinksAfterAppend(conns: seq<Connection>, c: Connection, busId: BusId, live: set<Bus>)
    ensures HasLiveLink(conns + [c], busId, live) <==> HasLiveLink(conns, busId, live) || LinksTo(c, busId, live)
  {
    if HasLiveLink(conns + [c], busId, live) && !LinksTo(c, busId, live) {
      var i :| 0 <= i < |conns + [c]| && LinksTo((conns + [c])[i], busId, live);
      assert LinksTo(conns[i], busId, live);
    }
    if HasLiveLink(conns, busId, live) {
      var i :| 0 <= i < |conns| && LinksTo(conns[i], busId, live);
      assert LinksTo((conns + [c])[i], busId, live);
    }
    if LinksTo(c, busId, live) {
      assert LinksTo((conns + [c])[|conns|], busId, live);
    }
  }

  /** After a connect, a circuit that was consistent stays consistent exactly when the
      component held the bus already or had room for it. */
  lemma ConnectConsistency(bus: Bus, component: Component, role: TerminalRole, live: set<Bus>,
                           buses: set<Bus>, comps: set<Component>,
                           busListBefore: seq<Component>, connsBefore: seq<Connection>,
                           listsBefore: map<Bus, seq<Component>>, othersBefore: map<Component, seq<Connection>>,
                           heldBefore: bool, fullBefore: bool)
    requires bus in buses && component in comps && bus in live && buses <= live
    requires forall b1, b2 :: b1 in buses && b2 in buses && b1.id == b2.id ==> b1 == b2
    requires forall c1, c2 :: c1 in comps && c2 in comps && c1.id == c2.id ==> c1 == c2
    requires forall c :: c in comps ==> c.Valid(live)
    requires listsBefore.Keys == buses && othersBefore.Keys == comps
    requires listsBefore[bus] == busListBefore && othersBefore[component] == connsBefore
    requires forall b :: b in buses && b != bus ==> b.components == listsBefore[b]
    requires forall c :: c in comps && c != component ==> c.connections == othersBefore[c]
    requires forall b, c :: b in buses && c in comps ==>
               (HasComponentId(listsBefore[b], c.id) <==> HasLiveLink(othersBefore[c], b.id, live))
    requires HasComponentId(bus.components, component.id)
    requires heldBefore == HasLiveLink(connsBefore, bus.id, live)
    requires component.HoldsBus(bus, live) <==> heldBefore || !fullBefore
    requires bus.components == busListBefore || bus.components == busListBefore + [component]
    requires component.connections == connsBefore || component.connections == connsBefore + [Connection(bus, role)]
    ensures Consistent(buses, comps, live) <==> heldBefore || !fullBefore
  {
    if heldBefore || !fullBefore {
      ConnectKeepsPairs(bus, component, role, live, buses, comps, busListBefore, connsBefore, listsBefore, othersBefore);
    } else {
      assert !Linked(bus, component, live);
    }
  }

  /** Pairwise agreement after a connect that the component accepted (or did not need). */
  lemma ConnectKeepsPairs(bus: Bus, component: Component, role: TerminalRole, live: set<Bus>,
                          buses: set<Bus>, comps: set<Component>,
                          busListBefore: seq<Component>, connsBefore: seq<Connection>,
                          listsBefore: map<Bus, seq<Component>>, othersBefore: map<Component, seq<Connection>>)
    requires bus in buses && component in comps && bus in live && buses <= live
    requires forall b1, b2 :: b1 in buses && b2 in buses && b1.id == b2.id ==> b1 == b2
    requires forall c1, c2 :: c1 in comps && c2 in comps && c1.id == c2.id ==> c1 == c2
    requires listsBefore.Keys == buses && othersBefore.Keys == comps
    requires listsBefore[bus] == busListBefore && othersBefore[component] == connsBefore
    requires forall b :: b in buses && b != bus ==> b.components == listsBefore[b]
    requires forall c :: c in comps && c != component ==> c.connections == othersBefore[c]
    requires forall b, c :: b in buses && c in comps ==>
               (HasComponentId(listsBefore[b], c.id) <==> HasLiveLink(othersBefore[c], b.id, live))
    requires HasComponentId(bus.components, component.id)
    requires HasLiveLink(component.connections, bus.id, live)
    requires bus.components == busListBefore || bus.components == busListBefore + [component]
    requires component.connections == connsBefore || component.connections == connsBefore + [Connection(bus, role)]
    ensures forall b, c :: b in buses && c in comps ==> Linked(b, c, live)
  {
    forall b, c | b in buses && c in comps ensures Linked(b, c, live) {
      if b != bus {
        if c == component && HasLiveLink(component.connections, b.id, live) {
          var i :| 0 <= i < |component.connections| && LinksTo(component.connections[i], b.id, live);
          if i < |connsBefore| {
            assert LinksTo(connsBefore[i], b.id, live);
          }
        }
        if c == component && HasLiveLink(connsBefore, b.id, live) {
          var i :| 0 <= i < |connsBefore| && LinksTo(connsBefore[i], b.id, live);
          assert LinksTo(component.connections[i], b.id, live);
        }
      } else if c != component {
        if HasComponentId(bus.components, c.id) {
          var k :| 0 <= k < |bus.components| && bus.components[k].id == c.id;
          if k < |busListBefore| {
            assert busListBefore[k].id == c.id;
          }
        }
        if HasComponentId(busListBefore, c.id) {
          var k :| 0 <= k < |busListBefore| && busListBefore[k].id == c.id;
          assert bus.components[k].id == c.id;
        }
      }
    }
  }

  /** The same as ConnectBusAndComponent when the bus is still owned; nothing when it is gone. */
  method ConnectWeakBusAndComponent(bus: Bus, component: Component, role: TerminalRole, live: set<Bus>,
                                    ghost buses: set<Bus>, ghost comps: set<Component>)
    modifies bus`components, component`connections
    ensures bus !in live ==> bus.components == old(bus.components) && component.connections == old(component.connections)
    ensures bus in live ==>
              bus.components == if old(bus.IsConnectedToComponent(component)) then old(bus.components)
                                else old(bus.components) + [component]
    ensures bus in live ==>
              component.connections ==
                if !old(component.Full()) && (component.kind == ComponentType.Ground || !old(component.HoldsBus(bus, live)))
                then old(component.connections) + [Connection(bus, role)]
                else old(component.connections)
    ensures bus in live ==> bus.IsConnectedToComponent(component)
    ensures bus in live ==>
              (component.HoldsBus(bus, live) <==> old(component.HoldsBus(bus, live)) || !old(component.Full()))
    ensures old(Consistent(buses, comps, live)) && bus in buses && component in comps ==>
              (Consistent(buses, comps, live) <==> old(component.HoldsBus(bus, live) || !component.Full()))
  {
    if bus in live {
      ConnectBusAndComponent(bus, component, role, live, buses, comps);
    }
  }

  /** Detaches the component from the (owned, hence live) bus, then the bus from the
      component, ignoring both answers. */
  method DisconnectBusAndComponent(bus: Bus, component: Component, live: set<Bus>,
                                   ghost buses: set<Bus>, ghost comps: set<Component>)
    requires bus in live
    modifies bus`components, component`connections
    ensures bus.components == WithoutComponentId(old(bus.components), component.id)
    ensures component.connections ==
              if old(component.HoldsBus(bus, live)) then RemoveFirstLink(old(component.connections), bus.id, live)
              else old(component.connections)
    ensures !bus.IsConnectedToComponent(component)
    ensures old(component.Valid(live)) ==> !component.HoldsBus(bus, live)
    ensures old(Consistent(buses, comps, live)) && bus in buses && component in comps ==>
              Consistent(buses, comps, live)
  {
    ghost var wasConsistent := Consistent(buses, comps, live);
    ghost var connsBefore := component.connections;
    ghost var busListBefore := bus.components;
    ghost var othersBefore := map c | c in comps :: c.connections;
    ghost var listsBefore := map b | b in buses :: b.components;
    var _ := bus.RemoveConnection(component);
    var _ := component.RemoveConnection(bus, live);
    if wasConsistent && bus in buses && component in comps {
      forall b, c | b in buses && c in comps
        ensures HasComponentId(listsBefore[b], c.id) <==> HasLiveLink(othersBefore[c], b.id, live)
      {
        assert old(Linked(b, c, live));
      }
      DisconnectKeepsPairs(bus, component, live, buses, comps, busListBefore, connsBefore, listsBefore, othersBefore);
    }
  }

  /** Pairwise agreement after a disconnect. */
  lemma DisconnectKeepsPairs(bus: Bus, component: Component, live: set<Bus>,
                             buses: set<Bus>, comps: set<Component>,
                             busListBefore: seq<Component>, connsBefore: seq<Connection>,
                             listsBefore: map<Bus, seq<Component>>, othersBefore: map<Component, seq<Connection>>)
    requires bus in buses && component in comps && bus in live && buses <= live
    requires forall b1, b2 :: b1 in buses && b2 in buses && b1.id == b2.id ==> b1 == b2
    requires forall c1, c2 :: c1 in comps && c2 in comps && c1.id == c2.id ==> c1 == c2
    requires listsBefore.Keys == buses && othersBefore.Keys == comps
    requires listsBefore[bus] == busListBefore && othersBefore[component] == connsBefore
    requires forall b :: b in buses && b != bus ==> b.components == listsBefore[b]
    requires forall c :: c in comps && c != component ==> c.connections == othersBefore[c]
    requires forall b, c :: b in buses && c in comps ==>
               (HasComponentId(listsBefore[b], c.id) <==> HasLiveLink(othersBefore[c], b.id, live))
    requires LiveIdsDistinct(connsBefore, live)
    requires bus.components == WithoutComponentId(busListBefore, component.id)
    requires component.connections == connsBefore || component.connections == RemoveFirstLink(connsBefore, bus.id, live)
    requires component.connections == connsBefore ==> !HasLiveLink(connsBefore, bus.id, live)
    ensures forall b, c :: b in buses && c in comps ==> Linked(b, c, live)
  {
    forall b, c | b in buses && c in comps ensures Linked(b, c, live) {
      if b == bus {
        WithoutComponentIdHas(busListBefore, component.id, c.id);
      }
      if c == component {
        RemoveFirstLinkLinks(connsBefore, bus.id, b.id, live);
        RemoveFirstLinkLinks(connsBefore, bus.id, bus.id, live);
      }
    }
  }

  /** The same as DisconnectBusAndComponent when the bus is still owned; nothing when it is gone. */
  method DisconnectWeakBusAndComponent(bus: Bus, component: Component, live: set<Bus>,
                                       ghost buses: set<Bus>, ghost comps: set<Component>)
    modifies bus`components, component`connections
    ensures bus !in live ==> bus.components == old(bus.components) && component.connections == old(component.connections)
    ensures bus in live ==> bus.components == WithoutComponentId(old(bus.components), component.id)
    ensures bus in live ==>
              component.connections ==
                if old(component.HoldsBus(bus, live)) then RemoveFirstLink(old(component.connections), bus.id, live)
                else old(component.connections)
    ensures bus in live ==> !bus.IsConnectedToComponent(component)
    ensures bus in live && old(component.Valid(live)) ==> !component.HoldsBus(bus, live)
    ensures old(Consistent(buses, comps, live)) && bus in buses && component in comps ==>
              Consistent(buses, comps, live)
  {
    if bus in live {
      DisconnectBusAndComponent(bus, component, live, buses, comps);
    }
  }

  /** Connecting a bus and a component that do not know each other, with room on the
      component, and then disconnecting them restores both lists exactly. */
  method ConnectThenDisconnect(bus: Bus, component: Component, role: TerminalRole, live: set<Bus>)
    requires bus in live
    requires !bus.IsConnectedToComponent(component) && !component.HoldsBus(bus, live) && !component.Full()
    modifies bus`components, component`connections
    ensures bus.components == old(bus.components) && component.connections == old(component.connections)
  {
    ghost var list := bus.components;
    ghost var conns := component.connections;
    ConnectBusAndComponent(bus, component, role, live, {}, {});
    RemoveUndoesAdd(list, component);
    RemoveFirstLinkUndoesAppend(conns, Connection(bus, role), bus.id, live);
    DisconnectBusAndComponent(bus, component, live, {}, {});
  }
}
