/** Concrete circuits built from fresh buses and components, following the unit tests of
    the component, ground, bus and connection-manager classes. Each scenario returns the
    answers the test inspects, and its postcondition states what the test expects. */
module Scenarios {
  import opened CircuitEnums
  import opened Topology
  import opened ConnectionManager

  /** A base component accepts a bus once; the same bus is refused again, whatever the role. */
  method DuplicateBusRefused() returns (first: bool, sameRole: bool, otherRole: bool)
    ensures first && !sameRole && !otherRole
  {
    var component := new Component(1);
    var bus := new Bus(1);
    var live := {bus};
    first := component.AddConnection(bus, Negative, live);
    assert LinksTo(component.connections[0], bus.id, live);
    sameRole := component.AddConnection(bus, Negative, live);
    otherRole := component.AddConnection(bus, Positive, live);
  }

  /** A bus is removed once; removing it again is refused. */
  method RemoveTwice() returns (first: bool, second: bool)
    ensures first && !second
  {
    var component := new Component(1);
    var bus := new Bus(1);
    var live := {bus};
    var _ := component.AddConnection(bus, Negative, live);
    assert LinksTo(component.connections[0], bus.id, live);
    first := component.RemoveConnection(bus, live);
    second := component.RemoveConnection(bus, live);
  }

  /** Of three buses offered to a base component only the first two are kept. */
  method ThirdBusRefused() returns (has1: bool, has2: bool, has3: bool, connected: bool)
    ensures has1 && has2 && !has3 && connected
  {
    var component := new Component(1);
    var bus1 := new Bus(1);
    var bus2 := new Bus(2);
    var bus3 := new Bus(3);
    var live := {bus1, bus2, bus3};
    var _ := component.AddConnection(bus1, Negative, live);
    var _ := component.AddConnection(bus2, Positive, live);
    var _ := component.AddConnection(bus3, Positive, live);
    assert LinksTo(component.connections[0], bus1.id, live);
    assert LinksTo(component.connections[1], bus2.id, live);
    has1 := component.IsConnectedToBus(bus1, live);
    has2 := component.IsConnectedToBus(bus2, live);
    has3 := component.IsConnectedToBus(bus3, live);
    connected := component.IsConnected();
  }

  /** A connection to a bus that is gone is never reported and never removed. */
  method DeadBusIgnored() returns (held: bool, removed: bool)
    ensures !held && !removed
  {
    var component := new Component(1);
    var bus := new Bus(1);
    var _ := component.AddConnection(bus, Positive, {bus});
    held := component.IsConnectedToBus(bus, {});
    removed := component.RemoveConnection(bus, {});
  }

  /** A Ground takes one connection and refuses a second, and after removing its connection
      it accepts one again. */
  method GroundReconnects() returns (first: bool, second: bool, removed: bool, again: bool, connected: bool)
    ensures first && !second && removed && again && !connected
  {
    var ground := new Component.Ground(1);
    var bus1 := new Bus(1);
    var bus2 := new Bus(2);
    var live := {bus1, bus2};
    first := ground.AddConnection(bus1, Positive, live);
    assert LinksTo(ground.connections[0], bus1.id, live);
    second := ground.AddConnection(bus2, Positive, live);
    removed := ground.RemoveConnection(bus1, live);
    again := ground.AddConnection(bus2, Negative, live);
    connected := ground.IsConnected();
  }

  /** A bus keeps one entry per component id and counts it. */
  method BusAddTwice() returns (first: bool, second: bool, count: nat, connected: bool)
    ensures first && !second && count == 1 && connected
  {
    var bus := new Bus(1);
    var component := new Component(1);
    first := bus.AddConnection(component);
    second := bus.AddConnection(component);
    count := bus.NumberOfComponents();
    connected := bus.IsConnected();
  }

  /** Removing a component from a bus empties it; removing one never added is refused. */
  method BusRemove() returns (removed: bool, count: nat, absent: bool)
    ensures removed && count == 0 && !absent
  {
    var bus := new Bus(1);
    var component := new Component(1);
    var other := new Component(2);
    var _ := bus.AddConnection(component);
    removed := bus.RemoveConnection(component);
    count := bus.NumberOfComponents();
    absent := bus.RemoveConnection(other);
  }

  /** Bus 1 holds component 1, which is connected to bus 2: bus 2 is the neighbour of bus 1. */
  method Neighbours() returns (neighbours: seq<Bus>)
    ensures |neighbours| == 1 && neighbours[0].id == 2
  {
    var bus1 := new Bus(1);
    var bus2 := new Bus(2);
    var component1 := new Component(1);
    var component2 := new Component(2);
    var live := {bus1, bus2};
    var _ := component1.AddConnection(bus2, Positive, live);
    var _ := component2.AddConnection(bus2, Positive, live);
    var _ := bus1.AddConnection(component1);
    var _ := bus2.AddConnection(component2);
    assert bus1.components == [component1];
    assert component1.connections == [Connection(bus2, Positive)];
    assert OtherEnds(component1.connections, 1, live) == [bus2];
    assert NeighborsVia(bus1.components, 1, live) == [bus2];
    neighbours := bus1.NeighborBuses(live);
  }

  /** Connecting through the manager, via the weak overload, links both sides; disconnecting
      unlinks both. */
  method ManagerConnectDisconnect() returns (busSide: bool, componentSide: bool, busAfter: bool, componentAfter: bool)
    ensures busSide && componentSide && !busAfter && !componentAfter
  {
    var bus := new Bus(1);
    var component := new Component(1);
    var live := {bus};
    ConnectWeakBusAndComponent(bus, component, Positive, live, {bus}, {component});
    busSide := bus.IsConnectedToComponent(component);
    componentSide := component.IsConnectedToBus(bus, live);
    DisconnectWeakBusAndComponent(bus, component, live, {bus}, {component});
    busAfter := bus.IsConnectedToComponent(component);
    componentAfter := component.IsConnectedToBus(bus, live);
  }

  /** A component already holding two buses refuses a third offered by the manager, but the
      third bus lists it anyway: the two sides disagree. */
  method ManagerBreaksWhenFull() returns (busSide: bool, componentSide: bool)
    ensures busSide && !componentSide
  {
    var bus1 := new Bus(1);
    var bus2 := new Bus(2);
    var bus3 := new Bus(3);
    var component := new Component(1);
    var live := {bus1, bus2, bus3};
    ConnectBusAndComponent(bus1, component, Positive, live, {}, {});
    assert component.connections == [Connection(bus1, Positive)];
    ConnectBusAndComponent(bus2, component, Negative, live, {}, {});
    assert component.connections == [Connection(bus1, Positive), Connection(bus2, Negative)];
    assert component.Full() && !component.HoldsBus(bus3, live);
    ConnectBusAndComponent(bus3, component, Positive, live, {}, {});
    busSide := bus3.IsConnectedToComponent(component);
    componentSide := component.IsConnectedToBus(bus3, live);
  }

  /** With the bus gone, the weak overloads leave both lists as they were. */
  method ManagerDeadBus() returns (count: nat, held: nat)
    ensures count == 0 && held == 0
  {
    var bus := new Bus(1);
    var component := new Component(1);
    ConnectWeakBusAndComponent(bus, component, Positive, {}, {}, {});
    count := bus.NumberOfComponents();
    held := |component.connections|;
  }
}
