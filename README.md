# Circuit topology of the OCIRA core, in Dafny

This project models the circuit-topology layer of the OCIRA core library: buses (the junctions of
a circuit) and components (its edges), the two lists each side keeps of the other, the
connection manager that updates both sides, and the impedance and admittance formulas of the
capacitor and the inductor.

- `circuit_enums.dfy`: the component-type and terminal-role enumerations, and `Uint32` for ids.
- `topology.dfy`: the `Bus` and `Component` classes.
  - A component keeps a list of `{bus, role}` connections that do not own the bus (weak references).
  - A bus keeps the list of the components attached to it.
  - Whether a weak reference still resolves is decided by `live`, the set of buses that are still
    owned somewhere. Every operation that resolves a reference takes `live` as a parameter.
  - A Ground is a `Component` built with the `Ground` constructor. `AddConnection` dispatches on
    the kind, as the virtual override does.
  - The older `bus.cpp` and the newer `components/bus.hpp` describe one Bus class. The model merges
    them: add and remove follow `bus.cpp`, and the count, the `isConnected` test and the neighbour
    query follow the header.
- `connection_manager.dfy`: the connect and disconnect operations, in their shared and weak
  overloads.
  - `Consistent` is the two-sided invariant: a bus lists a component exactly when the component
    lists the bus.
  - Disconnecting preserves it.
  - Connecting preserves it exactly when the component already held the bus or still had room.
    When the component is full, the bus side is updated anyway and the two sides disagree.
- `complex_numbers.dfy` and `reactive.dfy`: complex values as pairs of reals, and the capacitor
  and inductor classes with their guarded and unguarded formulas (ω = 2πf).
- `scenarios.dfy`: concrete circuits built from fresh objects, following the unit tests. Each
  scenario's postcondition states what the test expects.

Two behaviours of the source are modelled as written:

- `isConnected` on a component asks for exactly two connections, for every kind
  (`Core/src/components/component.cpp:99`). A Ground accepts at most one connection
  (`Core/src/ground.cpp:9-11`), so its `isConnected` is never true
  (`Topology.GroundNeverConnected`).
- The capacitor's admittance and the inductor's impedance carry no guard. They return zero at zero
  frequency or at a zero value instead of failing.

## Model

| member | source | states |
|---|---|---|
| ComplexNumbers.ImaginaryReciprocal | Core/src/components/inductor.cpp:58-59 | 1/z of a non-zero imaginary z is imaginary and is z's inverse under the complex product |
| ComplexNumbers.ImaginaryReciprocalUnique | Core/src/components/inductor.cpp:58-59 | any w with z·w = 1 is that reciprocal, so the inverse is unique |
| Topology.RemoveFirstLinkAt | Core/src/components/component.cpp:69-76 | erasing the first live match at index i leaves the list without exactly that entry, others in order |
| Topology.RemoveFirstLinkAbsent | Core/src/components/component.cpp:69-78 | with no live connection to the id, removal leaves the list unchanged |
| Topology.RemoveFirstLinkUndoesAppend | Core/src/components/component.cpp:59-76 | removing a bus just appended (and not held before) restores the list |
| Topology.FirstLink | Core/src/components/component.cpp:69-76 | the loop's index is the first live match, or the length when there is none, and fixes the result of the erase |
| Topology.RemoveFirstLinkLinks | Core/src/components/component.cpp:64-79 | among distinct live ids, erasing one id removes exactly that link, keeps every other, keeps ids distinct and never grows the list |
| Topology.WithoutComponentIdMembers | Core/src/bus.cpp:29-33 | remove_if keeps exactly the entries whose id differs from the target |
| Topology.WithoutComponentIdConcat | Core/src/bus.cpp:29-33 | the erase distributes over concatenation, so survivors keep their relative order |
| Topology.WithoutComponentIdShrinks | Core/src/bus.cpp:25-36 | the list never grows, shrinks iff some entry had the id, and is unchanged otherwise |
| Topology.WithoutComponentIdHas | Core/src/bus.cpp:25-36 | after the erase an id is present iff it was present and differs from the erased id |
| Topology.RemoveUndoesAdd | Core/src/bus.cpp:11-36 | connecting a component not present and then disconnecting it restores the list |
| Topology.DistinctIdsCount | Core/include/components/bus.hpp:85-87 | with no repeated ids the list length is the number of distinct attached components |
| Topology.ComponentIdsHas | Core/src/bus.cpp:42-46 | an id is in the id set of the list iff some entry carries it |
| Topology.DistinctAfterErase | Core/src/bus.cpp:29-33 | erasing keeps an id-distinct list id-distinct |
| Topology.OtherEndsMembers | Core/include/components/bus.hpp:93-95 | a bus is a far end of a connection list iff it is live, is not this bus, and a connection names it |
| Topology.NeighborsViaMembers | Core/include/components/bus.hpp:93-95 | a bus is a neighbour iff it is live, is not this bus, and a connection of an attached component names it |
| Topology.Bus.constructor | Core/src/bus.cpp:5-9 | a new bus keeps the given id and starts with no components |
| Topology.Bus.AddConnection | Core/src/bus.cpp:11-23 | refuses (false, list unchanged) when a component of the same id is attached; otherwise appends it at the end; afterwards it is attached, and no-repeated-ids is preserved |
| Topology.Bus.RemoveConnection | Core/src/bus.cpp:25-36 | erases every entry of the id, returns true iff the list shrank iff it was attached, leaves it unattached, preserves no-repeated-ids |
| Topology.Bus.NumberOfComponents | Core/include/components/bus.hpp:85-87 | the count is zero iff the bus is unconnected, and equals the number of distinct attached ids |
| Topology.Bus.ConnectedIffAttached | Core/include/components/bus.hpp:89-91 | a bus is connected iff some component is attached to it |
| Topology.Bus.NeighborBuses | Core/include/components/bus.hpp:93-95 | both directions: the result holds exactly the live buses other than this one that a connection of an attached component names |
| Topology.Component.constructor | Core/src/components/component.cpp:40-44 | a base component keeps the given id, is untyped, and has no connections |
| Topology.Component.Ground | Core/src/ground.cpp:4 | a Ground keeps the given id, has the GROUND tag, and has no connections |
| Topology.Component.IsConnectedToBus | Core/src/components/component.cpp:81-95 | true iff the target resolves and some stored connection resolves to a live bus with its id |
| Topology.Component.AddConnection | Core/src/components/component.cpp:48-62 | succeeds iff not full (2 for the base kind, 1 for Ground) and, for the base kind, the bus is not held; success appends exactly `{bus, role}`; failure changes nothing; the arity bound and distinct live ids are preserved |
| Topology.Component.RemoveConnection | Core/src/components/component.cpp:64-79 | succeeds iff the target resolves and is held; erases only the first live match; a dead target changes nothing; afterwards the bus is no longer held |
| Topology.GroundNeverConnected | Core/src/components/component.cpp:99 | a valid Ground, which holds at most one connection, never passes the two-connection test |
| ConnectionManager.ConnectBusAndComponent | Core/src/managers/connection_manager.cpp:42-47 | the bus lists the component afterwards; the component holds the bus iff it did before or had room; full and not holding means the sides disagree; a consistent circuit stays consistent iff held-or-room |
| ConnectionManager.ConnectConsistency | Core/src/managers/connection_manager.cpp:45-46 | with both return values ignored, consistency survives a connect exactly when the component held the bus or had room |
| ConnectionManager.ConnectKeepsPairs | Core/src/managers/connection_manager.cpp:42-47 | when the component accepted (or did not need) the bus, every bus-component pair of the circuit still agrees |
| ConnectionManager.ConnectWeakBusAndComponent | Core/src/managers/connection_manager.cpp:49-55 | a dead bus changes nothing; a live bus behaves as the shared overload |
| ConnectionManager.DisconnectBusAndComponent | Core/src/managers/connection_manager.cpp:57-61 | the bus drops every entry of the component's id, the component drops its first link to the bus, neither reports the other, and consistency is preserved |
| ConnectionManager.DisconnectKeepsPairs | Core/src/managers/connection_manager.cpp:57-61 | after a disconnect every bus-component pair of the circuit still agrees |
| ConnectionManager.DisconnectWeakBusAndComponent | Core/src/managers/connection_manager.cpp:63-68 | a dead bus changes nothing; a live bus behaves as the shared overload |
| ConnectionManager.ConnectThenDisconnect | Core/test/managers/test_connection_manager.cpp:67-79 | connecting a bus and a component that do not know each other and then disconnecting restores both lists |
| Reactive.OmegaProductNonZero | Core/src/components/capacitor.cpp:54-55 | ω·x is non-zero iff neither the frequency nor x is zero |
| Reactive.Capacitor.constructor | Core/src/components/capacitor.cpp:38-41 | the base component keeps the id and gets the CAPACITOR tag; the capacitance is stored |
| Reactive.Capacitor.SetCapacitance | Core/src/components/capacitor.cpp:63-65 | the getter returns the value set |
| Reactive.Capacitor.GetImpedance | Core/src/components/capacitor.cpp:45-56 | fails with the zero-frequency error iff f = 0 (checked first), with the zero-capacitance error iff f ≠ 0 and C = 0; returns a value iff f ≠ 0 and C ≠ 0, and that value is imaginary with im·ωC = −1 |
| Reactive.Capacitor.GetAdmittance | Core/src/components/capacitor.cpp:58-61 | unguarded, imaginary, zero when f or C is zero, positive for positive f and C, and the inverse of the impedance wherever that is defined |
| Reactive.Capacitor.AdmittanceIsReciprocal | Core/src/components/capacitor.cpp:45-61 | wherever the impedance is defined it is non-zero and the admittance equals its reciprocal |
| Reactive.Inductor.constructor | Core/src/components/inductor.cpp:37-40 | the base component keeps the id and gets the INDUCTOR tag; the inductance is stored |
| Reactive.Inductor.SetInductance | Core/src/components/inductor.cpp:62 | the getter returns the value set |
| Reactive.Inductor.GetImpedance | Core/src/components/inductor.cpp:44-47 | unguarded and imaginary; zero iff f or L is zero; positive for positive f and L |
| Reactive.Inductor.GetAdmittance | Core/src/components/inductor.cpp:49-60 | fails with the zero-frequency error iff f = 0 (checked first), with the zero-inductance error iff f ≠ 0 and L = 0; returns a value iff f ≠ 0 and L ≠ 0, and that value is the inverse of the impedance, with im·ωL = −1 |
| Reactive.Inductor.ImpedanceIsReciprocal | Core/src/components/inductor.cpp:44-59 | wherever the admittance is defined it is non-zero and the unguarded impedance equals its reciprocal, which fixes the impedance at ωL there |
| Scenarios.DuplicateBusRefused | Core/test/components/test_component.cpp:55-68 | the first connection succeeds; the same bus is refused with either role |
| Scenarios.RemoveTwice | Core/test/components/test_component.cpp:71-83 | the first removal succeeds, the second is refused |
| Scenarios.ThirdBusRefused | Core/test/components/test_component.cpp:86-100 | the first two buses are held, the third is refused, and the component is connected |
| Scenarios.DeadBusIgnored | Core/src/components/component.cpp:64-67 | a bus that is gone is neither reported nor removed |
| Scenarios.GroundReconnects | Core/src/ground.cpp:8-16 | a Ground takes one connection, refuses a second, and accepts one again after removing its own |
| Scenarios.BusAddTwice | Core/test/components/test_bus.cpp:61-74 | the second add of a component is refused; the count is one and the bus is connected |
| Scenarios.BusRemove | Core/test/components/test_bus.cpp:77-103 | removal empties the bus; removing a component never added is refused |
| Scenarios.Neighbours | Core/test/components/test_bus.cpp:151-166 | the only neighbour of bus 1 is bus 2 |
| Scenarios.ManagerConnectDisconnect | Core/test/managers/test_connection_manager.cpp:67-79 | after a weak connect each side reports the other; after a weak disconnect neither does |
| Scenarios.ManagerBreaksWhenFull | Core/src/managers/connection_manager.cpp:45-46 | a full component refuses a third bus that nevertheless lists it |
| Scenarios.ManagerDeadBus | Core/src/managers/connection_manager.cpp:49-55 | with the bus gone, a weak connect leaves both lists empty |

## Left out

- The circuit validator, transformer and calculator: the validator and transformer are unfinished stubs, and the calculator is a call into a foreign linear-algebra library.
- The AC source phasors need cosine and sine. The DC sources, the resistor and the wire only store and return fields; their type tags appear in `ComponentType`.
- The older two-slot component draft, the node class, the circuit container and the application's window are not part of this model.
- Floating point: capacitance, inductance, frequency and the complex values are reals. π is the decimal literal of `M_PI`, and no rounding is modelled.
- Ids are 32-bit unsigned values (`Uint32`). The model counts components as a `nat`; the wrap of a 32-bit count past 2^32 - 1 entries is not modelled.
- Null entries in a bus's component list are not modelled. The source skips them when it compares ids, and the model's lists cannot hold them.
- Weak references: whether a reference resolves is the parameter `live`. Destroying a bus, and ownership in general, is not modelled.
- The implementation of the neighbour query is not part of this model. `Topology.Bus.NeighborBuses` follows its documentation and test: the far ends of the connections of the attached components, component by component, in order, without removing duplicates.
- Exceptions thrown by the capacitor and the inductor are the `Err` values of a `Result`.
- ComplexNumbers.ImaginaryReciprocal: only the reciprocal of a non-zero purely imaginary number is defined, because that is the only division the source performs. General complex division is not modelled.
- Topology.Bus.IsConnectedToComponent, Topology.Component.HoldsBus, Topology.Component.IsConnected and Topology.Bus.IsConnected are predicates without a separate contract. Their meaning is stated by the operations and lemmas that use them: `Topology.Component.IsConnectedToBus`, `Topology.GroundNeverConnected`, `Topology.Bus.NumberOfComponents` and `Topology.Bus.ConnectedIffAttached`.
- Reactive.Capacitor.GetCapacitance and Reactive.Inductor.GetInductance are plain field reads without a contract of their own. The setters' postconditions state what they return.
- The "nothing else changes" promise of the connection manager is the `modifies` clause of each operation: only the given bus's list and the given component's list may change.
