/** Vocabulary shared by the circuit core: component kinds, terminal roles and the
    32-bit identifiers used for buses and components. */
module CircuitEnums {

  /** Unsigned 32-bit integer, the representation of bus and component identifiers. */
  type Uint32 = n: int | 0 <= n < 0x1_0000_0000

  /** The supported kinds of circuit component. */
  datatype ComponentType =
    | AcCurrentSource
    | AcVoltageSource
    | Capacitor
    | DcCurrentSource
    | DcVoltageSource
    | Ground
    | Impedance
    | Inductor
    | Resistor
    | Undefined
    | Wire

  /** Polarity of a component terminal. */
  datatype TerminalRole = Positive | Negative
}
