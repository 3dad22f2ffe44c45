/**
 * The records the lab passes around: the live state of the circuit, one
 * row of the observation table, and one chat bubble.
 */
module Types {

  datatype Option<T> = None | Some(value: T)

  /** The circuit: two keys, the condenser's voltage, the constants and the simulation clock. */
  datatype SimulationState = SimulationState(
    isK1Closed: bool,        // charging key
    isK2Closed: bool,        // leaking key
    capacitorVoltage: real,  // proportional to the galvanometer's deflection
    maxVoltage: real,        // the battery's voltage
    capacitance: real,       // microfarads
    resistance: real,        // megaohms, the value the student is to find
    simTime: real)           // seconds

  /** One row of the observation table; `calculatedR` is filled in by the calculation. */
  datatype LabReading = LabReading(
    id: int,
    timeSeconds: real,
    initialDeflection: real,  // theta 0
    finalDeflection: real,    // theta t
    calculatedR: Option<real>)

  datatype Role = User | Model

  datatype ChatMessage = ChatMessage(role: Role, text: string)
}
