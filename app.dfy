/**
 * The lab page itself: the state the page holds (circuit, observation
 * table, stopwatch reading, chat bubbles, camera, drag state) and one method
 * per handler that replaces it. Each handler may change only the fields
 * its `modifies` clause names.
 *
 * Time deltas, ids and the exponential and logarithm come in as
 * parameters; the clock and the animation-frame scheduler that supply
 * them are not part of this model.
 */
module App {
  import opened Types
  import opened Numeric
  import opened Physics
  import opened Ledger
  import opened Camera

  const WELCOME: string := "Welcome to the Physics Lab! You can drag to rotate the view and scroll to zoom. To begin, ensure K2 is open and close K1 to charge the condenser."
  const FIRST_READING_TIP: string := "Great! You've recorded a reading. Use the 'Calc R' button to compute the resistance using the formula."
  const RESET_NOTE: string := "Experiment reset. Ready for a new trial."

  /** Every row the page can hold was recorded from the live circuit. */
  ghost predicate RecordedRows(rs: seq<LabReading>) {
    forall r :: r in rs ==> r.initialDeflection == BATTERY_VOLTAGE && r.finalDeflection >= 0.0
  }

  class Lab {
    var simState: SimulationState
    var readings: seq<LabReading>
    var currentStopwatchTime: real
    var hasShownTip: bool
    var chatHistory: seq<ChatMessage>
    var view: View
    var isDragging: bool
    var lastMouseX: real
    var lastMouseY: real

    /**
     * The constants never change, the voltage is never negative, the
     * camera stays inside its limits, every row was recorded from the
     * circuit, and the welcome bubble stays first.
     */
    ghost predicate Valid()
      reads this
    {
      && simState.maxVoltage == BATTERY_VOLTAGE
      && simState.capacitance == CAPACITANCE_UF
      && simState.resistance == RESISTANCE_MOHM
      && simState.capacitorVoltage >= 0.0
      && InRange(view)
      && RecordedRows(readings)
      && chatHistory != [] && chatHistory[0] == ChatMessage(Model, WELCOME)
    }

    constructor ()
      ensures Valid()
      ensures simState == INITIAL_STATE && readings == [] && currentStopwatchTime == 0.0
      ensures !hasShownTip && chatHistory == [ChatMessage(Model, WELCOME)]
      ensures view == DEFAULT_VIEW && !isDragging && lastMouseX == 0.0 && lastMouseY == 0.0
    {
      simState := INITIAL_STATE;
      readings := [];
      currentStopwatchTime := 0.0;
      hasShownTip := false;
      chatHistory := [ChatMessage(Model, WELCOME)];
      view := DEFAULT_VIEW;
      isDragging := false;
      lastMouseX, lastMouseY := 0.0, 0.0;
    }

    /** One animation frame, `dt` seconds after the last. */
    method UpdatePhysics(dt: real, exp: real -> real)
      requires Valid()
      modifies this`simState
      ensures Valid()
      ensures simState == Step(old(simState), dt, exp)
    {
      simState := Step(simState, dt, exp);
    }

    method ToggleK1()
      requires Valid()
      modifies this`simState
      ensures Valid()
      ensures simState == Physics.ToggleK1(old(simState))
    {
      simState := Physics.ToggleK1(simState);
    }

    method ToggleK2()
      requires Valid()
      modifies this`simState
      ensures Valid()
      ensures simState == Physics.ToggleK2(old(simState))
    {
      simState := Physics.ToggleK2(simState);
    }

    /** The stopwatch reports its time, in seconds. */
    method OnTimeUpdate(seconds: real)
      requires Valid()
      modifies this`currentStopwatchTime
      ensures Valid()
      ensures currentStopwatchTime == seconds
    {
      currentStopwatchTime := seconds;
    }

    /**
     * "Record reading": a row from the stopwatch and the live voltage goes
     * at the end of the table; the first time, a tip is added to the chat.
     */
    method RecordReading(id: int)
      requires Valid()
      modifies this`readings, this`hasShownTip, this`chatHistory
      ensures Valid()
      ensures readings == Record(old(readings), NewReading(id, currentStopwatchTime, simState.capacitorVoltage))
      ensures hasShownTip
      ensures chatHistory == old(chatHistory)
        + if old(hasShownTip) then [] else [ChatMessage(Model, FIRST_READING_TIP)]
    {
      var reading := NewReading(id, currentStopwatchTime, simState.capacitorVoltage);
      readings := Record(readings, reading);
      if !hasShownTip {
        hasShownTip := true;
        chatHistory := chatHistory + [ChatMessage(Model, FIRST_READING_TIP)];
      }
    }

    method DeleteReading(id: int)
      requires Valid()
      modifies this`readings
      ensures Valid()
      ensures readings == Delete(old(readings), id)
    {
      readings := Delete(readings, id);
    }

    /**
     * "Calc" on the row `r` as it was shown: the table changes only when
     * the calculation goes through.
     */
    method CalculateR(r: LabReading, ln: real -> real) returns (outcome: CalcOutcome)
      requires Valid() && LogPositive(ln)
      modifies this`readings
      ensures Valid()
      ensures outcome == Ledger.CalculateR(old(readings), r, ln)
      ensures readings == if outcome.Updated? then outcome.readings else old(readings)
    {
      outcome := Ledger.CalculateR(readings, r, ln);
      if outcome.Updated? {
        forall x | x in outcome.readings
          ensures x.initialDeflection == BATTERY_VOLTAGE && x.finalDeflection >= 0.0
        {
          var i :| 0 <= i < |outcome.readings| && outcome.readings[i] == x;
          assert readings[i] in readings;
        }
        readings := outcome.readings;
      }
    }

    /** "Reset exp": keys open, condenser empty, table cleared, a note in the chat. */
    method ResetExperiment()
      requires Valid()
      modifies this`simState, this`readings, this`chatHistory
      ensures Valid()
      ensures simState == Reset(old(simState)) && readings == []
      ensures chatHistory == old(chatHistory) + [ChatMessage(Model, RESET_NOTE)]
    {
      simState := Reset(simState);
      readings := [];
      chatHistory := chatHistory + [ChatMessage(Model, RESET_NOTE)];
    }

    method ResetView()
      requires Valid()
      modifies this`view
      ensures Valid()
      ensures view == DEFAULT_VIEW
    {
      view := DEFAULT_VIEW;
    }

    method MouseDown(clientX: real, clientY: real)
      requires Valid()
      modifies this`isDragging, this`lastMouseX, this`lastMouseY
      ensures Valid()
      ensures isDragging && lastMouseX == clientX && lastMouseY == clientY
    {
      isDragging := true;
      lastMouseX, lastMouseY := clientX, clientY;
    }

    /** A move turns the camera only during a drag; otherwise nothing changes. */
    method MouseMove(clientX: real, clientY: real)
      requires Valid()
      modifies this`view, this`lastMouseX, this`lastMouseY
      ensures Valid()
      ensures !isDragging ==> view == old(view) && lastMouseX == old(lastMouseX) && lastMouseY == old(lastMouseY)
      ensures isDragging ==> view == Orbit(old(view), clientX - old(lastMouseX), clientY - old(lastMouseY))
      ensures isDragging ==> lastMouseX == clientX && lastMouseY == clientY
    {
      if !isDragging {
        return;
      }
      var deltaX, deltaY := clientX - lastMouseX, clientY - lastMouseY;
      lastMouseX, lastMouseY := clientX, clientY;
      view := Orbit(view, deltaX, deltaY);
    }

    /** Releasing the button, or leaving the bench, ends the drag. */
    method MouseUp()
      requires Valid()
      modifies this`isDragging
      ensures Valid()
      ensures !isDragging
    {
      isDragging := false;
    }

    method Wheel(deltaY: real)
      requires Valid()
      modifies this`view
      ensures Valid()
      ensures view == Zoom(old(view), deltaY)
    {
      view := Zoom(view, deltaY);
    }
  }

  /**
   * A session: charge, leak, record, calculate. What the handlers promise
   * is enough to follow the circuit and the table through it.
   */
  method Session(exp: real -> real, ln: real -> real) returns (leaked: real)
    requires IsDecay(exp) && LogPositive(ln)
    ensures 0.0 <= leaked <= 75.0
  {
    var lab := new Lab();
    lab.ToggleK1();
    lab.UpdatePhysics(0.05, exp);
    assert lab.simState.capacitorVoltage == 75.0;
    lab.ToggleK1();
    lab.ToggleK2();
    var charged := lab.simState;
    lab.UpdatePhysics(0.05, exp);
    LeakBound(charged, 0.05, exp);
    leaked := lab.simState.capacitorVoltage;
    assert 0.0 <= leaked <= 75.0;
    lab.RecordReading(7);
    assert |lab.readings| == 1 && lab.readings[0].id == 7 && lab.hasShownTip;
    lab.DeleteReading(7);
    assert lab.readings == [];
  }
}
