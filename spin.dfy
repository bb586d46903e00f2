/**
 * The spin controller: the module-level state that startSpin and step update, with the wheel's
 * angles left out. A spin is Idle -> Spinning -> Idle; the winning pocket is read once the spin's
 * time is up.
 */
module Spin {
  import opened Wrappers
  import opened Wheel
  import opened Payout

  /** How long a spin lasts, in milliseconds. */
  const Duration: int := 4500

  /** The three bet fields as the page holds them: stake text, bet type and bet-number text. */
  datatype BetForm = BetForm(amount: string, kind: string, number: string)

  /** What the end of a spin reports: the winning number, its colour and the status message. */
  datatype Report = Report(number: int, color: Color, message: string)

  /**
   * The outcome of a finished spin. pointerSlot is the slot angleToIndex computes before its final
   * reduction modulo the number of pockets.
   */
  function Resolve(pointerSlot: nat, form: BetForm): (r: Report)
    ensures 0 <= r.number <= 36 && r.number in Sequence
    ensures r.number == Sequence[pointerSlot % PocketCount]
    ensures r.color == NumberColor(r.number)
    ensures r.message == ShowResult(r.number, r.color, form.amount, form.kind, form.number)
  {
    SequenceIsPermutation();
    var n := Sequence[pointerSlot % PocketCount];
    Report(n, NumberColor(n), ShowResult(n, NumberColor(n), form.amount, form.kind, form.number))
  }

  class Roulette {
    /** True from the start of a spin until the step that ends it. */
    var spinning: bool
    /** When the current or last spin started, in milliseconds. */
    var startTime: int
    /**
     * The pocket index drawn at the start of the spin. Together with fullTurns it stands for the
     * target angle only: the pocket that wins is read from the pointer, not from this index.
     */
    var resultIndex: int
    /** The whole turns the wheel makes before it stops: the whole-turn part of the target angle. */
    var fullTurns: int

    ghost predicate Valid()
      reads this
    {
      0 <= resultIndex < PocketCount && (spinning ==> 6 <= fullTurns <= 9)
    }

    /** The page at load: idle, nothing drawn yet. */
    constructor ()
      ensures Valid()
      ensures !spinning && startTime == 0 && resultIndex == 0 && fullTurns == 0
    {
      spinning := false;
      startTime := 0;
      resultIndex := 0;
      fullTurns := 0;
    }

    /**
     * startSpin at time now. turns and index stand for the two random draws, 6 + floor(4 * random)
     * and floor(37 * random). When a spin is already running nothing changes.
     */
    method StartSpin(now: int, turns: int, index: int) returns (started: bool)
      requires Valid()
      requires 6 <= turns <= 9 && 0 <= index < PocketCount
      modifies this
      ensures Valid()
      ensures started == !old(spinning)
      ensures !started ==> spinning && startTime == old(startTime) && resultIndex == old(resultIndex)
                           && fullTurns == old(fullTurns)
      ensures started ==> spinning && startTime == now && resultIndex == index && fullTurns == turns
    {
      if spinning {
        return false;
      }
      spinning := true;
      fullTurns := turns;
      resultIndex := index;
      startTime := now;
      started := true;
    }

    /**
     * One animation frame at time now. Until Duration milliseconds have passed it only redraws;
     * on the frame that ends the spin it goes idle and reports the pocket under the pointer, whose
     * slot angleToIndex gives as pointerSlot, with the bet in form settled against it. Frames are
     * only scheduled while a spin runs.
     */
    method Step(now: int, pointerSlot: nat, form: BetForm) returns (report: Option<Report>)
      requires Valid() && spinning
      modifies this
      ensures Valid()
      ensures startTime == old(startTime) && resultIndex == old(resultIndex) && fullTurns == old(fullTurns)
      ensures now - startTime < Duration ==> report == None && spinning
      ensures now - startTime >= Duration ==> !spinning && report == Some(Resolve(pointerSlot, form))
    {
      if now - startTime < Duration {
        return None;
      }
      spinning := false;
      report := Some(Resolve(pointerSlot, form));
    }
  }

  /**
   * A spin from the idle page: a second click while it runs is ignored, one millisecond before the
   * duration the frame still spins, and at the duration the spin ends with the pointer's pocket.
   */
  method SpinOnce(start: int, turns: int, index: int, pointerSlot: nat, form: BetForm)
    returns (again: bool, frame: Option<Report>, report: Option<Report>)
    requires 6 <= turns <= 9 && 0 <= index < PocketCount
    ensures !again && frame == None
    ensures report == Some(Resolve(pointerSlot, form))
    ensures 0 <= report.value.number <= 36 && report.value.color == NumberColor(report.value.number)
  {
    var wheel := new Roulette();
    var started := wheel.StartSpin(start, turns, index);
    again := wheel.StartSpin(start + 1, 6, 0);
    frame := wheel.Step(start + Duration - 1, pointerSlot, form);
    report := wheel.Step(start + Duration, pointerSlot, form);
  }
}
