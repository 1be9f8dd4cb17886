/**
  The timer and keypad instructions: Fx07, Fx15, Fx18 (timers) and Fx0A
  (wait for a key). Ex9E and ExA1 only skip, and are in `Flow`.

  Fx0A does not block: when no key is down it moves the program counter
  back by two, so that the next fetch executes Fx0A again.
*/
module Peripherals {
  import opened Bits
  import opened Machine

  /** Fx07: Vx := delay timer. */
  function ReadDelay(m: Chip8, x: RegIndex): (r: Chip8)
    ensures r.v[x] == m.delayTimer
    ensures AgreeOutside(r.v, m.v, {x})
    ensures r == m.(v := r.v)
  {
    m.(v := m.v[x := m.delayTimer])
  }

  /** Fx15: delay timer := Vx. */
  function SetDelay(m: Chip8, x: RegIndex): (r: Chip8)
    ensures r.delayTimer == m.v[x]
    ensures r == m.(delayTimer := r.delayTimer)
  {
    m.(delayTimer := m.v[x])
  }

  /** Fx18: sound timer := Vx. */
  function SetSound(m: Chip8, x: RegIndex): (r: Chip8)
    ensures r.soundTimer == m.v[x]
    ensures r == m.(soundTimer := r.soundTimer)
  {
    m.(soundTimer := m.v[x])
  }

  /** Reading the delay timer right after setting it from Vx gives Vx back in Vy. */
  lemma SetThenReadDelay(m: Chip8, x: RegIndex, y: RegIndex)
    ensures ReadDelay(SetDelay(m, x), y).v[y] == m.v[x]
  {
  }

  /** A delay set from Vx counts down to zero in exactly Vx ticks and not earlier. */
  lemma DelayExpires(m: Chip8, x: RegIndex)
    ensures Ticks(SetDelay(m, x), m.v[x]).delayTimer == 0
    ensures forall k :: 0 <= k < m.v[x] ==> Ticks(SetDelay(m, x), k).delayTimer > 0
  {
    TicksCountDown(SetDelay(m, x), m.v[x]);
    forall k | 0 <= k < m.v[x]
      ensures Ticks(SetDelay(m, x), k).delayTimer > 0
    {
      TicksCountDown(SetDelay(m, x), k);
    }
  }

  /** A sound set from Vx plays for exactly Vx ticks. */
  lemma SoundExpires(m: Chip8, x: RegIndex)
    ensures Ticks(SetSound(m, x), m.v[x]).soundTimer == 0
    ensures forall k :: 0 <= k < m.v[x] ==> Ticks(SetSound(m, x), k).soundTimer > 0
  {
    TicksCountDown(SetSound(m, x), m.v[x]);
    forall k | 0 <= k < m.v[x]
      ensures Ticks(SetSound(m, x), k).soundTimer > 0
    {
      TicksCountDown(SetSound(m, x), k);
    }
  }

  /** The outcome of scanning the keypad. */
  datatype KeyScan = NoKey | Pressed(key: nat)

  /**
    The lowest pressed key numbered `from` or higher. Fx0A starts the scan
    at key 1, so key 0 is never reported.
  */
  function FirstPressed(keys: Keys, from: nat): (r: KeyScan)
    requires 1 <= from <= KeyCount
    ensures r.Pressed? ==> from <= r.key < KeyCount && keys[r.key]
    ensures r.Pressed? ==> forall j :: from <= j < r.key ==> !keys[j]
    ensures r.NoKey? <==> forall j :: from <= j < KeyCount ==> !keys[j]
    decreases KeyCount - from
  {
    if from == KeyCount then NoKey
    else if keys[from] then Pressed(from)
    else FirstPressed(keys, from + 1)
  }

  /** Some key other than key 0 is down. */
  predicate AnyKeyAboveZero(keys: Keys)
  {
    exists j :: 1 <= j < KeyCount && keys[j]
  }

  /**
    Fx0A: with a key in 1..15 down, Vx := the lowest such key; otherwise the
    program counter moves back two bytes, which must not go below zero.
  */
  function WaitKey(m: Chip8, x: RegIndex): (r: Chip8)
    requires AnyKeyAboveZero(m.keypad) || m.pc >= 2
    ensures AnyKeyAboveZero(m.keypad) ==>
      && 1 <= r.v[x] < KeyCount && m.keypad[r.v[x]]
      && (forall j :: 1 <= j < r.v[x] ==> !m.keypad[j])
      && AgreeOutside(r.v, m.v, {x})
      && r == m.(v := r.v)
    ensures !AnyKeyAboveZero(m.keypad) ==> r.pc + 2 == m.pc && r == m.(pc := r.pc)
  {
    match FirstPressed(m.keypad, 1)
    case Pressed(key) => m.(v := m.v[x := key])
    case NoKey => m.(pc := m.pc - 2)
  }

  /** Fx0A as the interpreter runs it: keys 1 to 15 in order, stopping at the first one down. */
  method WaitKeyLoop(m: Chip8, x: RegIndex) returns (r: Chip8)
    requires AnyKeyAboveZero(m.keypad) || m.pc >= 2
    ensures r == WaitKey(m, x)
  {
    var v := m.v;
    var keyPressed := false;
    var i := 1;
    while i < KeyCount
      invariant 1 <= i <= KeyCount
      invariant !keyPressed && v == m.v
      invariant FirstPressed(m.keypad, i) == FirstPressed(m.keypad, 1)
    {
      if m.keypad[i] {
        v := v[x := i];
        keyPressed := true;
        break;
      }
      i := i + 1;
    }
    if keyPressed {
      assert FirstPressed(m.keypad, 1) == Pressed(i);
      r := m.(v := v);
    } else {
      r := m.(pc := m.pc - 2);
    }
  }

  /** Holding only key 0 does not end the wait: Fx0A backs up exactly as with no key at all. */
  lemma WaitKeyIgnoresKeyZero(m: Chip8, x: RegIndex)
    requires m.keypad[0] && forall j :: 1 <= j < KeyCount ==> !m.keypad[j]
    requires m.pc >= 2
    ensures WaitKey(m, x) == m.(pc := m.pc - 2)
  {
  }
}
