/**
 * The key dispatch of `mainLoop` (source/main.c:211-240): one command per
 * frame, taken from the highest-priority key pressed in that frame, with
 * priority Plus, Up, Down, A, B. Key codes are abstract: each key is a
 * distinct bit, and `Other` stands for every bit the loop does not check.
 */
module Input {

  datatype Key = Plus | KeyUp | KeyDown | KeyA | KeyB | Other(bit: nat)

  datatype Command = Quit | MoveUp | MoveDown | Activate | Back | Idle

  /** Position of a checked key in the `if`/`else if` chain. */
  function Rank(k: Key): nat {
    match k
    case Plus => 0
    case KeyUp => 1
    case KeyDown => 2
    case KeyA => 3
    case KeyB => 4
    case Other(_) => 5
  }

  /** The key whose branch runs a command. */
  function KeyOf(cmd: Command): Key
    requires cmd != Idle
  {
    match cmd
    case Quit => Plus
    case MoveUp => KeyUp
    case MoveDown => KeyDown
    case Activate => KeyA
    case Back => KeyB
  }

  /** The command a frame with the keys `kDown` pressed runs. */
  function Decide(kDown: set<Key>): (cmd: Command)
    // nothing runs exactly when no checked key is pressed
    ensures cmd == Idle <==> forall k :: k in kDown ==> k.Other?
    // otherwise the command belongs to a pressed key that outranks every other pressed key
    ensures cmd != Idle ==>
      KeyOf(cmd) in kDown && forall k :: k in kDown ==> Rank(KeyOf(cmd)) <= Rank(k)
  {
    if Plus in kDown then Quit
    else if KeyUp in kDown then MoveUp
    else if KeyDown in kDown then MoveDown
    else if KeyA in kDown then Activate
    else if KeyB in kDown then Back
    else Idle
  }
}
