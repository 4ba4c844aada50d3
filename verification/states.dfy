/** The enumerations of board.py and a small Option type. */
module States {

  /** ShownEnum: what a square (or a whole small game) displays. */
  datatype Shown = Blank | O | X | T

  /** GameResultEnum: the result of the whole game. */
  datatype GameResult = StillRunning | OWin | XWin | Tie

  /** An attribute that Python creates on first assignment: None until then. */
  datatype Option<V> = None | Some(value: V)
}
