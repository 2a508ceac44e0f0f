/** Optional values and the ways a container operation can stop the process. */
module Outcomes {

  /** Swift's `Optional`: a child's `title`, or the weakly held current child. */
  datatype Option<+T> = None | Some(value: T)

  /** A Swift trap, which ends the process: there is no recovery path in the program. */
  datatype Fault =
    | IndexOutOfRange(index: int)       // `viewControllers[index]` outside the child list
    | MenuIndexOutOfRange(index: int)   // `menuItems[index]` outside the menu's entries
    | MissingCurrentChild               // `preconditionFailure("currentViewController must be set")`

  /** The result of a step that may trap. */
  datatype Outcome<+T> = Ok(value: T) | Trap(fault: Fault)
}
