/** Result shapes shared by the models: a nullable value and calls that may throw. */
module Wrappers {

  datatype Option<+T> = None | Some(value: T)

  /** `Err` stands for a thrown exception; no caller in the source inspects the message. */
  datatype Result<+T> = Ok(value: T) | Err

  /** How a call to a database or to Redis ends: it may also take effect and then throw, as when its reply is lost. */
  datatype Call = Succeeds | Throws | LandsAndThrows {
    predicate Lands() { !Throws? }
  }
}
