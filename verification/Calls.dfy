/** The outcome of a call to a store, as its caller cannot choose it. */
module Calls {

  /** The call runs and answers, it fails and changes nothing, or it runs and its answer is lost. */
  datatype Call = Answers | Fails | AnswerLost
}
