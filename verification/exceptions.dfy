/** The exceptions the core throws. Where the Java message is built from a
    value's toString (generated by Immutables or the BSON library), the
    message keeps the value itself instead of its rendering; fixed messages
    are kept as text. */
module Exceptions {
  import opened Wrappers
  import Actions
  import Bson
  import ProcessTypes

  datatype Message =
    | Text(text: string)
    /** "" + action + " failed with " + reply */
    | ActionFailedWith(action: Actions.Action, reply: Bson.Document)
    /** "" + action + " failed" */
    | ActionFailed(action: Actions.Action)
    /** "Action not supported: " + action */
    | ActionNotSupported(action: Actions.Action)
    /** "mongo import failed: " + arguments */
    | ImportFailed(arguments: ProcessTypes.ImportArguments)

  datatype Exception =
    | IllegalArgument(message: Message)
    | IllegalState(message: Message)
    | NullPointer(detail: Option<Message>)
    | ClassCast(targetType: string)
    | UnknownHost(host: string)
    | Runtime(message: Message, cause: Exception)
}
