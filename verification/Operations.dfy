/** The file operations that the pre-operation callbacks see, and what becomes of them. */
module Operations {

  datatype InfoClass = Rename | RenameEx | Disposition | DispositionEx | OtherClass

  datatype Operation = Write(pagingIo: bool) | SetInformation(class_: InfoClass)

  datatype Outcome = SuccessNoCallback | SuccessWithCallback | Complete

  /** Operations that are looked at at all: non-paging writes, renames and deletes. */
  predicate Monitored(operation: Operation) {
    match operation
    case Write(pagingIo) => !pagingIo
    case SetInformation(c) => c != OtherClass
  }

  /** How an operation that is not denied goes on. */
  function Allowed(operation: Operation, recorded: bool): Outcome {
    if operation.SetInformation? && recorded then SuccessWithCallback else SuccessNoCallback
  }
}
