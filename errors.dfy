// The library's error type. `IncorrectType` carries the rejected default
// text; `Other` carries a message (the `From<&str>` conversion). `Input` is
// the variant the `MenuBool` parser reports.
module Errors {
  datatype MenuError =
    | IOError
    | IncorrectType(value: string)
    | NoMoreField
    | Input
    | Other(msg: string)

}
