/** The exceptions the discount engine throws, as values. */
module Errors {
  import opened Php

  datatype Error =
    | InvalidArgument(message: string)   // \InvalidArgumentException
    | UnknownConditionType(tag: Value)   // \RuntimeException "Unknown condition type: ..."
    | TypeError(parameter: string)       // a typed PHP parameter given a value of another type
    | InvalidDate(text: string)          // Carbon::parse cannot read the text
}
