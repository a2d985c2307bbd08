/** The exceptions the writer's column-width and sheet-naming code can raise. */
module Errors {
  datatype WriterError =
    | InvalidOutlineLevel   // \InvalidArgumentException: "Outline level must be between 1 and 7"
    | InvalidSheetName      // InvalidSheetNameException, raised by the sheet-name registry
}
