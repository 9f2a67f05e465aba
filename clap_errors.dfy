/** The kinds of error the argument parser reports, as far as the program
    tells them apart. */
module ClapErrors {
  datatype ErrorKind =
    | InvalidValue
    | UnknownArgument
    | InvalidSubcommand
    | NoEquals
    | ValueValidation
    | TooManyValues
    | TooFewValues
    | WrongNumberOfValues
    | ArgumentConflict
    | MissingRequiredArgument
    | MissingSubcommand
    | InvalidUtf8
    | DisplayHelp
    | DisplayHelpOnMissingArgumentOrSubcommand
    | DisplayVersion
    | Io
    | Format
}
