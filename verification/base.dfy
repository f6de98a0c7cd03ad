/** Failure kinds of both interpreters and the Result type that carries them.
    Every C++ exception the interpreters can throw, and every piece of
    undefined behaviour they can run into, becomes one explicit Error. */
module Base {

  datatype Error =
    | EmptyLine                      // tokens.front() on a line without tokens
    | UnknownOpcode(name: string)    // instruction_map_.at(name) throws
    | MissingOperand(name: string)   // tokens.at(k) past the last operand
    | BadLiteral(token: string)      // std::stoi: no digits to convert
    | LiteralOutOfRange(token: string) // std::stoi: value outside int
    | UndefinedRegister(name: string) // registers_->at(name) throws
    | UndefinedLabel(name: string)   // label_map_.at(name) throws
    | DivisionByZero                 // int division by 0 (undefined behaviour)
    | Overflow                       // signed int overflow (undefined behaviour)
    | StackUnderflow                 // jump_stack_.top() on an empty stack
    | PastEnd                        // the instruction pointer stepped beyond end()

  datatype Result<+T> = Ok(value: T) | Err(error: Error) {

    predicate IsFailure() {
      Err?
    }

    function PropagateFailure<U>(): Result<U>
      requires Err?
    {
      Err(error)
    }

    function Extract(): T
      requires Ok?
    {
      value
    }
  }

  datatype Option<+T> = None | Some(value: T)
}
