/**
 * The exceptions the helpers throw. `ApiException` (HTTP 400) and `ClientException`
 * (HTTP 422, carrying a message meant for the end user) are the two the web layer turns
 * into responses; the others are plain PHP exceptions. Messages are kept as a datatype
 * naming what went wrong and the field, value or bound involved, not as text.
 */
module Errors {
  import opened Wrappers
  import opened Php

  /** The kinds of data a typed getter expects for its default. */
  datatype Kind = StringKind | IntKind | BoolKind | ArrayKind

  datatype Msg =
    // Loader
    | MissingRequired(name: string)
    | RequiredEmpty(field: string)
    | NotConverted
    | BadDefault(expected: Kind)
    | BadEntityDefault
    | CallbackMissing
    | EntityNotContainer
    | EntityNotArray
    | EntityNotObject
    | CheckResultNotBool
    | CheckNotCallable
    | ObjectToString
    // validators
    | NotAString(field: string)
    | NotANumber(field: string)
    | TooShort(field: string, bound: int)
    | TooLong(field: string, bound: int)
    | Above(field: string, bound: int)
    | Below(field: string, bound: int)
    | TooBig(field: string, size: int)
    | StrlenOfArray
    | Incorrect(field: string)
    | BadMimeType(types: seq<string>)
    | BadWidth(width: int)
    | BadHeight(height: int)
    | CustomFailed
    | FieldEmpty(field: string)
    | NotFoundInSource(column: string)
    | Taken(value: Value, field: string)
    | Text(text: string)
    // Enum
    | ValueNotScalar
    | TitleNotText
    | LookupNotScalar
    | NoSuchValue(className: string, value: Value)
    | NoEnumValues(className: string)
    | RepeatedValue(className: string, value: Value)
    // Helper
    | ObjectAsArray(className: string)

  datatype Error =
    | ApiError(message: Msg)          // ApiException: HTTP 400
    | ClientError(userMessage: string) // ClientException: HTTP 422
    | PlainError(message: Msg)        // \Exception
    | RuntimeError(message: Msg)      // \RuntimeException
    | InvalidArgument(message: Msg)   // \InvalidArgumentException
    | OutOfBounds(message: Msg)       // \OutOfBoundsException
    | EngineError(message: Msg)       // an Error or TypeError thrown by PHP itself
    | FrameworkError(text: string)    // an exception let through from the framework

  /** The HTTP status of the two exceptions the web layer answers with. */
  function StatusCode(e: Error): (code: int)
    requires e.ApiError? || e.ClientError?
    ensures code == 422 <==> e.ClientError?
    ensures code == 400 <==> e.ApiError?
  {
    if e.ClientError? then 422 else 400
  }

  /** A user message counts only when PHP finds it truthy: neither null, "" nor "0". */
  predicate HasUserMessage(userMessage: Option<string>) {
    userMessage.Some? && Truthy(Str(userMessage.value))
  }

  /** `Loader::error($message, $userMessage)`: it never returns; it throws a client error
      carrying the user message when there is one, and an API error otherwise. */
  function Raise(message: Msg, userMessage: Option<string>): (e: Error)
    ensures e.ClientError? || e.ApiError?
    ensures e.ClientError? <==> userMessage.Some? && userMessage.value != "" && userMessage.value != "0"
    ensures e.ClientError? ==> e.userMessage == userMessage.value
    ensures e.ApiError? ==> e.message == message
  {
    if HasUserMessage(userMessage) then ClientError(userMessage.value) else ApiError(message)
  }
}
