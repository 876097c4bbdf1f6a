/** `PromptGuardError` and the `Result` alias of src/error.rs. */
module Errors {

  datatype Error =
    | Io                     // std::io::Error; the operating system's message is not modelled
    | Parse(message: string)
    | Config(message: string)
    | NotInitialized
    | InvalidApiKey

  datatype Result<+T> = Ok(value: T) | Err(error: Error)
}
