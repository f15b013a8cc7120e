/** Optional values, results and the error conditions the program raises. */
module Outcomes {

  datatype Option<+T> = None | Some(value: T)

  /** The exceptions the three revisions raise (or run into), each with the text it names. */
  datatype Error =
    | SyntaxError(name: string)      // a name that breaks the naming rules, or an unsupported file type
    | FileNotFound(folder: string)   // a folder holding no evidence
    | Unreadable(name: string)       // the PDF or image reader cannot open the file's content
    | TypeError(text: string)        // ord() applied to a string that is not one character long
    | ValueError(text: string)       // int() applied to a string that is not an integer
    | IndexError                     // [-1] of an empty list
    | NameError(variable: string)    // a variable that was never bound

  datatype Result<+T> = Ok(value: T) | Err(error: Error)
}
