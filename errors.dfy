/** Option and Result values, and the exceptions python-jss raises, as data.
    Every operation that raises in the library returns `Err(e)` here. */
module Errors {

  datatype Option<+T> = None | Some(value: T)

  /** The exceptions of jss/exceptions.py plus the Python built-ins the library
      raises itself.  Messages are kept where the library computes them. */
  datatype Error =
    | JSSError(message: string)                  // generic JSSError with its text
    | GetError(status: Option<int>, message: string)     // JSSGetError, with its status_code when set
    | PostError(status: Option<int>, message: string)    // JSSPostError
    | PutError(status: Option<int>, message: string)     // JSSPutError
    | DeleteError(status: Option<int>, message: string)  // JSSDeleteError
    | AuthenticationError                        // JSSAuthenticationError (top-level jss.py)
    | CreationError                              // JSSCreationError (top-level jss.py)
    | DeletionError                              // JSSDeletionError (top-level jss.py)
    | MethodNotAllowed(name: string)             // JSSMethodNotAllowedError naming a class
    | UnsupportedSearchMethod(key: string)       // JSSUnsupportedSearchMethodError for a search key
    | FileUploadParameterError(message: string)  // JSSFileUploadParameterError
    | UnsupportedFileType                        // JSSUnsupportedFileType
    | ValueError(message: string)
    | TypeError(message: string)
    | KeyError(key: string)
    | IndexError
    | NameError(name: string)
    | AttributeError(name: string)
    | OSError(path: string)                      // os.makedirs onto an existing path
    | IOError(path: string)                      // open(path): for writing on a directory or in a missing folder, for reading on anything but a file
    | ShutilError(message: string)               // shutil.Error
    | GaiError(host: string)                     // socket.gaierror for a name that does not resolve
    | NotImplemented
    | XmlParseError                              // xml.etree.ElementTree.ParseError
    | MissingArguments(missing: set<string>)            // plain Exception of the older Repository
    | MissingArgumentsJSSError(missing: set<string>)    // JSSError of the newer Repository

  datatype Result<+T> = Ok(value: T) | Err(error: Error)

  /** A step that either succeeds without a value or raises. */
  datatype Outcome = Done | Raised(error: Error)

  /** A list comprehension whose element expression may raise: the values
      when every element succeeds, otherwise the first element's error. */
  function Gather<T>(rs: seq<Result<T>>): (r: Result<seq<T>>)
    ensures r.Ok? <==> forall i :: 0 <= i < |rs| ==> rs[i].Ok?
    ensures r.Ok? ==> |r.value| == |rs| && forall i :: 0 <= i < |rs| ==> r.value[i] == rs[i].value
    ensures r.Err? ==> exists i :: 0 <= i < |rs| && rs[i] == Err(r.error) && forall j :: 0 <= j < i ==> rs[j].Ok?
  {
    if rs == [] then Ok([])
    else match rs[0]
      case Err(x) => Err(x)
      case Ok(v) =>
        match Gather(rs[1..])
        case Err(x) => assert rs[1..][0] == rs[1]; Err(x)
        case Ok(vs) => Ok([v] + vs)
  }
}
