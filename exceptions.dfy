/**
 * The error taxonomy of dvc_osf/exceptions.py.
 *
 * Each of the eleven exception classes becomes a constructor of `OSFError`
 * carrying exactly the attributes its `__init__` stores. The constructor
 * functions `New...` play the role of the `__init__` methods, with the same
 * default arguments. `retryable` is a class attribute (`ClassRetryable`),
 * except that `OSFAPIError.__init__` may set an instance attribute of the same
 * name, which then shadows the class attribute (`Retryable`).
 */
module Exceptions {
  import opened Wrappers

  /** The HTTP response object attached to an error, stood in for by its decoded JSON body. */
  datatype Response = Response(body: map<string, string>)

  /** The eleven exception classes. */
  datatype Kind =
    | OSFException
    | OSFAuthenticationError
    | OSFNotFoundError
    | OSFPermissionError
    | OSFConnectionError
    | OSFRateLimitError
    | OSFAPIError
    | OSFIntegrityError
    | OSFQuotaExceededError
    | OSFFileLockedError
    | OSFVersionConflictError

  /** The built-in exception classes that some of them also derive from. */
  datatype Builtin = PermissionError | FileNotFoundError | ConnectionError

  /** An exception instance: its class and the attributes its constructor stored. */
  datatype OSFError =
    | Base(message: string)
    | Authentication(message: string, statusCode: Option<int>, response: Option<Response>)
    | NotFound(message: string, statusCode: Option<int>, response: Option<Response>)
    | Permission(message: string, statusCode: Option<int>, response: Option<Response>)
    | Connection(message: string)
    | RateLimit(message: string, statusCode: Option<int>, response: Option<Response>, retryAfter: Option<int>)
    | Api(message: string, statusCode: Option<int>, response: Option<Response>, instanceRetryable: Option<bool>)
    | Integrity(message: string, expectedChecksum: Option<string>, actualChecksum: Option<string>)
    | QuotaExceeded(message: string, statusCode: Option<int>, response: Option<Response>,
                    bytesUploaded: Option<int>, totalSize: Option<int>)
    | FileLocked(message: string, statusCode: Option<int>, response: Option<Response>,
                 bytesUploaded: Option<int>, totalSize: Option<int>)
    | VersionConflict(message: string, statusCode: Option<int>, response: Option<Response>,
                      bytesUploaded: Option<int>, totalSize: Option<int>)

  /** `type(e)`. */
  function KindOf(e: OSFError): (k: Kind) {
    match e
    case Base(_) => OSFException
    case Authentication(_, _, _) => OSFAuthenticationError
    case NotFound(_, _, _) => OSFNotFoundError
    case Permission(_, _, _) => OSFPermissionError
    case Connection(_) => OSFConnectionError
    case RateLimit(_, _, _, _) => OSFRateLimitError
    case Api(_, _, _, _) => OSFAPIError
    case Integrity(_, _, _) => OSFIntegrityError
    case QuotaExceeded(_, _, _, _, _) => OSFQuotaExceededError
    case FileLocked(_, _, _, _, _) => OSFFileLockedError
    case VersionConflict(_, _, _, _, _) => OSFVersionConflictError
  }

  // ---------------------------------------------------------------------------
  // The class hierarchy
  // ---------------------------------------------------------------------------

  /** The OSF class each class statement names as its base (none for the root). */
  function OsfBase(k: Kind): (base: Option<Kind>) {
    match k
    case OSFException => None
    case OSFFileLockedError => Some(OSFPermissionError)
    case _ => Some(OSFException)
  }

  /** The built-in classes each class statement names as further bases. */
  function DirectBuiltins(k: Kind): (bs: set<Builtin>) {
    match k
    case OSFAuthenticationError => {PermissionError}
    case OSFPermissionError => {PermissionError}
    case OSFNotFoundError => {FileNotFoundError}
    case OSFConnectionError => {ConnectionError}
    case OSFRateLimitError => {ConnectionError}
    case _ => {}
  }

  /** How many OSF bases lie between a class and `OSFException`. */
  function Depth(k: Kind): (d: nat) {
    match k
    case OSFException => 0
    case OSFFileLockedError => 2
    case _ => 1
  }

  /** Following a base moves one step nearer the root, so the hierarchy has no cycle. */
  lemma BaseIsShallower(k: Kind)
    ensures OsfBase(k).Some? ==> Depth(OsfBase(k).value) < Depth(k)
  {
  }

  /** `issubclass(k, base)` among the OSF classes. */
  predicate IsSubclass(k: Kind, base: Kind): (r: bool)
    decreases Depth(k)
  {
    BaseIsShallower(k);
    k == base || (OsfBase(k).Some? && IsSubclass(OsfBase(k).value, base))
  }

  /**
   * The built-in classes `k` derives from, directly or through its OSF bases.
   * No class derives from more than one of them.
   */
  function BuiltinBases(k: Kind): (r: set<Builtin>)
    decreases Depth(k)
  {
    BaseIsShallower(k);
    DirectBuiltins(k) + (if OsfBase(k).Some? then BuiltinBases(OsfBase(k).value) else {})
  }

  /** The built-in classes of each class, read off its own base list and its bases' lists. */
  lemma BuiltinBasesTable(k: Kind)
    ensures PermissionError in BuiltinBases(k) <==>
      k == OSFAuthenticationError || k == OSFPermissionError || k == OSFFileLockedError
    ensures FileNotFoundError in BuiltinBases(k) <==> k == OSFNotFoundError
    ensures ConnectionError in BuiltinBases(k) <==> k == OSFConnectionError || k == OSFRateLimitError
  {
    match k
    case OSFException =>
    case OSFAuthenticationError =>
    case OSFNotFoundError =>
    case OSFPermissionError =>
    case OSFConnectionError =>
    case OSFRateLimitError =>
    case OSFAPIError =>
    case OSFIntegrityError =>
    case OSFQuotaExceededError =>
    case OSFFileLockedError =>
      assert BuiltinBases(k) == BuiltinBases(OSFPermissionError);
    case OSFVersionConflictError =>
  }

  /**
   * `isinstance(e, k)` for an OSF class `k`: `k` is the error's own class,
   * the root `OSFException`, or, for a file-locked error, `OSFPermissionError`.
   */
  predicate IsInstance(e: OSFError, k: Kind): (r: bool)
    ensures r <==> k == KindOf(e) || k == OSFException || (e.FileLocked? && k == OSFPermissionError)
  {
    IsSubclass(KindOf(e), k)
  }

  /**
   * `isinstance(e, b)` for a built-in class `b`: the permission category holds
   * authentication, permission and file-locked errors, the file-not-found
   * category the not-found errors, and the connection category connection and
   * rate-limit errors.
   */
  predicate IsBuiltinInstance(e: OSFError, b: Builtin): (r: bool)
    ensures b == PermissionError ==> (r <==> e.Authentication? || e.Permission? || e.FileLocked?)
    ensures b == FileNotFoundError ==> (r <==> e.NotFound?)
    ensures b == ConnectionError ==> (r <==> e.Connection? || e.RateLimit?)
  {
    BuiltinBasesTable(KindOf(e));
    b in BuiltinBases(KindOf(e))
  }

  // ---------------------------------------------------------------------------
  // Retryability
  // ---------------------------------------------------------------------------

  /**
   * The class attribute `retryable` that each class body sets: true for the
   * connection, rate-limit and integrity errors only. Every class in the
   * connection category is retryable, and no class in the permission or
   * file-not-found category is.
   */
  function ClassRetryable(k: Kind): (r: bool)
    ensures r <==> k == OSFConnectionError || k == OSFRateLimitError || k == OSFIntegrityError
    ensures ConnectionError in BuiltinBases(k) ==> r
    ensures PermissionError in BuiltinBases(k) || FileNotFoundError in BuiltinBases(k) ==> !r
  {
    BuiltinBasesTable(k);
    match k
    case OSFConnectionError => true
    case OSFRateLimitError => true
    case OSFIntegrityError => true
    case _ => false
  }

  /** `e.retryable`: the instance attribute when the constructor set one, otherwise the class attribute. */
  function Retryable(e: OSFError): (r: bool)
    ensures !e.Api? ==> r == ClassRetryable(KindOf(e))
    ensures e.Api? ==> (r <==> e.instanceRetryable == Some(true))
  {
    if e.Api? && e.instanceRetryable.Some? then e.instanceRetryable.value
    else ClassRetryable(KindOf(e))
  }

  // ---------------------------------------------------------------------------
  // Constructors, with the source's default arguments
  // ---------------------------------------------------------------------------

  const DefaultAuthenticationMessage: string := "Authentication failed. Check your OSF token."
  const DefaultPermissionMessage: string := "Permission denied for OSF operation."
  const DefaultConnectionMessage: string := "Failed to connect to OSF. Check your network connection."
  const DefaultRateLimitMessage: string := "OSF API rate limit exceeded. Retry after backoff."
  const DefaultQuotaExceededMessage: string := "OSF storage quota exceeded."
  const DefaultFileLockedMessage: string := "File is locked and cannot be modified."
  const DefaultVersionConflictMessage: string := "File version conflict detected."

  /** `OSFException(message)`: stores the message verbatim; never retryable. */
  function NewOSFException(message: string): (e: OSFError)
    ensures KindOf(e) == OSFException && e.message == message
    ensures !Retryable(e)
  {
    Base(message)
  }

  /** `OSFAuthenticationError(...)`: a permission error that is never retryable, whatever the status code. */
  function NewAuthenticationError(message: string := DefaultAuthenticationMessage,
                                  statusCode: Option<int> := None,
                                  response: Option<Response> := None): (e: OSFError)
    ensures KindOf(e) == OSFAuthenticationError
    ensures e.message == message && e.statusCode == statusCode && e.response == response
    ensures !Retryable(e) && IsInstance(e, OSFException) && IsBuiltinInstance(e, PermissionError)
  {
    Authentication(message, statusCode, response)
  }

  /** `OSFNotFoundError(message, ...)`: a file-not-found error that is never retryable. */
  function NewNotFoundError(message: string,
                            statusCode: Option<int> := None,
                            response: Option<Response> := None): (e: OSFError)
    ensures KindOf(e) == OSFNotFoundError
    ensures e.message == message && e.statusCode == statusCode && e.response == response
    ensures !Retryable(e) && IsInstance(e, OSFException) && IsBuiltinInstance(e, FileNotFoundError)
  {
    NotFound(message, statusCode, response)
  }

  /** `OSFPermissionError(...)`: a permission error that is never retryable. */
  function NewPermissionError(message: string := DefaultPermissionMessage,
                              statusCode: Option<int> := None,
                              response: Option<Response> := None): (e: OSFError)
    ensures KindOf(e) == OSFPermissionError
    ensures e.message == message && e.statusCode == statusCode && e.response == response
    ensures !Retryable(e) && IsInstance(e, OSFException) && IsBuiltinInstance(e, PermissionError)
  {
    Permission(message, statusCode, response)
  }

  /** `OSFConnectionError(...)`: a connection error, always retryable. */
  function NewConnectionError(message: string := DefaultConnectionMessage): (e: OSFError)
    ensures KindOf(e) == OSFConnectionError && e.message == message
    ensures Retryable(e) && IsInstance(e, OSFException) && IsBuiltinInstance(e, ConnectionError)
  {
    Connection(message)
  }

  /** `OSFRateLimitError(...)`: a connection error, always retryable, that keeps the Retry-After hint. */
  function NewRateLimitError(message: string := DefaultRateLimitMessage,
                             statusCode: Option<int> := None,
                             response: Option<Response> := None,
                             retryAfter: Option<int> := None): (e: OSFError)
    ensures KindOf(e) == OSFRateLimitError
    ensures e.message == message && e.statusCode == statusCode && e.response == response
    ensures e.retryAfter == retryAfter
    ensures Retryable(e) && IsInstance(e, OSFException) && IsBuiltinInstance(e, ConnectionError)
  {
    RateLimit(message, statusCode, response, retryAfter)
  }

  /**
   * `OSFAPIError(message, ...)`: retryable exactly when a status code of at
   * least 500 is given. The constructor sets the instance attribute only in
   * that case (`if status_code and status_code >= 500`, where a code of 0 is
   * false as well as `None`), leaving the class attribute false.
   */
  function NewAPIError(message: string,
                       statusCode: Option<int> := None,
                       response: Option<Response> := None): (e: OSFError)
    ensures KindOf(e) == OSFAPIError
    ensures e.message == message && e.statusCode == statusCode && e.response == response
    ensures Retryable(e) <==> statusCode.Some? && statusCode.value >= 500
    ensures IsInstance(e, OSFException)
  {
    var serverError := statusCode.Some? && statusCode.value != 0 && statusCode.value >= 500;
    Api(message, statusCode, response, if serverError then Some(true) else None)
  }

  /** `OSFIntegrityError(message, ...)`: always retryable; keeps both checksums. */
  function NewIntegrityError(message: string,
                             expectedChecksum: Option<string> := None,
                             actualChecksum: Option<string> := None): (e: OSFError)
    ensures KindOf(e) == OSFIntegrityError && e.message == message
    ensures e.expectedChecksum == expectedChecksum && e.actualChecksum == actualChecksum
    ensures Retryable(e) && IsInstance(e, OSFException)
  {
    Integrity(message, expectedChecksum, actualChecksum)
  }

  /** `OSFQuotaExceededError(...)`: never retryable; keeps the upload progress. */
  function NewQuotaExceededError(message: string := DefaultQuotaExceededMessage,
                                 statusCode: Option<int> := None,
                                 response: Option<Response> := None,
                                 bytesUploaded: Option<int> := None,
                                 totalSize: Option<int> := None): (e: OSFError)
    ensures KindOf(e) == OSFQuotaExceededError
    ensures e.message == message && e.statusCode == statusCode && e.response == response
    ensures e.bytesUploaded == bytesUploaded && e.totalSize == totalSize
    ensures !Retryable(e) && IsInstance(e, OSFException)
  {
    QuotaExceeded(message, statusCode, response, bytesUploaded, totalSize)
  }

  /**
   * `OSFFileLockedError(...)`: a subclass of `OSFPermissionError` whose
   * constructor passes message, status code and response to that class's
   * constructor and then adds the upload progress. Never retryable.
   */
  function NewFileLockedError(message: string := DefaultFileLockedMessage,
                              statusCode: Option<int> := None,
                              response: Option<Response> := None,
                              bytesUploaded: Option<int> := None,
                              totalSize: Option<int> := None): (e: OSFError)
    ensures KindOf(e) == OSFFileLockedError
    ensures e.message == message && e.statusCode == statusCode && e.response == response
    ensures e.bytesUploaded == bytesUploaded && e.totalSize == totalSize
    ensures !Retryable(e)
    ensures IsInstance(e, OSFPermissionError) && IsInstance(e, OSFException)
    ensures IsBuiltinInstance(e, PermissionError)
  {
    var p := NewPermissionError(message, statusCode, response);
    FileLocked(p.message, p.statusCode, p.response, bytesUploaded, totalSize)
  }

  /** `OSFVersionConflictError(...)`: never retryable; keeps the upload progress. */
  function NewVersionConflictError(message: string := DefaultVersionConflictMessage,
                                   statusCode: Option<int> := None,
                                   response: Option<Response> := None,
                                   bytesUploaded: Option<int> := None,
                                   totalSize: Option<int> := None): (e: OSFError)
    ensures KindOf(e) == OSFVersionConflictError
    ensures e.message == message && e.statusCode == statusCode && e.response == response
    ensures e.bytesUploaded == bytesUploaded && e.totalSize == totalSize
    ensures !Retryable(e) && IsInstance(e, OSFException)
  {
    VersionConflict(message, statusCode, response, bytesUploaded, totalSize)
  }

  // ---------------------------------------------------------------------------
  // Properties of the taxonomy
  // ---------------------------------------------------------------------------

  /** Every error is an `OSFException`. */
  lemma EveryErrorIsOSFException(e: OSFError)
    ensures IsInstance(e, OSFException)
  {
  }

  /** A subclass derives from every built-in class its OSF base derives from. */
  lemma {:induction false} BuiltinBasesInherited(k: Kind, base: Kind)
    requires IsSubclass(k, base)
    ensures BuiltinBases(base) <= BuiltinBases(k)
    decreases Depth(k)
  {
    BaseIsShallower(k);
    if k != base {
      BuiltinBasesInherited(OsfBase(k).value, base);
    }
  }

  /** A connection-category error is always retryable. */
  lemma ConnectionErrorsAreRetryable(e: OSFError)
    requires IsBuiltinInstance(e, ConnectionError)
    ensures Retryable(e)
  {
  }

  /** Permission-category and file-not-found errors are never retryable. */
  lemma PermissionAndNotFoundErrorsAreFatal(e: OSFError)
    requires IsBuiltinInstance(e, PermissionError) || IsBuiltinInstance(e, FileNotFoundError)
    ensures !Retryable(e)
  {
  }

  /**
   * Only an API error can differ from its class's `retryable`, and one built by
   * its constructor differs exactly when its status code is at least 500.
   */
  lemma InstanceOverrideOnlyOnApiErrors(message: string, statusCode: Option<int>, response: Option<Response>)
    ensures forall e: OSFError :: !e.Api? ==> Retryable(e) == ClassRetryable(KindOf(e))
    ensures !ClassRetryable(OSFAPIError)
    ensures var e := NewAPIError(message, statusCode, response);
      Retryable(e) != ClassRetryable(KindOf(e)) <==> statusCode.Some? && statusCode.value >= 500
  {
  }

  /** The messages used when none is given. */
  lemma DefaultMessages()
    ensures NewAuthenticationError().message == "Authentication failed. Check your OSF token."
    ensures NewPermissionError().message == "Permission denied for OSF operation."
    ensures NewConnectionError().message == "Failed to connect to OSF. Check your network connection."
    ensures NewRateLimitError().message == "OSF API rate limit exceeded. Retry after backoff."
    ensures NewQuotaExceededError().message == "OSF storage quota exceeded."
    ensures NewFileLockedError().message == "File is locked and cannot be modified."
    ensures NewVersionConflictError().message == "File version conflict detected."
  {
  }

  /** Metadata that is not given is `None`. */
  lemma OmittedMetadataIsNone()
    ensures NewAuthenticationError().statusCode == None && NewAuthenticationError().response == None
    ensures NewNotFoundError("").statusCode == None && NewNotFoundError("").response == None
    ensures NewPermissionError().statusCode == None && NewPermissionError().response == None
    ensures NewRateLimitError().statusCode == None && NewRateLimitError().response == None
    ensures NewAPIError("").statusCode == None && NewAPIError("").response == None
    ensures NewQuotaExceededError().statusCode == None && NewQuotaExceededError().response == None
    ensures NewFileLockedError().statusCode == None && NewFileLockedError().response == None
    ensures NewVersionConflictError().statusCode == None && NewVersionConflictError().response == None
    ensures NewRateLimitError().retryAfter == None
    ensures NewIntegrityError("").expectedChecksum == None && NewIntegrityError("").actualChecksum == None
    ensures NewQuotaExceededError().bytesUploaded == None && NewQuotaExceededError().totalSize == None
    ensures NewFileLockedError().bytesUploaded == None && NewFileLockedError().totalSize == None
    ensures NewVersionConflictError().bytesUploaded == None && NewVersionConflictError().totalSize == None
  {
  }
}
