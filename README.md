# dvc-osf core, modelled in Dafny

This project models the self-contained core of dvc-osf, a DVC remote-storage plugin for the Open Science Framework (OSF). The core has three parts:

- **Paths and URLs** (`utils.dfy`, module `Utils`). `normalize_path` strips `/` from both ends of a path and then collapses `//` until none is left. `build_osf_url` writes `osf://<project>[/<path>]`. `parse_osf_url` splits such a URL back with `urllib.parse.urlparse`.
  - A path's meaning is given independently by `Segments`, its non-empty `/`-separated parts. `Join` glues segments back with single `/`.
  - The normal form is proved to be `Join(Segments(p))`. It is idempotent, and it is empty exactly for all-slash paths.
  - `urlparse` is modelled for the steps `parse_osf_url` depends on: sanitising, the scheme split, the network-location split, the bracket check, and the query and fragment cut.
  - Building a URL and parsing it gives back the project id and the normalised path, for every ASCII project id without `/ ? # [ ]` and every path without `? #`, neither containing tab, CR or LF (see the `Utils.BuildThenParse` row).
- **Errors** (`exceptions.dfy`, module `Exceptions`). There are eleven exception classes, each with its stored attributes; seven of them have a default message, while `OSFException`, `OSFNotFoundError`, `OSFAPIError` and `OSFIntegrityError` require one.
  - `retryable` is a class attribute, and an `OSFAPIError` instance given a status code of at least 500 overrides it.
  - Six classes also sit under a built-in category: permission, file-not-found or connection. `OSFException`, `OSFAPIError`, `OSFIntegrityError`, `OSFQuotaExceededError` and `OSFVersionConflictError` sit under none.
  - The model proves which errors are retryable, and that the built-in categories agree with retryability.
- **Configuration** (`config.dfy`, module `Config`). `OSFConfig` is a class with four named fields and an `extra_config` dictionary.
  - `FromDict` binds a dictionary the way `cls(**config)` does. `ToDict` builds the dictionary literal and then applies `update` with the extras.
  - Both round trips are proved: dictionary to object to dictionary, and object to dictionary to object.

`wrappers.dfy` holds the `Option` and `Result` types. A Python exception raised by an operation becomes an `Err` value.

## Model

| member | source | states |
|---|---|---|
| Utils.NormalizePath | dvc_osf/utils.py:27-41 | The result is the canonical path `Join(Segments(path))`: no `/` at either end, no `//`, and the same segments as the input. |
| Utils.LStripSlashes | dvc_osf/utils.py:22 | The result is a suffix of the input that does not start with `/`. |
| Utils.LStripCutsOnlySlashes | dvc_osf/utils.py:22 | Every character that `lstrip("/")` cuts off is a `/`. |
| Utils.StrippedPath | dvc_osf/utils.py:22 | The path `parse_osf_url` returns is `urlparse`'s path with its leading `/` run cut off. It still has no `? #`, and it does not start with `/`. |
| Utils.StripSlashes | dvc_osf/utils.py:38 | The result is the slice of the input between its leading and trailing `/` runs, with no `/` at either end. |
| Utils.StripPreservesSegments | dvc_osf/utils.py:38 | Stripping slashes from the ends keeps the segments of the path. |
| Utils.ReplaceDoubleSlash | dvc_osf/utils.py:40 | One pass of `replace("//", "/")` strictly shortens a string holding `//`, leaves any other string unchanged, and keeps its first and last character. |
| Utils.ReplacePreservesSegments | dvc_osf/utils.py:39-40 | One collapsing pass keeps the segments of the path, so the loop cannot change what the path names. |
| Utils.CanonicalPathIsClean | dvc_osf/utils.py:27-41 | A normalised path has no `/` at either end and no `//`. |
| Utils.CanonicalPathKeepsSegments | dvc_osf/utils.py:27-41 | A normalised path has exactly the segments of the original. |
| Utils.CanonicalPathIdempotent | dvc_osf/utils.py:27-41 | Normalising twice is normalising once. |
| Utils.CanonicalPathFixedPoints | dvc_osf/utils.py:27-41 | A path is its own normal form if and only if it has no `/` at either end and no `//`. |
| Utils.CanonicalPathEmpty | dvc_osf/utils.py:27-41 | The normal form is empty if and only if the path consists of slashes only (the empty path included). |
| Utils.UrlParse | dvc_osf/utils.py:17 | Any network location it returns holds no `/ ? #` and no unbalanced bracket, and the path it returns holds no `? #`. Its only error is `ValueError("Invalid IPv6 URL")`. |
| Utils.ParseOsfUrl | dvc_osf/utils.py:7-24 | It succeeds if and only if `urlparse` succeeds with scheme `osf`. Any other scheme is rejected with `ValueError("Invalid OSF URL scheme: <scheme>")`. Any failure of `urlparse` is passed on unchanged. On success the project id is the network location, unvalidated and possibly empty. The path is `urlparse`'s path with its leading `/` characters cut off, so it has no leading `/` and no `? #`. |
| Utils.BuildOsfUrl | dvc_osf/utils.py:44-58 | The URL starts with `osf://<project>`. Nothing follows exactly when the path has no segments. Otherwise what follows is `/` and a clean path with the same segments as the input. |
| Utils.ParseBuiltUrl | dvc_osf/utils.py:17-22 | `urlparse("osf://<project><tail>")` has scheme `osf`, network location `<project>`, path `<tail>`, and empty query and fragment. The project must be ASCII and avoid `/ ? # [ ]`, tab, CR and LF; the tail must start with `/` or be empty and avoid `? #`, tab, CR and LF. |
| Utils.BuildThenParse | dvc_osf/utils.py:7-58 | `parse_osf_url(build_osf_url(project, path))` returns `project` and the normalised path. This holds for every ASCII project id without `/ ? # [ ]` and every path without `? #` (neither containing tab, CR or LF). |
| Exceptions.NewOSFException | dvc_osf/exceptions.py:6-19 | The message is stored verbatim and the error is not retryable. |
| Exceptions.NewAuthenticationError | dvc_osf/exceptions.py:22-43 | It stores the message (default "Authentication failed. Check your OSF token."), the status code and the response. The error is an `OSFException` and a `PermissionError`, and it is never retryable. |
| Exceptions.NewNotFoundError | dvc_osf/exceptions.py:46-67 | It stores the message, the status code and the response. The error is an `OSFException` and a `FileNotFoundError`, and it is never retryable. |
| Exceptions.NewPermissionError | dvc_osf/exceptions.py:70-91 | It stores the message (default "Permission denied for OSF operation."), the status code and the response. The error is an `OSFException` and a `PermissionError`, and it is never retryable. |
| Exceptions.NewConnectionError | dvc_osf/exceptions.py:94-109 | It stores the message (default "Failed to connect to OSF. Check your network connection."). The error is an `OSFException` and a `ConnectionError`, and it is always retryable. |
| Exceptions.NewRateLimitError | dvc_osf/exceptions.py:112-136 | It stores the message (default "OSF API rate limit exceeded. Retry after backoff."), the status code, the response and `retry_after`. The error is an `OSFException` and a `ConnectionError`, and it is always retryable. |
| Exceptions.NewAPIError | dvc_osf/exceptions.py:139-164 | It stores the message, the status code and the response. The error is retryable if and only if a status code of at least 500 is given. |
| Exceptions.NewIntegrityError | dvc_osf/exceptions.py:167-188 | It stores the message and both checksums. The error is always retryable. |
| Exceptions.NewQuotaExceededError | dvc_osf/exceptions.py:191-218 | It stores the message (default "OSF storage quota exceeded."), the status code, the response, `bytes_uploaded` and `total_size`. The error is never retryable. |
| Exceptions.NewFileLockedError | dvc_osf/exceptions.py:221-246 | The message (default "File is locked and cannot be modified."), the status code and the response pass through the `OSFPermissionError` constructor, and the upload progress is stored as well. The error is an `OSFPermissionError` and a `PermissionError`, and it is never retryable. |
| Exceptions.NewVersionConflictError | dvc_osf/exceptions.py:249-276 | It stores the message (default "File version conflict detected."), the status code, the response and the upload progress. The error is never retryable. |
| Exceptions.ClassRetryable | dvc_osf/exceptions.py:9-252 | The class attribute `retryable` is true for `OSFConnectionError`, `OSFRateLimitError` and `OSFIntegrityError` only (lines 9, 25, 49, 73, 97, 115, 142, 170, 194, 224 and 252). Every class in the connection category has it, and no class in the permission or file-not-found category does. |
| Exceptions.Retryable | dvc_osf/exceptions.py:139-164 | Looking up `e.retryable` gives the class attribute for every error except an API error. For an API error it gives the instance attribute when the constructor set one (lines 162-164), and otherwise the class attribute, which is false. |
| Exceptions.IsInstance | dvc_osf/exceptions.py:6-246 | `isinstance(e, k)` holds exactly when `k` is the error's own class, the root `OSFException`, or `OSFPermissionError` for a file-locked error. These follow from the base lists of the class statements at lines 6, 22, 46, 70, 94, 112, 139, 167, 191, 221 and 249. |
| Exceptions.IsBuiltinInstance | dvc_osf/exceptions.py:22-246 | An error is a `PermissionError` exactly when it is an authentication, permission or file-locked error. It is a `FileNotFoundError` exactly when it is a not-found error, and a `ConnectionError` exactly when it is a connection or rate-limit error. |
| Exceptions.BuiltinBasesTable | dvc_osf/exceptions.py:22-246 | The built-in classes each class derives from, directly or through its OSF base: the permission category for authentication, permission and file-locked errors, the file-not-found category for not-found errors, and the connection category for connection and rate-limit errors. |
| Exceptions.BuiltinBasesInherited | dvc_osf/exceptions.py:221 | A subclass inherits every built-in class of its OSF bases; for example, `OSFFileLockedError` is a `PermissionError` through `OSFPermissionError`. |
| Exceptions.EveryErrorIsOSFException | dvc_osf/exceptions.py:6-276 | Every error of the taxonomy is an instance of `OSFException`. |
| Exceptions.ConnectionErrorsAreRetryable | dvc_osf/exceptions.py:94-136 | Every error in the `ConnectionError` category is retryable. |
| Exceptions.PermissionAndNotFoundErrorsAreFatal | dvc_osf/exceptions.py:22-91 | No error in the `PermissionError` or `FileNotFoundError` category is retryable. |
| Exceptions.InstanceOverrideOnlyOnApiErrors | dvc_osf/exceptions.py:139-164 | No error other than an API error differs from its class's `retryable`. The class attribute of `OSFAPIError` stays false. An API error's `retryable` differs from its class attribute exactly when its status code is at least 500. |
| Exceptions.DefaultMessages | dvc_osf/exceptions.py:27-256 | Each class's message when none is given is exactly its default text. |
| Exceptions.OmittedMetadataIsNone | dvc_osf/exceptions.py:27-276 | For every class that stores them, the status code, response, retry-after, checksums and upload progress are `None` when not given. |
| Config.BindArguments | dvc_osf/config.py:14-36 | `cls(**config)` fails with a `TypeError` exactly when the dictionary has the key "self". Otherwise each named field takes the dictionary's entry when there is one, and its default otherwise: `None` for token and project id, 30 for timeout, 3 for retries. The extras are exactly the entries apart from the four named keys, copied unchanged, so they never hold a named key. |
| Config.Serialize | dvc_osf/config.py:58-65 | The dictionary's keys are the four named keys plus the extras' keys, and every extra is copied. When the extras hold no named key, each named entry equals its field. |
| Config.SerializeThenBind | dvc_osf/config.py:39-65 | Binding the serialised settings gives back the same settings. |
| Config.BindThenSerialize | dvc_osf/config.py:14-65 | Serialising the bound settings gives back the dictionary, with missing named keys filled by their defaults. |
| Config.OSFConfig.constructor | dvc_osf/config.py:14-36 | It stores each named argument in its field (defaults `None`, `None`, 30 and 3) and the other keyword arguments in `extra_config`. |
| Config.OSFConfig.FromDict | dvc_osf/config.py:38-49 | It fails exactly when the dictionary has the key "self". Otherwise it returns a new object whose state is the binding of the dictionary. |
| Config.OSFConfig.ToDict | dvc_osf/config.py:51-65 | It returns the serialisation of the object, with exactly the four named keys plus the extras, and leaves the object unchanged. Every extra is copied, and for a constructed object each named entry equals its field. |
| Config.ToDictThenFromDict | dvc_osf/config.py:39-65 | `from_dict(c.to_dict())` has the same four fields and `extra_config` as `c`. |
| Config.FromDictThenToDict | dvc_osf/config.py:14-65 | `from_dict(d).to_dict()` is `d` with missing named keys set to their defaults. |

## Left out

- dvc_osf/api.py, dvc_osf/filesystem.py and dvc_osf/auth.py are not part of this model. They hold HTTP I/O, a DVC filesystem adapter and a token holder whose remaining methods are stubs.
- `format_file_size` (dvc_osf/utils.py:61-76) is left out because it formats floating-point numbers.
- `extract_metadata` (dvc_osf/utils.py:89), `OSFConfig.from_env` (dvc_osf/config.py:77) and `OSFConfig.validate` (dvc_osf/config.py:86) are left out because they only raise `NotImplementedError`.
- Utils.UrlParse: leaves out two checks inside `urlsplit`:
  - the validation of a bracketed IPv6 or IPvFuture host;
  - the NFKC normalisation check on non-ASCII network locations.
  - Those URLs are accepted here where Python may raise `ValueError`.
  - Some non-ASCII project ids, such as the full-width `＠`, make `parse_osf_url` raise. `BuildThenParse` and `ParseBuiltUrl` are therefore stated for ASCII project ids only; an ASCII network location skips that check.
- Utils.UrlParse: handles only schemes without `;params`, which is what `osf` is. `urlparse`'s result cache is not modelled.
- Utils.BuildThenParse: stated only for ASCII project ids without `/ ? # [ ]` and paths without `? #`, with neither containing tab, CR or LF. The model makes no claim for other inputs. Some of them, such as a bracketed IPv6 host, may still round-trip in the source.
- tests/test_utils.py expects `parse_osf_url` to return a three-part tuple with a provider and to reject short or missing project ids. dvc_osf/utils.py:7-24 returns a project id and path and validates neither. The model follows dvc_osf/utils.py.
- Exceptions: `response` is modelled as a string-keyed dictionary rather than an arbitrary object. An explicit `message=None` is not modelled, because messages are strings.
- Exceptions: Python's `args` tuple and the `str()` of an exception are not modelled; the `message` attribute stands for them.
- Config: values are strings, integers or `None`, and keys are strings, so the other Python objects and the `TypeError` for non-string keys are not modelled. The type hints on `timeout` and `retries` are not enforced by the source, so the model does not enforce them either.
- Config.OSFConfig.constructor and Config.OSFConfig.FromDict: Python's binding errors for a key passed twice are outside the model. The constructor instead requires that `kwargs` holds no named key and no "self"; `FromDict` models the "self" case.
- Config.OSFConfig: later assignments to the object's public attributes from outside are not modelled. `ToDict` states the named entries only for objects whose extras hold no named key.
