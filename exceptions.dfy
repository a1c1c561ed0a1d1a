/**
 * The application's exception hierarchy and its three error-handling
 * decorators (src/core/exceptions.py): error codes, the string and
 * dictionary renderings of an exception, the subclass constructors, the
 * translation of database and HTTP errors, and the retry loop.
 *
 * A foreign exception (one raised by a library) is a `Foreign` value; a
 * call of the decorated function is a `Call`.
 */
module Exceptions {
  import opened Wrappers
  import opened PyStr

  datatype ErrorCode =
    | DB_CONNECTION_ERROR | DB_QUERY_ERROR | DB_CONSTRAINT_VIOLATION | DB_TRANSACTION_ERROR
    | VALIDATION_ERROR | MISSING_REQUIRED_FIELD | INVALID_DATA_FORMAT | DUPLICATE_ENTRY
    | API_CONNECTION_ERROR | API_RATE_LIMIT | API_AUTHENTICATION_ERROR | API_NOT_FOUND | API_SERVER_ERROR
    | SCRAPING_ERROR | HTML_PARSING_ERROR | DATA_EXTRACTION_ERROR
    | LLM_CONNECTION_ERROR | LLM_TIMEOUT | LLM_INVALID_RESPONSE
    | RESOURCE_NOT_FOUND | OPERATION_NOT_ALLOWED | INVALID_STATE
    | CONFIGURATION_ERROR | FILE_SYSTEM_ERROR | UNKNOWN_ERROR

  /** The code whose `value` is `v`, if any. */
  function CodeOfValue(v: int): Option<ErrorCode>
  {
    if v == 1001 then Some(DB_CONNECTION_ERROR)
    else if v == 1002 then Some(DB_QUERY_ERROR)
    else if v == 1003 then Some(DB_CONSTRAINT_VIOLATION)
    else if v == 1004 then Some(DB_TRANSACTION_ERROR)
    else if v == 2001 then Some(VALIDATION_ERROR)
    else if v == 2002 then Some(MISSING_REQUIRED_FIELD)
    else if v == 2003 then Some(INVALID_DATA_FORMAT)
    else if v == 2004 then Some(DUPLICATE_ENTRY)
    else if v == 3001 then Some(API_CONNECTION_ERROR)
    else if v == 3002 then Some(API_RATE_LIMIT)
    else if v == 3003 then Some(API_AUTHENTICATION_ERROR)
    else if v == 3004 then Some(API_NOT_FOUND)
    else if v == 3005 then Some(API_SERVER_ERROR)
    else if v == 4001 then Some(SCRAPING_ERROR)
    else if v == 4002 then Some(HTML_PARSING_ERROR)
    else if v == 4003 then Some(DATA_EXTRACTION_ERROR)
    else if v == 5001 then Some(LLM_CONNECTION_ERROR)
    else if v == 5002 then Some(LLM_TIMEOUT)
    else if v == 5003 then Some(LLM_INVALID_RESPONSE)
    else if v == 6001 then Some(RESOURCE_NOT_FOUND)
    else if v == 6002 then Some(OPERATION_NOT_ALLOWED)
    else if v == 6003 then Some(INVALID_STATE)
    else if v == 9001 then Some(CONFIGURATION_ERROR)
    else if v == 9002 then Some(FILE_SYSTEM_ERROR)
    else if v == 9999 then Some(UNKNOWN_ERROR)
    else None
  }

  /** The group a code belongs to: 1 database, 2 validation, 3 external API, 4 parsing, 5 LLM, 6 business logic, 9 system. */
  function Group(c: ErrorCode): nat
  {
    if c.DB_CONNECTION_ERROR? || c.DB_QUERY_ERROR? || c.DB_CONSTRAINT_VIOLATION? || c.DB_TRANSACTION_ERROR? then 1
    else if c.VALIDATION_ERROR? || c.MISSING_REQUIRED_FIELD? || c.INVALID_DATA_FORMAT? || c.DUPLICATE_ENTRY? then 2
    else if c.API_CONNECTION_ERROR? || c.API_RATE_LIMIT? || c.API_AUTHENTICATION_ERROR? || c.API_NOT_FOUND?
            || c.API_SERVER_ERROR? then 3
    else if c.SCRAPING_ERROR? || c.HTML_PARSING_ERROR? || c.DATA_EXTRACTION_ERROR? then 4
    else if c.LLM_CONNECTION_ERROR? || c.LLM_TIMEOUT? || c.LLM_INVALID_RESPONSE? then 5
    else if c.RESOURCE_NOT_FOUND? || c.OPERATION_NOT_ALLOWED? || c.INVALID_STATE? then 6
    else 9
  }

  /** `error_code.value`: distinct codes have distinct values, and the thousands digit is the group. */
  function Value(c: ErrorCode): (v: int)
    ensures CodeOfValue(v) == Some(c)
    ensures v / 1000 == Group(c)
  {
    match c
    case DB_CONNECTION_ERROR => 1001
    case DB_QUERY_ERROR => 1002
    case DB_CONSTRAINT_VIOLATION => 1003
    case DB_TRANSACTION_ERROR => 1004
    case VALIDATION_ERROR => 2001
    case MISSING_REQUIRED_FIELD => 2002
    case INVALID_DATA_FORMAT => 2003
    case DUPLICATE_ENTRY => 2004
    case API_CONNECTION_ERROR => 3001
    case API_RATE_LIMIT => 3002
    case API_AUTHENTICATION_ERROR => 3003
    case API_NOT_FOUND => 3004
    case API_SERVER_ERROR => 3005
    case SCRAPING_ERROR => 4001
    case HTML_PARSING_ERROR => 4002
    case DATA_EXTRACTION_ERROR => 4003
    case LLM_CONNECTION_ERROR => 5001
    case LLM_TIMEOUT => 5002
    case LLM_INVALID_RESPONSE => 5003
    case RESOURCE_NOT_FOUND => 6001
    case OPERATION_NOT_ALLOWED => 6002
    case INVALID_STATE => 6003
    case CONFIGURATION_ERROR => 9001
    case FILE_SYSTEM_ERROR => 9002
    case UNKNOWN_ERROR => 9999
  }

  /** `error_code.name` */
  function Name(c: ErrorCode): string
  {
    match c
    case DB_CONNECTION_ERROR => "DB_CONNECTION_ERROR"
    case DB_QUERY_ERROR => "DB_QUERY_ERROR"
    case DB_CONSTRAINT_VIOLATION => "DB_CONSTRAINT_VIOLATION"
    case DB_TRANSACTION_ERROR => "DB_TRANSACTION_ERROR"
    case VALIDATION_ERROR => "VALIDATION_ERROR"
    case MISSING_REQUIRED_FIELD => "MISSING_REQUIRED_FIELD"
    case INVALID_DATA_FORMAT => "INVALID_DATA_FORMAT"
    case DUPLICATE_ENTRY => "DUPLICATE_ENTRY"
    case API_CONNECTION_ERROR => "API_CONNECTION_ERROR"
    case API_RATE_LIMIT => "API_RATE_LIMIT"
    case API_AUTHENTICATION_ERROR => "API_AUTHENTICATION_ERROR"
    case API_NOT_FOUND => "API_NOT_FOUND"
    case API_SERVER_ERROR => "API_SERVER_ERROR"
    case SCRAPING_ERROR => "SCRAPING_ERROR"
    case HTML_PARSING_ERROR => "HTML_PARSING_ERROR"
    case DATA_EXTRACTION_ERROR => "DATA_EXTRACTION_ERROR"
    case LLM_CONNECTION_ERROR => "LLM_CONNECTION_ERROR"
    case LLM_TIMEOUT => "LLM_TIMEOUT"
    case LLM_INVALID_RESPONSE => "LLM_INVALID_RESPONSE"
    case RESOURCE_NOT_FOUND => "RESOURCE_NOT_FOUND"
    case OPERATION_NOT_ALLOWED => "OPERATION_NOT_ALLOWED"
    case INVALID_STATE => "INVALID_STATE"
    case CONFIGURATION_ERROR => "CONFIGURATION_ERROR"
    case FILE_SYSTEM_ERROR => "FILE_SYSTEM_ERROR"
    case UNKNOWN_ERROR => "UNKNOWN_ERROR"
  }

  /** A value stored in an exception's context dictionary. */
  datatype CtxValue = CStr(s: string) | CInt(i: int) | CNone

  /** A context dictionary: its keys in insertion order and the value stored under each. */
  datatype Context = Context(keys: seq<string>, values: map<string, CtxValue>)

  /** `{}` */
  const EmptyContext := Context([], map[])

  /** Every key is listed once, and exactly the listed keys have a value. */
  ghost predicate WellFormed(ctx: Context)
  {
    && (forall i, j :: 0 <= i < j < |ctx.keys| ==> ctx.keys[i] != ctx.keys[j])
    && (forall k :: k in ctx.values <==> k in ctx.keys)
  }

  /** `ctx.get(k)` */
  function Lookup(ctx: Context, k: string): Option<CtxValue>
  {
    if k in ctx.values then Some(ctx.values[k]) else None
  }

  /**
   * `ctx[k] = v`: an existing key keeps its place and takes the new value,
   * a new key is appended.
   */
  function Put(ctx: Context, k: string, v: CtxValue): (r: Context)
    ensures Lookup(r, k) == Some(v)
    ensures forall k' :: k' != k ==> Lookup(r, k') == Lookup(ctx, k')
  {
    Context(if k in ctx.values then ctx.keys else ctx.keys + [k], ctx.values[k := v])
  }

  /** In a well-formed dictionary an existing key keeps its place, a new key goes last, and it stays well formed. */
  lemma PutOrder(ctx: Context, k: string, v: CtxValue)
    requires WellFormed(ctx)
    ensures k in ctx.keys ==> Put(ctx, k, v).keys == ctx.keys
    ensures k !in ctx.keys ==> Put(ctx, k, v).keys == ctx.keys + [k]
    ensures WellFormed(Put(ctx, k, v))
  {
  }

  /** Putting one key leaves the lookup of a different key as it was. */
  lemma PutOther(ctx: Context, k: string, v: CtxValue, other: string)
    requires other != k
    ensures Lookup(Put(ctx, k, v), other) == Lookup(ctx, other)
  {
  }

  /** What an original (wrapped) exception shows: its type name and its text. */
  datatype Original = Original(typeName: string, text: string)

  /** The classes of the hierarchy. */
  datatype Kind =
    | NewsAggregatorException
    | DatabaseException | DatabaseConnectionError | DatabaseConstraintViolation
    | ValidationException | MissingRequiredFieldError | InvalidDataFormatError | DuplicateEntryError
    | ExternalAPIException | APIRateLimitError | APINotFoundError
    | ParsingException | HTMLParsingError
    | LLMException | LLMTimeoutError
    | ResourceNotFoundException

  /** The direct base class; the root is its own. */
  function Parent(k: Kind): Kind
  {
    match k
    case DatabaseConnectionError | DatabaseConstraintViolation => DatabaseException
    case MissingRequiredFieldError | InvalidDataFormatError | DuplicateEntryError => ValidationException
    case APIRateLimitError | APINotFoundError => ExternalAPIException
    case HTMLParsingError => ParsingException
    case LLMTimeoutError => LLMException
    case _ => NewsAggregatorException
  }

  /** `isinstance`: `k` is `base` or derives from it (the hierarchy is at most three deep). */
  predicate IsA(k: Kind, base: Kind)
  {
    k == base || Parent(k) == base || Parent(Parent(k)) == base
  }

  /** An instance of `NewsAggregatorException` or one of its subclasses. */
  datatype Exc = Exc(kind: Kind, message: string, code: ErrorCode, original: Option<Original>, context: Context)

  /** `NewsAggregatorException(message, error_code, original_exception, context)`; `context or {}`. */
  function Make(kind: Kind, message: string, code: ErrorCode, original: Option<Original>, context: Option<Context>): (e: Exc)
    ensures e.kind == kind && e.message == message && e.code == code && e.original == original
    ensures context.None? ==> e.context == EmptyContext
    ensures context.Some? ==> e.context == context.value
  {
    Exc(kind, message, code, original, if context.Some? then context.value else EmptyContext)
  }

  /** The head of every rendering: the bracketed code name, a space and the message. */
  function Head(e: Exc): string
  {
    "[" + Name(e.code) + "] " + e.message
  }

  /** ` | Context: {context}` for a non-empty context, else nothing. */
  function ContextPart(e: Exc, repr: Context -> string): (p: string)
    ensures p == [] <==> e.context.values == map[]
  {
    if e.context.values != map[] then " | Context: " + repr(e.context) else ""
  }

  /** ` | Original: {type}: {text}` when there is an original exception, else nothing. */
  function OriginalPart(e: Exc): (p: string)
    ensures p == [] <==> e.original.None?
  {
    if e.original.Some? then " | Original: " + e.original.value.typeName + ": " + e.original.value.text else ""
  }

  /** A concatenation of three parts starts with the first and ends with the last non-empty one. */
  lemma ThreeParts(h: string, c: string, o: string)
    ensures StartsWith(h + c + o, h) && EndsWith(h + c + o, o)
    ensures o == [] ==> EndsWith(h + c + o, c)
    ensures (h + c + o)[|h|..|h + c + o| - |o|] == c
  {
    assert (h + c + o)[|h|..|h + c + o| - |o|] == c;
    assert (h + c + o)[..|h|] == h;
    assert (h + c + o)[|h + c + o| - |o|..] == o;
    if o == [] {
      assert (h + c + o)[|h + c + o| - |c|..] == c;
    }
  }

  /**
   * `__str__`; `repr` renders a context dictionary. The rendering starts
   * with the head, ends with the original exception when there is one,
   * holds the context part in between, and is the bare head when there is
   * neither context nor original.
   */
  function Str(e: Exc, repr: Context -> string): (s: string)
    ensures StartsWith(s, Head(e))
    ensures e.original.Some? ==> EndsWith(s, OriginalPart(e))
    ensures e.original.None? && e.context.values != map[] ==> EndsWith(s, ContextPart(e, repr))
    ensures e.original.None? && e.context.values == map[] ==> s == Head(e)
    ensures |s| == |Head(e)| + |ContextPart(e, repr)| + |OriginalPart(e)|
    ensures s[|Head(e)|..|s| - |OriginalPart(e)|] == ContextPart(e, repr)
  {
    var h := Head(e);
    var c := ContextPart(e, repr);
    var o := OriginalPart(e);
    ThreeParts(h, c, o);
    h + c + o
  }

  /** `to_dict()` */
  datatype ErrorDict = ErrorDict(error: bool, errorCode: string, errorCodeValue: int, message: string,
                                 context: Context, originalError: Option<string>)

  function ToDict(e: Exc): (d: ErrorDict)
    ensures d.error
    ensures d.errorCode == Name(e.code) && CodeOfValue(d.errorCodeValue) == Some(e.code)
    ensures d.message == e.message && d.context == e.context
    ensures d.originalError.None? <==> e.original.None?
    ensures e.original.Some? ==> d.originalError == Some(e.original.value.text)
  {
    ErrorDict(true, Name(e.code), Value(e.code), e.message, e.context,
              if e.original.Some? then Some(e.original.value.text) else None)
  }

  /** `context or {}` */
  function OrEmpty(context: Option<Context>): Context
  {
    if context.Some? then context.value else EmptyContext
  }

  /** `MissingRequiredFieldError(field_name, context)` */
  function MissingRequiredField(field: string, context: Option<Context>): (e: Exc)
    ensures e.kind == MissingRequiredFieldError && IsA(e.kind, ValidationException)
    ensures e.code == MISSING_REQUIRED_FIELD && e.original.None?
    ensures e.message == "Missing required field: " + field
    ensures Lookup(e.context, "field_name") == Some(CStr(field))
    ensures forall k :: k != "field_name" ==> Lookup(e.context, k) == Lookup(OrEmpty(context), k)
  {
    assert IsA(MissingRequiredFieldError, ValidationException);
    Make(MissingRequiredFieldError, "Missing required field: " + field, MISSING_REQUIRED_FIELD, None,
         Some(Put(OrEmpty(context), "field_name", CStr(field))))
  }

  /** `InvalidDataFormatError(field_name, expected_format, actual_value, context)`; `actualType` is `type(actual_value).__name__`. */
  function InvalidDataFormat(field: string, expected: string, actualType: string, context: Option<Context>): (e: Exc)
    ensures e.kind == InvalidDataFormatError && IsA(e.kind, ValidationException)
    ensures e.code == INVALID_DATA_FORMAT && e.original.None?
    ensures e.message == "Invalid format for field '" + field + "': expected " + expected + ", got " + actualType
    ensures Lookup(e.context, "field_name") == Some(CStr(field))
    ensures Lookup(e.context, "expected_format") == Some(CStr(expected))
    ensures Lookup(e.context, "actual_type") == Some(CStr(actualType))
    ensures forall k :: k != "field_name" && k != "expected_format" && k != "actual_type" ==> Lookup(e.context, k) == Lookup(OrEmpty(context), k)
  {
    assert IsA(InvalidDataFormatError, ValidationException);
    var c1 := Put(OrEmpty(context), "field_name", CStr(field));
    var c2 := Put(c1, "expected_format", CStr(expected));
    var c := Put(c2, "actual_type", CStr(actualType));
    assert "field_name"[0] != "expected_format"[0] && "field_name"[0] != "actual_type"[0];
    assert "expected_format"[0] != "actual_type"[0];
    PutOther(c1, "expected_format", CStr(expected), "field_name");
    PutOther(c2, "actual_type", CStr(actualType), "field_name");
    PutOther(c2, "actual_type", CStr(actualType), "expected_format");
    Make(InvalidDataFormatError, "Invalid format for field '" + field + "': expected " + expected + ", got " + actualType,
         INVALID_DATA_FORMAT, None, Some(c))
  }

  /** `DuplicateEntryError(entity_type, identifier, context)` */
  function DuplicateEntry(entityType: string, identifier: string, context: Option<Context>): (e: Exc)
    ensures e.kind == DuplicateEntryError && IsA(e.kind, ValidationException)
    ensures e.code == DUPLICATE_ENTRY && e.original.None?
    ensures e.message == "Duplicate " + entityType + " with identifier: " + identifier
    ensures Lookup(e.context, "entity_type") == Some(CStr(entityType))
    ensures Lookup(e.context, "identifier") == Some(CStr(identifier))
    ensures forall k :: k != "entity_type" && k != "identifier" ==> Lookup(e.context, k) == Lookup(OrEmpty(context), k)
  {
    assert IsA(DuplicateEntryError, ValidationException);
    var c1 := Put(OrEmpty(context), "entity_type", CStr(entityType));
    var c := Put(c1, "identifier", CStr(identifier));
    assert "entity_type"[0] != "identifier"[0];
    PutOther(c1, "identifier", CStr(identifier), "entity_type");
    Make(DuplicateEntryError, "Duplicate " + entityType + " with identifier: " + identifier, DUPLICATE_ENTRY, None, Some(c))
  }

  /** The Python truthiness of an optional integer. */
  predicate TruthyInt(x: Option<int>)
  {
    x.Some? && x.value != 0
  }

  /** The rate-limit message: the wait is mentioned only when it is truthy. */
  function RateLimitMessage(apiName: string, retryAfter: Option<int>): (m: string)
    ensures StartsWith(m, "Rate limit exceeded for " + apiName)
    ensures !TruthyInt(retryAfter) ==> m == "Rate limit exceeded for " + apiName
    ensures TruthyInt(retryAfter) ==>
      EndsWith(m, ", retry after " + IntToString(retryAfter.value) + " seconds")
  {
    var head := "Rate limit exceeded for " + apiName;
    if TruthyInt(retryAfter) then
      var tail := ", retry after " + IntToString(retryAfter.value) + " seconds";
      assert (head + tail)[..|head|] == head;
      assert (head + tail)[|head + tail| - |tail|..] == tail;
      head + tail
    else head
  }

  /**
   * `APIRateLimitError(api_name, retry_after, context)`: the wait is
   * mentioned in the message only when it is truthy, and always recorded
   * in the context.
   */
  function APIRateLimit(apiName: string, retryAfter: Option<int>, context: Option<Context>): (e: Exc)
    ensures e.kind == APIRateLimitError && IsA(e.kind, ExternalAPIException)
    ensures e.code == API_RATE_LIMIT && e.original.None?
    ensures e.message == RateLimitMessage(apiName, retryAfter)
    ensures Lookup(e.context, "api_name") == Some(CStr(apiName))
    ensures Lookup(e.context, "retry_after") == Some(if retryAfter.Some? then CInt(retryAfter.value) else CNone)
    ensures forall k :: k != "api_name" && k != "retry_after" ==> Lookup(e.context, k) == Lookup(OrEmpty(context), k)
  {
    assert IsA(APIRateLimitError, ExternalAPIException);
    var c1 := Put(OrEmpty(context), "api_name", CStr(apiName));
    var c := Put(c1, "retry_after", if retryAfter.Some? then CInt(retryAfter.value) else CNone);
    assert "api_name"[0] != "retry_after"[0];
    PutOther(c1, "retry_after", if retryAfter.Some? then CInt(retryAfter.value) else CNone, "api_name");
    Make(APIRateLimitError, RateLimitMessage(apiName, retryAfter), API_RATE_LIMIT, None, Some(c))
  }

  /** `APINotFoundError(url, context)` */
  function APINotFound(url: string, context: Option<Context>): (e: Exc)
    ensures e.kind == APINotFoundError && IsA(e.kind, ExternalAPIException)
    ensures e.code == API_NOT_FOUND && e.original.None?
    ensures e.message == "Resource not found: " + url
    ensures Lookup(e.context, "url") == Some(CStr(url))
    ensures forall k :: k != "url" ==> Lookup(e.context, k) == Lookup(OrEmpty(context), k)
  {
    assert IsA(APINotFoundError, ExternalAPIException);
    Make(APINotFoundError, "Resource not found: " + url, API_NOT_FOUND, None, Some(Put(OrEmpty(context), "url", CStr(url))))
  }

  /** `HTMLParsingError(url, selector, original_exception, context)`; the selector is mentioned only when non-empty. */
  function HTMLParsing(url: string, selector: Option<string>, original: Option<Original>, context: Option<Context>): (e: Exc)
    ensures e.kind == HTMLParsingError && IsA(e.kind, ParsingException)
    ensures e.code == HTML_PARSING_ERROR && e.original == original
    ensures (selector.None? || selector.value == []) ==> e.message == "Failed to parse HTML from " + url
    ensures selector.Some? && selector.value != [] ==>
      e.message == "Failed to parse HTML from " + url + " using selector '" + selector.value + "'"
    ensures Lookup(e.context, "url") == Some(CStr(url))
    ensures Lookup(e.context, "selector") == Some(if selector.Some? then CStr(selector.value) else CNone)
    ensures forall k :: k != "url" && k != "selector" ==> Lookup(e.context, k) == Lookup(OrEmpty(context), k)
  {
    assert IsA(HTMLParsingError, ParsingException);
    var m := "Failed to parse HTML from " + url;
    var message := if selector.Some? && selector.value != [] then m + " using selector '" + selector.value + "'" else m;
    var c1 := Put(OrEmpty(context), "url", CStr(url));
    var c := Put(c1, "selector", if selector.Some? then CStr(selector.value) else CNone);
    assert "url"[0] != "selector"[0];
    PutOther(c1, "selector", if selector.Some? then CStr(selector.value) else CNone, "url");
    Make(HTMLParsingError, message, HTML_PARSING_ERROR, original, Some(c))
  }

  /** `LLMTimeoutError(model_name, timeout_seconds, context)` */
  function LLMTimeout(model: string, timeout: int, context: Option<Context>): (e: Exc)
    ensures e.kind == LLMTimeoutError && IsA(e.kind, LLMException)
    ensures e.code == LLM_TIMEOUT && e.original.None?
    ensures e.message == "LLM timeout: " + model + " did not respond within " + IntToString(timeout) + "s"
    ensures Lookup(e.context, "model_name") == Some(CStr(model))
    ensures Lookup(e.context, "timeout_seconds") == Some(CInt(timeout))
    ensures forall k :: k != "model_name" && k != "timeout_seconds" ==> Lookup(e.context, k) == Lookup(OrEmpty(context), k)
  {
    assert IsA(LLMTimeoutError, LLMException);
    var c1 := Put(OrEmpty(context), "model_name", CStr(model));
    var c := Put(c1, "timeout_seconds", CInt(timeout));
    assert "model_name"[0] != "timeout_seconds"[0];
    PutOther(c1, "timeout_seconds", CInt(timeout), "model_name");
    Make(LLMTimeoutError, "LLM timeout: " + model + " did not respond within " + IntToString(timeout) + "s",
         LLM_TIMEOUT, None, Some(c))
  }

  /** `ResourceNotFoundException(resource_type, resource_id, context)` */
  function ResourceNotFound(resourceType: string, resourceId: string, context: Option<Context>): (e: Exc)
    ensures e.kind == ResourceNotFoundException && e.code == RESOURCE_NOT_FOUND && e.original.None?
    ensures e.message == resourceType + " not found: " + resourceId
    ensures Lookup(e.context, "resource_type") == Some(CStr(resourceType))
    ensures Lookup(e.context, "resource_id") == Some(CStr(resourceId))
    ensures forall k :: k != "resource_type" && k != "resource_id" ==> Lookup(e.context, k) == Lookup(OrEmpty(context), k)
  {
    var c1 := Put(OrEmpty(context), "resource_type", CStr(resourceType));
    var c := Put(c1, "resource_id", CStr(resourceId));
    assert "resource_type"[9] != "resource_id"[9];
    PutOther(c1, "resource_id", CStr(resourceId), "resource_type");
    Make(ResourceNotFoundException, resourceType + " not found: " + resourceId, RESOURCE_NOT_FOUND, None, Some(c))
  }

  /** The SQLAlchemy class of a foreign exception, most specific first. */
  datatype DbClass = IntegrityError | OperationalError | OtherDatabaseError | NotDatabase

  /** The `status_code` attribute: absent, present but `None`, or an integer. */
  datatype Status = NoStatus | StatusNone | Status(code: int)

  /** A foreign exception: its type name, `str(e)`, and the attributes the decorators inspect. */
  datatype Foreign = Foreign(typeName: string, text: string, db: DbClass, status: Status, retryAfter: Option<int>)

  /** What leaves a decorated call with an exception: the foreign one unchanged, or one of ours. */
  datatype Raised = Propagated(foreign: Foreign) | Wrapped(exc: Exc) | TypeErrorRaised

  datatype Call<T> = Returns(value: T) | Throws(err: Foreign)

  datatype Outcome<T> = Returned(value: T) | ReturnedNone | Raises(raised: Raised)

  /** `handle_database_errors(func)`, applied to one call of `func` named `funcName`. */
  function HandleDatabaseErrors<T>(funcName: string, call: Call<T>): (r: Outcome<T>)
    ensures call.Returns? ==> r == Returned(call.value)
    ensures call.Throws? && call.err.db == NotDatabase ==> r == Raises(Propagated(call.err))
    ensures call.Throws? && call.err.db != NotDatabase ==>
      && r.Raises? && r.raised.Wrapped?
      && IsA(r.raised.exc.kind, DatabaseException)
      && r.raised.exc.message == call.err.text
      && r.raised.exc.original == Some(Original(call.err.typeName, call.err.text))
      && Lookup(r.raised.exc.context, "function") == Some(CStr(funcName))
      && r.raised.exc.code == (match call.err.db
                               case IntegrityError => DB_CONSTRAINT_VIOLATION
                               case OperationalError => DB_CONNECTION_ERROR
                               case _ => DB_QUERY_ERROR)
  {
    match call
    case Returns(v) => Returned(v)
    case Throws(e) =>
      var orig := Some(Original(e.typeName, e.text));
      var ctx := Some(Put(EmptyContext, "function", CStr(funcName)));
      match e.db
      case IntegrityError => Raises(Wrapped(Make(DatabaseConstraintViolation, e.text, DB_CONSTRAINT_VIOLATION, orig, ctx)))
      case OperationalError => Raises(Wrapped(Make(DatabaseConnectionError, e.text, DB_CONNECTION_ERROR, orig, ctx)))
      case OtherDatabaseError => Raises(Wrapped(Make(DatabaseException, e.text, DB_QUERY_ERROR, orig, ctx)))
      case NotDatabase => Raises(Propagated(e))
  }

  /** The generic translation at the end of `handle_api_errors`. */
  function ApiConnectionError(apiName: string, funcName: string, e: Foreign): Exc
  {
    Make(ExternalAPIException, "Error calling " + apiName, API_CONNECTION_ERROR, Some(Original(e.typeName, e.text)),
         Some(Put(Put(EmptyContext, "api_name", CStr(apiName)), "function", CStr(funcName))))
  }

  /**
   * `handle_api_errors(api_name)(func)`, applied to one call; `url` is the
   * `url` keyword argument, if one was passed. As written, a `status_code`
   * attribute that is `None` fails the `>= 500` comparison, so a
   * `TypeError` leaves the handler instead of an API exception.
   */
  function HandleApiErrors<T>(apiName: string, funcName: string, url: Option<string>, call: Call<T>): (r: Outcome<T>)
    ensures call.Returns? ==> r == Returned(call.value)
  {
    match call
    case Returns(v) => Returned(v)
    case Throws(e) =>
      match e.status
      case Status(code) =>
        if code == 404 then
          Raises(Wrapped(APINotFound(if url.Some? then url.value else "unknown",
                                     Some(Put(Put(EmptyContext, "api_name", CStr(apiName)), "function", CStr(funcName))))))
        else if code == 429 then
          Raises(Wrapped(APIRateLimit(apiName, e.retryAfter, Some(Put(EmptyContext, "function", CStr(funcName))))))
        else if code >= 500 then
          Raises(Wrapped(Make(ExternalAPIException, apiName + " server error", API_SERVER_ERROR,
                              Some(Original(e.typeName, e.text)),
                              Some(Put(Put(Put(EmptyContext, "api_name", CStr(apiName)), "function", CStr(funcName)),
                                       "status_code", CInt(code))))))
        else Raises(Wrapped(ApiConnectionError(apiName, funcName, e)))
      case StatusNone => Raises(TypeErrorRaised)
      case NoStatus => Raises(Wrapped(ApiConnectionError(apiName, funcName, e)))
  }

  /** The classification `handle_api_errors` evidently intends: a `None` status is treated as no status. */
  function HandleApiErrorsIntended<T>(apiName: string, funcName: string, url: Option<string>, call: Call<T>): (r: Outcome<T>)
    ensures call.Returns? ==> r == Returned(call.value)
    ensures call.Throws? && call.err.status.StatusNone? ==> r == Raises(Wrapped(ApiConnectionError(apiName, funcName, call.err)))
    ensures call.Throws? && !call.err.status.StatusNone? ==> r == HandleApiErrors(apiName, funcName, url, call)
  {
    if call.Throws? && call.err.status.StatusNone? then Raises(Wrapped(ApiConnectionError(apiName, funcName, call.err)))
    else HandleApiErrors(apiName, funcName, url, call)
  }

  /**
   * Every failure leaves the handler as an `ExternalAPIException`: 404 as
   * not-found with the `url` argument (or 'unknown'), 429 as rate-limit
   * with the exception's `retry_after`, 500 and above as a server error,
   * and every other status or a missing status as a connection error;
   * each carries the API's name and the decorated function's name.
   */
  lemma ApiErrorClassification<T>(apiName: string, funcName: string, url: Option<string>, call: Call<T>)
    requires call.Throws?
    ensures var r := HandleApiErrorsIntended(apiName, funcName, url, call);
      && r.Raises? && r.raised.Wrapped? && IsA(r.raised.exc.kind, ExternalAPIException)
      && Lookup(r.raised.exc.context, "api_name") == Some(CStr(apiName))
      && Lookup(r.raised.exc.context, "function") == Some(CStr(funcName))
      && (r.raised.exc.code == API_NOT_FOUND <==> call.err.status == Status(404))
      && (r.raised.exc.code == API_RATE_LIMIT <==> call.err.status == Status(429))
      && (r.raised.exc.code == API_SERVER_ERROR <==> call.err.status.Status? && call.err.status.code >= 500)
      && (r.raised.exc.code == API_CONNECTION_ERROR <==>
            !call.err.status.Status? || (call.err.status.code < 500 && call.err.status.code != 404
                                         && call.err.status.code != 429))
      && (call.err.status == Status(404) ==>
            Lookup(r.raised.exc.context, "url") == Some(CStr(if url.Some? then url.value else "unknown")))
      && (call.err.status == Status(429) ==>
            Lookup(r.raised.exc.context, "retry_after") ==
            Some(if call.err.retryAfter.Some? then CInt(call.err.retryAfter.value) else CNone))
  {
    var names := Put(Put(EmptyContext, "api_name", CStr(apiName)), "function", CStr(funcName));
    PutOther(Put(EmptyContext, "api_name", CStr(apiName)), "function", CStr(funcName), "api_name");
    match call.err.status
    case Status(code) =>
      if code == 404 {
      } else if code == 429 {
      } else if code >= 500 {
        PutOther(names, "status_code", CInt(code), "api_name");
        PutOther(names, "status_code", CInt(code), "function");
      }
    case StatusNone =>
    case NoStatus =>
  }

  /** As written, an exception whose `status_code` is `None` escapes the handler as a `TypeError`. */
  lemma NoneStatusEscapes<T>(apiName: string, funcName: string, url: Option<string>, e: Foreign)
    requires e.status == StatusNone
    ensures HandleApiErrors<T>(apiName, funcName, url, Throws(e)) == Raises(TypeErrorRaised)
    ensures HandleApiErrorsIntended<T>(apiName, funcName, url, Throws(e)) != HandleApiErrors<T>(apiName, funcName, url, Throws(e))
  {
  }

  function Pow(b: int, n: nat): int
  {
    if n == 0 then 1 else b * Pow(b, n - 1)
  }

  /** The course of `retry_on_error` from attempt `k`, waiting `wait` before the next one. */
  datatype Run<T> = Run(outcome: Outcome<T>, calls: nat, sleeps: seq<int>)

  /**
   * `retry_on_error(max_attempts, delay_seconds, backoff_factor,
   * exception_types)` from attempt number `k`: `attempts(k)` is what the
   * `k`-th call does and `listed` says whether an exception is one of
   * `exception_types`.
   */
  function RetryFrom<T>(attempts: nat -> Call<T>, listed: Foreign -> bool, maxAttempts: int, backoff: int,
                        k: nat, wait: int): Run<T>
    decreases if k < maxAttempts then maxAttempts - k else 0
  {
    if k >= maxAttempts then Run(ReturnedNone, k, [])
    else
      match attempts(k)
      case Returns(v) => Run(Returned(v), k + 1, [])
      case Throws(e) =>
        if !listed(e) || k + 1 >= maxAttempts then Run(Raises(Propagated(e)), k + 1, [])
        else
          var rest := RetryFrom(attempts, listed, maxAttempts, backoff, k + 1, wait * backoff);
          Run(rest.outcome, rest.calls, [wait] + rest.sleeps)
  }

  /** A run with the waits already taken in front of its own. */
  function Prefixed<T>(taken: seq<int>, r: Run<T>): Run<T>
  {
    Run(r.outcome, r.calls, taken + r.sleeps)
  }

  /** Taking one more wait moves it from the run to the waits taken. */
  lemma PrefixStep<T>(taken: seq<int>, w: int, r: Run<T>)
    ensures Prefixed(taken, Run(r.outcome, r.calls, [w] + r.sleeps)) == Prefixed(taken + [w], r)
  {
    assert taken + ([w] + r.sleeps) == (taken + [w]) + r.sleeps;
  }

  /** The decorated call. */
  method RetryOnError<T>(attempts: nat -> Call<T>, listed: Foreign -> bool, maxAttempts: int, delay: int, backoff: int)
    returns (outcome: Outcome<T>, calls: nat, sleeps: seq<int>)
    ensures Run(outcome, calls, sleeps) == RetryFrom(attempts, listed, maxAttempts, backoff, 0, delay)
  {
    var attempt := 0;
    var current := delay;
    sleeps := [];
    assert Prefixed([], RetryFrom(attempts, listed, maxAttempts, backoff, 0, delay))
        == RetryFrom(attempts, listed, maxAttempts, backoff, 0, delay);
    while attempt < maxAttempts
      invariant 0 <= attempt
      invariant attempt > 0 ==> attempt < maxAttempts
      invariant RetryFrom(attempts, listed, maxAttempts, backoff, 0, delay)
             == Prefixed(sleeps, RetryFrom(attempts, listed, maxAttempts, backoff, attempt, current))
      decreases maxAttempts - attempt
    {
      var here := RetryFrom(attempts, listed, maxAttempts, backoff, attempt, current);
      match attempts(attempt) {
        case Returns(v) =>
          assert here == Run(Returned(v), attempt + 1, []);
          return Returned(v), attempt + 1, sleeps;
        case Throws(e) =>
          if !listed(e) || attempt + 1 >= maxAttempts {
            assert here == Run(Raises(Propagated(e)), attempt + 1, []);
            return Raises(Propagated(e)), attempt + 1, sleeps;
          }
          var rest := RetryFrom(attempts, listed, maxAttempts, backoff, attempt + 1, current * backoff);
          assert here == Run(rest.outcome, rest.calls, [current] + rest.sleeps);
          PrefixStep(sleeps, current, rest);
          sleeps := sleeps + [current];
          attempt := attempt + 1;
          current := current * backoff;
      }
    }
    return ReturnedNone, 0, sleeps;
  }

  /**
   * From attempt `k`: at most `max_attempts` calls in all; the result is
   * the first success, reached only after listed failures; an unlisted
   * failure ends the run at once; the run sleeps once per retried failure,
   * multiplying the wait by the backoff each time, and not after the last
   * call; the wrapper returns None only when no call is made.
   */
  lemma {:induction false} RetrySpec<T>(attempts: nat -> Call<T>, listed: Foreign -> bool, maxAttempts: int, backoff: int,
                                        k: nat, wait: int)
    requires k < maxAttempts
    ensures var r := RetryFrom(attempts, listed, maxAttempts, backoff, k, wait);
      && k < r.calls <= maxAttempts
      && |r.sleeps| == r.calls - k - 1
      && (forall i :: 0 <= i < |r.sleeps| ==> r.sleeps[i] == wait * Pow(backoff, i))
      && (forall j :: k <= j < r.calls - 1 ==> attempts(j).Throws? && listed(attempts(j).err))
      && (r.outcome.Returned? ==> attempts(r.calls - 1) == Returns(r.outcome.value))
      && (r.outcome.Raises? ==>
            && attempts(r.calls - 1).Throws?
            && r.outcome == Raises(Propagated(attempts(r.calls - 1).err))
            && (listed(attempts(r.calls - 1).err) ==> r.calls == maxAttempts))
      && !r.outcome.ReturnedNone?
    decreases maxAttempts - k
  {
    RetrySleeps(attempts, listed, maxAttempts, backoff, k, wait);
    match attempts(k)
    case Returns(v) =>
    case Throws(e) =>
      if listed(e) && k + 1 < maxAttempts {
        RetrySpec(attempts, listed, maxAttempts, backoff, k + 1, wait * backoff);
      }
  }

  /** One sleep between consecutive calls, growing geometrically by `backoff`. */
  lemma {:induction false} RetrySleeps<T>(attempts: nat -> Call<T>, listed: Foreign -> bool, maxAttempts: int, backoff: int,
                                          k: nat, wait: int)
    requires k < maxAttempts
    ensures var r := RetryFrom(attempts, listed, maxAttempts, backoff, k, wait);
      && |r.sleeps| == r.calls - k - 1
      && (forall i :: 0 <= i < |r.sleeps| ==> r.sleeps[i] == wait * Pow(backoff, i))
    decreases maxAttempts - k
  {
    var r := RetryFrom(attempts, listed, maxAttempts, backoff, k, wait);
    match attempts(k)
    case Returns(v) =>
    case Throws(e) =>
      if listed(e) && k + 1 < maxAttempts {
        RetrySleeps(attempts, listed, maxAttempts, backoff, k + 1, wait * backoff);
        var rest := RetryFrom(attempts, listed, maxAttempts, backoff, k + 1, wait * backoff);
        assert r.sleeps == [wait] + rest.sleeps;
        forall i | 0 <= i < |r.sleeps| ensures r.sleeps[i] == wait * Pow(backoff, i) {
          if i > 0 {
            assert r.sleeps[i] == rest.sleeps[i - 1];
            assert rest.sleeps[i - 1] == wait * backoff * Pow(backoff, i - 1);
          }
        }
      }
  }

  /** With `max_attempts <= 0` the function is never called and the wrapper returns None. */
  lemma NonPositiveAttemptsReturnNone<T>(attempts: nat -> Call<T>, listed: Foreign -> bool, maxAttempts: int,
                                         backoff: int, delay: int)
    ensures var r := RetryFrom(attempts, listed, maxAttempts, backoff, 0, delay);
      r.outcome.ReturnedNone? <==> maxAttempts <= 0
    ensures maxAttempts <= 0 ==> RetryFrom(attempts, listed, maxAttempts, backoff, 0, delay) == Run(ReturnedNone, 0, [])
  {
    if maxAttempts > 0 {
      RetrySpec(attempts, listed, maxAttempts, backoff, 0, delay);
    }
  }
}
