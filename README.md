# express-zod-validator, modelled in Dafny

The repository is a request-validation and error-normalisation layer for an Express server.
It has two middlewares, and this project models both.

- `validator(schemas)` takes up to three optional schemas. It validates a request's `body`,
  `params` and `query`, in that order. It overwrites each configured slot in place with the
  schema's parsed value. It stops at the first failure. It calls `next()` only when every
  configured slot parsed.
- `errorHandler` classifies any thrown value into `{statusCode, message, errorCode}`. It then
  writes that record as the JSON response with the same HTTP status. It does nothing when the
  response has already been started.

Files:

- `js_values.dfy` (module `JsValues`): JSON-like request values, JavaScript truthiness,
  validation issues and their paths, and the thrown values (`ValidationErr`, `PlainErr`,
  `Other`). `IsErrorInstance` models `instanceof Error`, which also holds for a validation
  error, so the order of the classification rules matters.
- `decimal.dfy` (module `Decimal`): the decimal text JavaScript gives an array index in a path.
- `error_handler.dfy` (module `ErrorHandler`): the path and issue rendering, `handleErrors`
  as `HandleErrors`, and `errorHandler` as the method `HandleError` over a `Response` class.
  The function `AfterErrorHandler` specifies that method on a snapshot of the response.
- `validator.dfy` (module `Validator`): `isZodSchema`, the `Request` class, and the middleware
  as the method `Validate`. The method is three sequential `if`s, as in the source. Its
  contract ties it to `RunSlots`, which runs any sequence of slot names. The lemmas about
  `RunSlots` are proved for every duplicate-free sequence, so they hold for the fixed order
  body, params, query.

Status codes and reason phrases are those of RFC 9110: 400 "Bad Request" (section 15.5.1)
and 500 "Internal Server Error" (section 15.6.1).

A thrown non-Error value carries a `Value`, and the model shows that the response never
depends on it. An issue path renders as `Array.prototype.join(",")` does: keys as
themselves, indices in decimal, and an empty path as the empty string.

When a validation error has an empty issue list, the code reads `errors[0]`, which is
`undefined`. The model keeps this case: `message` is `None` exactly then, and the JSON body
then has no `message` field. A caller might expect every 400 body to carry a message; with an
empty issue list it does not.

## Model

| member | source | states |
|---|---|---|
| `Decimal.NatToDecimal` | src/middlewares/error-handler.middleware.ts:13 | an array index in a path renders as at least one decimal digit, with no leading zero |
| `Decimal.DecimalRoundTrip` | src/middlewares/error-handler.middleware.ts:13 | the rendered index reads back as the same number, so distinct indices render differently |
| `Decimal.DecimalInjective` | src/middlewares/error-handler.middleware.ts:13 | two indices with the same text are equal |
| `ErrorHandler.ReasonPhrase` | src/middlewares/error-handler.middleware.ts:16-33 | 400 maps to "Bad Request" and 500 to "Internal Server Error", in both directions |
| `ErrorHandler.PathRoundTrip` | src/middlewares/error-handler.middleware.ts:13 | for a non-empty path whose keys contain no comma, splitting its text at the commas gives back the segment texts (an empty path renders as "", which splits into one empty text) |
| `ErrorHandler.RenderPathConcat` | src/middlewares/error-handler.middleware.ts:13 | for two non-empty paths, the text of the joined path is the first text, a comma, then the second text, as `join(",")` accumulates |
| `ErrorHandler.RenderPathNoSpace` | src/middlewares/error-handler.middleware.ts:13 | a path whose keys have no space renders with no space |
| `ErrorHandler.HandleErrors` | src/middlewares/error-handler.middleware.ts:11-35 | the status is always 400 or 500 with its matching reason phrase; it is 400 exactly for a validation error, even though that error is also an `Error`; the message is missing exactly for a validation error with no issues |
| `ErrorHandler.ValidationErrorIsBadRequest` | src/middlewares/error-handler.middleware.ts:12-19 | a validation error with issues gives 400, "Bad Request", and the first issue rendered as path, a space, then its message |
| `ErrorHandler.NestedPathExample` | src/middlewares/error-handler.middleware.ts:13-17 | the issue at keys items, index 12, key name with message "Required" gives the message "items,12,name Required" |
| `ErrorHandler.LaterIssuesIgnored` | src/middlewares/error-handler.middleware.ts:13-17 | issues after the first never change the response |
| `ErrorHandler.PlainErrorIsInternal` | src/middlewares/error-handler.middleware.ts:22-28 | any other `Error` gives 500, "Internal Server Error", and its own message verbatim |
| `ErrorHandler.NonErrorIsFallback` | src/middlewares/error-handler.middleware.ts:30-34 | any thrown non-Error gives 500, "Internal Server Error", and exactly "Something went wrong", whatever the value |
| `ErrorHandler.BadRequestMessageSplitsAtFirstSpace` | src/middlewares/error-handler.middleware.ts:13-17 | for any issue list with a first issue whose keys contain no space, including an empty path, the 400 message has its first space right after the path text: the path text before it, the issue text after it (an empty path gives " " followed by the issue text) |
| `ErrorHandler.BadRequestMessageRecoversIssue` | src/middlewares/error-handler.middleware.ts:13-17 | for a first issue with a non-empty path whose keys contain no comma and no space, the part of the 400 message before its first space splits at the commas into the path segments, and the part after it is the issue text |
| `ErrorHandler.AfterErrorHandler` | src/middlewares/error-handler.middleware.ts:37-51 | afterwards headers are sent; an already-started response is unchanged; otherwise the body is an error record whose statusCode is the response status |
| `ErrorHandler.ErrorResponseIsClassified` | src/middlewares/error-handler.middleware.ts:42-50 | a response not yet started gets exactly the classified record as body, and its status and reason phrase match |
| `ErrorHandler.ErrorHandlerWritesOnce` | src/middlewares/error-handler.middleware.ts:38-40 | a second error after the first response changes nothing |
| `ErrorHandler.Response.Status` | src/middlewares/error-handler.middleware.ts:50 | `res.status` sets the status and sends nothing |
| `ErrorHandler.Response.SendJson` | src/middlewares/error-handler.middleware.ts:50 | `res.json` may only be called before headers are sent; it sends the body and keeps the status |
| `ErrorHandler.HandleError` | src/middlewares/error-handler.middleware.ts:37-51 | the response afterwards is `AfterErrorHandler` of the response before; a started response is left untouched |
| `Validator.IsZodSchema` | src/middlewares/validator.middleware.ts:21-22 | a slot counts as configured exactly when it holds a truthy value with a parse function |
| `Validator.Set` | src/middlewares/validator.middleware.ts:34-40 | overwriting one slot gives it the new value and leaves the other two slots as they were |
| `Validator.RunLeavesSlot` | src/middlewares/validator.middleware.ts:33-41 | an unconfigured slot is never parsed or changed, whatever the other slots do |
| `Validator.RunNextIff` | src/middlewares/validator.middleware.ts:33-43 | `next()` is reached exactly when no configured slot fails to parse its value |
| `Validator.RunSuccess` | src/middlewares/validator.middleware.ts:33-43 | on success each configured slot holds its schema's output for its prior value, the others are unchanged, and each configured slot was parsed once, in order |
| `Validator.FailureHasFirst` | src/middlewares/validator.middleware.ts:33-41 | a run that fails has a first failing slot in order |
| `Validator.RunStopsAtFirstFailure` | src/middlewares/validator.middleware.ts:33-41 | the reported error is that of the first failing slot in order, and exactly the configured slots up to it were parsed |
| `Validator.FailureSlots` | src/middlewares/validator.middleware.ts:34-40 | after a failure, configured slots before it keep their parsed values (no rollback), and it and every later slot keep their old values |
| `Validator.NothingParsedAfterFailure` | src/middlewares/validator.middleware.ts:33-41 | no slot after the first failing one is parsed |
| `Validator.NoSchemaPassesThrough` | src/middlewares/validator.middleware.ts:33-43 | with no slot configured, `next()` is called, nothing is parsed and the request is unchanged |
| `Validator.BodyFailureReportedFirst` | src/middlewares/validator.middleware.ts:33-35 | a failing body schema is reported, whatever the other schemas would say, and params and query are neither parsed nor changed |
| `Validator.Validate` | src/middlewares/validator.middleware.ts:24-44 | the outcome, the request's new slots and the slots parsed are those `RunSlots` gives for the order body, params, query on the old slots |

## Left out

- The `console.log` of the raw body (src/middlewares/validator.middleware.ts:31) and the
  `console.error` line with its ISO timestamp (src/middlewares/error-handler.middleware.ts:44-48):
  logging output that depends on the clock.
- The asynchrony of `parseAsync` and `await`, and how Express passes a rejected promise to the
  error handler. `Validate` is a sequential method that returns `Fail(error)` where the source
  throws. A schema that never settles is not modelled.
- Schema matching and issue generation inside zod. Each schema is an abstract total function
  from a value to a parsed value or a thrown value.
- The type-level request typing (`ZodRequestSchema`, `InferRequestType`, `TypedRequestHandler`,
  src/middlewares/validator.middleware.ts:4-19). It has no run-time behaviour.
- src/server.ts (app setup, JSON body parsing, the example route, the port, `listen`) and
  tsup.config.ts (build settings). These are framework wiring and configuration.
- JavaScript numbers are modelled as integers: no fractions, NaN or negative zero in values
  or in truthiness. Path indices are natural numbers, as array indices are.
- Other values a schema-set field could hold: a truthy non-schema object is `NotSchema`, and
  objects whose `parseAsync` is a non-function property are not distinguished further.
