# XSD paths from a WSDL, and the global exception handler

This project models two pieces of a small Java repository and proves
properties of the models in Dafny.

**PrintXSDPathsFromWSDL.** The program starts from the inline `<schema>`
elements of a WSDL's `<types>` section. It follows every `xs:import` and
`xs:include` `schemaLocation`, recursively and across files. One shared
`processedSchemas` set makes sure each location string is expanded only
once. Before a document's references are followed, its base URI is printed.

- The parsed world is a finite map from resolved paths to schema documents.
  Each document is reduced to its base URI and its ordered import and
  include locations. A path that is not in the map is a file that cannot be
  read or parsed.
- `SchemaWalk` specifies the walk as mutually recursive functions: `Element`
  (processSchemaElement), `Refs`/`Follow` (its two loops), `File`
  (processSchemaFile), `Types` (the loop of main) and `Run` (main).
  Termination is by the number of location strings not yet processed.
- `XsdPathPrinter.Walker` is the imperative form. It is a class with the
  `processed` set and the `output` lines as fields. Its methods have the
  source's loops and mutual recursion, and each is proved to produce exactly
  the state the specification functions give.
- A ghost log records every document visited and where it came from. The
  properties are stated over this log and proved in six modules:
  - `WalkLedger`: duplicate suppression and the processed set;
  - `WalkLinks`: resolution of each reference;
  - `WalkOrder`: pre-order, with imports before includes;
  - `WalkOutput`: the printed lines;
  - `WalkCoverage`: nothing is missed on success;
  - `WalkHandling`: each location is expanded where it is first met. A
    reference that is not followed is empty or names a location reached
    by a visit that precedes the point where the reference is handled. A
    failed walk stops at a reference whose resolved file cannot be read.

  `WalkProperties.RunProperties` collects them for a whole run.
  `WalkExamples` checks the handling property on a diamond (two imports of
  one location), and checks the failure case on a location met twice.
- A thrown exception is a `false` outcome. It ends the whole walk, as the
  single `catch` in main does. `types == None` stands both for a WSDL that
  cannot be read and for one without a `<types>` section.

**GlobalExceptionHandler.** The nine handlers are one total function,
`ExceptionHandling.Handle`, from an error kind (a datatype tag with the
payload the handler reads) and the request description to a response:
success flag, summary, error details and HTTP status. `Joining` models
`Collectors.joining`. It is described independently of its recursion by the
length of the result and by where each item and each separator lies in it.

## Model

| member | source | states |
|---|---|---|
| FilePaths.Segments | PrintXSDPathsFromWSDL.java:67 | the name segments of a location string are non-empty and contain no '/' |
| FilePaths.SegmentsOfJoinPath | PrintXSDPathsFromWSDL.java:67 | splitting the pathname string of a well-formed path gives that path back (round trip) |
| FilePaths.Resolve | PrintXSDPathsFromWSDL.java:67 | `new File(baseDir, location)` lies below `baseDir`: the base directory is a prefix of the result |
| FilePaths.ParentDir | PrintXSDPathsFromWSDL.java:92 | `getParentFile()` drops exactly the last segment; the parent of the empty path is empty |
| FilePaths.ResolveBareName | PrintXSDPathsFromWSDL.java:92 | a plain file name resolves to one segment under the directory, and the parent of that file is the directory again |
| SchemaWalk.Universe | PrintXSDPathsFromWSDL.java:85-92 | the set of all location strings of the graph is finite, holds every location of every readable document, and holds those of the inline schemas (the termination measure is drawn from it) |
| SchemaWalk.Element | PrintXSDPathsFromWSDL.java:52-83 | the processed set and the visit log only grow, and the element itself is the first visit it adds (its base URI is printed before anything it references) |
| SchemaWalk.Refs | PrintXSDPathsFromWSDL.java:61-70 | one reference loop only grows the processed set and the log; it terminates because each followed location shrinks the unprocessed part of a finite set |
| SchemaWalk.Follow | PrintXSDPathsFromWSDL.java:65-69 | a followed location is in the processed set afterwards, whatever happens later; set and log only grow |
| SchemaWalk.File | PrintXSDPathsFromWSDL.java:85-93 | processing a file only grows the processed set and the log; an unreadable file fails and changes nothing else; a readable one is visited next, with its document, its parent directory and its origin |
| SchemaWalk.Types | PrintXSDPathsFromWSDL.java:39-45 | the loop over all inline schemas, sharing one set, only grows the set and the log |
| SchemaWalk.Run | PrintXSDPathsFromWSDL.java:25-50 | when the WSDL cannot be read the run fails with nothing printed and nothing processed |
| XsdPathPrinter.Walker.constructor | PrintXSDPathsFromWSDL.java:38 | the processed set starts empty and nothing is printed |
| XsdPathPrinter.Walker.ProcessSchemaElement | PrintXSDPathsFromWSDL.java:52-83 | the new processed set, output, log and outcome are exactly those of `Element` from the old state |
| XsdPathPrinter.Walker.ProcessReferences | PrintXSDPathsFromWSDL.java:61-70 | the loop (with its invariant) leaves exactly the state `Refs` gives from the old state |
| XsdPathPrinter.Walker.ProcessSchemaFile | PrintXSDPathsFromWSDL.java:85-93 | the new state is exactly `File` of the old state |
| XsdPathPrinter.Walker.ProcessTypes | PrintXSDPathsFromWSDL.java:39-45 | the loop over the extensibility elements leaves exactly the state `Types` gives |
| XsdPathPrinter.PrintXsdPaths | PrintXSDPathsFromWSDL.java:25-50 | main prints exactly the lines of `Run`; its outcome is false exactly when `Run` fails, that is, when an exception was raised (one of the four caught at line 47, whose trace is printed before main returns, or the uncaught one of a WSDL without types) |
| WalkLedger.ElementLedger | PrintXSDPathsFromWSDL.java:65-68 | every reference a schema's subtree follows is a non-empty location new to the set and now in it; no two are the same string; "" never enters the set; on success the new locations are exactly those followed, and on failure one was added but never visited |
| WalkLedger.RefsLedger | PrintXSDPathsFromWSDL.java:62-70 | the same bookkeeping for one reference loop from any position |
| WalkLedger.FollowLedger | PrintXSDPathsFromWSDL.java:65-68 | the same bookkeeping when a new location is marked before its file is visited |
| WalkLedger.TypesLedger | PrintXSDPathsFromWSDL.java:38-44 | the same bookkeeping across all inline schemas, so a location reached from two inline schemas is expanded once |
| WalkLinks.ElementLinked | PrintXSDPathsFromWSDL.java:52-83 | every visit is linked: an inline visit is a Schema element of the WSDL and uses the WSDL's directory; a followed visit names an earlier visit, its position in that visit's import or include list, and the file resolved against that visit's directory; the file is readable, holds that document and is the new base directory |
| WalkLinks.RefsLinked | PrintXSDPathsFromWSDL.java:61-70 | one reference loop keeps every visit linked |
| WalkLinks.FollowLinked | PrintXSDPathsFromWSDL.java:67-68 | following a location resolves it against the referring document's directory |
| WalkLinks.TypesLinked | PrintXSDPathsFromWSDL.java:39-44 | inline schemas are processed against the WSDL file's directory |
| WalkOrder.ElementOrder | PrintXSDPathsFromWSDL.java:52-83 | the log is a pre-order tree: parents come before children; the children of a visit come in document order, all imports before all includes; each subtree is contiguous; and the subtree of the new visit is still open at the end |
| WalkOrder.RefsOrder | PrintXSDPathsFromWSDL.java:61-70 | a reference loop keeps the tree shape and adds children of its parent only after those already there |
| WalkOrder.FollowOrder | PrintXSDPathsFromWSDL.java:65-69 | after one followed reference and the rest of the loop, the log is still a tree, the referring visit is still open, and its children are ordered up to the end of the list |
| WalkOrder.TypesOrder | PrintXSDPathsFromWSDL.java:39-44 | the inline schemas are the roots, in the order of the extensibility elements |
| WalkOutput.ElementOutput | PrintXSDPathsFromWSDL.java:55-58 | the lines printed are the non-null base URIs of the new visits, in visit order |
| WalkOutput.RefsOutput | PrintXSDPathsFromWSDL.java:61-70 | the same for one reference loop |
| WalkOutput.FollowOutput | PrintXSDPathsFromWSDL.java:65-69 | the same for one followed reference |
| WalkOutput.TypesOutput | PrintXSDPathsFromWSDL.java:39-44 | the same across all inline schemas |
| WalkCoverage.ElementCoverage | PrintXSDPathsFromWSDL.java:61-82 | on success every import and include location of every visited document is empty or processed |
| WalkCoverage.RefsCoverage | PrintXSDPathsFromWSDL.java:62-70 | on success every location of the list from the loop's position on is empty or processed |
| WalkCoverage.FollowCoverage | PrintXSDPathsFromWSDL.java:65-69 | the same after following one new location |
| WalkCoverage.TypesCoverage | PrintXSDPathsFromWSDL.java:39-44 | on success every Schema element of the WSDL was visited, and nothing was missed below them |
| WalkProperties.RunProperties | PrintXSDPathsFromWSDL.java:38-82 | for any document graph and WSDL: no location string is expanded twice; only non-empty locations are followed and "" is never processed; the set on success is exactly the locations followed; all visits are linked to their origin and resolved against the referring directory; the log is a pre-order tree with imports first; the output is the base URIs in visit order; a successful run misses no reference and no inline schema; on success every reference of every visit is empty, followed by a child at its own place, or names a location reached before the point where that reference is handled (each location is expanded where it is first met); a failed run stops at a non-empty reference of a still-open visit whose location is met there for the first time (it is in the set, but no visit was reached through it) and whose resolved file cannot be read, with nothing visited after that point and every earlier reference of that visit handled |
| WalkHandling.ElementHandling | PrintXSDPathsFromWSDL.java:52-83 | on success every reference of every new visit is handled where it stands (empty, followed at its place, or reached earlier); on failure the walk stopped at a location met for the first time whose resolved file cannot be read |
| WalkHandling.RefsHandling | PrintXSDPathsFromWSDL.java:61-70 | one reference loop handles every reference of its list from its position on, or stops at an unreadable file |
| WalkHandling.FollowHandling | PrintXSDPathsFromWSDL.java:65-69 | a new location whose file cannot be read stops the walk at exactly this reference; a readable one is the next visit, a child of the referring visit at this reference's place; the loop then handles the rest of the list or stops at an unreadable file |
| WalkHandling.FollowDone | PrintXSDPathsFromWSDL.java:67-69 | after the followed file's subtree is complete, the reference counts as handled and the loop goes on from the next one |
| WalkHandling.TypesHandling | PrintXSDPathsFromWSDL.java:39-45 | across all inline schemas every visit is complete on success, and a failure names the unreadable file it stopped at |
| WalkExamples.WrongOrderRejected | PrintXSDPathsFromWSDL.java:65-68 | with root R importing A and B, both importing L, a log that expands L under B instead of A leaves A's import unhandled |
| WalkExamples.ProgramOrderAccepted | PrintXSDPathsFromWSDL.java:61-70 | the order R, A, L, B, with L expanded under A and skipped under B, has every visit complete |
| WalkExamples.NoStopAtKnownLocation | PrintXSDPathsFromWSDL.java:61-82 | when R imports "s/a", which imports "x", and R also includes "x", a failed walk over R, A and X has no place to stop: each reference names a location some visit was reached through |
| Joining.JoinLength | GlobalExceptionHandler.java:110-111 | the joined string is as long as the items plus one separator between each pair |
| Joining.JoinItemAt | GlobalExceptionHandler.java:110-111 | item k occurs at its offset in the joined string |
| Joining.JoinSeparatorBefore | GlobalExceptionHandler.java:144-147 | the separator sits right before every item but the first |
| ExceptionHandling.Handle | GlobalExceptionHandler.java:27-168 | every response has success false and passes the request description through; status 404 exactly for ResourceNotFound and 500 exactly for IOException, 400 for the seven others; each summary goes exactly with its status; the six message handlers pass the exception message through |
| ExceptionHandling.FirstFieldMessage | GlobalExceptionHandler.java:92-93 | the detail is the first field error's default message, or "Validation error" when there are no field errors or the first one has no default message |
| ExceptionHandling.ViolationDetailLayout | GlobalExceptionHandler.java:110-111 | the ConstraintViolation detail holds every message at its place in order, with ", " before each but the first, and nothing more |
| ExceptionHandling.NoViolationsNoDetail | GlobalExceptionHandler.java:110-111 | no violations give the empty detail |
| ExceptionHandling.InvalidFormatLayout | GlobalExceptionHandler.java:144-147 | the InvalidFormat detail holds "field value should be of type T" for each path entry in order, with "." before each but the first, and nothing more |
| ExceptionHandling.HandleAsWritten | GlobalExceptionHandler.java:89-98 | the handlers as written: the MethodArgumentNotValid handler throws exactly when the first field error has no default message, and otherwise answers 400 with that message, or "Validation error" when there are no field errors |
| ExceptionHandling.FirstFieldMessageAsWritten | GlobalExceptionHandler.java:92-93 | as written, the stream throws exactly when there is a first field error and its default message is null |
| ExceptionHandling.NullDefaultMessageThrows | GlobalExceptionHandler.java:92-93 | one field error without a default message makes the handler as written throw, where the corrected handler answers "Validation error" |
| ExceptionHandling.HandleAgreesWithSource | GlobalExceptionHandler.java:89-98 | wherever the handlers as written answer, `Handle` gives the same response; among the modelled cases they throw exactly in the null-message case |

## Left out

- WSDL4J reading, DOM/SAX parsing and `java.io.File` internals are not modelled. The parsed world is a map from resolved path to document. A read or parse failure is a path missing from that map. An unreadable WSDL is `types == None`.
- `getElementsByTagNameNS` returns all matching descendants in document order. The XML tree shape is not modelled; each document has flat, ordered import and include lists.
- `definition.getTypes().getExtensibilityElements()` is taken as an ordered sequence. The source declares it a `Map` and iterates `values()`, but the library returns a list.
- `System.out` is modelled as a sequence of lines. The stack trace printed by the `catch` is not modelled; only the end of the walk is.
- Pathnames: "." and ".." are kept as ordinary segments, as `java.io.File` keeps them. An absolute location (a leading '/') is not told apart from a relative one. `getAbsolutePath()` and the current directory are not modelled.
- XsdPathPrinter.Walker.ProcessReferences: the two loops of processSchemaElement are one method, called once with the import list and once with the include list. They differ only in the element name.
- The `schemaLocation != null` test is not modelled separately, since `getAttribute` returns "" for a missing attribute.
- The Spring layer is not modelled: choosing a handler by exception class, `ResponseEntity` and `ResultWrapper` construction. The exception class is an explicit tag.
- The `new Date()` timestamp of `ErrorDetails` is not modelled, because it is a wall-clock value.
- `getConstraintViolations()` is a Set with no fixed iteration order. The messages are taken as a given sequence.
- Exception messages are modelled as strings; a null message is passed through as it is, and no handler acts on it. Of the nulls that make a handler throw, only the missing default message of the first field error is modelled; it is the finding below.
- ExceptionHandling.HandleAgreesWithSource: the InvalidFormat handler also throws when a path entry has a null field name (an entry for a collection element) or when the target type is null (GlobalExceptionHandler.java:144-147). The model takes field names and the type name as strings, so these throws are not modelled.
- XsdPathPrinter.PrintXsdPaths: a WSDL without a `<types>` section makes `getTypes()` null (PrintXSDPathsFromWSDL.java:37). The NullPointerException that follows is not caught at line 47, so main ends with an uncaught exception. The model gives this case as `types == None`, the same as an unreadable WSDL: a failed run with nothing printed. It does not tell a caught exception from an uncaught one.
- WalkProperties.RunProperties: for a failed run, the references of the ancestors of the document where the walk stopped are not restated; only the references of that document before the stop, and those of every later visit, are stated to be handled.
- generate.py is not part of this model: it holds deployment and load-test material, not program logic.

## Findings

| source | as written | input that shows it | evidently intended | confidence | as-written member | corrected member |
|---|---|---|---|---|---|---|
| GlobalExceptionHandler.java:92-93 | `map(getDefaultMessage).findFirst()` throws a NullPointerException when the first field error has no default message, so the handler itself fails | a MethodArgumentNotValidException whose first FieldError has a null default message | fall back to "Validation error", as for no field errors | medium, not executed | ExceptionHandling.FirstFieldMessageAsWritten | ExceptionHandling.FirstFieldMessage |
