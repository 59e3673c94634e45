# Dog profile service: routing, record store and handlers

A model of the core of a small Go web service that keeps one text record per
dog. A request path is validated by the pattern `^/(edit|save|dog)/([a-zA-Z0-9]+)$`;
the dog's name from the second group addresses the file `name + ".dog"`, which
holds the dog's "about" bytes. Three handlers answer requests:

- the dog page renders the stored dog, or redirects to the edit form when it cannot be loaded;
- the edit form renders the stored dog, or a new one with an empty body;
- save writes the submitted body and redirects to the dog page, or answers a server error.

Modules:

- `Wrappers` (wrappers.dfy): `Option` and `Result`.
- `Router` (router.dfy): the pattern written out as an explicit parser (`Match`), with its soundness, completeness and rejection properties.
- `Store` (store.dfy): `Dog`, the name-to-file-name function, the `FileSystem` class whose `files` map `SaveDog` updates in place, and `Load`/`Written`, the functions that specify loading and saving.
- `Handlers` (handlers.dfy): the `Response` datatype (render, redirect, not found, server error), the three handlers and the `makeHandler` wrapper as methods over a `FileSystem`, the pure functions that specify them, and the lemmas that relate whole requests.

The file system is a `map<string, seq<byte>>`. Whether a write fails is decided by
the environment and passed in as `fault: Option<string>` (the error text). The
form field `about` is passed in as bytes.

## Model

| member | source | states |
|---|---|---|
| Router.MatchOp | main.go:13 | one alternative of the pattern: a result is that operation with a valid name and the path is exactly its prefix plus that name; no result means no valid name follows that prefix |
| Router.Match | main.go:13 | a match yields a name in `[a-zA-Z0-9]+` and the path is exactly `"/" op "/" name` for the operation and name it yields |
| Router.MatchComplete | main.go:13 | every `"/" op "/" name` with a valid name is matched, with exactly that operation and name as the groups |
| Router.MatchIff | main.go:13 | a path matches as (op, name) if and only if it is `"/" op "/" name` and the name is non-empty alphanumeric |
| Router.MatchRejectsIff | main.go:13 | a path is rejected if and only if it is no `"/" op "/" name` with a valid name |
| Router.AcceptedNameHasNoSeparator | main.go:95-96 | an accepted name is non-empty and holds neither `/` nor `.` |
| Router.PrefixesExclusive | main.go:107-109 | no path starts with the prefixes of two different operations, so at most one registration and at most one alternative of the pattern applies |
| Router.TraversalRejected | main.go:13 | `/dog/../../etc/passwd` is not matched |
| Router.MalformedRejected | main.go:13 | an empty name, a trailing `/` and the unknown operation `view` are not matched |
| Store.FileName | main.go:25 | the file name of a dog is its name followed by the suffix `.dog`, so the name can be read back from it |
| Store.FileNameInjective | main.go:25 | different names address different files |
| Store.FileNameSafe | main.go:25 | a non-empty name without `/` or `.` gives a file name with no separator whose only dot is the one of `.dog` |
| Store.Load | main.go:31-38 | loading succeeds exactly when the name's file exists, giving a dog with that name and the file's bytes; otherwise the error is "file does not exist" and there is no dog |
| Store.Written | main.go:24-27 | after a save the name's file holds the saved bytes, the file is created if absent, and every other file is unchanged |
| Store.LoadAfterWritten | main.go:24-38 | save then load of the same name gives back the saved dog; loading any other name gives what it gave before |
| Store.WrittenTwice | main.go:24-27 | a second save of a name replaces the first entirely: the last save wins |
| Store.WrittenIdempotent | main.go:24-27 | saving the same dog twice leaves what saving it once leaves |
| Store.FileSystem.SaveDog | main.go:24-27 | a write that succeeds leaves the file system as `Written` says and returns no error; a write that fails returns that failure and changes nothing |
| Store.FileSystem.LoadDog | main.go:31-38 | reads the file system without changing it and returns what `Load` says |
| Handlers.ViewResponse | main.go:56-63 | the dog page renders template "dog" with the stored dog exactly when its file exists, and otherwise redirects (302) to `/edit/` + name |
| Handlers.EditResponse | main.go:66-72 | the edit form always renders template "edit" for that name, with the stored bytes or, when the load fails, an empty body |
| Handlers.SaveOutcome | main.go:75-84 | save redirects (302) to `/dog/` + name exactly when the write succeeded, with the file system as `Written` says; otherwise a 500 with the failure's text and no change |
| Handlers.Invoke | main.go:56-84 | no handler answers NotFound, and only the save handler can change the file system |
| Handlers.Handle | main.go:44-53 | a path the pattern rejects is answered NotFound with the file system unchanged; an accepted one runs the wrapped handler on the second group |
| Handlers.Registered | main.go:107-109 | a path is routed to a handler if and only if it starts with that handler's prefix (`/dog/`, `/edit/`, `/save/`); it is routed nowhere exactly when it starts with none of them |
| Handlers.GetName | main.go:97-104 | the name is returned with no error exactly when the pattern matches, and it is the second group; otherwise NotFound is written, the name is empty and the error is "Invalid dog name" |
| Handlers.GetNameAgreesWithHandle | main.go:97-104 | getName and the makeHandler wrapper validate alike: the same name on a match, NotFound on no match |
| Handlers.ServeMux | main.go:107-109 | with the three registrations, an accepted path runs the handler named by its first group on its second group, and a rejected path is NotFound with nothing changed |
| Handlers.HandleWritesOnlySafeFile | main.go:44-53 | a request changes nothing, or changes only the file of the name it carried, a file name that cannot leave the working directory |
| Handlers.RedirectsStayOnRoutes | main.go:56-84 | every redirect targets a path the pattern accepts, for the same name: save leads to the dog page, the dog page to the edit form |
| Handlers.SaveThenView | main.go:56-84 | a successful save redirects to the dog page, and that page renders exactly the saved dog |
| Handlers.SaveThenEdit | main.go:66-84 | after a successful save the edit form is pre-filled with the saved bytes |
| Handlers.MissingDogLeadsToEmptyForm | main.go:56-72 | the page of a dog never saved redirects to its edit form, which renders an empty body; nothing changes |
| Handlers.SaveFailureChangesNothing | main.go:75-84 | a failed write answers a 500 with the failure's text, redirects nowhere and changes nothing |
| Handlers.LastSaveWins | main.go:75-84 | after two saves of a name the second body is stored, and other dogs are unchanged |
| Handlers.RexScenario | main.go:75-84 | saving rex with "Good boy" redirects to `/dog/rex`, `rex.dog` holds "Good boy", and `/dog/rex` then renders rex with "Good boy" |
| Handlers.GhostScenario | main.go:66-72 | `/edit/ghost` with no ghost saved renders the form for ghost with an empty body |
| Handlers.TraversalScenario | main.go:44-53 | the makeHandler guard answers `/dog/../../etc/passwd` with NotFound, whichever handler it wraps, and no file is read or written |
| Handlers.DogHandler | main.go:56-63 | the dog handler answers what `ViewResponse` says, and has no `modifies` clause: it never changes the file system |
| Handlers.EditHandler | main.go:66-72 | the edit handler answers what `EditResponse` says and never changes the file system |
| Handlers.SaveHandler | main.go:75-84 | the save handler's response and new file system are what `SaveOutcome` says of the old one |
| Handlers.Serve | main.go:44-53 | the wrapped handler's response and new file system are what `Handle` says of the old one |

Facts about the code that a reader might expect otherwise:

- The view page is `/dog/{name}`, rendered with template "dog"; there is no `/view/` route, and `/view/rex` is not matched.
- Any load error, not only a missing file, sends the dog page to the edit form, and the edit form treats any load error as a new dog; no load error becomes a server error.
- The request method is not checked: any method on `/save/{name}` saves.
- `makeHandler` does not look at the first group: the handler is fixed when it is registered. `Handlers.ServeMux` shows that with the three registrations the two always agree.

## Left out

- HTTP transport: the listener, `log.Fatal`, writing responses; a response is a `Response` value.
- Template parsing and execution: a render is the value `Render(template, dog)`. The server error that `renderTemplate` answers when execution fails is not modelled.
- The standard request multiplexer's own behaviour beyond prefix routing: path cleaning (a path such as `/dog/../../etc/passwd` is answered by the multiplexer with a redirect to its cleaned form before any wrapper sees it, so `Handlers.TraversalScenario` states makeHandler's guard, not the whole service), the redirect from `/dog` to `/dog/`, and its 404 page text.
- Form decoding: the field `about` arrives as bytes; the conversion of a Go string to bytes is not modelled.
- Real file I/O and the file permissions 0600: the working directory is a map from file name to bytes.
- Store.FileSystem.LoadDog: every missing-file read fails with `NotExist`; read failures of existing files (permissions, disk errors) are not modelled, which the handlers would treat the same way.
- Store.FileSystem.SaveDog: a failed write leaves the file untouched; the real write truncates the file first, so a failure after that can leave it empty or partial.
- Handlers.SaveOutcome: inherits that simplification: its "no change on failure" does not cover a write that failed after truncating the file.
- Handlers.SaveFailureChangesNothing: likewise, "changes nothing" holds only for a write that failed before touching the file.
- Concurrent requests on the same file: outside the model.
- Character set: names are Unicode characters rather than UTF-8 bytes; the pattern's class is ASCII-only, so this does not change which names are accepted.
