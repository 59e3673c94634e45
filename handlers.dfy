/**
 * The request handlers of the dog service and the wrapper that validates a
 * path before any of them runs. Every request ends in exactly one Response;
 * only a successful save changes the file system.
 */
module Handlers {
  import opened Wrappers
  import opened Router
  import opened Store

  const StatusFound: int := 302
  const StatusInternalServerError: int := 500

  /** The one outcome a request ends in. */
  datatype Response =
    | Render(tmpl: string, dog: Dog)       // a template executed with a dog
    | Redirect(url: string, status: int)      // http.Redirect
    | NotFound                                // http.NotFound
    | ServerError(detail: string, status: int) // http.Error

  /** What a handler reads of a request: its path and the form field "about". */
  datatype Request = Request(path: string, about: seq<byte>)

  /** The body of the "/dog/" handler, as a function of the file system. */
  function ViewResponse(files: Files, name: string): (r: Response)
    ensures r.Render? <==> FileName(name) in files
    ensures r.Render? ==> r == Render("dog", Dog(name, files[FileName(name)]))
    ensures !r.Render? ==> r == Redirect("/edit/" + name, StatusFound)
  {
    match Load(files, name)
    case Failure(_) => Redirect("/edit/" + name, StatusFound)
    case Success(dog) => Render("dog", dog)
  }

  /** The body of the "/edit/" handler: the stored dog, or a new one with nothing said about it. */
  function EditResponse(files: Files, name: string): (r: Response)
    ensures r.Render? && r.tmpl == "edit" && r.dog.name == name
    ensures r.dog.about == if FileName(name) in files then files[FileName(name)] else []
  {
    match Load(files, name)
    case Failure(_) => Render("edit", Dog(name, []))
    case Success(dog) => Render("edit", dog)
  }

  /** The body of the "/save/" handler: the response and the file system afterwards. */
  function SaveOutcome(files: Files, name: string, about: seq<byte>, fault: Option<string>): (r: (Response, Files))
    ensures r.0.Redirect? <==> fault.None?
    ensures fault.None? ==> r == (Redirect("/dog/" + name, StatusFound), Written(files, Dog(name, about)))
    ensures fault.Some? ==> r == (ServerError(fault.value, StatusInternalServerError), files)
  {
    if fault.Some? then
      (ServerError(WriteFailed(fault.value).Message(), StatusInternalServerError), files)
    else
      (Redirect("/dog/" + name, StatusFound), Written(files, Dog(name, about)))
  }

  /** fn(w, r, name) for each of the three handlers. */
  function Invoke(files: Files, fn: Op, name: string, about: seq<byte>, fault: Option<string>): (r: (Response, Files))
    ensures !r.0.NotFound?
    ensures fn != SaveOp ==> r.1 == files
  {
    match fn
    case DogOp => (ViewResponse(files, name), files)
    case EditOp => (EditResponse(files, name), files)
    case SaveOp => SaveOutcome(files, name, about, fault)
  }

  /**
   * The handler makeHandler(fn) builds, applied to a request: a path the
   * pattern rejects is answered NotFound and fn never runs; otherwise fn runs
   * on the second group. The first group is not consulted.
   */
  function Handle(files: Files, fn: Op, req: Request, fault: Option<string>): (r: (Response, Files))
    ensures r.0.NotFound? <==> Match(req.path).None?
    ensures Match(req.path).None? ==> r.1 == files
    ensures Match(req.path).Some? ==> r == Invoke(files, fn, Match(req.path).value.name, req.about, fault)
  {
    match Match(req.path)
    case None => (NotFound, files)
    case Some(m) => Invoke(files, fn, m.name, req.about, fault)
  }

  /**
   * The three registrations of main: a path goes to makeHandler of a handler
   * exactly when it starts with that handler's prefix.
   */
  function Registered(path: string): (r: Option<Op>)
    ensures forall op :: r == Some(op) <==> HasPrefix(op, path)
    ensures r.None? <==> forall op :: !HasPrefix(op, path)
  {
    PrefixesExclusive(path);
    if HasPrefix(DogOp, path) then Some(DogOp)
    else if HasPrefix(EditOp, path) then Some(EditOp)
    else if HasPrefix(SaveOp, path) then Some(SaveOp)
    else None
  }

  /**
   * A whole request: the registered wrapper for its prefix, or NotFound when
   * none is registered. The prefix table and the pattern agree: a path the
   * pattern accepts is registered to the handler of its first group, so the
   * service runs that handler on its second group; a path the pattern
   * rejects is NotFound, with nothing changed.
   */
  function ServeMux(files: Files, req: Request, fault: Option<string>): (r: (Response, Files))
    ensures Match(req.path).None? ==> r == (NotFound, files)
    ensures Match(req.path).Some? ==>
      r == Invoke(files, Match(req.path).value.op, Match(req.path).value.name, req.about, fault)
  {
    var m := Match(req.path);
    assert m.Some? ==> req.path[..|Prefix(m.value.op)|] == Prefix(m.value.op);
    match Registered(req.path)
    case None => (NotFound, files)
    case Some(fn) => Handle(files, fn, req, fault)
  }

  /** getName's result: the response written, the name, and the error returned. */
  datatype NameResult = NameResult(written: Option<Response>, name: string, err: Option<string>)

  /** getName: the validated name, or NotFound written and an error returned. */
  function GetName(path: string): (r: NameResult)
    ensures r.err.None? <==> Match(path).Some?
    ensures r.err.None? ==> r.written.None? && ValidName(r.name) && path == Path(Match(path).value.op, r.name)
    ensures r.err.Some? ==> r == NameResult(Some(NotFound), "", Some("Invalid dog name"))
  {
    match Match(path)
    case None => NameResult(Some(NotFound), "", Some("Invalid dog name"))
    case Some(m) => NameResult(None, m.name, None)
  }

  /** getName and makeHandler validate alike: same name on a match, NotFound on no match. */
  lemma GetNameAgreesWithHandle(files: Files, fn: Op, req: Request, fault: Option<string>)
    ensures var g := GetName(req.path);
      && (g.err.None? ==> Handle(files, fn, req, fault) == Invoke(files, fn, g.name, req.about, fault))
      && (g.err.Some? ==> Handle(files, fn, req, fault) == (g.written.value, files))
  {
  }

  /**
   * The only file a request can change is the file of the name it carried,
   * and that file name stays in the working directory.
   */
  lemma HandleWritesOnlySafeFile(files: Files, fn: Op, req: Request, fault: Option<string>)
    ensures var after := Handle(files, fn, req, fault).1;
      after == files ||
      (Match(req.path).Some? &&
       var f := FileName(Match(req.path).value.name);
       SafeFileName(f) && after - {f} == files - {f})
  {
    if Match(req.path).Some? {
      AcceptedNameHasNoSeparator(req.path);
      FileNameSafe(Match(req.path).value.name);
    }
  }

  /** Every redirect points at a path the pattern accepts, for the same name: save to dog, dog to edit. */
  lemma RedirectsStayOnRoutes(files: Files, fn: Op, req: Request, fault: Option<string>)
    ensures var r := Handle(files, fn, req, fault).0;
      r.Redirect? ==>
        Match(r.url) == Some(Route(if fn == SaveOp then DogOp else EditOp, Match(req.path).value.name))
  {
    var r := Handle(files, fn, req, fault).0;
    if r.Redirect? {
      var name := Match(req.path).value.name;
      var target := if fn == SaveOp then DogOp else EditOp;
      assert r.url == Path(target, name);
      MatchComplete(target, name);
    }
  }

  /** A save that succeeds redirects to the dog's page, which then shows exactly what was saved. */
  lemma SaveThenView(files: Files, name: string, about: seq<byte>, next: Request, fault: Option<string>)
    requires ValidName(name)
    ensures var (r, after) := Handle(files, SaveOp, Request(Path(SaveOp, name), about), None);
      && r == Redirect(Path(DogOp, name), StatusFound)
      && Handle(after, DogOp, Request(r.url, next.about), fault) == (Render("dog", Dog(name, about)), after)
  {
    MatchComplete(SaveOp, name);
    MatchComplete(DogOp, name);
    LoadAfterWritten(files, Dog(name, about), name);
  }

  /** The edit form after a successful save is pre-filled with the saved bytes. */
  lemma SaveThenEdit(files: Files, name: string, about: seq<byte>, next: Request, fault: Option<string>)
    requires ValidName(name)
    ensures var after := Handle(files, SaveOp, Request(Path(SaveOp, name), about), None).1;
      Handle(after, EditOp, Request(Path(EditOp, name), next.about), fault) == (Render("edit", Dog(name, about)), after)
  {
    MatchComplete(SaveOp, name);
    MatchComplete(EditOp, name);
    LoadAfterWritten(files, Dog(name, about), name);
  }

  /** A dog never saved: its page redirects to the edit form, and the form is empty. */
  lemma MissingDogLeadsToEmptyForm(files: Files, name: string, about: seq<byte>, fault: Option<string>)
    requires ValidName(name) && FileName(name) !in files
    ensures var r := Handle(files, DogOp, Request(Path(DogOp, name), about), fault);
      && r == (Redirect(Path(EditOp, name), StatusFound), files)
      && Handle(files, EditOp, Request(r.0.url, about), fault) == (Render("edit", Dog(name, [])), files)
  {
    assert "/edit/" + name == Path(EditOp, name);
    MatchComplete(DogOp, name);
    MatchComplete(EditOp, name);
  }

  /** A failed write is a server error carrying the failure's text: no redirect, and nothing changes. */
  lemma SaveFailureChangesNothing(files: Files, name: string, about: seq<byte>, detail: string)
    requires ValidName(name)
    ensures Handle(files, SaveOp, Request(Path(SaveOp, name), about), Some(detail)) ==
      (ServerError(detail, StatusInternalServerError), files)
  {
    MatchComplete(SaveOp, name);
  }

  /** The last of two saves of one name wins, and saving other names leaves its dog alone. */
  lemma LastSaveWins(files: Files, name: string, first: seq<byte>, second: seq<byte>, other: string)
    requires ValidName(name) && other != name
    ensures var f1 := Handle(files, SaveOp, Request(Path(SaveOp, name), first), None).1;
      var f2 := Handle(f1, SaveOp, Request(Path(SaveOp, name), second), None).1;
      && Load(f2, name) == Success(Dog(name, second))
      && Load(f2, other) == Load(files, other)
  {
    MatchComplete(SaveOp, name);
    var f1 := Written(files, Dog(name, first));
    WrittenTwice(files, Dog(name, first), Dog(name, second));
    LoadAfterWritten(files, Dog(name, second), other);
  }

  /** The bytes of "Good boy". */
  const GoodBoy: seq<byte> := [71, 111, 111, 100, 32, 98, 111, 121]

  /** POST /save/rex with about=Good boy, then GET /dog/rex: the page shows rex and Good boy. */
  lemma RexScenario(files: Files)
    ensures var (r, after) := ServeMux(files, Request("/save/rex", GoodBoy), None);
      && r == Redirect("/dog/rex", StatusFound)
      && "rex.dog" in after && after["rex.dog"] == GoodBoy
      && ServeMux(after, Request("/dog/rex", []), None) == (Render("dog", Dog("rex", GoodBoy)), after)
  {
    assert ValidName("rex") && FileName("rex") == "rex.dog";
    assert Path(SaveOp, "rex") == "/save/rex" && Path(DogOp, "rex") == "/dog/rex";
    MatchComplete(SaveOp, "rex");
    var after := Written(files, Dog("rex", GoodBoy));
    MatchComplete(DogOp, "rex");
    LoadAfterWritten(files, Dog("rex", GoodBoy), "rex");
  }

  /** GET /edit/ghost with no ghost saved: the form shows the name ghost and an empty body. */
  lemma GhostScenario(files: Files)
    requires "ghost.dog" !in files
    ensures ServeMux(files, Request("/edit/ghost", []), None) == (Render("edit", Dog("ghost", [])), files)
  {
    assert ValidName("ghost") && FileName("ghost") == "ghost.dog";
    assert Path(EditOp, "ghost") == "/edit/ghost";
    MatchComplete(EditOp, "ghost");
  }

  /**
   * makeHandler's guard on /dog/../../etc/passwd: NotFound, and no file is
   * read or written. (The standard multiplexer cleans such a path and
   * redirects before any wrapper sees it; this is the guard behind it.)
   */
  lemma TraversalScenario(files: Files, fn: Op, about: seq<byte>, fault: Option<string>)
    ensures Handle(files, fn, Request("/dog/../../etc/passwd", about), fault) == (NotFound, files)
  {
    TraversalRejected();
  }

  /** dogHandler: load the dog; redirect to its edit form if that fails, else render it. */
  method DogHandler(fs: FileSystem, name: string) returns (resp: Response)
    ensures resp == ViewResponse(fs.files, name)
  {
    var dog := fs.LoadDog(name);
    if dog.Failure? {
      return Redirect("/edit/" + name, StatusFound);
    }
    resp := Render("dog", dog.value);
  }

  /** editHandler: load the dog, or start a new one with that name, and render the form. */
  method EditHandler(fs: FileSystem, name: string) returns (resp: Response)
    ensures resp == EditResponse(fs.files, name)
  {
    var loaded := fs.LoadDog(name);
    var dog := if loaded.Failure? then Dog(name, []) else loaded.value;
    resp := Render("edit", dog);
  }

  /** saveHandler: save the form's bytes under the name; redirect to the dog only if that worked. */
  method SaveHandler(fs: FileSystem, name: string, about: seq<byte>, fault: Option<string>) returns (resp: Response)
    modifies fs
    ensures (resp, fs.files) == SaveOutcome(old(fs.files), name, about, fault)
  {
    var dog := Dog(name, about);
    var err := fs.SaveDog(dog, fault);
    if err.Some? {
      return ServerError(err.value.Message(), StatusInternalServerError);
    }
    resp := Redirect("/dog/" + name, StatusFound);
  }

  /** The function makeHandler(fn) returns, run on one request. */
  method Serve(fs: FileSystem, fn: Op, req: Request, fault: Option<string>) returns (resp: Response)
    modifies fs
    ensures (resp, fs.files) == Handle(old(fs.files), fn, req, fault)
  {
    var m := Match(req.path);
    if m.None? {
      return NotFound;
    }
    match fn
    case DogOp => resp := DogHandler(fs, m.value.name);
    case EditOp => resp := EditHandler(fs, m.value.name);
    case SaveOp => resp := SaveHandler(fs, m.value.name, req.about, fault);
  }
}
