/**
 * The path validator of the dog service: the pattern
 *   ^/(edit|save|dog)/([a-zA-Z0-9]+)$
 * written out as an explicit parser. A match yields the operation (the first
 * group) and the dog's name (the second group); anything else yields None.
 */
module Router {
  import opened Wrappers

  /** The three operations named by the first group of the pattern. */
  datatype Op = EditOp | SaveOp | DogOp

  /** What a successful match yields: the two submatches. */
  datatype Route = Route(op: Op, name: string)

  /** The character class [a-zA-Z0-9]. */
  predicate IsAlnum(c: char)
  {
    'a' <= c <= 'z' || 'A' <= c <= 'Z' || '0' <= c <= '9'
  }

  /** The second group, [a-zA-Z0-9]+ : one or more ASCII letters or digits. */
  predicate ValidName(s: string)
  {
    |s| > 0 && forall i :: 0 <= i < |s| ==> IsAlnum(s[i])
  }

  /** The literal text of each alternative of the first group. */
  function OpName(op: Op): string
  {
    match op
    case EditOp => "edit"
    case SaveOp => "save"
    case DogOp => "dog"
  }

  /** The prefix "/" op "/" that comes before the name. */
  function Prefix(op: Op): string
  {
    "/" + OpName(op) + "/"
  }

  /** The path that the pattern reads as (op, name). */
  function Path(op: Op, name: string): string
  {
    Prefix(op) + name
  }

  /** The path starts with the prefix of `op`. */
  predicate HasPrefix(op: Op, path: string)
  {
    |Prefix(op)| <= |path| && path[..|Prefix(op)|] == Prefix(op)
  }

  /** No path starts with the prefixes of two different operations: they differ in their second character. */
  lemma {:induction false} PrefixesExclusive(path: string)
    ensures forall op, other :: op != other && HasPrefix(op, path) ==> !HasPrefix(other, path)
  {
    forall op, other | op != other && HasPrefix(op, path)
      ensures !HasPrefix(other, path)
    {
      assert path[1] == Prefix(op)[1] == OpName(op)[0];
      assert Prefix(other)[1] == OpName(other)[0] != OpName(op)[0];
    }
  }

  /** One alternative of the pattern: the path is the prefix of `op` followed by a valid name, up to the end. */
  function MatchOp(op: Op, path: string): (r: Option<Route>)
    ensures r.Some? ==> r.value.op == op && ValidName(r.value.name) && path == Path(op, r.value.name)
    ensures r.None? ==> forall name :: path == Path(op, name) ==> !ValidName(name)
  {
    var prefix := Prefix(op);
    if HasPrefix(op, path) && ValidName(path[|prefix|..]) then
      assert path == prefix + path[|prefix|..];
      Some(Route(op, path[|prefix|..]))
    else
      assert forall name :: path == prefix + name ==> path[..|prefix|] == prefix && path[|prefix|..] == name;
      None
  }

  /**
   * validPath.FindStringSubmatch: the alternatives are tried in the order
   * edit, save, dog; the first that matches gives the submatches.
   */
  function Match(path: string): (r: Option<Route>)
    ensures r.Some? ==> ValidName(r.value.name) && path == Path(r.value.op, r.value.name)
  {
    var e := MatchOp(EditOp, path);
    if e.Some? then e
    else
      var s := MatchOp(SaveOp, path);
      if s.Some? then s else MatchOp(DogOp, path)
  }

  /** The prefixes of two different operations differ in their second character. */
  lemma PrefixesDiffer(op: Op, other: Op, name: string)
    requires op != other
    ensures MatchOp(other, Path(op, name)).None?
  {
    var p := Path(op, name);
    assert p[1] == OpName(op)[0] && Prefix(other)[1] == OpName(other)[0];
    assert OpName(op)[0] != OpName(other)[0];
  }

  /** Completeness: every "/" op "/" name with a valid name is accepted, with exactly those groups. */
  lemma MatchComplete(op: Op, name: string)
    requires ValidName(name)
    ensures Match(Path(op, name)) == Some(Route(op, name))
  {
    var p := Path(op, name);
    assert p[..|Prefix(op)|] == Prefix(op) && p[|Prefix(op)|..] == name;
    assert MatchOp(op, p) == Some(Route(op, name));
    forall other | other != op
      ensures MatchOp(other, p).None?
    {
      PrefixesDiffer(op, other, name);
    }
  }

  /** A path is accepted as (op, name) exactly when it is "/" op "/" name with name in [a-zA-Z0-9]+. */
  lemma MatchIff(path: string, op: Op, name: string)
    ensures Match(path) == Some(Route(op, name)) <==> ValidName(name) && path == Path(op, name)
  {
    if ValidName(name) && path == Path(op, name) {
      MatchComplete(op, name);
    }
  }

  /** A path is rejected exactly when it is no "/" op "/" name with a valid name. */
  lemma MatchRejectsIff(path: string)
    ensures Match(path).None? <==> forall op, name :: path == Path(op, name) ==> !ValidName(name)
  {
    forall op, name | path == Path(op, name) && ValidName(name)
      ensures Match(path).Some?
    {
      MatchComplete(op, name);
    }
  }

  /** Whatever name is accepted is non-empty and holds neither a separator nor a dot. */
  lemma AcceptedNameHasNoSeparator(path: string)
    requires Match(path).Some?
    ensures var name := Match(path).value.name;
      name != "" && '/' !in name && '.' !in name
  {
    assert !IsAlnum('/') && !IsAlnum('.');
  }

  /** A path-traversal attempt is not a match. */
  lemma TraversalRejected()
    ensures Match("/dog/../../etc/passwd").None?
  {
    var p := "/dog/../../etc/passwd";
    assert p[1] == 'd';
    assert p[5] == '.' && !IsAlnum(p[5]);
    assert p[5..][0] == '.';
  }

  /** An empty name, a trailing separator, and an operation outside the three are not matches. */
  lemma MalformedRejected()
    ensures Match("/dog/").None?
    ensures Match("/edit/rex/").None?
    ensures Match("/view/rex").None?
  {
    var trailing := "/edit/rex/";
    assert trailing[6..][3] == '/' && !IsAlnum('/');
    var view := "/view/rex";
    assert view[1] == 'v';
  }
}
