/**
 * The record store: each dog lives in the file named after it with the
 * suffix ".dog", holding its "about" bytes and nothing else. The file system
 * is a map from file name to contents, held by a FileSystem object that
 * saving updates in place.
 */
module Store {
  import opened Wrappers

  newtype byte = b: int | 0 <= b < 256

  /** A dog: its name and the free-form bytes that describe it. */
  datatype Dog = Dog(name: string, about: seq<byte>)

  /** Why a file operation failed. */
  datatype IOError =
    | NotExist(path: string)      // reading a file that is not there
    | WriteFailed(detail: string) // the file system refused a write
  {
    /** The text err.Error() gives, as a server error shows it. */
    function Message(): string
    {
      match this
      case NotExist(path) => "open " + path + ": no such file or directory"
      case WriteFailed(detail) => detail
    }
  }

  type Files = map<string, seq<byte>>

  const Suffix: string := ".dog"

  /** The one place where a name becomes a file name. */
  function FileName(name: string): (f: string)
    ensures |f| == |name| + |Suffix|
    ensures f[..|name|] == name && f[|name|..] == Suffix
  {
    name + Suffix
  }

  /** Different names address different files. */
  lemma FileNameInjective(a: string, b: string)
    ensures FileName(a) == FileName(b) ==> a == b
  {
    if FileName(a) == FileName(b) {
      assert |a| == |b|;
      assert a == FileName(a)[..|a|];
      assert b == FileName(b)[..|b|];
    }
  }

  /**
   * A file name that stays in the working directory: non-empty, no separator,
   * not starting with a dot, and its only dot is the one of the suffix.
   */
  predicate SafeFileName(f: string)
  {
    && |f| > |Suffix|
    && f[|f| - |Suffix|..] == Suffix
    && '/' !in f
    && forall i :: 0 <= i < |f| && f[i] == '.' ==> i == |f| - |Suffix|
  }

  /** A name with no separator and no dot gives a safe file name. */
  lemma FileNameSafe(name: string)
    requires name != "" && '/' !in name && '.' !in name
    ensures SafeFileName(FileName(name))
  {
    var f := FileName(name);
    forall i | 0 <= i < |f|
      ensures f[i] != '/' && (f[i] == '.' ==> i == |name|)
    {
      if i < |name| {
        assert f[i] == name[i] && name[i] in name;
      } else {
        assert f[i] == Suffix[i - |name|];
      }
    }
    assert f[|f| - |Suffix|..] == Suffix;
  }

  /** loadDog as a function of the file system: the dog named `name`, or the read error. */
  function Load(files: Files, name: string): (r: Result<Dog, IOError>)
    ensures r.Success? <==> FileName(name) in files
    ensures r.Success? ==> r.value.name == name && r.value.about == files[FileName(name)]
    ensures r.Failure? ==> r.error == NotExist(FileName(name))
  {
    var filename := FileName(name);
    if filename in files then Success(Dog(name, files[filename])) else Failure(NotExist(filename))
  }

  /** The file system after a successful save of `dog`. */
  function Written(files: Files, dog: Dog): (r: Files)
    ensures FileName(dog.name) in r && r[FileName(dog.name)] == dog.about
    ensures r.Keys == files.Keys + {FileName(dog.name)}
    ensures r - {FileName(dog.name)} == files - {FileName(dog.name)}
  {
    files[FileName(dog.name) := dog.about]
  }

  /**
   * Save then load: loading the saved name gives back the saved dog, and
   * loading any other name gives what it gave before.
   */
  lemma LoadAfterWritten(files: Files, dog: Dog, name: string)
    ensures Load(Written(files, dog), name) ==
      if name == dog.name then Success(dog) else Load(files, name)
  {
    FileNameInjective(name, dog.name);
  }

  /** The last save wins: a second save of the same name replaces the first entirely. */
  lemma WrittenTwice(files: Files, first: Dog, second: Dog)
    requires first.name == second.name
    ensures Written(Written(files, first), second) == Written(files, second)
    ensures Load(Written(Written(files, first), second), second.name) == Success(second)
  {
    var f := FileName(second.name);
    var w2 := Written(Written(files, first), second);
    assert w2.Keys == Written(files, second).Keys;
    forall k | k in w2
      ensures w2[k] == Written(files, second)[k]
    {
      if k != f {
        assert k in w2 - {f};
      }
    }
  }

  /** Saving the same dog twice leaves what saving it once leaves. */
  lemma WrittenIdempotent(files: Files, dog: Dog)
    ensures Written(Written(files, dog), dog) == Written(files, dog)
  {
    WrittenTwice(files, dog, dog);
  }

  /** The working directory: the files that the service's saves and loads reach. */
  class FileSystem {
    var files: Files

    constructor (initial: Files)
      ensures files == initial
    {
      files := initial;
    }

    /**
     * Dog.save: write the dog's bytes to its file, creating or truncating it.
     * Whether the write fails is the environment's choice, given as `fault`.
     */
    method SaveDog(dog: Dog, fault: Option<string>) returns (err: Option<IOError>)
      modifies this
      ensures fault.None? ==> err.None? && files == Written(old(files), dog)
      ensures fault.Some? ==> err == Some(WriteFailed(fault.value)) && files == old(files)
    {
      var filename := FileName(dog.name);
      if fault.Some? {
        return Some(WriteFailed(fault.value));
      }
      files := files[filename := dog.about];
      err := None;
    }

    /** loadDog: read the dog's file; a missing file is an error and no dog. */
    method LoadDog(name: string) returns (r: Result<Dog, IOError>)
      ensures r == Load(files, name)
    {
      var filename := FileName(name);
      if filename !in files {
        return Failure(NotExist(filename));
      }
      r := Success(Dog(name, files[filename]));
    }
  }
}
