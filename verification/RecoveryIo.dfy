/**
 A private output or source directory: the tree of entries below it, created component by component and
 written with short writes. Every write may be cut off; `Interrupted` stands for any error or crash there.
 */
module RecoveryIo {
  import opened Common
  import opened Paths

  const LIMIT := 8 * 1024 * 1024

  /** A place in the tree: the components of a relative path. */
  type Place = seq<string>

  datatype Failure =
    | BadPath | Exists | NotFound | NotDirectory | TooLarge | Interrupted
    | NotAuthentic | BadReplicaCount | NotEmpty | NoCapacity | EvidenceFull | EvidenceCollision
    | NotClosed | Changed | Mismatch | BadManifest

  datatype Result<+T> = Ok(value: T) | Raised(why: Failure)

  /** The directories that lead to a place. */
  function Above(p: Place): set<Place> {
    set n | 1 <= n < |p| :: p[..n]
  }

  class Directory {
    /** A sound directory never fails for reasons of its own and is never cut off. */
    const sound: bool
    var dirs: set<Place>
    var files: map<Place, Bytes>

    /** Every entry lies in a directory, and no entry is both a file and a directory. */
    ghost predicate Valid()
      reads this
    {
      && dirs !! files.Keys && [] !in dirs && [] !in files
      && (forall p :: p in dirs ==> Above(p) <= dirs)
      && (forall p :: p in files ==> Above(p) <= dirs)
    }

    predicate IsEmpty()
      reads this
    {
      dirs == {} && files == map[]
    }

    constructor (sound: bool)
      ensures Valid() && IsEmpty() && this.sound == sound
    {
      this.sound := sound;
      dirs, files := {}, map[];
    }

    /** Opens the directory that holds `path`, making missing directories when `create` is set. */
    method Parent(path: string, create: bool) returns (r: Result<Place>)
      requires Valid()
      modifies this`dirs
      ensures Valid()
      ensures r == Raised(BadPath) <==> !Relative(path)
      ensures var p := Split(path); old(dirs) <= dirs <= old(dirs) + Above(p) && (!create ==> dirs == old(dirs))
      ensures r.Ok? ==> r.value == Split(path) && Above(r.value) <= dirs
      ensures r.Raised? ==> r.why in {BadPath, NotDirectory, NotFound, Interrupted} && (r.why == Interrupted ==> !sound)
      ensures r == Raised(NotDirectory) ==> exists q :: q in Above(Split(path)) && q in files
      ensures r == Raised(NotFound) ==> !create && exists q :: q in Above(Split(path)) && q !in dirs
    {
      var relative := CheckRelative(path);
      if !relative {
        return Raised(BadPath);
      }
      var p := Split(path);
      for k := 1 to |p|
        invariant Valid()
        invariant old(dirs) <= dirs <= old(dirs) + Above(p) && (!create ==> dirs == old(dirs))
        invariant forall n :: 1 <= n < k ==> p[..n] in dirs
      {
        var here := p[..k];
        assert here in Above(p);
        if create && here !in dirs && here !in files {
          if {
            case !sound => return Raised(Interrupted);
            case true =>
          }
          assert forall n :: 1 <= n < k ==> here[..n] == p[..n];
          dirs := dirs + {here};
        }
        if {
          case !sound => return Raised(Interrupted);
          case true =>
        }
        if here in files {
          return Raised(NotDirectory);
        }
        if here !in dirs {
          return Raised(NotFound);
        }
      }
      return Ok(p);
    }

    /** Creates an empty file that did not exist. */
    method Create(path: string) returns (r: Result<Place>)
      requires Valid()
      modifies this
      ensures Valid()
      ensures r == Raised(BadPath) <==> !Relative(path)
      ensures var p := Split(path); old(dirs) <= dirs <= old(dirs) + Above(p)
      ensures r.Ok? ==> r.value == Split(path) && r.value !in old(files) && files == old(files)[r.value := []]
      ensures r.Raised? ==> r.why in {BadPath, NotDirectory, Exists, Interrupted} && (r.why == Interrupted ==> !sound)
      ensures r == Raised(NotDirectory) ==> exists q :: q in Above(Split(path)) && q in old(files)
      ensures r == Raised(Exists) ==> Split(path) in old(files) || Split(path) in dirs
      ensures r.Raised? && r.why != Interrupted ==> files == old(files)
      ensures files == old(files) || (Split(path) !in old(files) && files == old(files)[Split(path) := []])
    {
      var at := Parent(path, true);
      if at.Raised? {
        return Raised(at.why);
      }
      var p := at.value;
      if p in files || p in dirs {
        return Raised(Exists);
      }
      if {
        case !sound => return Raised(Interrupted);
        case true =>
      }
      SplitNotEmpty(path);
      files := files[p := []];
      if {
        case !sound => return Raised(Interrupted);
        case true =>
      }
      return Ok(p);
    }

    lemma SplitNotEmpty(path: string)
      ensures Split(path) != []
    {
    }

    /** Appends all of `b`, in as many short writes as it takes; a write of nothing is an error. */
    method WriteAll(p: Place, b: Bytes) returns (r: Result<()>)
      requires Valid() && p in files
      modifies this`files
      ensures Valid()
      ensures r.Raised? ==> r.why == Interrupted && !sound
      ensures p in files && files == old(files)[p := files[p]]
      ensures r.Ok? ==> files[p] == old(files[p]) + b
      ensures exists n: nat :: n <= |b| && files[p] == old(files[p]) + b[..n]
    {
      var v := b;
      assert files[p] == old(files[p]) + b[..0];
      while v != []
        invariant Valid() && p in files && files == old(files)[p := files[p]]
        invariant |v| <= |b| && v == b[|b| - |v|..] && files[p] == old(files[p]) + b[..|b| - |v|]
        decreases |v|
      {
        var n: nat :| n <= |v| && (sound ==> n > 0);
        if n == 0 {
          return Raised(Interrupted);
        }
        var done := |b| - |v| + n;
        assert b[..done] == b[..done - n] + v[..n];
        files := files[p := files[p] + v[..n]];
        v := v[n..];
      }
      assert b[..|b|] == b;
      if {
        case !sound => return Raised(Interrupted);
        case true =>
      }
      return Ok(());
    }

    /** Creates a file with exactly these bytes. */
    method WriteNew(path: string, b: Bytes) returns (r: Result<()>)
      requires Valid()
      modifies this
      ensures Valid()
      ensures r == Raised(BadPath) <==> !Relative(path)
      ensures var p := Split(path); old(dirs) <= dirs <= old(dirs) + Above(p)
      ensures r.Ok? ==> Split(path) !in old(files) && files == old(files)[Split(path) := b]
      ensures r.Raised? ==> r.why in {BadPath, NotDirectory, Exists, Interrupted} && (r.why == Interrupted ==> !sound)
      ensures r == Raised(NotDirectory) ==> exists q :: q in Above(Split(path)) && q in old(files)
      ensures r == Raised(Exists) ==> Split(path) in old(files) || Split(path) in dirs
      ensures r.Raised? && r.why != Interrupted ==> files == old(files)
      ensures files != old(files) ==>
        Split(path) !in old(files) && exists n: nat :: n <= |b| && files == old(files)[Split(path) := b[..n]]
    {
      var at := Create(path);
      if at.Raised? {
        assert b[..0] == [];
        return Raised(at.why);
      }
      label created: var w := WriteAll(at.value, b);
      var p := at.value;
      assert [] + b == b && old(files)[p := []][p := files[p]] == old(files)[p := files[p]];
      if w.Raised? {
        ghost var n: nat :| n <= |b| && files[p] == old@created(files[p]) + b[..n];
        assert [] + b[..n] == b[..n];
        assert files == old(files)[Split(path) := b[..n]];
        return Raised(Interrupted);
      }
      assert b[..|b|] == b && files == old(files)[Split(path) := b[..|b|]];
      return Ok(());
    }

    /** Reads a file of at most `limit` bytes. */
    method Read(path: string, limit: nat) returns (r: Result<Bytes>)
      requires Valid()
      ensures r.Ok? ==> Relative(path) && Split(path) in files && r.value == files[Split(path)] && |r.value| <= limit
      ensures r.Raised? ==> r.why in {BadPath, NotFound, TooLarge, Interrupted} && (r.why == Interrupted ==> !sound)
      ensures r == Raised(BadPath) ==> !Relative(path)
      ensures r == Raised(NotFound) ==> Split(path) !in files
      ensures r == Raised(TooLarge) ==> Split(path) in files && |files[Split(path)]| > limit
    {
      var relative := CheckRelative(path);
      if !relative {
        return Raised(BadPath);
      }
      var p := Split(path);
      if {
        case !sound => return Raised(Interrupted);
        case true =>
      }
      if p !in files {
        return Raised(NotFound);
      }
      if |files[p]| > limit {
        return Raised(TooLarge);
      }
      return Ok(files[p]);
    }
  }
}
