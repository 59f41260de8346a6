/**
 Atomic publication of whole files: written under a random staging name, then renamed into place. `Data` is the
 content of a whole file; what a partly written staging file holds is never visible under a published name.
 */
module Atomic {
  import opened Common

  datatype Outcome =
    | OK | InvalidInput | Unsupported | Denied | Conflict | Stale | Exhausted | IOError | Corrupt | Indeterminate

  class Volume<Name(==), Data(==)> {
    var files: map<Name, Data>
    /** Staging files by their random identity; None is a file whose writing was cut off. */
    var staging: map<nat, Option<Data>>

    constructor ()
      ensures files == map[] && staging == map[]
    {
      files, staging := map[], map[];
    }

    /** An identity no staging file has. */
    lemma FreshIdentity(ids: set<nat>) returns (id: nat)
      ensures forall k :: k in ids ==> k < id
    {
      id := 0;
      var left := ids;
      while left != {}
        invariant left <= ids && forall k :: k in ids && k !in left ==> k < id
        decreases left
      {
        var k :| k in left;
        left := left - {k};
        id := if k < id then id else k + 1;
      }
    }

    /** Publishes `data` under `path`. Whatever happens, the path shows its old content or all of the new one, no
        other path changes, and a definite success or conflict leaves no staging file behind. When `calm`, no file
        operation fails and the random identity is not in use. */
    method Write(path: Name, data: Data, mustBeNew: bool, calm: bool) returns (status: Outcome)
      modifies this
      ensures files == old(files) || (files == old(files)[path := data] && (mustBeNew ==> path !in old(files)))
      ensures status == OK ==> files == old(files)[path := data] && (mustBeNew ==> path !in old(files))
      ensures status != OK && status != Indeterminate ==> files == old(files)
      ensures status == OK || status == Conflict ==> staging == old(staging)
      ensures forall id :: id in old(staging) ==> id in staging && staging[id] == old(staging)[id]
      ensures mustBeNew && path in old(files) ==> status == Conflict || status == IOError
      ensures calm ==> status == if mustBeNew && path in old(files) then Conflict else OK
    {
      ghost var unused := FreshIdentity(staging.Keys);
      assert unused !in staging;
      var id: nat :| calm ==> id !in staging;
      if id in staging {
        return Conflict;
      }
      if {
        case !calm => return IOError;
        case true =>
      }
      staging := staging[id := None];
      if {
        case !calm => return IOError;
        case true =>
      }
      staging := staging[id := Some(data)];
      if {
        case !calm => return IOError;
        case true =>
      }
      if mustBeNew && path in files {
        // The rename definitely did not publish: remove this staging file, if that can be done.
        if {
          case !calm => return IOError;
          case !calm =>
            staging := staging - {id};
            return IOError;
          case true =>
        }
        staging := staging - {id};
        assert staging == old(staging);
        return Conflict;
      }
      if {
        case !calm => return IOError;
        case true =>
      }
      files, staging := files[path := staging[id].value], staging - {id};
      assert staging == old(staging);
      if {
        case !calm => return Indeterminate;
        case true =>
      }
      return OK;
    }

    /** Reads a published file; the status is not OK when it is missing or cannot be read. */
    method Read(path: Name, calm: bool) returns (data: Option<Data>, status: Outcome)
      ensures status == OK ==> path in files && data == Some(files[path])
      ensures status != OK ==> data.None?
      ensures calm ==> status == if path in files then OK else Stale
    {
      if path !in files {
        return None, Stale;
      }
      if {
        case !calm => return None, IOError;
        case true =>
      }
      return Some(files[path]), OK;
    }

    /** Keeps an immutable file: writes it, or accepts one that already has exactly this content. */
    method Keep(path: Name, data: Data, calm: bool) returns (status: Outcome)
      modifies this
      ensures files == old(files) || (files == old(files)[path := data] && path !in old(files))
      ensures status == OK ==> path in files && files[path] == data
      ensures calm ==> status == if path in old(files) && old(files)[path] != data then Conflict else OK
      ensures forall id :: id in old(staging) ==> id in staging && staging[id] == old(staging)[id]
    {
      status := Write(path, data, true, calm);
      if status == Conflict {
        var saved, read := Read(path, calm);
        status := read;
        if status == OK && saved != Some(data) {
          status := Conflict;
        }
      }
    }
  }
}
