/** The JSON document files: written to a temporary file, kept as a backup, moved into place.

    `Document` holds the file and its `.bak`; each write records every state it leaves, so a
    crash may stop after any of them. */
module JsonStore {
  import opened Wrappers

  /** A file that is missing, not parseable, or holds a document. */
  datatype File<T> = Absent | Broken | Holds(document: T)

  datatype Files<T> = Files(primary: File<T>, bak: File<T>)

  /** `load_json_document`: the file, else its backup, else the default. */
  function Load<T>(files: Files<T>, default: T): Result<T, ()> {
    match files.primary
    case Absent => Ok(default)
    case Holds(document) => Ok(document)
    case Broken =>
      match files.bak
      case Holds(document) => Ok(document)
      case _ => Err(())
  }

  /** The states that writing a document passes through after its temporary file has been written: a torn
      copy of the old file, its backup, and the new file in place. */
  function Stops<T>(files: Files<T>, document: T): seq<Files<T>> {
    if files.primary == Absent then [files.(primary := Holds(document))]
    else [Files(files.primary, Broken), Files(files.primary, files.primary), Files(Holds(document), files.primary)]
  }

  /** Loading gives the new document, or what it gave before. */
  ghost predicate OldOrNew<T(!new)>(stop: Files<T>, files: Files<T>, document: T) {
    forall default :: Load(stop, default) == Ok(document) || Load(stop, default) == Load(files, default)
  }

  /** Wherever a write is stopped, loading gives the old document or the new one, exactly when the write does
      not begin with a damaged file beside a good backup: it copies the damage over the backup. */
  lemma StopsLoadIff<T(!new)>(files: Files<T>, document: T)
    ensures (forall stop <- Stops(files, document) :: OldOrNew(stop, files, document)) <==>
            files.primary != Broken || !files.bak.Holds?
  {
    if files.primary == Broken && files.bak.Holds? {
      assert Stops(files, document)[0] == Files(Broken, Broken);
      assert Load(Files<T>.Files(Broken, Broken), document) == Err(()) && Load(files, document) == Ok(files.bak.document);
      assert !OldOrNew(Stops(files, document)[0], files, document);
    } else if files.primary == Absent {
      assert forall stop <- Stops(files, document) :: stop.primary == Holds(document);
    } else {
      assert forall stop <- Stops(files, document) :: stop.primary == Holds(document) || stop.primary == files.primary;
    }
  }

  /** So a good backup can be lost: a write that stops before its last step leaves nothing to load. */
  lemma WriteCanLoseBackup<T>(d: T, document: T, default: T)
    ensures var files := Files(Broken, Holds(d));
            && Load(files, default) == Ok(d)
            && Stops(files, document)[1] == Files(Broken, Broken) && Load(Stops(files, document)[1], default).Err?
  {
  }

  class Document<T(==)> {
    var primary: File<T>
    var bak: File<T>
    ghost var trail: seq<Files<T>>

    ghost function Now(): Files<T>
      reads this
    {
      Files(primary, bak)
    }

    constructor (files: Files<T>)
      ensures Now() == files && trail == [files]
    {
      primary, bak, trail := files.primary, files.bak, [files];
    }

    /** A write passes through the stops in order and returns normally after the last.  It has then put the
        new document in place and kept the old file as the backup, so damage to the new file costs only
        this write. */
    method Write(document: T) returns (ok: bool)
      modifies this
      ensures old(trail) <= trail && trail[|old(trail)|..] <= Stops(old(Now()), document)
      ensures ok <==> trail[|old(trail)|..] == Stops(old(Now()), document)
      ensures Now() == if trail == old(trail) then old(Now()) else trail[|trail| - 1]
      ensures ok ==> primary == Holds(document) && bak == if old(primary) == Absent then old(bak) else old(primary)
      ensures !ok ==> primary == old(primary)
      ensures ok && old(primary).Holds? ==>
                forall default :: Load(Now().(primary := Broken), default) == Ok(old(primary).document)
    {
      ghost var stops := Stops(Now(), document);
      var temporaryWritten: bool := *;
      if !temporaryWritten {
        return false;
      }
      if primary != Absent {
        bak := Broken;
        trail := trail + [Now()];
        var copied: bool := *;
        if !copied {
          return false;
        }
        bak := primary;
        trail := trail + [Now()];
      }
      var moved: bool := *;
      if !moved {
        return false;
      }
      primary := Holds(document);
      trail := trail + [Now()];
      assert trail[|old(trail)|..] == stops;
      return true;
    }
  }
}
