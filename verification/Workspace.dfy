/** Versioned file changes of the agent's local workspace: writing, applying a previewed change, and
    taking one back. */
module Workspace {
  import opened Wrappers

  newtype Byte = b: int | 0 <= b < 256

  type Path = string
  type Content = seq<Byte>

  /** The text files of the workspace, by canonical path. */
  type Files = map<Path, Content>

  const CR: Byte := 13
  const LF: Byte := 10
  const NUL: Byte := 0

  const MAX_FILE_BYTES := 2 * 1024 * 1024
  const BINARY_PROBE_BYTES := 8192

  datatype Error = TooLarge | Binary | Conflict | Io | NothingToUndo

  datatype Action = Create | Write | Patch | Delete | Rename(destination: Path)

  datatype Change = Change(path: Path, action: Action, before: Option<Content>, after: Option<Content>)

  // ----- line endings -----

  predicate HasCrlf(c: Content) {
    exists i :: 0 <= i < |c| - 1 && c[i] == CR && c[i + 1] == LF
  }

  /** Every LF becomes CR LF. */
  function ToCrlf(c: Content): Content {
    if c == [] then [] else (if c[0] == LF then [CR, LF] else [c[0]]) + ToCrlf(c[1..])
  }

  /** What is written for `after`: the line endings of a file that had CR LF are kept. */
  function Stored(before: Option<Content>, after: Content): Content {
    if before.Some? && HasCrlf(before.value) && !HasCrlf(after) then ToCrlf(after) else after
  }

  /** The line endings of the two versions agree, as far as writing `after` over `before` is concerned. */
  predicate SameStyle(before: Option<Content>, after: Content) {
    before.Some? && HasCrlf(before.value) && LF in after ==> HasCrlf(after)
  }

  lemma {:induction false} ToCrlfGrows(c: Content)
    ensures |ToCrlf(c)| >= |c|
    ensures if LF in c then |ToCrlf(c)| > |c| && HasCrlf(ToCrlf(c)) else ToCrlf(c) == c
  {
    if c != [] {
      ToCrlfGrows(c[1..]);
      assert c == [c[0]] + c[1..];
      var head := if c[0] == LF then [CR, LF] else [c[0]];
      if c[0] == LF {
        assert ToCrlf(c)[0] == CR && ToCrlf(c)[1] == LF;
      } else if LF in c {
        var i :| 0 <= i < |ToCrlf(c[1..])| - 1 && ToCrlf(c[1..])[i] == CR && ToCrlf(c[1..])[i + 1] == LF;
        assert ToCrlf(c)[1 + i] == CR && ToCrlf(c)[1 + i + 1] == LF;
      }
    }
  }

  /** The text is stored as given exactly when the line endings agree. */
  lemma StoredIff(before: Option<Content>, after: Content)
    ensures Stored(before, after) == after <==> SameStyle(before, after)
  {
    ToCrlfGrows(after);
  }

  /** Every CR LF becomes LF. */
  function FromCrlf(c: Content): Content {
    if c == [] then []
    else if |c| > 1 && c[0] == CR && c[1] == LF then [LF] + FromCrlf(c[2..])
    else [c[0]] + FromCrlf(c[1..])
  }

  /** Every line end is a CR LF. */
  predicate OnlyCrlf(c: Content) {
    forall i :: 0 <= i < |c| && c[i] == LF ==> i > 0 && c[i - 1] == CR
  }

  predicate OccursAt(c: Content, part: Content, i: nat) {
    i + |part| <= |c| && c[i..i + |part|] == part
  }

  predicate Contains(c: Content, part: Content) {
    exists i: nat :: i <= |c| && OccursAt(c, part, i)
  }

  /** A text is stored over another with the line ends of that one: if it had CR LF and the new one has none,
      every line end of what is stored is a CR LF, and with LF for them it is the new text. */
  predicate StoredAs(before: Option<Content>, after: Content, stored: Content) {
    if before.Some? && Contains(before.value, [CR, LF]) && !Contains(after, [CR, LF]) then
      OnlyCrlf(stored) && FromCrlf(stored) == after
    else
      stored == after
  }

  lemma {:induction false} ToCrlfIsOnlyCrlf(c: Content)
    ensures OnlyCrlf(ToCrlf(c)) && (c != [] ==> ToCrlf(c) != [] && ToCrlf(c)[0] != LF)
  {
    if c != [] {
      ToCrlfIsOnlyCrlf(c[1..]);
    }
  }

  lemma {:induction false} FromCrlfUndoes(c: Content)
    ensures FromCrlf(ToCrlf(c)) == c
  {
    if c != [] {
      var rest := ToCrlf(c[1..]);
      FromCrlfUndoes(c[1..]);
      ToCrlfIsOnlyCrlf(c[1..]);
      if c[0] == LF {
        assert ToCrlf(c)[2..] == rest;
      } else {
        assert ToCrlf(c)[1..] == rest;
        assert |c| > 1 ==> ToCrlf(c)[1] == rest[0];
      }
      assert c == [c[0]] + c[1..];
    }
  }

  lemma HasCrlfMeans(c: Content)
    ensures HasCrlf(c) <==> Contains(c, [CR, LF])
  {
    if HasCrlf(c) {
      var i :| 0 <= i < |c| - 1 && c[i] == CR && c[i + 1] == LF;
      assert OccursAt(c, [CR, LF], i);
    }
    if Contains(c, [CR, LF]) {
      var i: nat :| i <= |c| && OccursAt(c, [CR, LF], i);
      assert c[i] == c[i..i + 2][0] && c[i + 1] == c[i..i + 2][1];
    }
  }

  lemma StoredKeepsLineEnds(before: Option<Content>, after: Content)
    ensures StoredAs(before, after, Stored(before, after))
  {
    hide ToCrlf, FromCrlf, HasCrlf, Contains, OnlyCrlf;
    ToCrlfIsOnlyCrlf(after);
    FromCrlfUndoes(after);
    HasCrlfMeans(after);
    if before.Some? {
      HasCrlfMeans(before.value);
    }
  }

  // ----- reading and writing -----

  predicate Readable(c: Content) {
    |c| <= MAX_FILE_BYTES && forall i :: 0 <= i < |c| && i < BINARY_PROBE_BYTES ==> c[i] != NUL
  }

  /** A file is taken for text by its first bytes. */
  lemma ReadsAre(files: Files, path: Path)
    ensures var r := ReadVersion(files, path);
            if path !in files then r == Ok(None)
            else if |files[path]| > MAX_FILE_BYTES then r == Err(TooLarge)
            else if NUL in (if |files[path]| > BINARY_PROBE_BYTES then files[path][..BINARY_PROBE_BYTES] else files[path]) then r == Err(Binary)
            else r == Ok(Some(files[path]))
  {
    if path in files {
      var c := files[path];
      var probe := if |c| > BINARY_PROBE_BYTES then c[..BINARY_PROBE_BYTES] else c;
      assert forall i :: 0 <= i < |probe| ==> probe[i] == c[i];
    }
  }

  function ReadVersion(files: Files, path: Path): Result<Option<Content>, Error> {
    if path !in files then Ok(None)
    else if |files[path]| > MAX_FILE_BYTES then Err(TooLarge)
    else if Readable(files[path]) then Ok(Some(files[path]))
    else Err(Binary)
  }

  function WriteVersion(files: Files, path: Path, before: Option<Content>, after: Content): Result<Files, Error> {
    if |after| > MAX_FILE_BYTES then Err(TooLarge)
    else
      var current := ReadVersion(files, path);
      if current.Err? then Err(current.error)
      else if current.value != before then Err(Conflict)
      else Ok(files[path := Stored(before, after)])
  }

  function Text(c: Option<Content>): Content {
    if c.Some? then c.value else []
  }

  function Removed(files: Files, path: Path): Result<Files, Error> {
    if path in files then Ok(files - {path}) else Err(Io)
  }

  /** Moving a file replaces the destination. */
  function Moved(files: Files, from: Path, to: Path): Result<Files, Error> {
    if from in files then Ok((files - {from})[to := files[from]]) else Err(Io)
  }

  // ----- applying a change -----

  /** The file written back to itself, which leaves a backup copy of it. */
  function BackedUp(files: Files, c: Change): Result<Files, Error> {
    if c.before.Some? && (c.action.Delete? || c.action.Rename?) then WriteVersion(files, c.path, c.before, c.before.value)
    else Ok(files)
  }

  function Apply(files: Files, c: Change): Result<Files, Error> {
    if c.action.Patch? then WriteVersion(files, c.path, c.before, Text(c.after))
    else
      var current := ReadVersion(files, c.path);
      if current.Err? then Err(current.error)
      else if current.value != c.before then Err(Conflict)
      else
        var saved := BackedUp(files, c);
        if saved.Err? then saved
        else match c.action
          case Create => WriteVersion(saved.value, c.path, None, Text(c.after))
          case Write => WriteVersion(saved.value, c.path, c.before, Text(c.after))
          case Delete => Removed(saved.value, c.path)
          case Rename(destination) => Moved(saved.value, c.path, destination)
          case Patch => saved
  }

  // ----- taking a change back -----

  /** The rollback of a whole checkpoint, one change of it. */
  function Rollback(files: Files, c: Change): Result<Files, Error> {
    var current := ReadVersion(files, c.path);
    if current.Err? then Err(current.error)
    else match c.action
      case Patch | Write =>
        if current.value != c.after then Err(Conflict)
        else if c.before.Some? then WriteVersion(files, c.path, current.value, c.before.value)
        else Removed(files, c.path)
      case Create =>
        if current.value != c.after then Err(Conflict) else Removed(files, c.path)
      case Delete =>
        if current.value.Some? || c.before.None? then Err(Conflict)
        else WriteVersion(files, c.path, None, c.before.value)
      case Rename(destination) =>
        if current.value.Some? then Err(Conflict)
        else
          var moved := ReadVersion(files, destination);
          if moved.Err? then Err(moved.error)
          else if moved.value != c.before then Err(Conflict)
          else Moved(files, destination, c.path)
  }

  /** Building the patch that leads back: the text searched for is the whole text. */
  function ReversePatch(after: Content, before: Content): Result<Content, Error> {
    if after == [] then Ok(before)
    else if |before| > MAX_FILE_BYTES || before == after then Err(NothingToUndo)
    else Ok(before)
  }

  /** The rollback of a single change. */
  function RollbackOne(files: Files, c: Change): Result<Files, Error> {
    if c.action.Create? || c.action.Delete? || c.action.Rename? || (c.action.Write? && c.before.None?) then
      var current := ReadVersion(files, c.path);
      if current.Err? then Err(current.error)
      else match c.action
        case Delete =>
          if current.value.Some? then Err(Conflict) else WriteVersion(files, c.path, None, Text(c.before))
        case Rename(destination) =>
          var moved := ReadVersion(files, destination);
          if moved.Err? then Err(moved.error)
          else if moved.value != c.before || current.value.Some? then Err(Conflict)
          else Moved(files, destination, c.path)
        case _ =>
          if current.value != c.after then Err(Conflict)
          else if c.before.None? then Removed(files, c.path)
          else Ok(files)
    else if c.before.None? then Err(NothingToUndo)
    else
      var reverse := ReversePatch(Text(c.after), c.before.value);
      if reverse.Err? then Err(reverse.error)
      else WriteVersion(files, c.path, Some(Text(c.after)), c.before.value)
  }

  /** The changes that a preview makes. */
  predicate Formed(c: Change) {
    match c.action
    case Create => c.before.None? && c.after.Some?
    case Write => c.before.Some? && c.after.Some?
    case Patch => c.after.Some?
    case Delete => c.before.Some? && c.after.None?
    case Rename(_) => c.before.Some? && c.after == c.before
  }

  /** The condition under which a change can be taken back, in the files it is applied to. */
  predicate Undoable(files: Files, c: Change) {
    match c.action
    case Create => Readable(Text(c.after))
    case Delete => true
    case Rename(destination) => destination !in files
    case _ =>
      && Readable(Text(c.after)) && SameStyle(c.before, Text(c.after))
      && (c.before.Some? ==> SameStyle(c.after, c.before.value))
  }

  /** Writing a version back to itself changes nothing. */
  lemma BackupChangesNothing(files: Files, c: Change)
    requires BackedUp(files, c).Ok?
    ensures BackedUp(files, c).value == files
  {
  }

  /** Taking back a change just applied restores the files exactly when the condition holds. */
  lemma UndoneIff(files: Files, c: Change)
    requires Formed(c) && Apply(files, c).Ok?
    ensures Rollback(Apply(files, c).value, c) == Ok(files) <==> Undoable(files, c)
  {
    hide ToCrlf, HasCrlf, SameStyle, Readable;
    var after := Apply(files, c).value;
    StoredIff(c.before, Text(c.after));
    if c.before.Some? {
      StoredIff(c.after, c.before.value);
    }
    match c.action {
      case Create => assert after - {c.path} == files;
      case Delete =>
        BackupChangesNothing(files, c);
        assert after[c.path := files[c.path]] == files;
      case Rename(destination) =>
        BackupChangesNothing(files, c);
        RenameUndone(files, c.path, destination);
      case Write => assert after[c.path := files[c.path]] == files;
      case Patch =>
        if c.before.None? {
          assert after - {c.path} == files;
        } else {
          assert after[c.path := files[c.path]] == files;
        }
    }
  }

  /** Taking back one change alone does what the rollback of a checkpoint does with it, except that it
      refuses a change that changed nothing, and a patch that made a new file. */
  lemma RollbackOneIff(files: Files, c: Change)
    requires Formed(c)
    ensures RollbackOne(files, c).Ok? <==>
            && Rollback(files, c).Ok?
            && !(c.action.Patch? && c.before.None?)
            && !((c.action.Patch? || c.action.Write?) && c.before == c.after && c.after != Some([]))
    ensures RollbackOne(files, c).Ok? ==> RollbackOne(files, c) == Rollback(files, c)
  {
    hide ToCrlf, HasCrlf, Readable;
  }

  lemma RenameUndone(files: Files, path: Path, destination: Path)
    requires path in files
    ensures var after := (files - {path})[destination := files[path]];
            path != destination ==> ((after - {destination})[path := after[destination]] == files <==> destination !in files)
  {
    var after := (files - {path})[destination := files[path]];
    if path != destination {
      var back := (after - {destination})[path := after[destination]];
      assert destination !in back;
      assert forall p :: p != destination ==> (p in back <==> p in files) && (p in files ==> back[p] == files[p]);
    }
  }

  // ----- previewing a change -----

  /** `seen` holds the versions the agent has read. */
  function Preview(files: Files, seen: map<Path, Option<Content>>, path: Path, action: Action,
          content: Content): Result<Change, Error> {
    var current := ReadVersion(files, path);
    if action.Patch? then Err(Io)
    else if current.Err? then Err(current.error)
    else if !action.Create? && current.value.Some? && (path !in seen || seen[path] != current.value) then Err(Conflict)
    else if action.Create? && current.value.Some? then Err(Conflict)
    else if !action.Create? && current.value.None? then Err(Conflict)
    else if action.Rename? && action.destination == "" then Err(Io)
    else if action.Rename? && ReadVersion(files, action.destination) != Ok(None) then Err(Conflict)
    else
      var after := if action.Create? || action.Write? then Some(content) else if action.Delete? then None else current.value;
      if after.Some? && |after.value| > MAX_FILE_BYTES then Err(TooLarge)
      else Ok(Change(path, action, current.value, after))
  }

  /** What a preview makes can be applied, as long as the files stay as they are, and taken back again
      unless it writes text that cannot be read back or that changes the line endings.  A rename needs
      its free destination, which is checked here and not when it is applied. */
  lemma PreviewedAppliesAndUndoes(files: Files, seen: map<Path, Option<Content>>, path: Path, action: Action,
          content: Content)
    requires Preview(files, seen, path, action, content).Ok?
    ensures var c := Preview(files, seen, path, action, content).value;
            && Formed(c) && Apply(files, c).Ok?
            && (action.Delete? || action.Rename? ==> Rollback(Apply(files, c).value, c) == Ok(files))
            && (action.Create? ==> (Rollback(Apply(files, c).value, c) == Ok(files) <==> Readable(content)))
            && (action.Write? ==> (Rollback(Apply(files, c).value, c) == Ok(files) <==>
                                   Readable(content) && SameStyle(c.before, content) && SameStyle(Some(content), c.before.value)))
  {
    hide ToCrlf, HasCrlf, SameStyle, Rollback;
    var c := Preview(files, seen, path, action, content).value;
    assert Apply(files, c).Ok?;
    UndoneIff(files, c);
  }

  // ----- when the operations succeed, and what they leave -----

  /** The file can be read and has this content, or there is none. */
  predicate Present(files: Files, path: Path, version: Option<Content>) {
    if version.Some? then path in files && files[path] == version.value && Readable(version.value) else path !in files
  }

  ghost predicate OthersStay(files: Files, after: Files, paths: set<Path>) {
    forall p :: p !in paths ==> (p in after <==> p in files) && (p in files ==> after[p] == files[p])
  }

  /** Only this file has changed: it was written over `before`. */
  ghost predicate Written(files: Files, after: Files, path: Path, before: Option<Content>, content: Content) {
    path in after && StoredAs(before, content, after[path]) && OthersStay(files, after, {path})
  }

  ghost predicate Gone(files: Files, after: Files, path: Path) {
    path !in after && OthersStay(files, after, {path})
  }

  /** The file is now at `to`, over whatever was there. */
  ghost predicate Renamed(files: Files, after: Files, from: Path, to: Path) {
    && from in files && to in after && after[to] == files[from]
    && (from != to ==> from !in after)
    && OthersStay(files, after, {from, to})
  }

  /** A change applies exactly when the file is as it was when the change was made and the new text is not too
      large. */
  lemma AppliesIff(files: Files, c: Change)
    requires Formed(c)
    ensures Apply(files, c).Ok? <==> Present(files, c.path, c.before) && |Text(c.after)| <= MAX_FILE_BYTES
    ensures Apply(files, c).Ok? ==>
              var after := Apply(files, c).value;
              match c.action
              case Delete => Gone(files, after, c.path)
              case Rename(destination) => Renamed(files, after, c.path, destination)
              case _ => Written(files, after, c.path, c.before, Text(c.after))
  {
    StoredKeepsLineEnds(c.before, Text(c.after));
    hide StoredAs, Stored;
    if c.before.Some? && BackedUp(files, c).Ok? {
      BackupChangesNothing(files, c);
    }
  }

  /** Rolling a change back asks that the file is as the change left it, or, where it deleted or moved it, that nothing
      has come in its place. */
  lemma RollsBackIff(files: Files, c: Change)
    requires Formed(c)
    ensures Rollback(files, c).Ok? <==>
            match c.action
            case Delete => c.path !in files && |c.before.value| <= MAX_FILE_BYTES
            case Rename(destination) => c.path !in files && Present(files, destination, c.before)
            case _ => Present(files, c.path, c.after) && |Text(c.before)| <= MAX_FILE_BYTES
    ensures Rollback(files, c).Ok? ==>
              var after := Rollback(files, c).value;
              match c.action
              case Rename(destination) => Renamed(files, after, destination, c.path)
              case Create => Gone(files, after, c.path)
              case _ => if c.before.None? then Gone(files, after, c.path) else Written(files, after, c.path, c.after, c.before.value)
  {
    if c.before.Some? {
      StoredKeepsLineEnds(c.after, c.before.value);
    }
    hide StoredAs, Stored;
  }

  /** A preview is made of what the agent has seen: the file is as it last read it, and a new file, or the place a
      file moves to, is free. */
  lemma PreviewsIff(files: Files, seen: map<Path, Option<Content>>, path: Path, action: Action, content: Content)
    ensures Preview(files, seen, path, action, content).Ok? <==>
            && !action.Patch?
            && (action.Create? ==> path !in files)
            && (!action.Create? ==> path in files && Readable(files[path]) && path in seen && seen[path] == Some(files[path]))
            && (action.Rename? ==> action.destination != "" && action.destination !in files)
            && (action.Create? || action.Write? ==> |content| <= MAX_FILE_BYTES)
    ensures Preview(files, seen, path, action, content).Ok? ==>
              var c := Preview(files, seen, path, action, content).value;
              && c.path == path && c.action == action && Present(files, path, c.before)
              && c.after == if action.Delete? then None else if action.Rename? then c.before else Some(content)
  {
  }
}
