/**
 Importing source workbooks: a hashed copy into the vault, then a revision
 record, with the copy discarded whenever no record is made of it. Hashing is
 a parameter; every file operation and query may fail.
 */
module SourceVault {
  import opened Wrappers
  import opened Text

  const MAX_SUFFIX: nat := 9_999

  // projects/<project>/sources/<prefix>/<name>
  datatype Path = Path(project: string, prefix: string, name: string)

  datatype Imported = Imported(sha256: string, size: nat, path: Path)

  datatype VaultError = InvalidFileName | UnsupportedExtension | NotRegularFile | FileTooLarge | Io

  // The steps that can fail; the n-th write of the copy is `WriteTemp(n)`.
  datatype Fault =
    | Metadata
    | Prepare
    | CreateTemp
    | WriteTemp(n: nat)
    | Flush
    | PrepareTarget
    | Rename
    | Harden
    | Undo
    | Discard
    | FindProject
    | FindRevision
    | SaveRevision

  // One read of the source: bytes, none of them at its end, or an error.
  datatype Read = Bytes(data: string) | ReadError

  // ---------------------------------------------------------------------
  // Copying
  // ---------------------------------------------------------------------

  // What the reads deliver up to the end of the file.
  function Delivered(input: seq<Read>): Option<string> {
    if input == [] || input[0] == Bytes([]) then Some([])
    else if input[0].ReadError? then None
    else
      match Delivered(input[1..])
      case None => None
      case Some(rest) => Some(input[0].data + rest)
  }

  // The number of reads that deliver something.
  function Reads(input: seq<Read>): nat {
    if input == [] || input[0].ReadError? || input[0].data == [] then 0 else 1 + Reads(input[1..])
  }

  // The bytes of the first n reads.
  function Total(input: seq<Read>, n: nat): string
    requires n <= |input|
    requires forall i | 0 <= i < n :: input[i].Bytes?
  {
    if n == 0 then [] else Total(input, n - 1) + input[n - 1].data
  }

  lemma {:induction false} ReadsDeliver(input: seq<Read>)
    ensures Reads(input) <= |input|
    ensures forall i | 0 <= i < Reads(input) :: input[i].Bytes? && input[i].data != []
    ensures Reads(input) < |input| ==> input[Reads(input)].ReadError? || input[Reads(input)] == Bytes([])
  {
    if input != [] && input[0].Bytes? && input[0].data != [] {
      ReadsDeliver(input[1..]);
    }
  }

  // The n-th read takes the copy over the limit, after the earlier ones were
  // written.
  predicate ExceedsAt(input: seq<Read>, maximum: nat, fails: Fault -> bool, n: nat)
    requires Reads(input) <= |input| && forall i | 0 <= i < Reads(input) :: input[i].Bytes?
  {
    && n < Reads(input)
    && |Total(input, n)| <= maximum < |Total(input, n + 1)|
    && forall m | 0 <= m < n :: !fails(WriteTemp(m))
  }

  // The copy, or why there is none, whatever the sizes of the reads.
  ghost function Copied(input: seq<Read>, maximum: nat, fails: Fault -> bool): Result<string, VaultError> {
    ReadsDeliver(input);
    if fails(CreateTemp) then Err(Io)
    else if exists n: nat :: ExceedsAt(input, maximum, fails, n) then Err(FileTooLarge)
    else if fails(Flush) || Delivered(input).None? || (exists n | 0 <= n < Reads(input) :: fails(WriteTemp(n))) then
      Err(Io)
    else Ok(Delivered(input).value)
  }

  lemma {:induction false} DeliveredIsTotal(input: seq<Read>)
    ensures Reads(input) <= |input| && forall i | 0 <= i < Reads(input) :: input[i].Bytes?
    ensures Delivered(input).Some? <==> Reads(input) == |input| || input[Reads(input)].Bytes?
    ensures Delivered(input).Some? ==> Delivered(input).value == Total(input, Reads(input))
  {
    ReadsDeliver(input);
    if input != [] && input[0].Bytes? && input[0].data != [] {
      DeliveredIsTotal(input[1..]);
      TotalFromFront(input, Reads(input));
    }
  }

  lemma {:induction false} TotalFromFront(input: seq<Read>, n: nat)
    requires 0 < n <= |input| && forall i | 0 <= i < n :: input[i].Bytes?
    ensures Total(input, n) == input[0].data + Total(input[1..], n - 1)
  {
    if n > 1 {
      TotalFromFront(input, n - 1);
      assert (input[0].data + Total(input[1..], n - 2)) + input[n - 1].data
          == input[0].data + (Total(input[1..], n - 2) + input[n - 1].data);
    }
  }

  lemma {:induction false} TotalGrows(input: seq<Read>, m: nat, n: nat)
    requires m <= n <= |input| && forall i | 0 <= i < n :: input[i].Bytes?
    ensures |Total(input, m)| <= |Total(input, n)|
  {
    if m < n {
      TotalGrows(input, m, n - 1);
    }
  }

  // A copy is made if and only if everything is read within the limit and
  // nothing fails.
  lemma {:induction false} CopiedIff(input: seq<Read>, maximum: nat, fails: Fault -> bool)
    ensures Copied(input, maximum, fails).Ok? <==>
            && Delivered(input).Some? && |Delivered(input).value| <= maximum
            && !fails(CreateTemp) && !fails(Flush)
            && forall n | 0 <= n < Reads(input) :: !fails(WriteTemp(n))
    ensures Copied(input, maximum, fails).Ok? ==> Copied(input, maximum, fails).value == Delivered(input).value
  {
    DeliveredIsTotal(input);
    if n: nat :| ExceedsAt(input, maximum, fails, n) {
      TotalGrows(input, n + 1, Reads(input));
    } else if Delivered(input).Some? && maximum < |Delivered(input).value|
              && forall n | 0 <= n < Reads(input) :: !fails(WriteTemp(n)) {
      var n := FirstOver(input, maximum, Reads(input));
      assert ExceedsAt(input, maximum, fails, n);
    }
  }

  lemma {:induction false} FirstOver(input: seq<Read>, maximum: nat, n: nat) returns (k: nat)
    requires n <= |input| && (forall i | 0 <= i < n :: input[i].Bytes?) && maximum < |Total(input, n)|
    ensures k < n && |Total(input, k)| <= maximum < |Total(input, k + 1)|
  {
    if |Total(input, n - 1)| <= maximum {
      k := n - 1;
    } else {
      k := FirstOver(input, maximum, n - 1);
    }
  }

  method CopyHashed(input: seq<Read>, maximum: nat, hash: string -> string, fails: Fault -> bool)
    returns (r: Result<(string, string), VaultError>)
    ensures var copied := Copied(input, maximum, fails);
            if copied.Ok? then r == Ok((copied.value, hash(copied.value))) else r == Err(copied.error)
  {
    hide Delivered;
    DeliveredIsTotal(input);
    ReadsDeliver(input);
    if fails(CreateTemp) {
      return Err(Io);
    }
    var copied: string := [];
    var i := 0;
    while i < |input| && input[i] != Bytes([])
      invariant 0 <= i <= Reads(input)
      invariant copied == Total(input, i) && |copied| <= maximum
      invariant forall m | 0 <= m < i :: !fails(WriteTemp(m))
    {
      if input[i].ReadError? {
        NoneExceeds(input, maximum, fails, i);
        return Err(Io);
      }
      var next := copied + input[i].data;
      if |next| > maximum {
        assert ExceedsAt(input, maximum, fails, i);
        return Err(FileTooLarge);
      }
      if fails(WriteTemp(i)) {
        NoneExceeds(input, maximum, fails, i);
        return Err(Io);
      }
      copied := next;
      i := i + 1;
    }
    NoneExceeds(input, maximum, fails, i);
    if fails(Flush) {
      return Err(Io);
    }
    return Ok((copied, hash(copied)));
  }

  lemma NoneExceeds(input: seq<Read>, maximum: nat, fails: Fault -> bool, n: nat)
    requires Reads(input) <= |input| && forall i | 0 <= i < Reads(input) :: input[i].Bytes?
    requires n <= Reads(input) && |Total(input, n)| <= maximum
    requires n == Reads(input) || (|Total(input, n + 1)| <= maximum && fails(WriteTemp(n)))
    ensures forall m: nat :: !ExceedsAt(input, maximum, fails, m)
  {
    forall m: nat
      ensures !ExceedsAt(input, maximum, fails, m)
    {
      if m < n {
        TotalGrows(input, m + 1, n);
      }
    }
  }

  // A digest is long enough for the prefix directory it is filed under.
  ghost predicate HexDigests(hash: string -> string) {
    forall content :: |hash(content)| >= 2
  }

  // ---------------------------------------------------------------------
  // Names
  // ---------------------------------------------------------------------

  // The index of the last dot that is not the first character.
  function LastDot(name: string, i: nat): Option<nat>
    requires i <= |name|
  {
    if i <= 1 then None
    else if name[i - 1] == '.' then Some(i - 1)
    else LastDot(name, i - 1)
  }

  function Stem(name: string): string {
    var dot := LastDot(name, |name|);
    if dot.Some? && dot.value <= |name| then name[..dot.value] else name
  }

  function Extension(name: string): string {
    var dot := LastDot(name, |name|);
    if dot.Some? && dot.value <= |name| then name[dot.value..] else []
  }

  // The n-th name tried: the name itself, then numbered from 2.
  function CandidateName(name: string, n: nat): string {
    if n <= 1 then name else Stem(name) + "-" + Numeral(n) + Extension(name)
  }

  lemma {:induction false} LastDotIs(stem: string, ext: string, i: nat)
    requires stem != [] && '.' !in ext && |stem| < i <= |stem + "." + ext|
    ensures LastDot(stem + "." + ext, i) == Some(|stem|)
  {
    var name := stem + "." + ext;
    if i > |stem| + 1 {
      assert name[i - 1] == ext[i - 2 - |stem|];
      LastDotIs(stem, ext, i - 1);
    }
  }

  lemma {:induction false} NoLastDot(name: string, i: nat)
    requires i <= |name| && forall j | 0 < j < |name| :: name[j] != '.'
    ensures LastDot(name, i) == None
  {
    if i > 1 {
      NoLastDot(name, i - 1);
    }
  }

  // The number goes before the extension, or at the end when there is none.
  lemma {:induction false} NumberedName(stem: string, ext: string, n: nat)
    requires n >= 2 && '.' !in ext
    ensures stem != [] ==> CandidateName(stem + "." + ext, n) == stem + "-" + Numeral(n) + ("." + ext)
    ensures (forall j | 0 < j < |ext| :: ext[j] != '.') ==> CandidateName(ext, n) == ext + "-" + Numeral(n)
  {
    hide Numeral;
    if stem != [] {
      var name := stem + "." + ext;
      LastDotIs(stem, ext, |name|);
      assert name[..|stem|] == stem && name[|stem|..] == "." + ext;
    }
    NoLastDot(ext, |ext|);
    assert ext + "-" + Numeral(n) + [] == ext + "-" + Numeral(n);
  }

  // All the names tried are different.
  lemma {:induction false} NamesDiffer(name: string, m: nat, n: nat)
    requires 1 <= m <= n && CandidateName(name, m) == CandidateName(name, n)
    ensures m == n
  {
    hide Numeral, Stem, Extension;
    StemAndExtension(name);
    if m >= 2 {
      SameMiddle(Stem(name) + "-", Numeral(m), Numeral(n), Extension(name));
      NumeralRoundTrip(m);
      NumeralRoundTrip(n);
    }
  }

  lemma StemAndExtension(name: string)
    ensures Stem(name) + Extension(name) == name
  {
  }

  lemma SameMiddle(front: string, a: string, b: string, end: string)
    requires front + a + end == front + b + end
    ensures a == b
  {
    assert |a| == |b|;
    assert (front + a + end)[|front|..|front| + |a|] == a;
    assert (front + b + end)[|front|..|front| + |b|] == b;
  }

  // The first free name; an existing file is never chosen.
  function FirstFree(files: map<Path, string>, project: string, prefix: string, name: string, n: nat): Option<Path>
    decreases MAX_SUFFIX + 1 - n
  {
    if n > MAX_SUFFIX then None
    else
      var candidate := Path(project, prefix, CandidateName(name, n));
      if candidate !in files then Some(candidate) else FirstFree(files, project, prefix, name, n + 1)
  }

  lemma {:induction false} FirstFreeMeans(files: map<Path, string>, project: string, prefix: string, name: string,
                                          n: nat)
    ensures var dest := FirstFree(files, project, prefix, name, n);
            && (dest.Some? ==> exists k ::
                  && n <= k <= MAX_SUFFIX && dest.value == Path(project, prefix, CandidateName(name, k))
                  && dest.value !in files
                  && forall m | n <= m < k :: Path(project, prefix, CandidateName(name, m)) in files)
            && (dest.None? <==>
                  forall k | n <= k <= MAX_SUFFIX :: Path(project, prefix, CandidateName(name, k)) in files)
    decreases MAX_SUFFIX + 1 - n
  {
    hide CandidateName;
    if n <= MAX_SUFFIX && Path(project, prefix, CandidateName(name, n)) in files {
      FirstFreeMeans(files, project, prefix, name, n + 1);
    }
  }

  // ---------------------------------------------------------------------
  // The vault
  // ---------------------------------------------------------------------

  // What is imported, with what the file system and the policy say of it.
  datatype Request = Request(
    id: string,
    project: string,
    projectExists: bool,
    name: Option<string>,
    supported: bool,
    regular: bool,
    size: nat,
    maximum: nat,
    input: seq<Read>
  )

  // Where the copy goes.
  function Target(files: map<Path, string>, request: Request, sha256: string): Option<Path>
    requires |sha256| >= 2
  {
    if request.name.None? then None
    else FirstFree(files, request.project, sha256[..2], request.name.value, 1)
  }

  // Why a request fails before anything is in the vault, in the order of the checks.
  ghost function Blocked(files: map<Path, string>, request: Request, hash: string -> string, fails: Fault -> bool)
    : Option<VaultError>
    requires HexDigests(hash)
  {
    var copied := Copied(request.input, request.maximum, fails);
    if request.name.None? then Some(InvalidFileName)
    else if !request.supported then Some(UnsupportedExtension)
    else if fails(Metadata) then Some(Io)
    else if !request.regular then Some(NotRegularFile)
    else if request.size > request.maximum then Some(FileTooLarge)
    else if fails(Prepare) then Some(Io)
    else if copied.Err? then Some(copied.error)
    else if fails(PrepareTarget) || Target(files, request, hash(copied.value)).None? || fails(Rename) then Some(Io)
    else None
  }

  // The result and the files of an import; a copy that cannot be hardened is
  // removed again, unless that fails too.
  ghost function Stored(files: map<Path, string>, request: Request, hash: string -> string, fails: Fault -> bool)
    : (Result<Imported, VaultError>, map<Path, string>)
    requires HexDigests(hash)
  {
    var blocked := Blocked(files, request, hash, fails);
    if blocked.Some? then (Err(blocked.value), files)
    else
      var content := Copied(request.input, request.maximum, fails).value;
      var path := Target(files, request, hash(content)).value;
      if !fails(Harden) then (Ok(Imported(hash(content), |content|, path)), files[path := content])
      else (Err(Io), if fails(Undo) then files[path := content] else files)
  }

  class Vault {
    var files: map<Path, string>

    constructor ()
      ensures files == map[]
    {
      files := map[];
    }

    method UniqueDest(project: string, prefix: string, name: string) returns (dest: Option<Path>)
      ensures dest == FirstFree(files, project, prefix, name, 1)
    {
      hide CandidateName;
      for n := 1 to MAX_SUFFIX + 1
        invariant FirstFree(files, project, prefix, name, 1) == FirstFree(files, project, prefix, name, n)
      {
        var candidate := Path(project, prefix, CandidateName(name, n));
        if candidate !in files {
          return Some(candidate);
        }
      }
      return None;
    }

    // Copy, name, move in and harden.
    method Import(request: Request, hash: string -> string, fails: Fault -> bool)
      returns (r: Result<Imported, VaultError>)
      requires HexDigests(hash)
      modifies this
      ensures (r, files) == Stored(old(files), request, hash, fails)
    {
      hide Copied, FirstFree;
      if request.name.None? {
        return Err(InvalidFileName);
      }
      if !request.supported {
        return Err(UnsupportedExtension);
      }
      if fails(Metadata) {
        return Err(Io);
      }
      if !request.regular {
        return Err(NotRegularFile);
      }
      if request.size > request.maximum {
        return Err(FileTooLarge);
      }
      if fails(Prepare) {
        return Err(Io);
      }
      var copied := CopyHashed(request.input, request.maximum, hash, fails);
      if copied.Err? {
        return Err(copied.error);
      }
      var content, sha256 := copied.value.0, copied.value.1;
      if fails(PrepareTarget) {
        return Err(Io);
      }
      var dest := UniqueDest(request.project, sha256[..2], request.name.value);
      if dest.None? || fails(Rename) {
        return Err(Io);
      }
      files := files[dest.value := content];
      if fails(Harden) {
        if !fails(Undo) {
          RemoveAdded(old(files), dest.value, content, request, sha256);
          files := files - {dest.value};
        }
        return Err(Io);
      }
      return Ok(Imported(sha256, |content|, dest.value));
    }

    method Discard(imported: Imported, fails: Fault -> bool) returns (ok: bool)
      modifies this
      ensures files == if ok then old(files) - {imported.path} else old(files)
      ensures !ok <==> imported.path in old(files) && fails(Fault.Discard)
    {
      if imported.path !in files {
        return true;
      }
      if fails(Fault.Discard) {
        return false;
      }
      files := files - {imported.path};
      return true;
    }
  }

  lemma TargetIsFree(files: map<Path, string>, request: Request, sha256: string)
    requires |sha256| >= 2 && Target(files, request, sha256).Some?
    ensures var path := Target(files, request, sha256).value;
            path !in files && path.project == request.project && path.prefix == sha256[..2]
  {
    FirstFreeMeans(files, request.project, sha256[..2], request.name.value, 1);
  }

  lemma RemoveAdded(files: map<Path, string>, path: Path, content: string, request: Request, sha256: string)
    requires |sha256| >= 2 && Target(files, request, sha256) == Some(path)
    ensures files[path := content] - {path} == files
  {
    TargetIsFree(files, request, sha256);
  }

  // ---------------------------------------------------------------------
  // Revision records
  // ---------------------------------------------------------------------

  datatype Revision = Revision(id: string, project: string, sha256: string, path: Path, size: nat)

  // The table's primary key and its unique project and hash.
  predicate Insertable(rows: map<string, Revision>, revision: Revision) {
    && revision.id !in rows
    && forall id | id in rows :: !(rows[id].project == revision.project && rows[id].sha256 == revision.sha256)
  }

  class RevisionTable {
    var rows: map<string, Revision>

    constructor ()
      ensures rows == map[]
    {
      rows := map[];
    }

    method FindByProjectAndHash(project: string, sha256: string, fails: Fault -> bool)
      returns (r: Result<Option<Revision>, ()>)
      ensures r.Err? <==> fails(FindRevision)
      ensures r.Ok? && r.value.Some? ==>
                && r.value.value in rows.Values
                && r.value.value.project == project && r.value.value.sha256 == sha256
      ensures r.Ok? && r.value.None? ==>
                forall id | id in rows :: !(rows[id].project == project && rows[id].sha256 == sha256)
    {
      if fails(FindRevision) {
        return Err(());
      }
      if id :| id in rows && rows[id].project == project && rows[id].sha256 == sha256 {
        return Ok(Some(rows[id]));
      }
      return Ok(None);
    }

    method Save(revision: Revision, fails: Fault -> bool) returns (ok: bool)
      modifies this
      ensures ok <==> !fails(SaveRevision) && Insertable(old(rows), revision)
      ensures rows == if ok then old(rows)[revision.id := revision] else old(rows)
    {
      ok := !fails(SaveRevision) && Insertable(rows, revision);
      if ok {
        rows := rows[revision.id := revision];
      }
    }
  }

  // ---------------------------------------------------------------------
  // The use case
  // ---------------------------------------------------------------------

  datatype ImportError = NotFound | Repository | Storage(error: VaultError) | Rollback

  datatype Library = Library(files: map<Path, string>, rows: map<string, Revision>)

  type Outcome = (Result<Revision, ImportError>, Library)

  predicate Holds(rows: map<string, Revision>, project: string, sha256: string, revision: Revision) {
    && revision.id in rows && rows[revision.id] == revision
    && revision.project == project && revision.sha256 == sha256
  }

  predicate Recorded(rows: map<string, Revision>, project: string, sha256: string) {
    exists id | id in rows :: rows[id].project == project && rows[id].sha256 == sha256
  }

  // The copy is removed for the cause given; when that fails it stays.
  function Undone(before: map<Path, string>, after: Library, cause: ImportError, fails: Fault -> bool): Outcome {
    if fails(Discard) then (Err(Rollback), after) else (Err(cause), after.(files := before))
  }

  // From the fresh copy on: reuse the project's revision of the same content,
  // or record a new one. `before` is the vault without the copy.
  ghost function RecordedCopy(before: map<Path, string>, after: Library, id: string, project: string, copy: Imported,
                              fails: Fault -> bool): Outcome
  {
    var revision := Revision(id, project, copy.sha256, copy.path, copy.size);
    if fails(FindRevision) then Undone(before, after, Repository, fails)
    else if held: Revision :| Holds(after.rows, project, copy.sha256, held) then
      if fails(Discard) then (Err(Storage(Io)), after) else (Ok(held), after.(files := before))
    else if fails(SaveRevision) || id in after.rows then Undone(before, after, Repository, fails)
    else (Ok(revision), after.(rows := after.rows[id := revision]))
  }

  ghost function Performed(library: Library, request: Request, hash: string -> string, fails: Fault -> bool): Outcome
    requires HexDigests(hash)
  {
    if fails(FindProject) then (Err(Repository), library)
    else if !request.projectExists then (Err(NotFound), library)
    else
      var (imported, files) := Stored(library.files, request, hash, fails);
      var after := library.(files := files);
      if imported.Err? then (Err(Storage(imported.error)), after)
      else RecordedCopy(library.files, after, request.id, request.project, imported.value, fails)
  }

  class ImportSource {
    const vault: Vault
    const revisions: RevisionTable

    constructor (vault: Vault, revisions: RevisionTable)
      ensures this.vault == vault && this.revisions == revisions
    {
      this.vault := vault;
      this.revisions := revisions;
    }

    function Contents(): Library
      reads vault, revisions
    {
      Library(vault.files, revisions.rows)
    }

    // Undo the copy; report when that fails too.
    method CleanupAfterFailure(imported: Imported, cause: ImportError, fails: Fault -> bool)
      returns (error: ImportError)
      modifies vault
      ensures if imported.path in old(vault.files) && fails(Discard)
              then error == Rollback && vault.files == old(vault.files)
              else error == cause && vault.files == old(vault.files) - {imported.path}
    {
      var ok := vault.Discard(imported, fails);
      return if ok then cause else Rollback;
    }

    method RecordCopy(id: string, project: string, copy: Imported, fails: Fault -> bool, hash: string -> string,
                      ghost before: map<Path, string>, ghost content: string)
      returns (r: Result<Revision, ImportError>)
      requires Anchored(Library(before, revisions.rows), hash)
      requires copy.path !in before && vault.files == before[copy.path := content]
      modifies vault, revisions
      ensures (r, Contents()) == RecordedCopy(before, old(Contents()), id, project, copy, fails)
    {
      hide Anchored;
      ghost var rows := revisions.rows;
      assert vault.files - {copy.path} == before;
      var existing := revisions.FindByProjectAndHash(project, copy.sha256, fails);
      if existing.Err? {
        var error := CleanupAfterFailure(copy, Repository, fails);
        return Err(error);
      }
      if existing.value.Some? {
        HeldIsUnique(Library(before, rows), hash, project, copy.sha256, existing.value.value);
        var discarded := vault.Discard(copy, fails);
        return if discarded then Ok(existing.value.value) else Err(Storage(Io));
      }
      assert forall held: Revision :: !Holds(rows, project, copy.sha256, held);
      var revision := Revision(id, project, copy.sha256, copy.path, copy.size);
      var saved := revisions.Save(revision, fails);
      if !saved {
        var error := CleanupAfterFailure(copy, Repository, fails);
        return Err(error);
      }
      return Ok(revision);
    }

    method Execute(request: Request, hash: string -> string, fails: Fault -> bool)
      returns (r: Result<Revision, ImportError>)
      requires HexDigests(hash) && Anchored(Contents(), hash)
      modifies vault, revisions
      ensures (r, Contents()) == Performed(old(Contents()), request, hash, fails)
    {
      hide Anchored, HexDigests, RecordedCopy, Blocked, Target;
      if fails(FindProject) {
        return Err(Repository);
      }
      if !request.projectExists {
        return Err(NotFound);
      }
      StoredMeans(vault.files, request, hash, fails);
      var imported := vault.Import(request, hash, fails);
      if imported.Err? {
        return Err(Storage(imported.error));
      }
      ghost var content := Copied(request.input, request.maximum, fails).value;
      r := RecordCopy(request.id, request.project, imported.value, fails, hash, old(vault.files), content);
    }
  }

  // ---------------------------------------------------------------------
  // Files and revisions
  // ---------------------------------------------------------------------

  // Every revision has its own file with the recorded content, and a project
  // holds a content once.
  ghost predicate Anchored(library: Library, hash: string -> string) {
    var files, rows := library.files, library.rows;
    && (forall id | id in rows ::
          && rows[id].id == id
          && rows[id].path in files
          && rows[id].path.project == rows[id].project
          && hash(files[rows[id].path]) == rows[id].sha256
          && |files[rows[id].path]| == rows[id].size)
    && (forall a, b | a in rows && b in rows && a != b ::
          && rows[a].path != rows[b].path
          && !(rows[a].project == rows[b].project && rows[a].sha256 == rows[b].sha256))
  }

  // The files no revision refers to.
  ghost function Strays(library: Library): set<Path> {
    set path | path in library.files && forall id | id in library.rows :: library.rows[id].path != path
  }

  // Nothing that was there is changed or lost.
  predicate Kept(before: Library, after: Library) {
    && (forall path | path in before.files :: path in after.files && after.files[path] == before.files[path])
    && (forall id | id in before.rows :: id in after.rows && after.rows[id] == before.rows[id])
  }

  lemma HeldIsUnique(library: Library, hash: string -> string, project: string, sha256: string, revision: Revision)
    requires Anchored(library, hash)
    requires revision in library.rows.Values && revision.project == project && revision.sha256 == sha256
    ensures Holds(library.rows, project, sha256, revision)
    ensures forall other: Revision | Holds(library.rows, project, sha256, other) :: other == revision
  {
  }

  lemma StoredMeans(files: map<Path, string>, request: Request, hash: string -> string, fails: Fault -> bool)
    requires HexDigests(hash)
    ensures var (imported, after) := Stored(files, request, hash, fails);
            var content := Copied(request.input, request.maximum, fails);
            && (imported.Ok? ==>
                  && content.Ok? && imported.value.path !in files && imported.value.path.project == request.project
                  && imported.value.sha256 == hash(content.value) && imported.value.size == |content.value|
                  && after == files[imported.value.path := content.value])
            && (imported.Err? ==>
                  if Blocked(files, request, hash, fails).None? && fails(Harden) && fails(Undo) then
                    && content.Ok? && Target(files, request, hash(content.value)).Some?
                    && after == files[Target(files, request, hash(content.value)).value := content.value]
                    && Target(files, request, hash(content.value)).value !in files
                  else after == files)
  {
    hide Copied, Target;
    if Blocked(files, request, hash, fails).None? {
      TargetIsFree(files, request, hash(Copied(request.input, request.maximum, fails).value));
    }
  }

  // Why an import fails before it copies, as a condition on the request.
  lemma {:induction false} BlockedIff(files: map<Path, string>, request: Request, hash: string -> string,
                                      fails: Fault -> bool)
    requires HexDigests(hash)
    ensures Blocked(files, request, hash, fails).None? <==>
            && request.name.Some? && request.supported && request.regular && request.size <= request.maximum
            && Delivered(request.input).Some? && |Delivered(request.input).value| <= request.maximum
            && (exists n | 1 <= n <= MAX_SUFFIX ::
                  Path(request.project, hash(Delivered(request.input).value)[..2],
                       CandidateName(request.name.value, n)) !in files)
            && !fails(Metadata) && !fails(Prepare) && !fails(CreateTemp) && !fails(Flush)
            && !fails(PrepareTarget) && !fails(Rename)
            && forall n | 0 <= n < Reads(request.input) :: !fails(WriteTemp(n))
  {
    hide CandidateName, Copied, Delivered;
    CopiedIff(request.input, request.maximum, fails);
    if request.name.Some? && Copied(request.input, request.maximum, fails).Ok? {
      var sha256 := hash(Copied(request.input, request.maximum, fails).value);
      FirstFreeMeans(files, request.project, sha256[..2], request.name.value, 1);
    }
  }

  // What is wrong once the copy is in the vault and cannot be recorded anew.
  predicate Unrecordable(rows: map<string, Revision>, request: Request, sha256: string, fails: Fault -> bool) {
    fails(FindRevision) || Recorded(rows, request.project, sha256) || fails(SaveRevision) || request.id in rows
  }

  // A request leaves a file without a revision behind: it gets as far as
  // copying, and then the clean-up it needs fails.
  ghost predicate LeavesStray(library: Library, request: Request, hash: string -> string, fails: Fault -> bool)
    requires HexDigests(hash)
  {
    && !fails(FindProject) && request.projectExists && Blocked(library.files, request, hash, fails).None?
    && if fails(Harden) then fails(Undo)
       else fails(Discard) && Unrecordable(library.rows, request, hash(Delivered(request.input).value), fails)
  }

  // When an import succeeds, and with which revision.
  lemma {:induction false} ImportSucceedsIff(library: Library, request: Request, hash: string -> string,
                                             fails: Fault -> bool)
    requires HexDigests(hash) && Anchored(library, hash)
    ensures var (r, after) := Performed(library, request, hash, fails);
            && (r.Ok? <==>
                  && !fails(FindProject) && request.projectExists
                  && Blocked(library.files, request, hash, fails).None? && !fails(Harden) && !fails(FindRevision)
                  && var sha256 := hash(Delivered(request.input).value);
                     if Recorded(library.rows, request.project, sha256) then !fails(Discard)
                     else !fails(SaveRevision) && request.id !in library.rows)
            && (r.Ok? ==>
                  && Delivered(request.input).Some?
                  && Holds(after.rows, request.project, hash(Delivered(request.input).value), r.value)
                  && after.rows == (if Recorded(library.rows, request.project, hash(Delivered(request.input).value))
                                    then library.rows else library.rows[request.id := r.value]))
            && (r.Err? ==> after.rows == library.rows)
  {
    hide HexDigests, Target, Blocked, Delivered, Copied;
    CopiedIff(request.input, request.maximum, fails);
    BlockedCopies(library.files, request, hash, fails);
    if Recorded(library.rows, request.project, hash(ContentOf(request))) {
      var id :| id in library.rows
                && library.rows[id].project == request.project
                && library.rows[id].sha256 == hash(ContentOf(request));
      HeldIsUnique(library, hash, request.project, hash(ContentOf(request)), library.rows[id]);
      assert Holds(library.rows, request.project, hash(ContentOf(request)), library.rows[id]);
    }
  }

  function ContentOf(request: Request): string {
    if Delivered(request.input).Some? then Delivered(request.input).value else []
  }

  lemma BlockedCopies(files: map<Path, string>, request: Request, hash: string -> string, fails: Fault -> bool)
    requires HexDigests(hash)
    ensures Blocked(files, request, hash, fails).None? ==>
              Copied(request.input, request.maximum, fails) == Ok(ContentOf(request))
  {
    hide Target, Copied, Delivered;
    CopiedIff(request.input, request.maximum, fails);
  }

  lemma RecordAnchors(library: Library, hash: string -> string, path: Path, content: string, revision: Revision)
    requires Anchored(library, hash) && path !in library.files && Insertable(library.rows, revision)
    requires revision.path == path && revision.project == path.project
    requires revision.sha256 == hash(content) && revision.size == |content|
    ensures var after := Library(library.files[path := content], library.rows[revision.id := revision]);
            Anchored(after, hash) && Strays(after) == Strays(library)
  {
    var after := Library(library.files[path := content], library.rows[revision.id := revision]);
    forall p
      ensures p in Strays(after) <==> p in Strays(library)
    {
      if p in Strays(library) {
        assert forall id | id in after.rows :: after.rows[id].path != p;
      }
      if p in Strays(after) {
        assert after.rows[revision.id].path == path;
        assert forall id | id in library.rows :: after.rows[id] == library.rows[id];
      }
    }
  }

  // A file more leaves the records anchored and is a stray itself.
  lemma CopyIsStray(library: Library, hash: string -> string, path: Path, content: string)
    requires Anchored(library, hash) && path !in library.files
    ensures var after := library.(files := library.files[path := content]);
            Anchored(after, hash) && Strays(after) == Strays(library) + {path}
  {
  }

  lemma RecordedCopyKeeps(library: Library, hash: string -> string, id: string, copy: Imported, content: string,
                          fails: Fault -> bool)
    requires Anchored(library, hash) && copy.path !in library.files
    requires copy.sha256 == hash(content) && copy.size == |content|
    ensures var copied := library.(files := library.files[copy.path := content]);
            var (r, after) := RecordedCopy(library.files, copied, id, copy.path.project, copy, fails);
            && Anchored(after, hash) && Kept(library, after)
            && Strays(after) == Strays(library) + if r.Err? && fails(Discard) then {copy.path} else {}
  {
    hide Anchored, Strays;
    CopyIsStray(library, hash, copy.path, content);
    var project := copy.path.project;
    if !Recorded(library.rows, project, copy.sha256) && id !in library.rows {
      RecordAnchors(library, hash, copy.path, content, Revision(id, project, copy.sha256, copy.path, copy.size));
    } else if Recorded(library.rows, project, copy.sha256) {
      RecordedHeld(library, hash, project, copy.sha256);
    }
  }

  lemma RecordedHeld(library: Library, hash: string -> string, project: string, sha256: string)
    requires Anchored(library, hash) && Recorded(library.rows, project, sha256)
    ensures exists held: Revision :: Holds(library.rows, project, sha256, held)
  {
    var id :| id in library.rows && library.rows[id].project == project && library.rows[id].sha256 == sha256;
    assert Holds(library.rows, project, sha256, library.rows[id]);
  }

  // An import changes and loses nothing, keeps every revision with its own file,
  // and leaves a stray exactly in the case stated, where none was before.
  lemma {:induction false} ImportKeeps(library: Library, request: Request, hash: string -> string, fails: Fault -> bool)
    requires HexDigests(hash) && Anchored(library, hash)
    ensures var after := Performed(library, request, hash, fails).1;
            && Anchored(after, hash) && Kept(library, after)
            && if LeavesStray(library, request, hash, fails) then
                 exists path :: path !in library.files && Strays(after) == Strays(library) + {path}
               else Strays(after) == Strays(library)
  {
    hide Anchored, Strays, Target, Blocked, Delivered, Copied, RecordedCopy;
    if !fails(FindProject) && request.projectExists {
      var (imported, files) := Stored(library.files, request, hash, fails);
      StoredMeans(library.files, request, hash, fails);
      BlockedCopies(library.files, request, hash, fails);
      ImportSucceedsIff(library, request, hash, fails);
      CopiedIff(request.input, request.maximum, fails);
      if imported.Ok? {
        RecordedCopyKeeps(library, hash, request.id, imported.value, ContentOf(request), fails);
      } else if files != library.files {
        var path := Target(library.files, request, hash(ContentOf(request))).value;
        CopyIsStray(library, hash, path, ContentOf(request));
      }
    }
  }

  // Files and revisions correspond one to one.
  ghost predicate OneToOne(library: Library) {
    var files, rows := library.files, library.rows;
    && (forall path | path in files :: exists id :: id in rows && rows[id].path == path)
    && (forall id | id in rows :: rows[id].path in files)
    && (forall a, b | a in rows && b in rows && rows[a].path == rows[b].path :: a == b)
  }

  lemma {:induction false} OneToOneIffNoStrays(library: Library, hash: string -> string)
    requires Anchored(library, hash)
    ensures OneToOne(library) <==> Strays(library) == {}
  {
    if OneToOne(library) {
      forall path
        ensures path !in Strays(library)
      {
      }
    } else {
      var path :| path in library.files && forall id | id in library.rows :: library.rows[id].path != path;
      assert path in Strays(library);
    }
  }

  // A failed rollback is reported exactly when a copy that cannot be recorded
  // cannot be discarded either.
  lemma {:induction false} RollbackIff(library: Library, request: Request, hash: string -> string, fails: Fault -> bool)
    requires HexDigests(hash) && Anchored(library, hash)
    ensures Performed(library, request, hash, fails).0 == Err(Rollback) <==>
            && !fails(FindProject) && request.projectExists
            && Blocked(library.files, request, hash, fails).None? && !fails(Harden) && fails(Discard)
            && (fails(FindRevision) ||
                (!Recorded(library.rows, request.project, hash(ContentOf(request)))
                 && (fails(SaveRevision) || request.id in library.rows)))
  {
    hide HexDigests, Target, Blocked, Delivered, Copied;
    CopiedIff(request.input, request.maximum, fails);
    BlockedCopies(library.files, request, hash, fails);
    if Recorded(library.rows, request.project, hash(ContentOf(request))) {
      RecordedHeld(library, hash, request.project, hash(ContentOf(request)));
    }
  }

  // What an import ends with when nothing fails and the whole source is read.
  lemma {:induction false} FaultlessImport(library: Library, request: Request, hash: string -> string,
                                           fails: Fault -> bool)
    requires HexDigests(hash) && Anchored(library, hash) && forall fault :: !fails(fault)
    requires Delivered(request.input).Some?
    ensures var r := Performed(library, request, hash, fails).0;
            var content := Delivered(request.input).value;
            var held := exists id | id in library.rows ::
                          library.rows[id].project == request.project && library.rows[id].sha256 == hash(content);
            if !request.projectExists then r == Err(NotFound)
            else if request.name.None? then r == Err(Storage(InvalidFileName))
            else if !request.supported then r == Err(Storage(UnsupportedExtension))
            else if !request.regular then r == Err(Storage(NotRegularFile))
            else if request.size > request.maximum || |content| > request.maximum then r == Err(Storage(FileTooLarge))
            else if forall n | 1 <= n <= MAX_SUFFIX ::
                      Path(request.project, hash(content)[..2], CandidateName(request.name.value, n)) in library.files
              then r == Err(Storage(Io))
            else if held || request.id !in library.rows then r.Ok?
            else r == Err(Repository)
  {
    hide CandidateName, Delivered, Anchored, FirstFree;
    ImportSucceedsIff(library, request, hash, fails);
    BlockedIff(library.files, request, hash, fails);
    CopiedIff(request.input, request.maximum, fails);
    var content := Delivered(request.input).value;
    assert Recorded(library.rows, request.project, hash(content)) <==>
           exists id | id in library.rows ::
             library.rows[id].project == request.project && library.rows[id].sha256 == hash(content);
    FaultlessCopy(request.input, request.maximum, fails);
    if request.name.Some? {
      FirstFreeMeans(library.files, request.project, hash(content)[..2], request.name.value, 1);
    }
  }

  lemma FaultlessCopy(input: seq<Read>, maximum: nat, fails: Fault -> bool)
    requires Delivered(input).Some? && forall fault :: !fails(fault)
    ensures |Delivered(input).value| > maximum ==> Copied(input, maximum, fails) == Err(FileTooLarge)
    ensures |Delivered(input).value| <= maximum ==> Copied(input, maximum, fails) == Ok(Delivered(input).value)
  {
    CopiedIff(input, maximum, fails);
    DeliveredIsTotal(input);
    if |Delivered(input).value| > maximum {
      var n := FirstOver(input, maximum, Reads(input));
      assert ExceedsAt(input, maximum, fails, n);
    }
  }

  // ---------------------------------------------------------------------
  // Any number of imports
  // ---------------------------------------------------------------------

  datatype Attempt = Attempt(request: Request, fails: Fault -> bool)

  ghost function After(library: Library, attempts: seq<Attempt>, hash: string -> string): Library
    requires HexDigests(hash)
  {
    if attempts == [] then library
    else
      var last := attempts[|attempts| - 1];
      Performed(After(library, attempts[..|attempts| - 1], hash), last.request, hash, last.fails).1
  }

  ghost predicate StrayAt(library: Library, attempts: seq<Attempt>, hash: string -> string, i: nat)
    requires HexDigests(hash) && i < |attempts|
  {
    LeavesStray(After(library, attempts[..i], hash), attempts[i].request, hash, attempts[i].fails)
  }

  lemma {:induction false} ImportsKeep(library: Library, attempts: seq<Attempt>, hash: string -> string)
    requires HexDigests(hash) && Anchored(library, hash)
    ensures Anchored(After(library, attempts, hash), hash) && Kept(library, After(library, attempts, hash))
  {
    hide HexDigests, Anchored, Performed;
    if attempts != [] {
      var front, last := attempts[..|attempts| - 1], attempts[|attempts| - 1];
      ImportsKeep(library, front, hash);
      ImportKeeps(After(library, front, hash), last.request, hash, last.fails);
    }
  }

  // Over any sequence of imports, failing or not, files and revisions still
  // correspond one to one if and only if no attempt left a stray.
  lemma {:induction false} OneToOneIffNoStrayLeft(library: Library, attempts: seq<Attempt>, hash: string -> string)
    requires HexDigests(hash) && Anchored(library, hash) && OneToOne(library)
    ensures OneToOne(After(library, attempts, hash)) <==>
            forall i | 0 <= i < |attempts| :: !StrayAt(library, attempts, hash, i)
  {
    hide HexDigests, Anchored, Performed, OneToOne, LeavesStray;
    ImportsKeep(library, attempts, hash);
    OneToOneIffNoStrays(After(library, attempts, hash), hash);
    if attempts != [] {
      var front, last := attempts[..|attempts| - 1], attempts[|attempts| - 1];
      OneToOneIffNoStrayLeft(library, front, hash);
      ImportsKeep(library, front, hash);
      OneToOneIffNoStrays(After(library, front, hash), hash);
      ImportKeeps(After(library, front, hash), last.request, hash, last.fails);
      assert forall i | 0 <= i < |front| :: front[..i] == attempts[..i];
      assert forall i | 0 <= i < |front| :: StrayAt(library, front, hash, i) <==> StrayAt(library, attempts, hash, i);
      assert StrayAt(library, attempts, hash, |front|)
         <==> LeavesStray(After(library, front, hash), last.request, hash, last.fails);
    }
  }

  // In particular when no discard fails and no hardening fails together with
  // its clean-up.
  lemma {:induction false} CleanRunsStayOneToOne(library: Library, attempts: seq<Attempt>, hash: string -> string)
    requires HexDigests(hash) && Anchored(library, hash) && OneToOne(library)
    requires forall i | 0 <= i < |attempts| ::
               !attempts[i].fails(Discard) && !(attempts[i].fails(Harden) && attempts[i].fails(Undo))
    ensures OneToOne(After(library, attempts, hash))
  {
    hide HexDigests, Anchored, Performed, OneToOne, Blocked;
    OneToOneIffNoStrayLeft(library, attempts, hash);
  }

  // A content imported into a project again, whatever happened in between,
  // gives the revision it got the first time.
  lemma {:induction false} SameContentSameRevision(library: Library, first: Attempt, between: seq<Attempt>,
                                                   again: Attempt, hash: string -> string)
    requires HexDigests(hash) && Anchored(library, hash)
    requires again.request.project == first.request.project
    requires Delivered(again.request.input) == Delivered(first.request.input)
    ensures var (r, stored) := Performed(library, first.request, hash, first.fails);
            var (s, _) := Performed(After(stored, between, hash), again.request, hash, again.fails);
            r.Ok? && s.Ok? ==> s.value == r.value
  {
    hide HexDigests, Anchored, Performed, Delivered, Blocked;
    var (r, stored) := Performed(library, first.request, hash, first.fails);
    ImportKeeps(library, first.request, hash, first.fails);
    ImportSucceedsIff(library, first.request, hash, first.fails);
    ImportsKeep(stored, between, hash);
    var later := After(stored, between, hash);
    ImportSucceedsIff(later, again.request, hash, again.fails);
    if r.Ok? {
      HeldIsUnique(later, hash, r.value.project, r.value.sha256, r.value);
    }
  }
}
