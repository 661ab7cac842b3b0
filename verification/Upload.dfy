/** Streaming file uploads: all or nothing on disk, with a size bound checked before every write. */
module Uploads {
  import opened Wrappers

  type Bytes = seq<bv8>

  /** Where a stored file lives: a directory and the generated unique name. */
  datatype Path = Path(dir: string, name: string)

  type Files = map<Path, Bytes>

  datatype FieldConfig = FieldConfig(required: bool, maxFileSize: int, allowed: seq<string>, maxFiles: int,
                                     typeLimits: map<string, int>)

  datatype Config = Config(maxFileSize: int, fields: map<string, FieldConfig>, typeLimits: map<string, int>,
                           uploadPath: string, tempPath: string, keep: bool)

  /** How one `Read` ends: more to come, end of the part, or an I/O error. */
  datatype ReadEnd = More | Eof | Broken

  /** What the destination does with the data of one read: takes it all, or fails after `taken` bytes. */
  datatype Written = Whole | Short(taken: nat)

  datatype Read = Read(data: Bytes, end: ReadEnd, written: Written)

  /** One part of the form. `unique` is the generated file name; `ext` the lower-cased extension. */
  datatype Part =
    | Value(field: string, stream: seq<Read>)
    | File(field: string, filename: string, ext: string, mime: string, unique: string, createFails: bool,
           stream: seq<Read>)

  datatype UploadedFile = UploadedFile(field: string, original: string, name: string, size: nat, ext: string,
                                       mime: string, path: Path, tempPath: Option<Path>)

  /** The fate of a part, a stream or a request. */
  datatype Fate = Fine | Refused(status: nat) | Crashed

  // What one part's reads deliver

  /** The bytes delivered up to the read that ends the part. */
  function Payload(stream: seq<Read>): Bytes {
    if stream == [] then [] else stream[0].data + if stream[0].end.More? then Payload(stream[1..]) else []
  }

  predicate ReadsFine(stream: seq<Read>) {
    stream == [] || (!stream[0].end.Broken? && (stream[0].end.More? ==> ReadsFine(stream[1..])))
  }

  predicate WritesFine(stream: seq<Read>) {
    stream != [] ==>
      && (stream[0].data == [] || stream[0].written.Whole?)
      && (stream[0].end.More? ==> WritesFine(stream[1..]))
  }

  /** What happens to a stream of which `total` bytes have arrived: size first, then write, then read errors. */
  function StreamFate(limit: int, total: nat, stream: seq<Read>): Fate
    decreases |stream|
  {
    if stream == [] then Fine
    else
      var now := total + |stream[0].data|;
      if stream[0].data != [] && 0 < limit < now then Refused(413)
      else if stream[0].data != [] && stream[0].written.Short? then Refused(500)
      else match stream[0].end
           case Eof => Fine
           case Broken => Refused(400)
           case More => StreamFate(limit, now, stream[1..])
  }

  /** Without I/O failures, the verdict on a stream depends on its total length alone. */
  lemma {:induction false} SizeDecides(limit: int, total: nat, stream: seq<Read>)
    requires ReadsFine(stream) && WritesFine(stream)
    requires 0 < limit ==> total <= limit
    ensures StreamFate(limit, total, stream)
         == if 0 < limit < total + |Payload(stream)| then Refused(413) else Fine
    decreases |stream|
  {
    if stream != [] && stream[0].end.More? {
      var now := total + |stream[0].data|;
      if 0 < limit < now {
        assert stream[0].data != [];
      } else {
        SizeDecides(limit, now, stream[1..]);
      }
    }
  }

  /** However the same bytes are cut into reads, the verdict is the same. */
  lemma {:induction false} ChunkingIsIrrelevant(limit: int, one: seq<Read>, other: seq<Read>)
    requires ReadsFine(one) && WritesFine(one) && ReadsFine(other) && WritesFine(other)
    requires Payload(one) == Payload(other)
    ensures StreamFate(limit, 0, one) == StreamFate(limit, 0, other)
  {
    SizeDecides(limit, 0, one);
    SizeDecides(limit, 0, other);
  }

  /** A stream is taken exactly when nothing fails and its whole payload fits. */
  lemma {:induction false} TakenIff(limit: int, total: nat, stream: seq<Read>)
    requires 0 < limit ==> total <= limit
    ensures StreamFate(limit, total, stream).Fine?
       <==> ReadsFine(stream) && WritesFine(stream) && (0 < limit ==> total + |Payload(stream)| <= limit)
    decreases |stream|
  {
    if ReadsFine(stream) && WritesFine(stream) {
      SizeDecides(limit, total, stream);
    } else if stream != [] && stream[0].end.More? {
      var now := total + |stream[0].data|;
      if 0 < limit < now {
        assert stream[0].data != [];
      } else {
        TakenIff(limit, now, stream[1..]);
      }
    }
  }

  // Limits and extensions

  function MaxFileSize(config: Config, ext: string, field: FieldConfig): int {
    if ext in field.typeLimits then field.typeLimits[ext]
    else if field.maxFileSize > 0 then field.maxFileSize
    else if ext in config.typeLimits then config.typeLimits[ext]
    else config.maxFileSize
  }

  /** A type entry of zero or less on the field lifts every other limit, global ones included. */
  lemma {:induction false} TypeEntryCanLiftLimits(config: Config, ext: string, field: FieldConfig, stream: seq<Read>)
    requires ext in field.typeLimits && field.typeLimits[ext] <= 0
    requires ReadsFine(stream) && WritesFine(stream)
    ensures StreamFate(MaxFileSize(config, ext, field), 0, stream) == Fine
  {
    SizeDecides(MaxFileSize(config, ext, field), 0, stream);
  }

  predicate Allows(field: FieldConfig, ext: string) {
    field.allowed == [] || ext in field.allowed
  }

  function TargetPath(config: Config, part: Part): Path
    requires part.File?
  {
    Path(if config.keep then config.uploadPath else config.tempPath, part.unique)
  }

  function Described(config: Config, part: Part): UploadedFile
    requires part.File?
  {
    var path := TargetPath(config, part);
    UploadedFile(part.field, part.filename, part.unique, |Payload(part.stream)|, part.ext,
                 if part.mime == "" then "application/octet-stream" else part.mime, path,
                 if config.keep then None else Some(path))
  }

  function FileFate(config: Config, part: Part): Fate
    requires part.File?
  {
    if part.ext == "" then Refused(400)
    else if part.field !in config.fields then Crashed
    else if !Allows(config.fields[part.field], part.ext) then Refused(415)
    else if part.createFails then Refused(500)
    else StreamFate(MaxFileSize(config, part.ext, config.fields[part.field]), 0, part.stream)
  }

  function PartFate(config: Config, part: Part): Fate {
    if part.field == "" then Fine
    else match part
         case Value(_, stream) => if ReadsFine(stream) then Fine else Refused(400)
         case File(_, _, _, _, _, _, _) => FileFate(config, part)
  }

  // What a run of parts leaves behind, in terms of the parts alone

  predicate Stores(part: Part) {
    part.File? && part.field != ""
  }

  function PartsFate(config: Config, parts: seq<Part>): Fate {
    if parts == [] then Fine
    else
      var before := PartsFate(config, parts[..|parts| - 1]);
      if before != Fine then before else PartFate(config, parts[|parts| - 1])
  }

  function Saved(config: Config, parts: seq<Part>): Files {
    if parts == [] then map[]
    else
      var part := parts[|parts| - 1];
      var before := Saved(config, parts[..|parts| - 1]);
      if Stores(part) then before[TargetPath(config, part) := Payload(part.stream)] else before
  }

  function FilesUnder(config: Config, parts: seq<Part>, field: string): seq<UploadedFile> {
    if parts == [] then []
    else
      var part := parts[|parts| - 1];
      FilesUnder(config, parts[..|parts| - 1], field)
      + if Stores(part) && part.field == field then [Described(config, part)] else []
  }

  function ValuesUnder(parts: seq<Part>, field: string): seq<Bytes> {
    if parts == [] then []
    else
      var part := parts[|parts| - 1];
      ValuesUnder(parts[..|parts| - 1], field)
      + if part.Value? && part.field != "" && part.field == field then [Payload(part.stream)] else []
  }

  predicate FieldMet(field: FieldConfig, count: nat) {
    var most := if field.maxFiles == 0 then 1 else field.maxFiles;
    (field.required ==> count > 0) && (most > 0 ==> count <= most)
  }

  ghost predicate RequirementsMet(config: Config, parts: seq<Part>) {
    forall f | f in config.fields :: FieldMet(config.fields[f], |FilesUnder(config, parts, f)|)
  }

  /** The generated names are new: no two parts share a path and none is on disk yet. */
  ghost predicate FreshNames(config: Config, parts: seq<Part>, disk: Files) {
    && (forall i | 0 <= i < |parts| && parts[i].File? :: TargetPath(config, parts[i]) !in disk)
    && (forall i, j | 0 <= i < j < |parts| && parts[i].File? && parts[j].File? ::
          TargetPath(config, parts[i]) != TargetPath(config, parts[j]))
  }

  /** A form is a well-formed multipart request or not, with parts that end properly or break off. */
  datatype Form = Form(multipart: bool, readable: bool, parts: seq<Part>, complete: bool)

  ghost function RequestFate(config: Config, form: Form): Fate {
    if !form.multipart || !form.readable then Refused(400)
    else if PartsFate(config, form.parts) != Fine then PartsFate(config, form.parts)
    else if !form.complete then Refused(400)
    else if !RequirementsMet(config, form.parts) then Refused(400)
    else Fine
  }

  /** Every file part that is taken names a declared field, an allowed extension and a payload that fits. */
  ghost predicate Acceptable(config: Config, part: Part) {
    part.field != "" ==>
      && ReadsFine(part.stream)
      && (part.File? ==>
            && part.ext != "" && part.field in config.fields && !part.createFails && WritesFine(part.stream)
            && Allows(config.fields[part.field], part.ext)
            && var limit := MaxFileSize(config, part.ext, config.fields[part.field]);
               0 < limit ==> |Payload(part.stream)| <= limit)
  }

  lemma {:induction false} FineIffAcceptable(config: Config, part: Part)
    ensures PartFate(config, part).Fine? <==> Acceptable(config, part)
  {
    if part.File? && part.field in config.fields {
      TakenIff(MaxFileSize(config, part.ext, config.fields[part.field]), 0, part.stream);
    }
  }

  lemma {:induction false} PartsFineIff(config: Config, parts: seq<Part>)
    ensures PartsFate(config, parts).Fine? <==> forall i | 0 <= i < |parts| :: Acceptable(config, parts[i])
  {
    if parts != [] {
      PartsFineIff(config, parts[..|parts| - 1]);
      FineIffAcceptable(config, parts[|parts| - 1]);
    }
  }

  /** The whole verdict, part by part: order of parts and chunking of reads play no role in acceptance. */
  lemma {:induction false} AcceptedIff(config: Config, form: Form)
    ensures RequestFate(config, form).Fine?
       <==> && form.multipart && form.readable && form.complete
            && (forall i | 0 <= i < |form.parts| :: Acceptable(config, form.parts[i]))
            && RequirementsMet(config, form.parts)
  {
    PartsFineIff(config, form.parts);
  }

  /** The part at which a form crashes, if it does: a file with an extension for an undeclared field. */
  ghost predicate CrashesAt(config: Config, parts: seq<Part>, k: nat) {
    && k < |parts|
    && parts[k].File? && parts[k].field != "" && parts[k].ext != "" && parts[k].field !in config.fields
    && forall i | 0 <= i < k :: Acceptable(config, parts[i])
  }

  lemma {:induction false} StreamNeverCrashes(limit: int, total: nat, stream: seq<Read>)
    ensures !StreamFate(limit, total, stream).Crashed?
    decreases |stream|
  {
    if stream != [] {
      StreamNeverCrashes(limit, total + |stream[0].data|, stream[1..]);
    }
  }

  /** A form crashes the handler exactly when such a part comes before anything is refused. */
  lemma {:induction false} CrashesIff(config: Config, parts: seq<Part>)
    ensures PartsFate(config, parts).Crashed? <==> exists k: nat :: CrashesAt(config, parts, k)
  {
    if parts != [] {
      var n := |parts| - 1;
      var front, last := parts[..n], parts[n];
      CrashesIff(config, front);
      PartsFineIff(config, front);
      if last.File? && last.field in config.fields {
        StreamNeverCrashes(MaxFileSize(config, last.ext, config.fields[last.field]), 0, last.stream);
      }
      if PartsFate(config, front).Crashed? {
        var k: nat :| CrashesAt(config, front, k);
        assert CrashesAt(config, parts, k);
      } else if PartsFate(config, front).Fine? {
        if PartFate(config, last).Crashed? {
          assert CrashesAt(config, parts, n);
        }
        if k: nat :| CrashesAt(config, parts, k) {
          assert k < n ==> CrashesAt(config, front, k);
        }
      } else {
        forall k: nat ensures !CrashesAt(config, parts, k) {
          assert k < n && CrashesAt(config, parts, k) ==> CrashesAt(config, front, k);
          assert forall i | 0 <= i < n :: front[i] == parts[i];
        }
      }
    }
  }

  // The disk

  /** The files on disk, with every state they have been in. */
  class Disk {
    var files: Files
    ghost var history: seq<Files>

    method Create(path: Path)
      modifies this
      ensures files == old(files)[path := []] && history == old(history) + [files]
    {
      files := files[path := []];
      history := history + [files];
    }

    method Append(path: Path, data: Bytes)
      requires path in files
      modifies this
      ensures files == old(files)[path := old(files)[path] + data] && history == old(history) + [files]
    {
      files := files[path := files[path] + data];
      history := history + [files];
    }

    method Remove(path: Path)
      modifies this
      ensures files == old(files) - {path} && history == old(history) + [files]
    {
      files := files - {path};
      history := history + [files];
    }
  }

  datatype Stored = Stored(file: UploadedFile) | NotStored(fate: Fate)

  datatype Answer = Accepted(files: map<string, seq<UploadedFile>>, values: map<string, seq<Bytes>>)
                  | Rejected(fate: Fate)

  ghost predicate Lists(files: map<string, seq<UploadedFile>>, config: Config, parts: seq<Part>) {
    && (forall f | f in files :: files[f] != [] && files[f] == FilesUnder(config, parts, f))
    && (forall f | f !in files :: FilesUnder(config, parts, f) == [])
  }

  ghost predicate Values(values: map<string, seq<Bytes>>, parts: seq<Part>) {
    && (forall f | f in values :: values[f] == ValuesUnder(parts, f))
    && (forall f | f !in values :: ValuesUnder(parts, f) == [])
  }

  function Paths(list: seq<UploadedFile>): set<Path> {
    set i | 0 <= i < |list| :: list[i].path
  }

  ghost function AllPaths(files: map<string, seq<UploadedFile>>): set<Path> {
    set f, i | f in files && 0 <= i < |files[f]| :: files[f][i].path
  }

  lemma {:induction false} UnderIsSaved(config: Config, parts: seq<Part>, field: string, i: nat)
    requires i < |FilesUnder(config, parts, field)|
    ensures FilesUnder(config, parts, field)[i].path in Saved(config, parts)
    ensures FilesUnder(config, parts, field)[i].tempPath
         == if config.keep then None else Some(FilesUnder(config, parts, field)[i].path)
  {
    var front := parts[..|parts| - 1];
    if i < |FilesUnder(config, front, field)| {
      UnderIsSaved(config, front, field, i);
    }
  }

  lemma {:induction false} SavedIsUnder(config: Config, parts: seq<Part>, path: Path) returns (field: string, i: nat)
    requires path in Saved(config, parts)
    ensures i < |FilesUnder(config, parts, field)| && FilesUnder(config, parts, field)[i].path == path
  {
    var front, last := parts[..|parts| - 1], parts[|parts| - 1];
    if Stores(last) && TargetPath(config, last) == path {
      field, i := last.field, |FilesUnder(config, front, last.field)|;
    } else {
      field, i := SavedIsUnder(config, front, path);
    }
  }

  /** The paths in the returned lists are exactly the paths of the files written. */
  lemma {:induction false} ListsAreSaved(files: map<string, seq<UploadedFile>>, config: Config, parts: seq<Part>)
    requires Lists(files, config, parts)
    ensures AllPaths(files) == Saved(config, parts).Keys
  {
    forall path | path in AllPaths(files) ensures path in Saved(config, parts) {
      var f, i :| f in files && 0 <= i < |files[f]| && files[f][i].path == path;
      UnderIsSaved(config, parts, f, i);
    }
    forall path | path in Saved(config, parts) ensures path in AllPaths(files) {
      var f, i := SavedIsUnder(config, parts, path);
      assert f in files && files[f][i].path == path;
    }
  }

  lemma {:induction false} SavedAreTargets(config: Config, parts: seq<Part>, path: Path) returns (i: nat)
    requires path in Saved(config, parts)
    ensures i < |parts| && Stores(parts[i]) && TargetPath(config, parts[i]) == path
    ensures Saved(config, parts)[path] == Payload(parts[i].stream)
  {
    var last := parts[|parts| - 1];
    if Stores(last) && TargetPath(config, last) == path {
      i := |parts| - 1;
    } else {
      i := SavedAreTargets(config, parts[..|parts| - 1], path);
    }
  }

  lemma {:induction false} SavedIsNew(config: Config, parts: seq<Part>, disk: Files)
    requires FreshNames(config, parts, disk)
    ensures Saved(config, parts).Keys !! disk.Keys
  {
    forall path | path in Saved(config, parts) ensures path !in disk {
      var i := SavedAreTargets(config, parts, path);
    }
  }

  lemma {:induction false} NextIsNew(config: Config, parts: seq<Part>, disk: Files, k: nat)
    requires FreshNames(config, parts, disk) && k < |parts| && parts[k].File?
    ensures TargetPath(config, parts[k]) !in disk + Saved(config, parts[..k])
  {
    if TargetPath(config, parts[k]) in Saved(config, parts[..k]) {
      var i := SavedAreTargets(config, parts[..k], TargetPath(config, parts[k]));
    }
  }

  ghost function PathsUnder(files: map<string, seq<UploadedFile>>, fields: set<string>): set<Path> {
    set f, i | f in files && f in fields && 0 <= i < |files[f]| :: files[f][i].path
  }

  function Temps(list: seq<UploadedFile>): set<Path> {
    set i | 0 <= i < |list| && list[i].tempPath.Some? :: list[i].tempPath.value
  }

  ghost function TempPaths(files: map<string, seq<UploadedFile>>, fields: set<string>): set<Path> {
    set f, i | f in files && f in fields && 0 <= i < |files[f]| && files[f][i].tempPath.Some? ::
      files[f][i].tempPath.value
  }

  lemma {:induction false} TempsAreAll(files: map<string, seq<UploadedFile>>, config: Config, parts: seq<Part>)
    requires Lists(files, config, parts)
    ensures TempPaths(files, files.Keys) == if config.keep then {} else AllPaths(files)
  {
    forall f, i: nat | f in files && i < |files[f]|
      ensures files[f][i].tempPath == if config.keep then None else Some(files[f][i].path)
    {
      UnderIsSaved(config, parts, f, i);
    }
  }

  /** From index `since` on, each of the states is part of `files`. */
  ghost predicate OnlyRemoves(states: seq<Files>, since: nat, files: Files) {
    forall i | since <= i < |states| :: IsPart(states[i], files)
  }

  ghost predicate IsPart(state: Files, files: Files) {
    state == files - (files.Keys - state.Keys)
  }

  /** A file in `state` was there before, unchanged, or belongs to a part whose limit it respects. */
  ghost predicate SafeState(config: Config, parts: seq<Part>, before: Files, state: Files) {
    forall path | path in state ::
      (path in before && state[path] == before[path]) || exists k: nat :: Fits(config, parts, k, path, |state[path]|)
  }

  ghost predicate Fits(config: Config, parts: seq<Part>, k: nat, path: Path, size: nat) {
    && k < |parts| && parts[k].File? && TargetPath(config, parts[k]) == path && parts[k].field in config.fields
    && var limit := MaxFileSize(config, parts[k].ext, config.fields[parts[k].field]);
       0 < limit ==> size <= limit
  }

  ghost predicate SafeStates(config: Config, parts: seq<Part>, before: Files, states: seq<Files>, since: nat) {
    forall i | since <= i < |states| :: SafeState(config, parts, before, states[i])
  }

  lemma {:induction false} SavedIsSafe(config: Config, parts: seq<Part>, k: nat, before: Files)
    requires k <= |parts| && PartsFate(config, parts[..k]).Fine?
    ensures SafeState(config, parts, before, before + Saved(config, parts[..k]))
  {
    var state := before + Saved(config, parts[..k]);
    PartsFineIff(config, parts[..k]);
    forall path | path in Saved(config, parts[..k])
      ensures exists j: nat :: Fits(config, parts, j, path, |state[path]|)
    {
      var j := SavedAreTargets(config, parts[..k], path);
      assert Acceptable(config, parts[..k][j]);
      assert Fits(config, parts, j, path, |state[path]|);
    }
  }

  lemma {:induction false} ReceivingIsSafe(config: Config, parts: seq<Part>, k: nat, before: Files,
          states: seq<Files>, since: nat)
    requires k < |parts| && PartsFate(config, parts[..k]).Fine?
    requires parts[k].File? && parts[k].field in config.fields
    requires Within(MaxFileSize(config, parts[k].ext, config.fields[parts[k].field]), TargetPath(config, parts[k]),
                    before + Saved(config, parts[..k]), states, since)
    ensures SafeStates(config, parts, before, states, since)
  {
    var path := TargetPath(config, parts[k]);
    var files := before + Saved(config, parts[..k]);
    SavedIsSafe(config, parts, k, before);
    forall i | since <= i < |states| ensures SafeState(config, parts, before, states[i]) {
      var state := states[i];
      assert StateWithin(MaxFileSize(config, parts[k].ext, config.fields[parts[k].field]), path, files, state);
      forall q | q in state
        ensures (q in before && state[q] == before[q]) || exists j: nat :: Fits(config, parts, j, q, |state[q]|)
      {
        if q == path {
          assert Fits(config, parts, k, q, |state[q]|);
        } else {
          assert q in state - {path};
          assert q in files && state[q] == files[q];
        }
      }
    }
  }

  lemma {:induction false} RemovingIsSafe(config: Config, parts: seq<Part>, before: Files, files: Files,
          states: seq<Files>, since: nat)
    requires SafeState(config, parts, before, files) && OnlyRemoves(states, since, files)
    ensures SafeStates(config, parts, before, states, since)
  {
    forall i | since <= i < |states| ensures SafeState(config, parts, before, states[i]) {
      assert IsPart(states[i], files);
      assert forall q | q in states[i] :: q in files && states[i][q] == files[q];
    }
  }

  lemma {:induction false} SafeStatesJoin(config: Config, parts: seq<Part>, before: Files, one: seq<Files>,
          two: seq<Files>, since: nat)
    requires one <= two && SafeStates(config, parts, before, one, since)
             && SafeStates(config, parts, before, two, |one|)
    ensures SafeStates(config, parts, before, two, since)
  {
    forall i | since <= i < |two| ensures SafeState(config, parts, before, two[i]) {
      assert i < |one| ==> two[i] == one[i];
    }
  }

  /** After the first `k` parts: what is on disk, and what has been collected. */
  ghost predicate Collected(config: Config, parts: seq<Part>, k: nat, before: Files, now: Files,
          files: map<string, seq<UploadedFile>>, values: map<string, seq<Bytes>>) {
    && k <= |parts|
    && PartsFate(config, parts[..k]).Fine?
    && now == before + Saved(config, parts[..k])
    && Lists(files, config, parts[..k])
    && Values(values, parts[..k])
  }

  /** Removing the listed files undoes everything collected so far. */
  lemma {:induction false} CleaningUndoes(config: Config, parts: seq<Part>, k: nat, before: Files, now: Files,
          files: map<string, seq<UploadedFile>>, values: map<string, seq<Bytes>>)
    requires Collected(config, parts, k, before, now, files, values) && FreshNames(config, parts, before)
    ensures now - AllPaths(files) == before
  {
    ListsAreSaved(files, config, parts[..k]);
    assert FreshNames(config, parts[..k], before);
    SavedIsNew(config, parts[..k], before);
  }

  lemma {:induction false} NextPart(parts: seq<Part>, k: nat)
    requires k < |parts|
    ensures parts[..k + 1][..k] == parts[..k] && parts[..k + 1][k] == parts[k] && |parts[..k + 1]| == k + 1
  {
  }

  lemma {:induction false} SkipCollects(config: Config, parts: seq<Part>, k: nat, before: Files, now: Files,
          files: map<string, seq<UploadedFile>>, values: map<string, seq<Bytes>>)
    requires Collected(config, parts, k, before, now, files, values)
    requires k < |parts| && parts[k].field == ""
    ensures Collected(config, parts, k + 1, before, now, files, values)
  {
    NextPart(parts, k);
  }

  lemma {:induction false} ValueCollects(config: Config, parts: seq<Part>, k: nat, before: Files, now: Files,
          files: map<string, seq<UploadedFile>>, values: map<string, seq<Bytes>>)
    requires Collected(config, parts, k, before, now, files, values)
    requires k < |parts| && parts[k].field != "" && parts[k].Value? && ReadsFine(parts[k].stream)
    ensures var f := parts[k].field;
            var list := (if f in values then values[f] else []) + [Payload(parts[k].stream)];
            Collected(config, parts, k + 1, before, now, files, values[f := list])
  {
    NextPart(parts, k);
  }

  lemma {:induction false} ListsGrow(files: map<string, seq<UploadedFile>>, config: Config, parts: seq<Part>, k: nat)
    requires k < |parts| && Stores(parts[k]) && Lists(files, config, parts[..k])
    ensures var f := parts[k].field;
            var list := (if f in files then files[f] else []) + [Described(config, parts[k])];
            Lists(files[f := list], config, parts[..k + 1])
  {
    NextPart(parts, k);
    var f := parts[k].field;
    var more := files[f := (if f in files then files[f] else []) + [Described(config, parts[k])]];
    forall g ensures FilesUnder(config, parts[..k + 1], g) == if g in more then more[g] else [] {
      assert FilesUnder(config, parts[..k], g) == if g in files then files[g] else [];
    }
  }

  lemma {:induction false} FileCollects(config: Config, parts: seq<Part>, k: nat, before: Files, now: Files,
          files: map<string, seq<UploadedFile>>, values: map<string, seq<Bytes>>)
    requires Collected(config, parts, k, before, now, files, values)
    requires k < |parts| && Stores(parts[k]) && FileFate(config, parts[k]).Fine?
    ensures var f := parts[k].field;
            var list := (if f in files then files[f] else []) + [Described(config, parts[k])];
            Collected(config, parts, k + 1, before, now[TargetPath(config, parts[k]) := Payload(parts[k].stream)],
                      files[f := list], values)
  {
    NextPart(parts, k);
    ListsGrow(files, config, parts, k);
    ValuesStay(values, parts, k);
    SavedGrows(config, parts, k, before);
  }

  lemma {:induction false} ValuesStay(values: map<string, seq<Bytes>>, parts: seq<Part>, k: nat)
    requires k < |parts| && parts[k].File? && Values(values, parts[..k])
    ensures Values(values, parts[..k + 1])
  {
    NextPart(parts, k);
    forall g ensures ValuesUnder(parts[..k + 1], g) == ValuesUnder(parts[..k], g) {
    }
  }

  lemma {:induction false} SavedGrows(config: Config, parts: seq<Part>, k: nat, before: Files)
    requires k < |parts| && Stores(parts[k])
    ensures var path := TargetPath(config, parts[k]);
            (before + Saved(config, parts[..k]))[path := Payload(parts[k].stream)] ==
              before + Saved(config, parts[..k + 1])
  {
    NextPart(parts, k);
    var path := TargetPath(config, parts[k]);
    assert Saved(config, parts[..k + 1]) == Saved(config, parts[..k])[path := Payload(parts[k].stream)];
  }

  /** A fate reached after `k` parts is the fate of the whole. */
  lemma {:induction false} FateSettled(config: Config, parts: seq<Part>, k: nat)
    requires k <= |parts| && PartsFate(config, parts[..k]) != Fine
    ensures PartsFate(config, parts) == PartsFate(config, parts[..k])
    decreases |parts|
  {
    if k < |parts| {
      assert parts[..|parts| - 1][..k] == parts[..k];
      FateSettled(config, parts[..|parts| - 1], k);
    } else {
      assert parts[..k] == parts;
    }
  }

  lemma {:induction false} CrashIsHere(config: Config, parts: seq<Part>, k: nat)
    requires k < |parts| && Stores(parts[k]) && PartsFate(config, parts[..k]).Fine?
             && FileFate(config, parts[k]).Crashed?
    ensures CrashesAt(config, parts, k)
  {
    PartsFineIff(config, parts[..k]);
    forall i | 0 <= i < k ensures Acceptable(config, parts[i]) {
      assert Acceptable(config, parts[..k][i]);
    }
    if parts[k].field in config.fields {
      StreamNeverCrashes(MaxFileSize(config, parts[k].ext, config.fields[parts[k].field]), 0, parts[k].stream);
    }
  }

  /** The loop over the reads of one part has written `written`, with `rest` still to come. */
  ghost predicate Streaming(limit: int, stream: seq<Read>, written: Bytes, rest: seq<Read>) {
    && StreamFate(limit, 0, stream) == StreamFate(limit, |written|, rest)
    && Payload(stream) == written + Payload(rest)
    && (0 < limit ==> |written| <= limit)
  }

  lemma {:induction false} StreamingStep(limit: int, stream: seq<Read>, written: Bytes, rest: seq<Read>)
    requires Streaming(limit, stream, written, rest) && rest != []
    ensures rest[0].data != [] && 0 < limit < |written| + |rest[0].data|
        ==> StreamFate(limit, 0, stream) == Refused(413)
    ensures !(rest[0].data != [] && 0 < limit < |written| + |rest[0].data|) ==>
              if rest[0].data != [] && rest[0].written.Short? then StreamFate(limit, 0, stream) == Refused(500)
              else if rest[0].end.Broken? then StreamFate(limit, 0, stream) == Refused(400)
              else Streaming(limit, stream, written + rest[0].data, if rest[0].end.Eof? then [] else rest[1..])
  {
    var read, tail := rest[0], if rest[0].end.More? then Payload(rest[1..]) else [];
    assert Payload(rest) == read.data + tail;
    assert written + (read.data + tail) == (written + read.data) + tail;
    assert StreamFate(limit, 0, stream) == StreamFate(limit, |written|, rest);
  }

  lemma {:induction false} StreamingEnds(limit: int, stream: seq<Read>, written: Bytes, rest: seq<Read>)
    requires Streaming(limit, stream, written, rest) && rest == []
    ensures StreamFate(limit, 0, stream) == Fine && Payload(stream) == written
  {
    assert written + [] == written;
  }

  /** From index `since` on, each of the states holds the same other files, and at `path`
      nothing longer than the limit allows. */
  ghost predicate Within(limit: int, path: Path, others: Files, states: seq<Files>, since: nat) {
    forall i | since <= i < |states| :: StateWithin(limit, path, others, states[i])
  }

  ghost predicate StateWithin(limit: int, path: Path, others: Files, state: Files) {
    && state - {path} == others
    && (path in state && 0 < limit ==> |state[path]| <= limit)
  }

  class UploadHandler {
    const config: Config
    const disk: Disk

    constructor (config: Config, disk: Disk)
      ensures this.config == config && this.disk == disk
    {
      this.config, this.disk := config, disk;
    }

    /** Handles the outcome of one read, of which `written` had arrived before. */
    method TakeRead(limit: int, path: Path, written: nat, read: Read, ghost others: Files)
      returns (fate: Fate, total: nat)
      requires path in disk.files && written == |disk.files[path]| && disk.files - {path} == others
      requires 0 < limit ==> written <= limit
      modifies disk
      ensures fate == if read.data != [] && 0 < limit < written + |read.data| then Refused(413)
                      else if read.data != [] && read.written.Short? then Refused(500)
                      else if read.end.Broken? then Refused(400)
                      else Fine
      ensures fate.Fine? ==>
                disk.files == old(disk.files)[path := old(disk.files)[path] + read.data]
                  && total == written + |read.data|
      ensures !fate.Fine? ==> disk.files == others
      ensures old(disk.history) <= disk.history
      ensures Within(limit, path, others, disk.history, |old(disk.history)|)
    {
      total := written + |read.data|;
      if read.data != [] {
        if limit > 0 && total > limit {
          disk.Remove(path);
          return Refused(413), total;
        }
        if read.written.Short? {
          var taken := if read.written.taken < |read.data| then read.written.taken else |read.data|;
          disk.Append(path, read.data[..taken]);
          disk.Remove(path);
          return Refused(500), total;
        }
        disk.Append(path, read.data);
      } else {
        assert disk.files[path] + read.data == disk.files[path];
      }
      if read.end.Broken? {
        disk.Remove(path);
        return Refused(400), total;
      }
      fate := Fine;
    }

    /** Copies a part to a new file, checking the size before every write; a failure removes the file again. */
    method Receive(limit: int, path: Path, stream: seq<Read>) returns (fate: Fate, total: nat)
      requires path !in disk.files
      modifies disk
      ensures fate == StreamFate(limit, 0, stream)
      ensures fate.Fine? ==> disk.files == old(disk.files)[path := Payload(stream)] && total == |Payload(stream)|
      ensures !fate.Fine? ==> disk.files == old(disk.files)
      ensures old(disk.history) <= disk.history
      ensures Within(limit, path, old(disk.files), disk.history, |old(disk.history)|)
    {
      ghost var others, was := disk.files, |disk.history|;
      disk.Create(path);
      total := 0;
      var i, done := 0, false;
      while i < |stream| && !done
        invariant 0 <= i <= |stream|
        invariant path in disk.files && total == |disk.files[path]| && disk.files - {path} == others
        invariant Streaming(limit, stream, disk.files[path], if done then [] else stream[i..])
        invariant old(disk.history) <= disk.history
        invariant Within(limit, path, others, disk.history, was)
        decreases |stream| - i
      {
        StreamingStep(limit, stream, disk.files[path], stream[i..]);
        fate, total := TakeRead(limit, path, total, stream[i], others);
        if !fate.Fine? {
          return;
        }
        done := stream[i].end.Eof?;
        i := i + 1;
      }
      StreamingEnds(limit, stream, disk.files[path], if done then [] else stream[i..]);
      fate := Fine;
    }

    method ProcessStreamingFile(part: Part) returns (r: Stored)
      requires part.File?
      requires TargetPath(config, part) !in disk.files
      modifies disk
      ensures r == match FileFate(config, part) case Fine => Stored(Described(config, part)) case f => NotStored(f)
      ensures r.NotStored? ==> disk.files == old(disk.files)
      ensures r.Stored? ==> disk.files == old(disk.files)[TargetPath(config, part) := Payload(part.stream)]
      ensures old(disk.history) <= disk.history
      ensures part.field in config.fields ==>
                Within(MaxFileSize(config, part.ext, config.fields[part.field]), TargetPath(config, part),
                       old(disk.files), disk.history, |old(disk.history)|)
      ensures part.field !in config.fields ==> disk.history == old(disk.history)
    {
      var path := TargetPath(config, part);
      if part.ext == "" {
        return NotStored(Refused(400));
      }
      if part.field !in config.fields {
        return NotStored(Crashed);
      }
      var field := config.fields[part.field];
      if !Allows(field, part.ext) {
        return NotStored(Refused(415));
      }
      var limit := MaxFileSize(config, part.ext, field);
      if part.createFails {
        return NotStored(Refused(500));
      }
      var fate, total := Receive(limit, path, part.stream);
      if !fate.Fine? {
        return NotStored(fate);
      }
      r := Stored(UploadedFile(part.field, part.filename, part.unique, total, part.ext,
                               if part.mime == "" then "application/octet-stream" else part.mime, path,
                               if config.keep then None else Some(path)));
    }

    /** Removes every listed file. */
    method CleanupFiles(uploaded: map<string, seq<UploadedFile>>)
      modifies disk
      ensures disk.files == old(disk.files) - AllPaths(uploaded)
      ensures old(disk.history) <= disk.history
      ensures OnlyRemoves(disk.history, |old(disk.history)|, old(disk.files))
    {
      ghost var before, was := disk.files, |disk.history|;
      var pending := uploaded.Keys;
      while pending != {}
        invariant pending <= uploaded.Keys
        invariant disk.files == before - PathsUnder(uploaded, uploaded.Keys - pending)
        invariant old(disk.history) <= disk.history && OnlyRemoves(disk.history, was, before)
      {
        var f :| f in pending;
        ghost var here := disk.files;
        var i := 0;
        while i < |uploaded[f]|
          invariant 0 <= i <= |uploaded[f]|
          invariant disk.files == here - Paths(uploaded[f][..i])
          invariant old(disk.history) <= disk.history && OnlyRemoves(disk.history, was, before)
        {
          disk.Remove(uploaded[f][i].path);
          assert uploaded[f][..i + 1] == uploaded[f][..i] + [uploaded[f][i]];
          i := i + 1;
        }
        assert uploaded[f][..i] == uploaded[f];
        pending := pending - {f};
      }
    }

    /** Cleaning up after `k` parts: the disk is as it was before the request. */
    method Abandon(form: Form, ghost k: nat, files: map<string, seq<UploadedFile>>,
            ghost values: map<string, seq<Bytes>>, ghost before: Files, ghost was: nat)
      requires FreshNames(config, form.parts, before) && was <= |disk.history|
      requires Collected(config, form.parts, k, before, disk.files, files, values)
      requires SafeStates(config, form.parts, before, disk.history, was)
      modifies disk
      ensures disk.files == before
      ensures old(disk.history) <= disk.history && SafeStates(config, form.parts, before, disk.history, was)
    {
      ghost var states, now := disk.history, disk.files;
      CleaningUndoes(config, form.parts, k, before, now, files, values);
      SavedIsSafe(config, form.parts, k, before);
      CleanupFiles(files);
      RemovingIsSafe(config, form.parts, before, now, disk.history, |states|);
      SafeStatesJoin(config, form.parts, before, states, disk.history, was);
    }

    /** Checks required fields and file counts, in whatever order the fields come. */
    method ValidateFieldRequirements(uploaded: map<string, seq<UploadedFile>>) returns (ok: bool)
      ensures ok <==> forall f | f in config.fields ::
                FieldMet(config.fields[f], |if f in uploaded then uploaded[f] else []|)
    {
      var pending := config.fields.Keys;
      while pending != {}
        invariant pending <= config.fields.Keys
        invariant forall f | f in config.fields && f !in pending ::
                    FieldMet(config.fields[f], |if f in uploaded then uploaded[f] else []|)
      {
        var f :| f in pending;
        if !FieldMet(config.fields[f], |if f in uploaded then uploaded[f] else []|) {
          return false;
        }
        pending := pending - {f};
      }
      ok := true;
    }

    /** Receives the file of part `k` and adds it to the list of its field. */
    method TakeFile(form: Form, k: nat, files: map<string, seq<UploadedFile>>, ghost values: map<string, seq<Bytes>>,
            ghost before: Files, ghost was: nat)
      returns (stored: Stored, more: map<string, seq<UploadedFile>>)
      requires FreshNames(config, form.parts, before) && was <= |disk.history|
      requires Collected(config, form.parts, k, before, disk.files, files, values)
      requires SafeStates(config, form.parts, before, disk.history, was)
      requires k < |form.parts| && Stores(form.parts[k])
      modifies disk
      ensures stored == match FileFate(config, form.parts[k])
                        case Fine => Stored(Described(config, form.parts[k]))
                        case f => NotStored(f)
      ensures stored.NotStored? ==> disk.files == old(disk.files) && more == files
      ensures stored.Stored? ==> Collected(config, form.parts, k + 1, before, disk.files, more, values)
      ensures old(disk.history) <= disk.history && SafeStates(config, form.parts, before, disk.history, was)
    {
      var part := form.parts[k];
      ghost var states, now := disk.history, disk.files;
      NextIsNew(config, form.parts, before, k);
      stored := ProcessStreamingFile(part);
      if part.field in config.fields {
        ReceivingIsSafe(config, form.parts, k, before, disk.history, |states|);
        SafeStatesJoin(config, form.parts, before, states, disk.history, was);
      }
      more := files;
      if stored.Stored? {
        FileCollects(config, form.parts, k, before, now, files, values);
        var list := if part.field in files then files[part.field] else [];
        more := files[part.field := list + [stored.file]];
      }
    }

    /** Reads the parts in turn and removes every file again unless all of them are taken. */
    method ProcessStreamingFileUploads(form: Form) returns (r: Answer)
      requires FreshNames(config, form.parts, disk.files)
      modifies disk
      ensures r.Accepted? <==> RequestFate(config, form).Fine?
      ensures r.Rejected? ==> r.fate == RequestFate(config, form)
      ensures r.Accepted? ==> disk.files == old(disk.files) + Saved(config, form.parts)
      ensures r.Accepted? ==> Lists(r.files, config, form.parts) && Values(r.values, form.parts)
      ensures r.Rejected? && r.fate.Refused? ==> disk.files == old(disk.files)
      ensures r.Rejected? && r.fate.Crashed? ==>
                exists k: nat | k < |form.parts| :: CrashesAt(config, form.parts, k)
                  && disk.files == old(disk.files) + Saved(config, form.parts[..k])
      ensures old(disk.history) <= disk.history
      ensures SafeStates(config, form.parts, old(disk.files), disk.history, |old(disk.history)|)
    {
      if !form.multipart || !form.readable {
        return Rejected(Refused(400));
      }
      ghost var before, was := disk.files, |disk.history|;
      var parts := form.parts;
      var files: map<string, seq<UploadedFile>>, values: map<string, seq<Bytes>> := map[], map[];
      var k := 0;
      while k < |parts|
        invariant 0 <= k <= |parts|
        invariant Collected(config, parts, k, before, disk.files, files, values)
        invariant old(disk.history) <= disk.history
        invariant SafeStates(config, parts, before, disk.history, was)
      {
        var part := parts[k];
        NextPart(parts, k);
        if part.field == "" {
          SkipCollects(config, parts, k, before, disk.files, files, values);
        } else if part.Value? {
          if !ReadsFine(part.stream) {
            FateSettled(config, parts, k + 1);
            Abandon(form, k, files, values, before, was);
            return Rejected(Refused(400));
          }
          ValueCollects(config, parts, k, before, disk.files, files, values);
          var list := if part.field in values then values[part.field] else [];
          values := values[part.field := list + [Payload(part.stream)]];
        } else {
          var stored;
          stored, files := TakeFile(form, k, files, values, before, was);
          if stored.NotStored? {
            FateSettled(config, parts, k + 1);
            if stored.fate.Crashed? {
              CrashIsHere(config, parts, k);
              return Rejected(Crashed);
            }
            Abandon(form, k, files, values, before, was);
            return Rejected(stored.fate);
          }
        }
        k := k + 1;
      }
      assert parts[..k] == parts;
      var met := ValidateFieldRequirements(files);
      if !form.complete || !met {
        Abandon(form, k, files, values, before, was);
        return Rejected(Refused(400));
      }
      r := Accepted(files, values);
    }

    /** Removes the temporary files of a request once its response is on the way. */
    method CleanupAfterResponse(uploaded: map<string, seq<UploadedFile>>)
      modifies disk
      ensures disk.files ==
              if config.keep then old(disk.files) else old(disk.files) - TempPaths(uploaded, uploaded.Keys)
    {
      if config.keep {
        return;
      }
      ghost var before := disk.files;
      var pending := uploaded.Keys;
      while pending != {}
        invariant pending <= uploaded.Keys
        invariant disk.files == before - TempPaths(uploaded, uploaded.Keys - pending)
      {
        var f :| f in pending;
        ghost var here := disk.files;
        var i := 0;
        while i < |uploaded[f]|
          invariant 0 <= i <= |uploaded[f]|
          invariant disk.files == here - Temps(uploaded[f][..i])
        {
          if uploaded[f][i].tempPath.Some? {
            disk.Remove(uploaded[f][i].tempPath.value);
          }
          assert uploaded[f][..i + 1] == uploaded[f][..i] + [uploaded[f][i]];
          i := i + 1;
        }
        assert uploaded[f][..i] == uploaded[f];
        pending := pending - {f};
      }
    }

    /**
      * The upload part of running an endpoint. Whatever the later stages do, the clean-up registered after a
      * successful upload runs on exit; `served` is what the disk held while they ran.
      */
    method Run(form: Form) returns (r: Answer, ghost served: Files)
      requires FreshNames(config, form.parts, disk.files)
      modifies disk
      ensures r.Accepted? <==> RequestFate(config, form).Fine?
      ensures r.Rejected? ==> r.fate == RequestFate(config, form) && served == disk.files
      ensures r.Accepted? ==> served == old(disk.files) + Saved(config, form.parts)
      ensures r.Accepted? ==> disk.files == if config.keep then served else old(disk.files)
      ensures r.Rejected? && r.fate.Refused? ==> disk.files == old(disk.files)
    {
      ghost var before := disk.files;
      r := ProcessStreamingFileUploads(form);
      served := disk.files;
      if r.Accepted? {
        CleanupAfterResponse(r.files);
        TempsAreAll(r.files, config, form.parts);
        ListsAreSaved(r.files, config, form.parts);
        SavedIsNew(config, form.parts, before);
      }
    }
  }

  /** A crash on an undeclared field leaves behind what came before it. */
  lemma {:induction false} CrashLeavesFiles(config: Config, good: Part, bad: Part)
    requires Stores(good) && FileFate(config, good).Fine?
    requires bad.File? && bad.field != "" && bad.ext != "" && bad.field !in config.fields
    ensures RequestFate(config, Form(true, true, [good, bad], true)).Crashed?
    ensures CrashesAt(config, [good, bad], 1) && TargetPath(config, good) in Saved(config, [good, bad][..1])
  {
    var parts := [good, bad];
    assert parts[..1] == [good] && [good][..0] == [];
    FineIffAcceptable(config, good);
    assert CrashesAt(config, parts, 1);
    CrashesIff(config, parts);
  }
}
