/** What the outcome of an upload tells: why it is refused, and what is listed and stored. */
module UploadOutcomes {
  import opened Wrappers
  import opened Uploads

  // ----- limits and counts -----

  function Given(limits: map<string, int>, ext: string): Option<int> {
    if ext in limits then Some(limits[ext]) else None
  }

  /** The limits for a file, the most specific first. */
  function LimitsFor(config: Config, ext: string, field: FieldConfig): seq<Option<int>> {
    [Given(field.typeLimits, ext), if field.maxFileSize > 0 then Some(field.maxFileSize) else None,
     Given(config.typeLimits, ext), Some(config.maxFileSize)]
  }

  predicate IsFirst(limits: seq<Option<int>>, i: nat, limit: int) {
    i < |limits| && limits[i] == Some(limit) && forall k | 0 <= k < i :: limits[k].None?
  }

  /** The first limit that is given is in force. */
  lemma MostSpecificLimit(config: Config, ext: string, field: FieldConfig)
    ensures exists i: nat :: IsFirst(LimitsFor(config, ext, field), i, MaxFileSize(config, ext, field))
  {
    var (limits, limit) := (LimitsFor(config, ext, field), MaxFileSize(config, ext, field));
    if limits[0].Some? { assert IsFirst(limits, 0, limit); }
    else if limits[1].Some? { assert IsFirst(limits, 1, limit); }
    else if limits[2].Some? { assert IsFirst(limits, 2, limit); }
    else { assert IsFirst(limits, 3, limit); }
  }

  /** None are enough unless the field is required, one is always right, and more are only up to
      the number that is allowed, which a negative one leaves open. */
  lemma CountsAllowed(field: FieldConfig, count: nat)
    ensures FieldMet(field, count) <==>
            match count
            case 0 => !field.required
            case 1 => true
            case _ => field.maxFiles < 0 || count <= field.maxFiles
  {}

  // ----- refusals -----

  /** What the status of a refused stream says of it. */
  lemma {:induction false} StreamRefusals(limit: int, total: nat, stream: seq<Read>, status: nat)
    requires StreamFate(limit, total, stream) == Refused(status)
    ensures status == 413 || status == 500 || status == 400
    ensures status == 413 ==> 0 < limit < total + |Payload(stream)|
    ensures status == 500 ==> !WritesFine(stream)
    ensures status == 400 ==> !ReadsFine(stream)
    decreases |stream|
  {
    var now := total + |stream[0].data|;
    var stopped := stream[0].data != [] && (0 < limit < now || stream[0].written.Short?);
    if stream[0].end.More? && !stopped { StreamRefusals(limit, now, stream[1..], status); }
  }

  predicate Disallowed(config: Config, part: Part) {
    && part.File? && part.ext != "" && part.field in config.fields
    && config.fields[part.field].allowed != [] && part.ext !in config.fields[part.field].allowed
  }

  /** Why a part is refused: 415 for a type that is not allowed, and for nothing else; 413 for too
      long a file; 500 where the disk has failed, 400 where the request has, or for a file without
      an extension. */
  lemma PartRefusals(config: Config, part: Part, status: nat)
    requires PartFate(config, part) == Refused(status)
    ensures part.field != "" && (status == 415 || status == 413 || status == 500 || status == 400)
    ensures status == 415 <==> Disallowed(config, part)
    ensures status == 413 ==>
              part.File? && part.field in config.fields &&
              0 < MaxFileSize(config, part.ext, config.fields[part.field]) < |Payload(part.stream)|
    ensures status == 500 ==> part.File? && (part.createFails || !WritesFine(part.stream))
    ensures status == 400 ==> !ReadsFine(part.stream) || (part.File? && part.ext == "")
  {
    if part.File? && part.ext != "" && part.field in config.fields {
      var limit := MaxFileSize(config, part.ext, config.fields[part.field]);
      if StreamFate(limit, 0, part.stream) == Refused(status) { StreamRefusals(limit, 0, part.stream, status); }
    }
  }

  /** A file of a type that is not allowed is refused for it before its contents are looked at. */
  lemma DisallowedIsRefused(config: Config, part: Part)
    requires part.field != "" && Disallowed(config, part)
    ensures PartFate(config, part) == Refused(415)
  {}

  predicate FirstBad(config: Config, parts: seq<Part>, k: nat, fate: Fate) {
    && k < |parts| && PartFate(config, parts[k]) == fate && fate != Fine
    && forall i | 0 <= i < k :: PartFate(config, parts[i]) == Fine
  }

  /** The first part that is not fine decides. */
  lemma {:induction false} FirstBadDecides(config: Config, parts: seq<Part>, fate: Fate)
    requires fate != Fine
    ensures PartsFate(config, parts) == fate <==> exists k: nat :: FirstBad(config, parts, k, fate)
  {
    if parts != [] {
      var (front, end) := (parts[..|parts| - 1], |parts| - 1);
      FirstBadDecides(config, front, fate);
      forall k: nat | k < end ensures FirstBad(config, parts, k, fate) <==> FirstBad(config, front, k, fate) {
        assert forall i | 0 <= i < end :: parts[i] == front[i];
      }
      AllFine(config, front);
      assert PartsFate(config, front) == Fine && PartFate(config, parts[end]) == fate ==>
          FirstBad(config, parts, end, fate);
      assert forall k: nat :: FirstBad(config, parts, k, fate) ==> k < end || k == end;
    }
  }

  lemma {:induction false} AllFine(config: Config, parts: seq<Part>)
    ensures PartsFate(config, parts) == Fine <==> forall i | 0 <= i < |parts| :: PartFate(config, parts[i]) == Fine
  {
    if parts != [] {
      AllFine(config, parts[..|parts| - 1]);
      assert parts == parts[..|parts| - 1] + [parts[|parts| - 1]];
    }
  }

  /** A request that is no readable multipart form is refused with 400; otherwise its parts decide,
      and if all of them are fine only 400 is left, for a form that breaks off or does not meet
      what its fields require. */
  lemma RequestRefusals(config: Config, form: Form)
    ensures var (fate, parts) := (RequestFate(config, form), PartsFate(config, form.parts));
            if !form.multipart || !form.readable then fate == Refused(400)
            else if parts != Fine then fate == parts
            else fate == if form.complete && RequirementsMet(config, form.parts) then Fine else Refused(400)
  {}

  // ----- lists -----

  /** The entry of a file names it as the client did and as it is stored, in the directory of
      uploads or of temporary files. */
  predicate Describes(file: UploadedFile, part: Part, config: Config) {
    && part.File? && file.field == part.field && file.original == part.filename && file.ext == part.ext
    && file.mime == (if part.mime != "" then part.mime else "application/octet-stream")
    && file.size == |Payload(part.stream)|
    && file.name == file.path.name == part.unique
    && file.path.dir == (if config.keep then config.uploadPath else config.tempPath)
    && file.tempPath == (if config.keep then None else Some(file.path))
  }

  /** The parts that are listed under a field. */
  function FilesFor(parts: seq<Part>, field: string): seq<Part> {
    if parts == [] then []
    else
      (if parts[0].File? && parts[0].field == field != "" then [parts[0]] else []) + FilesFor(parts[1..], field)
  }

  /** Under every field its files are listed in the order of their parts. */
  lemma {:induction false} ListedInOrder(config: Config, parts: seq<Part>, field: string)
    ensures var (files, own) := (FilesUnder(config, parts, field), FilesFor(parts, field));
            |files| == |own| && forall i | 0 <= i < |files| :: Describes(files[i], own[i], config)
  {
    if parts != [] {
      var (front, last) := (parts[..|parts| - 1], parts[|parts| - 1]);
      ListedInOrder(config, front, field);
      FilesForLast(front, last, field);
      assert parts == front + [last];
    }
  }

  lemma {:induction false} FilesForLast(front: seq<Part>, last: Part, field: string)
    ensures FilesFor(front + [last], field) ==
            FilesFor(front, field) + if last.File? && last.field == field != "" then [last] else []
  {
    var all := front + [last];
    if front == [] {
      assert all[1..] == [];
    } else {
      FilesForLast(front[1..], last, field);
      assert all[1..] == front[1..] + [last];
    }
  }

  /** Values are listed part by part, in order. */
  lemma {:induction false} ValuesInOrder(one: seq<Part>, two: seq<Part>, field: string)
    ensures ValuesUnder(one + two, field) == ValuesUnder(one, field) + ValuesUnder(two, field)
  {
    if two == [] {
      assert one + two == one;
    } else {
      var end := |two| - 1;
      ValuesInOrder(one, two[..end], field);
      assert (one + two)[..|one + two| - 1] == one + two[..end];
    }
  }

  /** Every listed file is stored with the bytes of its part. */
  lemma ListedIsStored(config: Config, parts: seq<Part>, field: string, i: nat)
    requires FreshNames(config, parts, map[]) && i < |FilesUnder(config, parts, field)|
    ensures var (file, own) := (FilesUnder(config, parts, field)[i], FilesFor(parts, field));
            && i < |own| && file.path in Saved(config, parts)
            && Saved(config, parts)[file.path] == Payload(own[i].stream)
  {
    ListedInOrder(config, parts, field);
    var part := FilesFor(parts, field)[i];
    assert Describes(FilesUnder(config, parts, field)[i], part, config);
    OwnAreParts(parts, field, part);
    PartIsStored(config, parts, part);
  }

  lemma {:induction false} OwnAreParts(parts: seq<Part>, field: string, part: Part)
    requires part in FilesFor(parts, field)
    ensures part in parts && Stores(part)
  {
    if !(parts[0].File? && parts[0].field == field != "" && part == parts[0]) {
      OwnAreParts(parts[1..], field, part);
    }
  }

  lemma PartIsStored(config: Config, parts: seq<Part>, part: Part)
    requires FreshNames(config, parts, map[]) && part in parts && Stores(part)
    ensures TargetPath(config, part) in Saved(config, parts)
    ensures Saved(config, parts)[TargetPath(config, part)] == Payload(part.stream)
  {
    TargetsAreSaved(config, parts, part);
    var k :| 0 <= k < |parts| && parts[k] == part;
    var i := SavedAreTargets(config, parts, TargetPath(config, part));
    assert i == k;
  }

  lemma {:induction false} TargetsAreSaved(config: Config, parts: seq<Part>, part: Part)
    requires part in parts && Stores(part)
    ensures TargetPath(config, part) in Saved(config, parts)
  {
    var (front, last) := (parts[..|parts| - 1], parts[|parts| - 1]);
    if part != last { TargetsAreSaved(config, front, part); }
  }
}
