/**
 * The import driver (openalex-import.ts, `import_entities`): it lists the snapshot files of one
 * entity type, reads every line of every file, decodes each non-blank line as a provider record,
 * maps the records the optional condition accepts to bulk edits, and submits those edits in
 * batches: whenever more than 500 are pending after a line, and once more at the end.
 *
 * The file system is a parameter: `listing(dir)` is what `Deno.readDirSync(dir)` lists, by name,
 * and `read(path)` the decompressed, decoded text of a file. `JSON.parse` is the parameter
 * `parse`, `None` where it throws; the record mapper is `entityImport`, `Err` where it throws.
 */
module Driver {
  import opened Common
  import opened Text
  import opened Bulk

  /** After a line, more pending edits than this are flushed. */
  const FlushThreshold := 500

  /** The date directories of a snapshot are the ones whose name starts with this. */
  const DatePrefix := "updated_date"

  /** The data files of a date directory are the ones whose name ends with this. */
  const DataSuffix := ".gz"

  // ---------------------------------------------------------------------------
  // The files to process

  /** `data/<entity>`: the snapshot directory of an entity type. */
  function EntityDirectory(entity: string): string {
    "data/" + entity
  }

  /** `data/<entity>/<date>`. */
  function DateDirectory(entity: string, date: string): string {
    EntityDirectory(entity) + "/" + date
  }

  predicate IsDateName(name: string) {
    StartsWith(name, DatePrefix)
  }

  predicate IsDataFileName(name: string) {
    EndsWith(name, DataSuffix)
  }

  /** The date directories, in ascending order: exactly the listed names that start with `updated_date`. */
  function DateDirectories(names: seq<string>): (dates: seq<string>)
    ensures Sorted(dates)
    ensures multiset(dates) == multiset(Filter(names, IsDateName))
    ensures forall d :: d in dates <==> d in names && IsDateName(d)
  {
    var matching := Filter(names, IsDateName);
    FilterMultiset(names, IsDateName);
    FilterMembers(names, IsDateName);
    var dates := SortStrings(matching);
    assert forall d :: d in dates <==> d in multiset(dates);
    assert forall d :: d in matching <==> d in multiset(matching);
    dates
  }

  /** The path of each data file of one date directory, in listing order. */
  function DataFiles(entity: string, date: string, names: seq<string>): (paths: seq<string>)
    ensures |paths| == |Filter(names, IsDataFileName)| <= |names|
    ensures forall i :: 0 <= i < |paths| ==> paths[i] == DateDirectory(entity, date) + "/" + Filter(names, IsDataFileName)[i]
    ensures forall i :: 0 <= i < |paths| ==>
      StartsWith(paths[i], DateDirectory(entity, date) + "/") && EndsWith(paths[i], DataSuffix)
  {
    var files := Filter(names, IsDataFileName);
    var dir := DateDirectory(entity, date) + "/";
    seq(|files|, i requires 0 <= i < |files| =>
      assert EndsWith(dir + files[i], DataSuffix) by { EndsWithExtension(dir, files[i], DataSuffix); }
      dir + files[i])
  }

  lemma EndsWithExtension(a: string, b: string, suffix: string)
    requires EndsWith(b, suffix)
    ensures EndsWith(a + b, suffix)
  {
    assert (a + b)[|a + b| - |suffix|..] == b[|b| - |suffix|..];
  }

  /** The data files of the given date directories, date after date. */
  function FilesOfDates(entity: string, dates: seq<string>, listing: string -> seq<string>): seq<string>
    decreases |dates|
  {
    if dates == [] then []
    else
      var date := Last(dates);
      FilesOfDates(entity, dates[..|dates| - 1], listing) + DataFiles(entity, date, listing(DateDirectory(entity, date)))
  }

  /** Every file `import_entities` reads, in the order it reads them. */
  function FilesToProcess(entity: string, listing: string -> seq<string>): seq<string> {
    FilesOfDates(entity, DateDirectories(listing(EntityDirectory(entity))), listing)
  }

  /** A data file of a date directory is a `.gz` file under `data/<entity>/updated_date…`. */
  lemma DataFileUnderDate(entity: string, date: string, path: string)
    requires IsDateName(date)
    requires StartsWith(path, DateDirectory(entity, date) + "/")
    ensures StartsWith(path, EntityDirectory(entity) + "/" + DatePrefix)
  {
    var head := EntityDirectory(entity) + "/";
    assert DateDirectory(entity, date) + "/" == head + date + "/";
    assert (head + DatePrefix) == (head + date + "/")[..|head| + |DatePrefix|];
  }

  /** Only `.gz` files inside date directories are read. */
  lemma {:induction false} FilesOfDatesAreDataFiles(entity: string, dates: seq<string>, listing: string -> seq<string>)
    requires forall d :: d in dates ==> IsDateName(d)
    ensures forall p :: p in FilesOfDates(entity, dates, listing) ==>
      EndsWith(p, DataSuffix) && StartsWith(p, EntityDirectory(entity) + "/" + DatePrefix)
    decreases |dates|
  {
    if dates != [] {
      var init, date := dates[..|dates| - 1], Last(dates);
      FilesOfDatesAreDataFiles(entity, init, listing);
      var files := DataFiles(entity, date, listing(DateDirectory(entity, date)));
      forall p | p in files
        ensures EndsWith(p, DataSuffix) && StartsWith(p, EntityDirectory(entity) + "/" + DatePrefix)
      {
        DataFileUnderDate(entity, date, p);
      }
    }
  }

  /** Every `.gz` entry of a date directory is among its data files. */
  lemma DataFilesComplete(entity: string, date: string, names: seq<string>, name: string)
    requires name in names && IsDataFileName(name)
    ensures DateDirectory(entity, date) + "/" + name in DataFiles(entity, date, names)
  {
    FilterMembers(names, IsDataFileName);
    var files := Filter(names, IsDataFileName);
    var i :| 0 <= i < |files| && files[i] == name;
    assert DataFiles(entity, date, names)[i] == DateDirectory(entity, date) + "/" + name;
  }

  /** Every `.gz` entry of each of the given date directories is read. */
  lemma {:induction false} FilesOfDatesComplete(entity: string, dates: seq<string>, listing: string -> seq<string>,
                                                date: string, name: string)
    requires date in dates && name in listing(DateDirectory(entity, date)) && IsDataFileName(name)
    ensures DateDirectory(entity, date) + "/" + name in FilesOfDates(entity, dates, listing)
    decreases |dates|
  {
    var init := dates[..|dates| - 1];
    if date == Last(dates) {
      DataFilesComplete(entity, date, listing(DateDirectory(entity, date)), name);
    } else {
      assert date in init by {
        var k :| 0 <= k < |dates| && dates[k] == date;
        assert k < |dates| - 1 && init[k] == date;
      }
      FilesOfDatesComplete(entity, init, listing, date, name);
    }
  }

  /** Conversely, every `.gz` entry of every listed `updated_date…` directory is read. */
  lemma FilesToProcessComplete(entity: string, listing: string -> seq<string>, date: string, name: string)
    requires date in listing(EntityDirectory(entity)) && IsDateName(date)
    requires name in listing(DateDirectory(entity, date)) && IsDataFileName(name)
    ensures DateDirectory(entity, date) + "/" + name in FilesToProcess(entity, listing)
  {
    FilesOfDatesComplete(entity, DateDirectories(listing(EntityDirectory(entity))), listing, date, name);
  }

  lemma FilesToProcessAreDataFiles(entity: string, listing: string -> seq<string>)
    ensures forall p :: p in FilesToProcess(entity, listing) ==>
      EndsWith(p, DataSuffix) && StartsWith(p, EntityDirectory(entity) + "/" + DatePrefix)
  {
    FilesOfDatesAreDataFiles(entity, DateDirectories(listing(EntityDirectory(entity))), listing);
  }

  /** The file scan of `import_entities`: the sorted date directories, then their data files one directory after the other. */
  method ScanFiles(entity: string, listing: string -> seq<string>) returns (allFiles: seq<string>)
    ensures allFiles == FilesToProcess(entity, listing)
  {
    var allDates := DateDirectories(listing(EntityDirectory(entity)));
    allFiles := [];
    for k := 0 to |allDates|
      invariant allFiles == FilesOfDates(entity, allDates[..k], listing)
    {
      var date := allDates[k];
      FilesOfDatesSnoc(entity, allDates, k, listing);
      allFiles := allFiles + DataFiles(entity, date, listing(DateDirectory(entity, date)));
    }
    assert allDates[..|allDates|] == allDates;
  }

  lemma FilesOfDatesSnoc(entity: string, dates: seq<string>, k: nat, listing: string -> seq<string>)
    requires k < |dates|
    ensures FilesOfDates(entity, dates[..k + 1], listing)
         == FilesOfDates(entity, dates[..k], listing) + DataFiles(entity, dates[k], listing(DateDirectory(entity, dates[k])))
  {
    assert dates[..k + 1][..k] == dates[..k];
  }

  // ---------------------------------------------------------------------------
  // Decoding and mapping one line

  /** Why the import stops: a line that does not parse even after the fallback, or a mapper that throws. */
  datatype Failure<X> = Unparsable(line: string) | MappingFailed(reason: X)

  /** `line.replaceAll("\\\\", "\\")`: every doubled backslash collapsed to one. */
  function CollapseBackslashes(line: string): (collapsed: string)
    ensures !Contains(line, "\\\\") ==> collapsed == line
    ensures |collapsed| <= |line|
  {
    ReplaceAllShrinks(line, "\\\\", "\\");
    ReplaceAll(line, "\\\\", "\\")
  }

  /** `JSON.parse(line)`, retried once on the collapsed line when it throws; a second failure ends the import. */
  function ParseRecord<R, X>(line: string, parse: string -> Option<R>): (r: Result<R, Failure<X>>)
    ensures parse(line).Some? ==> r == Ok(parse(line).value)
    ensures parse(line).None? && parse(CollapseBackslashes(line)).Some? ==> r == Ok(parse(CollapseBackslashes(line)).value)
    ensures r.Err? ==> r == Err(Unparsable(line))
    ensures r.Ok? <==> parse(line).Some? || parse(CollapseBackslashes(line)).Some?
  {
    match parse(line)
    case Some(record) => Ok(record)
    case None =>
      match parse(CollapseBackslashes(line))
      case Some(record) => Ok(record)
      case None => Err(Unparsable(line))
  }

  /** The retry only helps a line that has a doubled backslash: otherwise it parses the same text again. */
  lemma RetryNeedsDoubledBackslash<R, X>(line: string, parse: string -> Option<R>)
    requires !Contains(line, "\\\\")
    ensures ParseRecord<R, X>(line, parse).Ok? <==> parse(line).Some?
  {
  }

  /** `condition === undefined || condition(record)`. */
  predicate Accepts<R>(condition: Option<R -> bool>, record: R) {
    condition.None? || condition.value(record)
  }

  /**
   * The edits one line contributes: none for a blank line or a record the condition rejects,
   * the mapper's edits otherwise, or the failure that ends the import.
   */
  function LineEdits<R, X>(line: string, parse: string -> Option<R>, entityImport: R -> Result<seq<BulkEdit>, X>,
                           condition: Option<R -> bool>): (r: Result<seq<BulkEdit>, Failure<X>>)
    ensures IsBlank(line) ==> r == Ok([])
    ensures r.Err? && r.error.Unparsable? ==>
      r.error.line == line && parse(line).None? && parse(CollapseBackslashes(line)).None?
    ensures r.Err? && r.error.MappingFailed? ==>
      (!IsBlank(line) && ParseRecord<R, X>(line, parse).Ok?
       && Accepts(condition, ParseRecord<R, X>(line, parse).value)
       && entityImport(ParseRecord<R, X>(line, parse).value) == Err(r.error.reason))
    ensures r.Ok? && r.value != [] ==>
      (!IsBlank(line) && ParseRecord<R, X>(line, parse).Ok?
       && Accepts(condition, ParseRecord<R, X>(line, parse).value)
       && entityImport(ParseRecord<R, X>(line, parse).value) == Ok(r.value))
  {
    if IsBlank(line) then Ok([])
    else
      match ParseRecord(line, parse)
      case Err(f) => Err(f)
      case Ok(record) =>
        if !Accepts(condition, record) then Ok([])
        else
          match entityImport(record)
          case Err(x) => Err(MappingFailed(x))
          case Ok(edits) => Ok(edits)
  }

  /** The edits accepted from some lines, up to the first failure, and that failure if there is one. */
  datatype Run<X> = Run(edits: seq<BulkEdit>, failure: Option<Failure<X>>)

  /** What reading `lines` one after the other accepts, stopping at the first failure. */
  function ImportLinesSpec<R, X>(lines: seq<string>, parse: string -> Option<R>,
                                 entityImport: R -> Result<seq<BulkEdit>, X>, condition: Option<R -> bool>): (run: Run<X>)
    decreases |lines|
  {
    if lines == [] then Run([], None)
    else
      var before := ImportLinesSpec(lines[..|lines| - 1], parse, entityImport, condition);
      if before.failure.Some? then before
      else
        match LineEdits(Last(lines), parse, entityImport, condition)
        case Err(f) => Run(before.edits, Some(f))
        case Ok(edits) => Run(before.edits + edits, None)
  }

  /** Blank lines are skipped: a file of nothing but blank lines imports nothing and does not fail. */
  lemma {:induction false} BlankLinesImportNothing<R, X>(lines: seq<string>, parse: string -> Option<R>,
                                                         entityImport: R -> Result<seq<BulkEdit>, X>, condition: Option<R -> bool>)
    requires forall i :: 0 <= i < |lines| ==> IsBlank(lines[i])
    ensures ImportLinesSpec(lines, parse, entityImport, condition) == Run([], None)
    decreases |lines|
  {
    if lines != [] {
      var init := lines[..|lines| - 1];
      assert forall i :: 0 <= i < |init| ==> init[i] == lines[i];
      BlankLinesImportNothing(init, parse, entityImport, condition);
      assert IsBlank(Last(lines));
    }
  }

  /** Reading some lines and then more: the second part only runs when the first did not fail. */
  function Then<X>(first: Run<X>, second: Run<X>): Run<X> {
    if first.failure.Some? then first else Run(first.edits + second.edits, second.failure)
  }

  /** The run of two stretches of lines is the first run followed by the second. */
  lemma {:induction false} ImportLinesConcat<R, X>(a: seq<string>, b: seq<string>, parse: string -> Option<R>,
                                                   entityImport: R -> Result<seq<BulkEdit>, X>, condition: Option<R -> bool>)
    ensures ImportLinesSpec(a + b, parse, entityImport, condition)
         == Then(ImportLinesSpec(a, parse, entityImport, condition), ImportLinesSpec(b, parse, entityImport, condition))
    decreases |b|
  {
    if b == [] {
      assert a + b == a;
    } else {
      var init := b[..|b| - 1];
      assert (a + b)[..|a + b| - 1] == a + init;
      assert Last(a + b) == Last(b);
      ImportLinesConcat(a, init, parse, entityImport, condition);
      var ra := ImportLinesSpec(a, parse, entityImport, condition);
      var ri := ImportLinesSpec(init, parse, entityImport, condition);
      if ra.failure.None? && ri.failure.None? {
        match LineEdits(Last(b), parse, entityImport, condition)
        case Err(f) =>
        case Ok(edits) =>
          assert ra.edits + ri.edits + edits == ra.edits + (ri.edits + edits);
      }
    }
  }

  /** The run of one line is that line's edits or its failure. */
  lemma ImportOneLine<R, X>(line: string, parse: string -> Option<R>, entityImport: R -> Result<seq<BulkEdit>, X>,
                            condition: Option<R -> bool>)
    ensures var run := ImportLinesSpec([line], parse, entityImport, condition);
      match LineEdits(line, parse, entityImport, condition)
      case Err(f) => run == Run([], Some(f))
      case Ok(edits) => run == Run(edits, None)
  {
    assert [line][..0] == [];
  }

  /** A line that is blank after trimming changes nothing, wherever it stands. */
  lemma BlankLineIgnored<R, X>(a: seq<string>, line: string, b: seq<string>, parse: string -> Option<R>,
                               entityImport: R -> Result<seq<BulkEdit>, X>, condition: Option<R -> bool>)
    requires IsBlank(line)
    ensures ImportLinesSpec(a + [line] + b, parse, entityImport, condition)
         == ImportLinesSpec(a + b, parse, entityImport, condition)
  {
    ImportLinesConcat(a + [line], b, parse, entityImport, condition);
    ImportLinesConcat(a, [line], parse, entityImport, condition);
    ImportLinesConcat(a, b, parse, entityImport, condition);
    ImportOneLine(line, parse, entityImport, condition);
    var ra := ImportLinesSpec(a, parse, entityImport, condition);
    assert ra.edits + [] == ra.edits;
  }

  /** A record the condition rejects changes nothing either: it is parsed but never mapped. */
  lemma RejectedRecordIgnored<R, X>(a: seq<string>, line: string, b: seq<string>, parse: string -> Option<R>,
                                    entityImport: R -> Result<seq<BulkEdit>, X>, condition: Option<R -> bool>)
    requires !IsBlank(line) && parse(line).Some? && !Accepts(condition, parse(line).value)
    ensures ImportLinesSpec(a + [line] + b, parse, entityImport, condition)
         == ImportLinesSpec(a + b, parse, entityImport, condition)
  {
    ImportLinesConcat(a + [line], b, parse, entityImport, condition);
    ImportLinesConcat(a, [line], parse, entityImport, condition);
    ImportLinesConcat(a, b, parse, entityImport, condition);
    ImportOneLine(line, parse, entityImport, condition);
    var ra := ImportLinesSpec(a, parse, entityImport, condition);
    assert ra.edits + [] == ra.edits;
  }

  /** Once some lines fail, the lines after them are never read. */
  lemma FailureStops<R, X>(a: seq<string>, b: seq<string>, parse: string -> Option<R>,
                           entityImport: R -> Result<seq<BulkEdit>, X>, condition: Option<R -> bool>)
    requires ImportLinesSpec(a, parse, entityImport, condition).failure.Some?
    ensures ImportLinesSpec(a + b, parse, entityImport, condition) == ImportLinesSpec(a, parse, entityImport, condition)
  {
    ImportLinesConcat(a, b, parse, entityImport, condition);
  }

  /** The lines of the files, file after file: `split('\n')` of each file's text. */
  function AllLines(paths: seq<string>, read: string -> string): seq<string>
    decreases |paths|
  {
    if paths == [] then [] else AllLines(paths[..|paths| - 1], read) + Split(read(Last(paths)), '\n')
  }

  // ---------------------------------------------------------------------------
  // The buffer and its submissions

  /**
   * The `pendingEdits` buffer, the `pushEdits` closure that empties it, and what the closure
   * hands to `pushBulkEdits`: the batches submitted so far, in order, and how many of them are
   * known to have settled (a submission is awaited before the next one starts).
   */
  class EditPusher {
    var pending: seq<BulkEdit>
    var submitted: seq<seq<BulkEdit>>
    var settled: nat

    /** No batch is empty, and at most one submission is still in flight. */
    ghost predicate Valid()
      reads this
    {
      && settled <= |submitted| <= settled + 1
      && forall i :: 0 <= i < |submitted| ==> submitted[i] != []
    }

    /** Every edit accepted so far: the submitted ones, batch after batch, then the pending ones. */
    ghost function Accepted(): seq<BulkEdit>
      reads this
    {
      Flatten(submitted) + pending
    }

    constructor ()
      ensures Valid()
      ensures pending == [] && submitted == [] && settled == 0
    {
      pending, submitted, settled := [], [], 0;
    }

    /** `pendingEdits.push(...edits)`. */
    method Add(edits: seq<BulkEdit>)
      requires Valid()
      modifies this
      ensures Valid()
      ensures pending == old(pending) + edits
      ensures submitted == old(submitted) && settled == old(settled)
      ensures Accepted() == old(Accepted()) + edits
    {
      pending := pending + edits;
    }

    /**
     * `pushEdits`: if a submission was started, it has settled once this returns (it is awaited
     * when `promiseState` reports it pending); then a non-empty buffer is submitted as a copy and
     * emptied. Nothing is submitted for an empty buffer.
     */
    method PushEdits()
      requires Valid()
      modifies this
      ensures Valid()
      ensures pending == []
      ensures Accepted() == old(Accepted())
      ensures settled == |old(submitted)|
      ensures old(pending) == [] ==> submitted == old(submitted)
      ensures old(pending) != [] ==> submitted == old(submitted) + [old(pending)]
    {
      if |submitted| > 0 {
        settled := |submitted|;
      }
      if |pending| > 0 {
        var newEditsToPush := pending;
        pending := [];
        FlattenAppend(submitted, newEditsToPush);
        submitted := submitted + [newEditsToPush];
      }
    }

    /** `await lastPromise`: every submission has settled. */
    method AwaitLast()
      requires Valid()
      modifies this
      ensures Valid()
      ensures settled == |submitted|
      ensures pending == old(pending) && submitted == old(submitted)
    {
      settled := |submitted|;
    }
  }

  // ---------------------------------------------------------------------------
  // The loops

  /** Each batch from `from` on was flushed with more than `FlushThreshold` edits. */
  ghost predicate FullFrom(batches: seq<seq<BulkEdit>>, from: nat) {
    forall i :: from <= i < |batches| ==> |batches[i]| > FlushThreshold
  }

  /** The next line's run extends the run so far, or ends it with its failure. */
  lemma ImportLinesStep<R, X>(lines: seq<string>, i: nat, parse: string -> Option<R>,
                              entityImport: R -> Result<seq<BulkEdit>, X>, condition: Option<R -> bool>)
    requires i < |lines|
    requires ImportLinesSpec(lines[..i], parse, entityImport, condition).failure.None?
    ensures var before := ImportLinesSpec(lines[..i], parse, entityImport, condition);
      match LineEdits(lines[i], parse, entityImport, condition)
      case Err(f) => ImportLinesSpec(lines, parse, entityImport, condition) == Run(before.edits, Some(f))
      case Ok(edits) => ImportLinesSpec(lines[..i + 1], parse, entityImport, condition) == Run(before.edits + edits, None)
  {
    assert lines[..i + 1][..i] == lines[..i];
    assert Last(lines[..i + 1]) == lines[i];
    if LineEdits(lines[i], parse, entityImport, condition).Err? {
      FailureStops(lines[..i + 1], lines[i + 1..], parse, entityImport, condition);
      assert lines[..i + 1] + lines[i + 1..] == lines;
    }
  }

  /** `if (pendingEdits.length > 500) await pushEdits()`: a buffer over the threshold is submitted as one batch. */
  method FlushIfFull(pusher: EditPusher)
    requires pusher.Valid()
    modifies pusher
    ensures pusher.Valid() && |pusher.pending| <= FlushThreshold
    ensures pusher.Accepted() == old(pusher.Accepted())
    ensures old(pusher.submitted) <= pusher.submitted
    ensures FullFrom(pusher.submitted, |old(pusher.submitted)|)
  {
    if |pusher.pending| > FlushThreshold {
      pusher.PushEdits();
    }
  }

  lemma FullFromExtend(before: seq<seq<BulkEdit>>, after: seq<seq<BulkEdit>>, from: nat)
    requires from <= |before| && before <= after
    requires FullFrom(before, from) && FullFrom(after, |before|)
    ensures FullFrom(after, from)
  {
    assert forall i :: from <= i < |before| ==> after[i] == before[i];
  }

  /**
   * The body of the line loop for a line that is not blank: parse the record (with the backslash
   * retry), and when the condition accepts it, map it and add its edits to the buffer.
   */
  method AddRecordEdits<R, X>(pusher: EditPusher, line: string, parse: string -> Option<R>,
                              entityImport: R -> Result<seq<BulkEdit>, X>, condition: Option<R -> bool>)
    returns (failure: Option<Failure<X>>)
    requires pusher.Valid() && !IsBlank(line)
    modifies pusher
    ensures pusher.Valid() && pusher.submitted == old(pusher.submitted)
    ensures match LineEdits(line, parse, entityImport, condition)
      case Err(f) => failure == Some(f) && pusher.pending == old(pusher.pending)
      case Ok(edits) => failure.None? && pusher.pending == old(pusher.pending) + edits
  {
    var decoded := ParseRecord<R, X>(line, parse);
    if decoded.Err? {
      return Some(decoded.error);
    }
    var record := decoded.value;
    var doImport := condition.None? || condition.value(record);
    if doImport {
      var mapped := entityImport(record);
      if mapped.Err? {
        return Some(MappingFailed(mapped.error));
      }
      pusher.Add(mapped.value);
    } else {
      assert pusher.pending + [] == pusher.pending;
    }
    return None;
  }

  /**
   * The inner loop of `import_entities` over the lines of one file: skip blank lines, decode the
   * others (with the backslash fallback), add the edits of accepted records, and flush when more
   * than `FlushThreshold` edits are pending.
   */
  method ImportLines<R, X>(pusher: EditPusher, lines: seq<string>, parse: string -> Option<R>,
                           entityImport: R -> Result<seq<BulkEdit>, X>, condition: Option<R -> bool>)
    returns (failure: Option<Failure<X>>)
    requires pusher.Valid() && |pusher.pending| <= FlushThreshold
    modifies pusher
    ensures pusher.Valid() && |pusher.pending| <= FlushThreshold
    ensures var run := ImportLinesSpec(lines, parse, entityImport, condition);
      failure == run.failure && pusher.Accepted() == old(pusher.Accepted()) + run.edits
    ensures old(pusher.submitted) <= pusher.submitted
    ensures FullFrom(pusher.submitted, |old(pusher.submitted)|)
  {
    ghost var start := pusher.Accepted();
    for i := 0 to |lines|
      invariant pusher.Valid() && |pusher.pending| <= FlushThreshold
      invariant ImportLinesSpec(lines[..i], parse, entityImport, condition).failure.None?
      invariant pusher.Accepted() == start + ImportLinesSpec(lines[..i], parse, entityImport, condition).edits
      invariant old(pusher.submitted) <= pusher.submitted
      invariant FullFrom(pusher.submitted, |old(pusher.submitted)|)
    {
      var line := lines[i];
      ImportLinesStep(lines, i, parse, entityImport, condition);
      ghost var before := ImportLinesSpec(lines[..i], parse, entityImport, condition).edits;
      if IsBlank(line) {
        assert before + [] == before;
        continue;
      }
      ghost var accepted := pusher.Accepted();
      failure := AddRecordEdits(pusher, line, parse, entityImport, condition);
      if failure.Some? {
        assert pusher.Accepted() == accepted;
        return;
      }
      ghost var edits := LineEdits(line, parse, entityImport, condition).value;
      assert pusher.Accepted() == accepted + edits;
      assert start + before + edits == start + (before + edits);
      ghost var submitted := pusher.submitted;
      FlushIfFull(pusher);
      FullFromExtend(submitted, pusher.submitted, |old(pusher.submitted)|);
    }
    assert lines[..|lines|] == lines;
    return None;
  }

  /** The lines of one more file follow the lines of the files before it. */
  lemma AllLinesSnoc(paths: seq<string>, k: nat, read: string -> string)
    requires k < |paths|
    ensures AllLines(paths[..k + 1], read) == AllLines(paths[..k], read) + Split(read(paths[k]), '\n')
  {
    assert paths[..k + 1][..k] == paths[..k];
  }

  /** The lines of the first files come first. */
  lemma {:induction false} AllLinesPrefix(paths: seq<string>, k: nat, read: string -> string)
    requires k <= |paths|
    ensures AllLines(paths[..k], read) <= AllLines(paths, read)
    decreases |paths| - k
  {
    if k < |paths| {
      AllLinesSnoc(paths, k, read);
      AllLinesPrefix(paths, k + 1, read);
    } else {
      assert paths[..k] == paths;
    }
  }

  /** A failure in the lines of the first files is the failure of all of them. */
  lemma FailureInFile<R, X>(paths: seq<string>, k: nat, read: string -> string, parse: string -> Option<R>,
                            entityImport: R -> Result<seq<BulkEdit>, X>, condition: Option<R -> bool>)
    requires k <= |paths|
    requires ImportLinesSpec(AllLines(paths[..k], read), parse, entityImport, condition).failure.Some?
    ensures ImportLinesSpec(AllLines(paths, read), parse, entityImport, condition)
         == ImportLinesSpec(AllLines(paths[..k], read), parse, entityImport, condition)
  {
    var done, all := AllLines(paths[..k], read), AllLines(paths, read);
    AllLinesPrefix(paths, k, read);
    assert done + all[|done|..] == all;
    FailureStops(done, all[|done|..], parse, entityImport, condition);
  }

  /** Reading one more file continues the run with that file's lines. */
  lemma ImportFilesStep<R, X>(paths: seq<string>, k: nat, read: string -> string, parse: string -> Option<R>,
                              entityImport: R -> Result<seq<BulkEdit>, X>, condition: Option<R -> bool>)
    requires k < |paths|
    requires ImportLinesSpec(AllLines(paths[..k], read), parse, entityImport, condition).failure.None?
    ensures var before := ImportLinesSpec(AllLines(paths[..k], read), parse, entityImport, condition);
      var file := ImportLinesSpec(Split(read(paths[k]), '\n'), parse, entityImport, condition);
      ImportLinesSpec(AllLines(paths[..k + 1], read), parse, entityImport, condition) == Run(before.edits + file.edits, file.failure)
  {
    AllLinesSnoc(paths, k, read);
    ImportLinesConcat(AllLines(paths[..k], read), Split(read(paths[k]), '\n'), parse, entityImport, condition);
  }

  /**
   * The outer loop of `import_entities` over the files: the lines of each file in turn, stopping
   * at the first failure.
   */
  method ImportFiles<R, X>(pusher: EditPusher, paths: seq<string>, read: string -> string, parse: string -> Option<R>,
                           entityImport: R -> Result<seq<BulkEdit>, X>, condition: Option<R -> bool>)
    returns (failure: Option<Failure<X>>)
    requires pusher.Valid() && pusher.pending == [] && pusher.submitted == []
    modifies pusher
    ensures pusher.Valid() && |pusher.pending| <= FlushThreshold
    ensures var run := ImportLinesSpec(AllLines(paths, read), parse, entityImport, condition);
      failure == run.failure && pusher.Accepted() == run.edits
    ensures FullFrom(pusher.submitted, 0)
  {
    for k := 0 to |paths|
      invariant pusher.Valid() && |pusher.pending| <= FlushThreshold
      invariant ImportLinesSpec(AllLines(paths[..k], read), parse, entityImport, condition).failure.None?
      invariant pusher.Accepted() == ImportLinesSpec(AllLines(paths[..k], read), parse, entityImport, condition).edits
      invariant FullFrom(pusher.submitted, 0)
    {
      var lines := Split(read(paths[k]), '\n');
      ImportFilesStep(paths, k, read, parse, entityImport, condition);
      failure := ImportLines(pusher, lines, parse, entityImport, condition);
      if failure.Some? {
        FailureInFile(paths, k + 1, read, parse, entityImport, condition);
        return;
      }
    }
    assert paths[..|paths|] == paths;
    return None;
  }

  /**
   * `import_entities`: every line of every data file is read in order; the edits of the accepted
   * records are submitted in batches of more than `FlushThreshold` edits, followed by one final
   * batch of what is left. Concatenated, the batches are exactly the accepted edits, each once and
   * in order. A failing line ends the import: the batches already submitted stay submitted, and
   * the at most `FlushThreshold` edits still pending are never submitted.
   */
  method ImportEntities<R, X>(entity: string, listing: string -> seq<string>, read: string -> string,
                              parse: string -> Option<R>, entityImport: R -> Result<seq<BulkEdit>, X>,
                              condition: Option<R -> bool>)
    returns (batches: seq<seq<BulkEdit>>, failure: Option<Failure<X>>)
    ensures var run := ImportLinesSpec(AllLines(FilesToProcess(entity, listing), read), parse, entityImport, condition);
      && failure == run.failure
      && (failure.None? ==> Flatten(batches) == run.edits)
      && (failure.Some? ==> Flatten(batches) <= run.edits && |run.edits| - |Flatten(batches)| <= FlushThreshold)
    ensures forall i :: 0 <= i < |batches| ==> batches[i] != []
    ensures forall i :: 0 <= i < |batches| ==> |batches[i]| > FlushThreshold || (i == |batches| - 1 && failure.None?)
  {
    var allFiles := ScanFiles(entity, listing);
    var pusher := new EditPusher();
    failure := ImportFiles(pusher, allFiles, read, parse, entityImport, condition);
    if failure.Some? {
      assert Flatten(pusher.submitted) <= pusher.Accepted();
      return pusher.submitted, failure;
    }
    pusher.PushEdits();
    pusher.AwaitLast();
    return pusher.submitted, None;
  }
}
