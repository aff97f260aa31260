/**
 The six directory loaders of `dpypr/read.py` (`read_all_json`, `read_all_csv`,
 `read_all_xlsx`, `read_all_feather`, `read_all_parquet`, `read_all_pickle`)
 as one generic scan over a directory listing. The listing, the path check and
 the format parser are parameters; the log is the sequence of lines emitted.
 */
module Loaders {
  import opened Wrappers
  import opened Naming

  const JsonExt: string := ".json"
  const CsvExt: string := ".csv"
  const XlsxExt: string := ".xlsx"
  const FeatherExt: string := ".feather"
  const ParquetExt: string := ".parquet"
  const PickleExt: string := ".pickle"

  /** The separator `read_all_csv` passes to the CSV parser unless told otherwise. */
  const DefaultSeparator: string := ","

  /** Why a loader raised instead of returning. */
  datatype Error =
    | UnboundListing           // the path check failed, so the listing was never bound
    | ParseFailed(name: string) // the parser raised on this directory entry

  datatype Outcome<T> = Returned(dict: map<string, T>) | Raised(error: Error)

  /** The entries of `files` that end in `ext`, in listing order. */
  function Matching(files: seq<string>, ext: string): (names: seq<string>)
    ensures |names| <= |files|
    ensures AllMatch(names, ext)
  {
    if files == [] then []
    else
      var rest := Matching(files[..|files| - 1], ext);
      var f := files[|files| - 1];
      if EndsWith(f, ext) then rest + [f] else rest
  }

  /** A name is kept exactly when it is listed and ends in the extension. */
  lemma {:induction false} MatchingMembers(files: seq<string>, ext: string)
    ensures forall f :: f in Matching(files, ext) <==> f in files && EndsWith(f, ext)
  {
    if files != [] {
      var init := files[..|files| - 1];
      MatchingMembers(init, ext);
      assert files == init + [files[|files| - 1]];
    }
  }

  /** A name that does not end in the extension, wherever it stands, changes nothing. */
  lemma {:induction false} MatchingSkips(before: seq<string>, f: string, after: seq<string>, ext: string)
    requires !EndsWith(f, ext)
    ensures Matching(before + [f] + after, ext) == Matching(before + after, ext)
    decreases |after|
  {
    if after == [] {
      assert before + [f] + after == before + [f];
      assert (before + [f])[..|before|] == before;
      assert before + [] == before;
    } else {
      var last := after[|after| - 1];
      var init := after[..|after| - 1];
      assert (before + [f] + after)[..|before| + 1 + |init|] == before + [f] + init;
      assert (before + after)[..|before| + |init|] == before + init;
      MatchingSkips(before, f, init, ext);
    }
  }

  /** Scanning a longer prefix of the listing only appends matching names. */
  lemma {:induction false} MatchingStep(files: seq<string>, i: nat, ext: string)
    requires i < |files|
    ensures Matching(files[..i + 1], ext)
         == Matching(files[..i], ext) + (if EndsWith(files[i], ext) then [files[i]] else [])
  {
    assert files[..i + 1][..i] == files[..i];
  }

  lemma {:induction false} MatchingPrefix(files: seq<string>, i: nat, ext: string)
    requires i <= |files|
    ensures Matching(files[..i], ext) <= Matching(files, ext)
    decreases |files| - i
  {
    if i < |files| {
      MatchingStep(files, i, ext);
      MatchingPrefix(files, i + 1, ext);
    } else {
      assert files[..i] == files;
    }
  }

  /** The index of the first name the parser rejects, or `|names|` when it accepts all. */
  function FirstFailure<T>(names: seq<string>, parse: string -> Option<T>): (i: nat)
    ensures i <= |names|
    ensures forall j :: 0 <= j < i ==> parse(names[j]).Some?
    ensures i < |names| ==> parse(names[i]).None?
  {
    if names == [] then 0
    else if parse(names[0]).None? then 0
    else 1 + FirstFailure(names[1..], parse)
  }

  predicate AllMatch(names: seq<string>, ext: string)
  {
    forall f :: f in names ==> EndsWith(f, ext)
  }

  predicate AllParse<T>(names: seq<string>, parse: string -> Option<T>)
  {
    forall f :: f in names ==> parse(f).Some?
  }

  /**
   The dictionary built from matching names that all parse: each name in
   listing order stores its table under `df_<stem>`, overwriting what an
   earlier name with the same key stored.
   */
  function Collect<T>(names: seq<string>, ext: string, parse: string -> Option<T>): (dict: map<string, T>)
    requires ValidExtension(ext) && AllMatch(names, ext) && AllParse(names, parse)
  {
    if names == [] then map[]
    else
      var f := names[|names| - 1];
      Collect(names[..|names| - 1], ext, parse)[KeyOf(f, ext) := parse(f).value]
  }

  /** The keys a list of matching names derives. */
  function KeysOf(names: seq<string>, ext: string): (keys: set<string>)
    requires ValidExtension(ext) && AllMatch(names, ext)
  {
    set f | f in names :: KeyOf(f, ext)
  }

  /** The keys of the dictionary are exactly the keys derived from the names. */
  lemma {:induction false} CollectKeys<T>(names: seq<string>, ext: string, parse: string -> Option<T>)
    requires ValidExtension(ext) && AllMatch(names, ext) && AllParse(names, parse)
    ensures Collect(names, ext, parse).Keys == KeysOf(names, ext)
  {
    if names != [] {
      var init := names[..|names| - 1];
      var f := names[|names| - 1];
      CollectKeys(init, ext, parse);
      assert names == init + [f];
      assert KeysOf(names, ext) == KeysOf(init, ext) + {KeyOf(f, ext)};
    }
  }

  /** Every key a loader produces carries the `df_` prefix. */
  lemma CollectPrefixed<T>(names: seq<string>, ext: string, parse: string -> Option<T>)
    requires ValidExtension(ext) && AllMatch(names, ext) && AllParse(names, parse)
    ensures forall k :: k in Collect(names, ext, parse) ==> StartsWith(k, Prefix)
  {
    CollectKeys(names, ext, parse);
  }

  /**
   The table stored under a name's key is the one parsed from that name,
   unless a later name derives the same key: plain dictionary assignment,
   so the last one in listing order wins.
   */
  lemma {:induction false} CollectLastWins<T>(names: seq<string>, j: nat, ext: string, parse: string -> Option<T>)
    requires ValidExtension(ext) && AllMatch(names, ext) && AllParse(names, parse)
    requires j < |names|
    requires forall l :: j < l < |names| ==> KeyOf(names[l], ext) != KeyOf(names[j], ext)
    ensures KeyOf(names[j], ext) in Collect(names, ext, parse)
    ensures Collect(names, ext, parse)[KeyOf(names[j], ext)] == parse(names[j]).value
  {
    var init := names[..|names| - 1];
    if j < |init| {
      assert init[j] == names[j];
      forall l | j < l < |init| ensures KeyOf(init[l], ext) != KeyOf(init[j], ext) {
        assert init[l] == names[l];
      }
      CollectLastWins(init, j, ext, parse);
    }
  }

  /** The dictionary has at most one entry per matching name. */
  lemma {:induction false} CollectSize<T>(names: seq<string>, ext: string, parse: string -> Option<T>)
    requires ValidExtension(ext) && AllMatch(names, ext) && AllParse(names, parse)
    ensures |Collect(names, ext, parse)| <= |names|
  {
    if names != [] {
      var init := names[..|names| - 1];
      var f := names[|names| - 1];
      CollectSize(init, ext, parse);
      var before := Collect(init, ext, parse);
      var after := Collect(names, ext, parse);
      assert after.Keys == before.Keys + {KeyOf(f, ext)};
      assert |before.Keys + {KeyOf(f, ext)}| <= |before.Keys| + 1;
    }
  }

  /** The dictionary is empty exactly when no name matched. */
  lemma CollectEmpty<T>(names: seq<string>, ext: string, parse: string -> Option<T>)
    requires ValidExtension(ext) && AllMatch(names, ext) && AllParse(names, parse)
    ensures |Collect(names, ext, parse)| == 0 <==> names == []
  {
    if names != [] {
      assert KeyOf(names[|names| - 1], ext) in Collect(names, ext, parse);
    }
  }

  /** One `read df_<stem> (...)` line per matching name, in listing order. */
  function Lines(names: seq<string>, ext: string): (lines: seq<string>)
    requires ValidExtension(ext) && AllMatch(names, ext)
  {
    if names == [] then []
    else Lines(names[..|names| - 1], ext) + [ReadLine(Stem(names[|names| - 1], ext))]
  }

  /** Exactly one line per matching name, reporting the length of its stem as the record count. */
  lemma {:induction false} LinesAt(names: seq<string>, ext: string, j: nat)
    requires ValidExtension(ext) && AllMatch(names, ext)
    requires j < |names|
    ensures |Lines(names, ext)| == |names|
    ensures Lines(names, ext)[j] == ReadLine(Stem(names[j], ext))
  {
    var init := names[..|names| - 1];
    if j < |init| {
      assert init[j] == names[j];
      LinesAt(init, ext, j);
    } else if init != [] {
      LinesAt(init, ext, 0);
    }
  }

  /**
   What a loader does, stated over the whole listing: a failed path check
   logs a warning and raises (the listing was never bound); otherwise the
   first matching name the parser rejects aborts the load after the lines of
   the names before it; otherwise the dictionary of all matching names is
   returned, with "No files read." appended to the log when it is empty.
   */
  function Expected<T>(pathValid: bool, files: seq<string>, ext: string, parse: string -> Option<T>, messaging: bool): (result: (Outcome<T>, seq<string>))
    requires ValidExtension(ext)
  {
    if !pathValid then (Raised(UnboundListing), [InvalidPathLine])
    else
      var names := Matching(files, ext);
      var i := FirstFailure(names, parse);
      if i < |names| then
        (Raised(ParseFailed(names[i])), if messaging then Lines(names[..i], ext) else [])
      else
        var dict := Collect(names, ext, parse);
        (Returned(dict), (if messaging then Lines(names, ext) else []) + (if |dict| == 0 then [NoFilesRead] else []))
  }

  /** A returned dictionary maps `df_<stem>` of every matching entry, and nothing else. */
  lemma ExpectedKeys<T>(files: seq<string>, ext: string, parse: string -> Option<T>, messaging: bool)
    requires ValidExtension(ext)
    requires Expected(true, files, ext, parse, messaging).0.Returned?
    ensures Expected(true, files, ext, parse, messaging).0.dict.Keys
         == set f | f in files && EndsWith(f, ext) :: KeyOf(f, ext)
  {
    var names := Matching(files, ext);
    CollectKeys(names, ext, parse);
    MatchingMembers(files, ext);
  }

  /**
   With a valid path the load raises exactly when some matching entry fails
   to parse, and it then names such an entry: one bad file aborts the batch.
   */
  lemma ExpectedRaises<T>(files: seq<string>, ext: string, parse: string -> Option<T>, messaging: bool)
    requires ValidExtension(ext)
    ensures Expected(true, files, ext, parse, messaging).0.Raised?
        <==> exists f :: f in files && EndsWith(f, ext) && parse(f).None?
    ensures Expected(true, files, ext, parse, messaging).0.Raised? ==>
              var error := Expected(true, files, ext, parse, messaging).0.error;
              error.ParseFailed? && error.name in files && EndsWith(error.name, ext) && parse(error.name).None?
  {
    var names := Matching(files, ext);
    MatchingMembers(files, ext);
    if exists f :: f in files && EndsWith(f, ext) && parse(f).None? {
      var f :| f in files && EndsWith(f, ext) && parse(f).None?;
      assert f in names;
      var j :| 0 <= j < |names| && names[j] == f;
    }
    var i := FirstFailure(names, parse);
    if i < |names| {
      assert names[i] in names;
    }
  }

  /** "No files read." is the last log line exactly when the returned dictionary is empty, which is when no entry matched. */
  lemma ExpectedNoFilesRead<T>(files: seq<string>, ext: string, parse: string -> Option<T>, messaging: bool)
    requires ValidExtension(ext)
    requires Expected(true, files, ext, parse, messaging).0.Returned?
    ensures var (outcome, log) := Expected(true, files, ext, parse, messaging);
            (|outcome.dict| == 0 <==> Matching(files, ext) == [])
            && (|outcome.dict| == 0 <==> log == [NoFilesRead])
            && (|outcome.dict| != 0 ==> |log| == if messaging then |Matching(files, ext)| else 0)
  {
    var names := Matching(files, ext);
    CollectEmpty(names, ext, parse);
    if names != [] && messaging {
      LinesAt(names, ext, 0);
      var first := ReadLine(Stem(names[0], ext));
      assert first[0] == 'r' && NoFilesRead[0] == 'N';
      assert Lines(names, ext)[0] != NoFilesRead;
      assert Expected(true, files, ext, parse, messaging).1 == Lines(names, ext);
    }
  }

  /** Scanning one more name that parses extends the dictionary and the lines by that name. */
  lemma ScanStep<T>(names: seq<string>, f: string, ext: string, parse: string -> Option<T>)
    requires ValidExtension(ext) && AllMatch(names, ext) && AllParse(names, parse)
    requires EndsWith(f, ext) && parse(f).Some?
    requires FirstFailure(names, parse) == |names|
    ensures AllMatch(names + [f], ext) && AllParse(names + [f], parse)
    ensures FirstFailure(names + [f], parse) == |names| + 1
    ensures Collect(names + [f], ext, parse) == Collect(names, ext, parse)[KeyOf(f, ext) := parse(f).value]
    ensures Lines(names + [f], ext) == Lines(names, ext) + [ReadLine(Stem(f, ext))]
  {
    assert (names + [f])[..|names|] == names;
  }

  /** A matching name the parser rejects, reached with all earlier matches parsed, decides the outcome. */
  lemma ScanAbort<T>(files: seq<string>, i: nat, ext: string, parse: string -> Option<T>, messaging: bool)
    requires ValidExtension(ext) && i < |files|
    requires EndsWith(files[i], ext) && parse(files[i]).None?
    requires FirstFailure(Matching(files[..i], ext), parse) == |Matching(files[..i], ext)|
    ensures Expected(true, files, ext, parse, messaging)
         == (Raised(ParseFailed(files[i])), if messaging then Lines(Matching(files[..i], ext), ext) else [])
  {
    var done := Matching(files[..i], ext);
    var names := Matching(files, ext);
    MatchingStep(files, i, ext);
    MatchingPrefix(files, i + 1, ext);
    assert names[..|done|] == done && names[|done|] == files[i];
  }

  /** A scan that reaches the end of the listing returns the dictionary of all matching names. */
  lemma ScanComplete<T>(files: seq<string>, ext: string, parse: string -> Option<T>, messaging: bool)
    requires ValidExtension(ext)
    requires AllParse(Matching(files, ext), parse)
    requires FirstFailure(Matching(files, ext), parse) == |Matching(files, ext)|
    ensures var dict := Collect(Matching(files, ext), ext, parse);
      Expected(true, files, ext, parse, messaging)
      == (Returned(dict), (if messaging then Lines(Matching(files, ext), ext) else [])
                          + (if |dict| == 0 then [NoFilesRead] else []))
  {
  }

  /**
   The generic body of the six loaders: check the path, then run the
   `for file in files` loop over the listing.
   */
  method ReadAll<T>(pathValid: bool, files: seq<string>, ext: string, parse: string -> Option<T>, messaging: bool)
    returns (outcome: Outcome<T>, log: seq<string>)
    requires ValidExtension(ext)
    ensures (outcome, log) == Expected(pathValid, files, ext, parse, messaging)
  {
    if !pathValid {
      log := [InvalidPathLine];
      outcome := Raised(UnboundListing);
    } else {
      outcome, log := ScanListing(files, ext, parse, messaging);
    }
  }

  /**
   The `for file in files` loop of a loader over a listing that was bound:
   keep the entries ending in `ext`, parse each, store it under
   `df_<stem>` and log one line per file when `messaging` is on; then log
   "No files read." if the dictionary is empty.
   */
  method ScanListing<T>(files: seq<string>, ext: string, parse: string -> Option<T>, messaging: bool)
    returns (outcome: Outcome<T>, log: seq<string>)
    requires ValidExtension(ext)
    ensures (outcome, log) == Expected(true, files, ext, parse, messaging)
  {
    var dict: map<string, T> := map[];
    log := [];
    var i := 0;
    ghost var done: seq<string> := [];
    while i < |files|
      invariant i <= |files|
      invariant done == Matching(files[..i], ext)
      invariant AllParse(done, parse) && FirstFailure(done, parse) == |done|
      invariant dict == Collect(done, ext, parse)
      invariant log == if messaging then Lines(done, ext) else []
    {
      var file := files[i];
      MatchingStep(files, i, ext);
      if EndsWith(file, ext) {
        var table := parse(file);
        if table.None? {
          ScanAbort(files, i, ext, parse, messaging);
          outcome := Raised(ParseFailed(file));
          return;
        }
        ScanStep(done, file, ext, parse);
        var stem := Stem(file, ext);
        dict := dict[DfKey(stem) := table.value];
        if messaging {
          log := log + [ReadLine(stem)];
        }
        done := done + [file];
      }
      i := i + 1;
    }
    assert files[..i] == files;
    ScanComplete(files, ext, parse, messaging);
    if |dict| == 0 {
      log := log + [NoFilesRead];
    } else {
      assert log + [] == log;
    }
    outcome := Returned(dict);
  }

  /** `read_all_json`: the generic loader over `.json` entries. */
  method ReadAllJson<T>(pathValid: bool, files: seq<string>, parse: string -> Option<T>, messaging: bool := true)
    returns (outcome: Outcome<T>, log: seq<string>)
    ensures (outcome, log) == Expected(pathValid, files, JsonExt, parse, messaging)
  {
    outcome, log := ReadAll(pathValid, files, JsonExt, parse, messaging);
  }

  /** The CSV parser with its separator fixed; the separator never reaches the rest of the loader. */
  function WithSeparator<T>(parse: (string, string) -> Option<T>, separator: string): (parseFile: string -> Option<T>)
  {
    name => parse(name, separator)
  }

  /** `read_all_csv`: the generic loader over `.csv` entries, passing the separator to the parser. */
  method ReadAllCsv<T>(pathValid: bool, files: seq<string>, parse: (string, string) -> Option<T>,
                       separator: string := DefaultSeparator, messaging: bool := true)
    returns (outcome: Outcome<T>, log: seq<string>)
    ensures (outcome, log) == Expected(pathValid, files, CsvExt, WithSeparator(parse, separator), messaging)
  {
    outcome, log := ReadAll(pathValid, files, CsvExt, WithSeparator(parse, separator), messaging);
  }

  /** `read_all_xlsx`: the generic loader over `.xlsx` entries. */
  method ReadAllXlsx<T>(pathValid: bool, files: seq<string>, parse: string -> Option<T>, messaging: bool := true)
    returns (outcome: Outcome<T>, log: seq<string>)
    ensures (outcome, log) == Expected(pathValid, files, XlsxExt, parse, messaging)
  {
    outcome, log := ReadAll(pathValid, files, XlsxExt, parse, messaging);
  }

  /** `read_all_feather`: the generic loader over `.feather` entries. */
  method ReadAllFeather<T>(pathValid: bool, files: seq<string>, parse: string -> Option<T>, messaging: bool := true)
    returns (outcome: Outcome<T>, log: seq<string>)
    ensures (outcome, log) == Expected(pathValid, files, FeatherExt, parse, messaging)
  {
    outcome, log := ReadAll(pathValid, files, FeatherExt, parse, messaging);
  }

  /** `read_all_parquet`: the generic loader over `.parquet` entries. */
  method ReadAllParquet<T>(pathValid: bool, files: seq<string>, parse: string -> Option<T>, messaging: bool := true)
    returns (outcome: Outcome<T>, log: seq<string>)
    ensures (outcome, log) == Expected(pathValid, files, ParquetExt, parse, messaging)
  {
    outcome, log := ReadAll(pathValid, files, ParquetExt, parse, messaging);
  }

  /** `read_all_pickle`: the generic loader over `.pickle` entries. */
  method ReadAllPickle<T>(pathValid: bool, files: seq<string>, parse: string -> Option<T>, messaging: bool := true)
    returns (outcome: Outcome<T>, log: seq<string>)
    ensures (outcome, log) == Expected(pathValid, files, PickleExt, parse, messaging)
  {
    outcome, log := ReadAll(pathValid, files, PickleExt, parse, messaging);
  }

}
