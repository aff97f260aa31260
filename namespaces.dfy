/**
 The two helpers of `dpypr/read.py` that move tables between a named
 collection and a namespace (a flat dictionary such as `globals()`):
 `gather_data_dictionary` and `unpack_data_dictionary`. Values are of an
 abstract type `V`; `isFrame` says whether a value is a DataFrame and `rows`
 gives its length.
 */
module Namespaces {
  import opened Naming

  /** The result of `gather_data_dictionary`: the entries whose key starts with `df_` and whose value is a table. */
  function Gathered<V>(globals: map<string, V>, isFrame: V -> bool): (dict: map<string, V>)
  {
    map k | k in globals && StartsWith(k, Prefix) && isFrame(globals[k]) :: globals[k]
  }

  /** The entries `unpack_data_dictionary` writes: every table `v` under key `k` goes to `df_<k>`. */
  function Unpacked<V>(input: map<string, V>, isFrame: V -> bool): (written: map<string, V>)
  {
    map k | k in input && isFrame(input[k]) :: DfKey(k) := input[k]
  }

  /** The entries `unpack_data_dictionary` has written once it has visited the keys in `seen`. */
  function UnpackedFrom<V>(input: map<string, V>, seen: set<string>, isFrame: V -> bool): (written: map<string, V>)
  {
    map k | k in seen && k in input && isFrame(input[k]) :: DfKey(k) := input[k]
  }

  /** Visiting one more key writes its entry if it holds a table, and nothing otherwise. */
  lemma UnpackedFromStep<V>(input: map<string, V>, seen: set<string>, key: string, isFrame: V -> bool)
    requires key in input && key !in seen
    ensures UnpackedFrom(input, seen + {key}, isFrame)
         == if isFrame(input[key]) then UnpackedFrom(input, seen, isFrame)[DfKey(key) := input[key]]
            else UnpackedFrom(input, seen, isFrame)
  {
    var after := UnpackedFrom(input, seen + {key}, isFrame);
    var before := UnpackedFrom(input, seen, isFrame);
    if isFrame(input[key]) {
      assert after.Keys == before.Keys + {DfKey(key)};
    } else {
      assert after.Keys == before.Keys;
    }
  }

  /** The lines `unpack_data_dictionary` logs for the entries of `input` under `keys`. */
  function LinesFor<V>(keys: set<string>, input: map<string, V>, rows: V -> nat): (lines: set<string>)
    requires keys <= input.Keys
  {
    set k | k in keys :: LoadedLine(k, rows(input[k]))
  }

  /**
   `log` reports exactly the entries of `input` under `keys`, one line each
   (`Loaded df_<key> (<rows> records).`), in some order.
   */
  ghost predicate Reported<V>(log: seq<string>, keys: set<string>, input: map<string, V>, rows: V -> nat)
    requires keys <= input.Keys
  {
    |log| == |keys| && (set line | line in log) == LinesFor(keys, input, rows)
  }

  lemma ReportedStep<V>(log: seq<string>, keys: set<string>, key: string, input: map<string, V>, rows: V -> nat)
    requires keys <= input.Keys && key in input && key !in keys
    requires Reported(log, keys, input, rows)
    ensures Reported(log + [LoadedLine(key, rows(input[key]))], keys + {key}, input, rows)
  {
    var line := LoadedLine(key, rows(input[key]));
    assert (set l | l in log + [line]) == (set l | l in log) + {line};
    assert LinesFor(keys + {key}, input, rows) == LinesFor(keys, input, rows) + {line};
  }

  /** Visiting one more key of the input, on top of the entries the namespace held before. */
  lemma UnpackStep<V>(before: map<string, V>, input: map<string, V>, seen: set<string>, key: string, isFrame: V -> bool)
    requires key in input && key !in seen
    ensures isFrame(input[key]) ==>
              (before + UnpackedFrom(input, seen, isFrame))[DfKey(key) := input[key]]
              == before + UnpackedFrom(input, seen + {key}, isFrame)
    ensures !isFrame(input[key]) ==>
              before + UnpackedFrom(input, seen, isFrame) == before + UnpackedFrom(input, seen + {key}, isFrame)
    ensures FrameKeysIn(input, seen + {key}, isFrame)
         == FrameKeysIn(input, seen, isFrame) + (if isFrame(input[key]) then {key} else {})
  {
    UnpackedFromStep(input, seen, key, isFrame);
    var a := before;
    var b := UnpackedFrom(input, seen, isFrame);
    var k := DfKey(key);
    assert ((a + b)[k := input[key]]).Keys == (a + b[k := input[key]]).Keys;
  }

  /** Once every key is visited, the written entries are those of `Unpacked`. */
  lemma UnpackDone<V>(input: map<string, V>, isFrame: V -> bool)
    ensures UnpackedFrom(input, input.Keys, isFrame) == Unpacked(input, isFrame)
    ensures FrameKeysIn(input, input.Keys, isFrame) == FrameKeys(input, isFrame)
  {
  }

  /** The visited keys of the input that hold tables. */
  function FrameKeysIn<V>(input: map<string, V>, seen: set<string>, isFrame: V -> bool): (keys: set<string>)
  {
    set k | k in seen && k in input && isFrame(input[k])
  }

  /** The keys of the input entries that hold tables. */
  function FrameKeys<V>(input: map<string, V>, isFrame: V -> bool): (keys: set<string>)
  {
    set k | k in input && isFrame(input[k])
  }

  /** Gathering keeps values unchanged, keeps only tables under `df_` keys, and keeps all of them. */
  lemma GatheredIsSubMap<V>(globals: map<string, V>, isFrame: V -> bool)
    ensures forall k :: k in Gathered(globals, isFrame) <==> k in globals && StartsWith(k, Prefix) && isFrame(globals[k])
    ensures forall k :: k in Gathered(globals, isFrame) ==> Gathered(globals, isFrame)[k] == globals[k]
  {
  }

  /** Gathering what was gathered changes nothing. */
  lemma GatheredIdempotent<V>(globals: map<string, V>, isFrame: V -> bool)
    ensures Gathered(Gathered(globals, isFrame), isFrame) == Gathered(globals, isFrame)
  {
  }

  /**
   Unpacking stores each table under its prefixed key, and every key it
   writes is `df_` followed by the key of an input table (a key that already
   started with `df_` is prefixed a second time).
   */
  lemma UnpackedKeys<V>(input: map<string, V>, isFrame: V -> bool)
    ensures forall k :: k in input && isFrame(input[k]) ==>
              DfKey(k) in Unpacked(input, isFrame) && Unpacked(input, isFrame)[DfKey(k)] == input[k]
    ensures forall key :: key in Unpacked(input, isFrame) ==>
              StartsWith(key, Prefix) && key[|Prefix|..] in input && isFrame(input[key[|Prefix|..]])
              && Unpacked(input, isFrame)[key] == input[key[|Prefix|..]]
  {
    forall key | key in Unpacked(input, isFrame)
      ensures StartsWith(key, Prefix) && key[|Prefix|..] in input && isFrame(input[key[|Prefix|..]])
              && Unpacked(input, isFrame)[key] == input[key[|Prefix|..]]
    {
      var k :| k in input && isFrame(input[k]) && key == DfKey(k);
    }
  }

  /** One entry is written per input table: no two tables collide on a prefixed key. */
  lemma UnpackedSize<V>(input: map<string, V>, isFrame: V -> bool)
    ensures |Unpacked(input, isFrame)| == |FrameKeys(input, isFrame)|
  {
    var out := Unpacked(input, isFrame);
    var frames := FrameKeys(input, isFrame);
    UnpackedKeys(input, isFrame);
    assert out.Keys == set k | k in frames :: DfKey(k);
    DfKeysSize(frames);
  }

  lemma {:induction false} DfKeysSize(names: set<string>)
    ensures |set k | k in names :: DfKey(k)| == |names|
    decreases |names|
  {
    if names != {} {
      var n :| n in names;
      var rest := names - {n};
      DfKeysSize(rest);
      var keys := set k | k in names :: DfKey(k);
      var restKeys := set k | k in rest :: DfKey(k);
      assert keys == restKeys + {DfKey(n)};
    }
  }

  /**
   Round trip: gathering a fresh namespace filled by unpacking gives that
   namespace back whole, since every written key starts with `df_` and
   holds a table.
   */
  lemma GatherAfterUnpack<V>(input: map<string, V>, isFrame: V -> bool)
    ensures Gathered(Unpacked(input, isFrame), isFrame) == Unpacked(input, isFrame)
  {
    UnpackedKeys(input, isFrame);
  }

  /** `{"x": T}` unpacks to `{"df_x": T}`, and gathering keeps it. */
  lemma UnpackOneTable<V>(t: V, isFrame: V -> bool)
    requires isFrame(t)
    ensures Unpacked(map["x" := t], isFrame) == map["df_x" := t]
    ensures Gathered(Unpacked(map["x" := t], isFrame), isFrame) == map["df_x" := t]
  {
    assert DfKey("x") == "df_x";
    GatherAfterUnpack(map["x" := t], isFrame);
  }

  /**
   `gather_data_dictionary`: walk the namespace, copy each `df_` entry that
   holds a table into a new dictionary, and log "No files found." when none did.
   */
  method GatherDataDictionary<V>(globals: map<string, V>, isFrame: V -> bool)
    returns (dict: map<string, V>, log: seq<string>)
    ensures dict == Gathered(globals, isFrame)
    ensures log == if |dict| == 0 then [NoFilesFound] else []
  {
    dict := map[];
    var pending := globals.Keys;
    while pending != {}
      invariant pending <= globals.Keys
      invariant forall k :: k in dict <==> k in globals && k !in pending && StartsWith(k, Prefix) && isFrame(globals[k])
      invariant forall k :: k in dict ==> dict[k] == globals[k]
      decreases pending
    {
      var name :| name in pending;
      if StartsWith(name, Prefix) && isFrame(globals[name]) {
        dict := dict[name := globals[name]];
      }
      pending := pending - {name};
    }
    log := [];
    if |dict| == 0 {
      log := log + [NoFilesFound];
    }
  }

  /** A namespace the caller owns: a dictionary that `unpack_data_dictionary` may update in place. */
  class Namespace<V> {
    var entries: map<string, V>

    constructor ()
      ensures entries == map[]
    {
      entries := map[];
    }

    /**
     The loop of `unpack_data_dictionary`: write every table of `input` under
     `df_<key>`, leave every other entry as it was, and log one line per
     table, with its row count, when `messaging` is on. Entries are visited
     in an unspecified order, so the log is stated as its set of lines and
     its length.
     */
    method Unpack(input: map<string, V>, isFrame: V -> bool, rows: V -> nat, messaging: bool)
      returns (log: seq<string>)
      modifies this
      ensures entries == old(entries) + Unpacked(input, isFrame)
      ensures messaging ==> Reported(log, FrameKeys(input, isFrame), input, rows)
      ensures !messaging ==> log == []
    {
      log := [];
      var pending := input.Keys;
      ghost var seen: set<string> := {};
      ghost var visited: set<string> := {};
      while pending != {}
        invariant seen + pending == input.Keys && seen !! pending
        invariant visited == FrameKeysIn(input, seen, isFrame) && visited <= seen
        invariant entries == old(entries) + UnpackedFrom(input, seen, isFrame)
        invariant messaging ==> Reported(log, visited, input, rows)
        invariant !messaging ==> log == []
        decreases pending
      {
        var key :| key in pending;
        UnpackStep(old(entries), input, seen, key, isFrame);
        var value := input[key];
        if isFrame(value) {
          entries := entries[DfKey(key) := value];
          if messaging {
            assert key !in visited && visited <= input.Keys;
            ReportedStep(log, visited, key, input, rows);
            log := log + [LoadedLine(key, rows(value))];
          }
          visited := visited + {key};
        }
        seen := seen + {key};
        pending := pending - {key};
      }
      UnpackDone(input, isFrame);
    }
  }

  /**
   `unpack_data_dictionary`: with no `output` namespace, fill a fresh one
   and return it; with one, update it in place and return nothing (`null`).
   */
  method UnpackDataDictionary<V>(input: map<string, V>, output: Namespace?<V>, isFrame: V -> bool,
                                 rows: V -> nat, messaging: bool := false)
    returns (result: Namespace?<V>, log: seq<string>)
    modifies output
    ensures output == null ==> result != null && fresh(result) && result.entries == Unpacked(input, isFrame)
    ensures output != null ==> result == null && output.entries == old(output.entries) + Unpacked(input, isFrame)
    ensures messaging ==> Reported(log, FrameKeys(input, isFrame), input, rows)
    ensures !messaging ==> log == []
  {
    var target: Namespace<V>;
    var returnDict: bool;
    if output == null {
      target := new Namespace();
      returnDict := true;
    } else {
      target := output;
      returnDict := false;
    }
    log := target.Unpack(input, isFrame, rows, messaging);
    if returnDict {
      result := target;
    } else {
      result := null;
    }
  }

}
