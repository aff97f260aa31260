/**
 The naming and message text shared by the loaders and the namespace helpers
 of `dpypr/read.py`: the `df_` key convention, the extension test and stem of
 a directory entry, and the log lines with their comma-grouped counts.
 */
module Naming {

  /** The prefix that marks a name as holding a table. */
  const Prefix: string := "df_"

  const InvalidPathLine: string := "Please enter a valid path."
  const NoFilesRead: string := "No files read."
  const NoFilesFound: string := "No files found."

  /** `s.startswith(prefix)` */
  predicate StartsWith(s: string, prefix: string)
  {
    |prefix| <= |s| && s[..|prefix|] == prefix
  }

  /** `s.endswith(suffix)` */
  predicate EndsWith(s: string, suffix: string)
  {
    |suffix| <= |s| && s[|s| - |suffix|..] == suffix
  }

  /** The key a table is stored under: `f'df_{name}'`. */
  function DfKey(name: string): (key: string)
    ensures StartsWith(key, Prefix)
    ensures key[|Prefix|..] == name
  {
    Prefix + name
  }

  /** Distinct names never share a key. */
  lemma DfKeyInjective(a: string, b: string)
    requires DfKey(a) == DfKey(b)
    ensures a == b
  {
    assert a == DfKey(a)[|Prefix|..];
  }

  /** A file extension as the loaders use it: a dot followed by dot-free characters. */
  predicate ValidExtension(ext: string)
  {
    2 <= |ext| && ext[0] == '.' && forall i :: 1 <= i < |ext| ==> ext[i] != '.'
  }

  /** Whether `s` consists of dots only (the empty string does). */
  predicate AllDots(s: string)
  {
    s == [] || (s[0] == '.' && AllDots(s[1..]))
  }

  /**
   `os.path.splitext(name)[0]` for a directory entry `name` that ends in the
   extension `ext`. The dot that opens `ext` is the last dot of `name`; the
   final extension is removed unless only dots precede it, in which case the
   name (a dot-file such as `.json`) has no extension and is kept whole.
   */
  function Stem(name: string, ext: string): (stem: string)
    requires ValidExtension(ext) && EndsWith(name, ext)
  {
    var root := name[..|name| - |ext|];
    if AllDots(root) then name else root
  }

  /**
   The stem is the name with its final extension removed, except for a name
   in which only dots precede the extension, which is its own stem.
   */
  lemma StemRemovesExtension(name: string, ext: string)
    requires ValidExtension(ext) && EndsWith(name, ext)
    ensures Stem(name, ext) + ext == name || Stem(name, ext) == name
    ensures Stem(name, ext) == name <==> AllDots(name[..|name| - |ext|])
  {
    assert name[..|name| - |ext|] + ext == name;
  }

  /** The key a loader derives from a matching directory entry. */
  function KeyOf(name: string, ext: string): (key: string)
    requires ValidExtension(ext) && EndsWith(name, ext)
  {
    DfKey(Stem(name, ext))
  }

  function DigitChar(d: nat): (c: char)
    requires d < 10
  {
    ('0' as int + d) as char
  }

  /** The decimal digits of `n`, most significant first. */
  function Decimal(n: nat): (s: string)
    decreases n
  {
    if n < 10 then [DigitChar(n)] else Decimal(n / 10) + [DigitChar(n % 10)]
  }

  /** `n` as exactly three decimal digits, zero-padded. */
  function Pad3(n: nat): (s: string)
    requires n < 1000
  {
    [DigitChar(n / 100), DigitChar(n / 10 % 10), DigitChar(n % 10)]
  }

  /** `f'{n:,}'`: the decimal digits of `n` with a comma between groups of three. */
  function Grouped(n: nat): (s: string)
    decreases n
  {
    if n < 1000 then Decimal(n) else Grouped(n / 1000) + "," + Pad3(n % 1000)
  }

  /** Reads a count back from its text: digits accumulate, commas are skipped. */
  function ValueOf(s: string): (n: nat)
  {
    if s == [] then 0
    else
      var c := s[|s| - 1];
      if '0' <= c <= '9' then ValueOf(s[..|s| - 1]) * 10 + (c as int - '0' as int)
      else ValueOf(s[..|s| - 1])
  }

  lemma {:induction false} DecimalRoundTrip(n: nat)
    ensures ValueOf(Decimal(n)) == n
    decreases n
  {
    if n >= 10 {
      var s := Decimal(n);
      assert s[..|s| - 1] == Decimal(n / 10);
      DecimalRoundTrip(n / 10);
    }
  }

  /** The count printed in a log line reads back as the number that was formatted. */
  lemma {:induction false} GroupedRoundTrip(n: nat)
    ensures ValueOf(Grouped(n)) == n
    decreases n
  {
    if n < 1000 {
      DecimalRoundTrip(n);
    } else {
      var g := Grouped(n / 1000);
      var m := n % 1000;
      var p := Pad3(m);
      var s := g + "," + p;
      assert s[..|s| - 1] == g + "," + p[..2];
      assert (g + "," + p[..2])[..|s| - 2] == g + "," + p[..1];
      assert (g + "," + p[..1])[..|s| - 3] == g + ",";
      assert (g + ",")[..|g|] == g;
      GroupedRoundTrip(n / 1000);
      assert ValueOf(g + ",") == n / 1000;
      var q := m / 10;
      assert m == q * 10 + m % 10;
      assert q == q / 10 * 10 + q % 10;
      assert q / 10 == m / 100;
      assert ValueOf(g + "," + p[..1]) == n / 1000 * 10 + m / 100;
      assert ValueOf(g + "," + p[..2]) == (n / 1000 * 10 + m / 100) * 10 + q % 10;
      assert ValueOf(s) == ((n / 1000 * 10 + m / 100) * 10 + q % 10) * 10 + m % 10;
    }
  }

  /** The line a directory loader logs for a file: `read df_<stem> (<len(stem)> records).` */
  function ReadLine(stem: string): (line: string)
  {
    "read " + DfKey(stem) + " (" + Grouped(|stem|) + " records)."
  }

  /** The line `unpack_data_dictionary` logs for an entry: `Loaded df_<key> (<rows> records).` */
  function LoadedLine(key: string, rows: nat): (line: string)
  {
    "Loaded " + DfKey(key) + " (" + Grouped(rows) + " records)."
  }

}
