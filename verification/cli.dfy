/** The `CLD3_cli` object (cld3_cli.h:52-73) and its result accumulator
    `create_lang_entry` (cld3_cli.h:79-90).

    The object is an immutable value here: an operation that changes it in
    the source returns the new object. The floating-point fields of a
    classifier result are only copied, so their type is the parameter `F`. */
module Cld3Cli {
  import opened Errors
  import opened Arguments

  /** One result of the external language identifier: `NNetLanguageIdentifier::Result`. */
  datatype LangResult<F> = LangResult(language: string, probability: F, isReliable: bool, proportion: F)

  /** One element of the `results` array, with its four keys as fields. */
  datatype Entry<F> = Entry(language: string, probability: F, reliable: bool, proportion: F)

  /** The state of a `CLD3_cli` object. */
  datatype Cli<F> = Cli(inputPath: string, outputFormat: string, n: int32, results: seq<Entry<F>>)

  /** A JSON value as stored under one key of an entry object. */
  datatype JsonValue<F> = JString(s: string) | JNumber(x: F) | JBool(b: bool)

  const LanguageKey: string := "language"
  const ProbabilityKey: string := "probability"
  const ReliableKey: string := "reliable"
  const ProportionKey: string := "proportion"

  /** The keys every entry object carries, and no others. */
  const EntryKeys: set<string> := {LanguageKey, ProbabilityKey, ReliableKey, ProportionKey}

  /** The object the source builds for an entry, key by key. */
  function Object<F>(e: Entry<F>): (m: map<string, JsonValue<F>>)
    ensures m.Keys == EntryKeys
  {
    map[LanguageKey := JString(e.language),
        ProbabilityKey := JNumber(e.probability),
        ReliableKey := JBool(e.reliable),
        ProportionKey := JNumber(e.proportion)]
  }

  /** Reads an entry back from an object, if the object has the four keys
      with values of the right kinds. */
  function FromObject<F>(m: map<string, JsonValue<F>>): (r: Option<Entry<F>>)
    ensures r.Some? ==> EntryKeys <= m.Keys
  {
    if EntryKeys <= m.Keys
       && m[LanguageKey].JString? && m[ProbabilityKey].JNumber?
       && m[ReliableKey].JBool? && m[ProportionKey].JNumber?
    then Some(Entry(m[LanguageKey].s, m[ProbabilityKey].x, m[ReliableKey].b, m[ProportionKey].x))
    else None
  }

  /** Reading back the object of an entry gives the entry. */
  lemma ObjectRoundTrip<F>(e: Entry<F>)
    ensures FromObject(Object(e)) == Some(e)
  {
  }

  /** An object with exactly the four keys that reads back as an entry is
      that entry's object: nothing is lost in either direction. */
  lemma FromObjectRoundTrip<F>(m: map<string, JsonValue<F>>)
    requires m.Keys == EntryKeys
    requires FromObject(m).Some?
    ensures Object(FromObject(m).value) == m
  {
  }

  /** The constructor: the three arguments are stored as given and the
      result array starts empty. */
  function New<F>(inputPath: string, outputFormat: string, n: int32): (cli: Cli<F>)
    ensures cli.inputPath == inputPath
    ensures cli.outputFormat == outputFormat
    ensures cli.n == n
    ensures |cli.results| == 0
  {
    Cli(inputPath, outputFormat, n, [])
  }

  /** The entry made from one classifier result: the fields are copied
      verbatim, `is_reliable` under the key `reliable`. */
  function EntryOf<F>(result: LangResult<F>): (e: Entry<F>)
    ensures Object(e) ==
      map[LanguageKey := JString(result.language),
          ProbabilityKey := JNumber(result.probability),
          ReliableKey := JBool(result.isReliable),
          ProportionKey := JNumber(result.proportion)]
  {
    Entry(result.language, result.probability, result.isReliable, result.proportion)
  }

  /** `create_lang_entry`: appends one entry for `result` to the results and
      changes nothing else. */
  function CreateLangEntry<F>(cli: Cli<F>, result: LangResult<F>): (next: Cli<F>)
    ensures |next.results| == |cli.results| + 1
    ensures next.results[..|cli.results|] == cli.results
    ensures Object(next.results[|cli.results|]) ==
      map[LanguageKey := JString(result.language),
          ProbabilityKey := JNumber(result.probability),
          ReliableKey := JBool(result.isReliable),
          ProportionKey := JNumber(result.proportion)]
    ensures next.inputPath == cli.inputPath
    ensures next.outputFormat == cli.outputFormat
    ensures next.n == cli.n
  {
    cli.(results := cli.results + [EntryOf(result)])
  }

  /** Successive `create_lang_entry` calls, one per result, in order. */
  function CreateLangEntries<F>(cli: Cli<F>, rs: seq<LangResult<F>>): (next: Cli<F>)
    ensures |next.results| == |cli.results| + |rs|
    ensures next.inputPath == cli.inputPath && next.outputFormat == cli.outputFormat && next.n == cli.n
    decreases |rs|
  {
    if rs == [] then cli else CreateLangEntries(CreateLangEntry(cli, rs[0]), rs[1..])
  }

  /** Over any run of calls the results array only grows at its end: the old
      entries keep their positions, and the new ones are the results'
      entries in the order the calls were made. */
  lemma {:induction false} CreateLangEntriesAppendOnly<F>(cli: Cli<F>, rs: seq<LangResult<F>>)
    ensures |CreateLangEntries(cli, rs).results| == |cli.results| + |rs|
    ensures CreateLangEntries(cli, rs).results[..|cli.results|] == cli.results
    ensures forall i :: 0 <= i < |rs| ==>
      CreateLangEntries(cli, rs).results[|cli.results| + i] == EntryOf(rs[i])
    ensures CreateLangEntries(cli, rs).inputPath == cli.inputPath
    ensures CreateLangEntries(cli, rs).outputFormat == cli.outputFormat
    ensures CreateLangEntries(cli, rs).n == cli.n
    decreases |rs|
  {
    if rs != [] {
      var mid := CreateLangEntry(cli, rs[0]);
      CreateLangEntriesAppendOnly(mid, rs[1..]);
      var last := CreateLangEntries(mid, rs[1..]);
      assert last == CreateLangEntries(cli, rs);
      assert last.results[..|cli.results|] == mid.results[..|mid.results|][..|cli.results|];
      forall i | 0 <= i < |rs|
        ensures last.results[|cli.results| + i] == EntryOf(rs[i])
      {
        if i == 0 {
          assert last.results[|cli.results|] == mid.results[|cli.results|];
        } else {
          assert last.results[|mid.results| + (i - 1)] == EntryOf(rs[1..][i - 1]);
        }
      }
    }
  }

  /** An object whose format and count went through the validators. */
  predicate Valid<F>(cli: Cli<F>) {
    cli.outputFormat in OutputFormats && cli.n >= 1
  }

  /** Constructing from validated arguments gives a valid object with no
      results, and appending results keeps it valid. */
  lemma ValidatedConstructionStaysValid<F>(
    inputPath: string, formatArg: Option<string>, nArg: Option<int32>,
    rs: seq<LangResult<F>>)
    requires GetOutputFormat(formatArg).Success?
    requires GetNumLangs(nArg).Success?
    ensures var cli := New<F>(inputPath, GetOutputFormat(formatArg).value, GetNumLangs(nArg).value);
      Valid(cli) && |cli.results| == 0 && Valid(CreateLangEntries(cli, rs))
  {
    var cli := New<F>(inputPath, GetOutputFormat(formatArg).value, GetNumLangs(nArg).value);
    CreateLangEntriesAppendOnly(cli, rs);
  }
}
