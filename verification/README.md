# cld3-cli: argument validators and result accumulator

A Dafny model of the core of `cld3_cli`, a command-line wrapper around the
CLD3 neural language identifier. The model covers the logic that the tool
itself defines in `cld3_cli.h`:

- `get_output_format` validates the `<output-format>` argument. It lowercases
  the argument and accepts it only if the result is `json` or `stdout`
  (`Arguments.GetOutputFormat`).
- `get_num_langs` validates the `<N>` argument (how many top languages to
  report). A missing argument gives 1. A value of zero or less is rejected
  (`Arguments.GetNumLangs`).
- The `CLD3_cli` object keeps the input path, output format, `N` and a
  `results` array. `create_lang_entry` turns one classifier `Result` into a
  four-key object (`language`, `probability`, `reliable`, `proportion`) and
  appends it to `results` (`Cld3Cli.New`, `Cld3Cli.CreateLangEntry`).

Modules follow the source's pieces:

- `Errors`: `Option` models a null `const char*`. `Result` models either a
  returned value or a thrown `std::invalid_argument` with its message.
- `Ascii`: `::tolower` applied over a string by `std::transform`.
- `Arguments`: the two validators. `int32` stands for the C++ `int`.
- `Cld3Cli`: the object, its entries, and a small view of each entry as a
  key/value object.

The object is an immutable value. `create_lang_entry` returns the updated
object instead of mutating it. The classifier's floating-point fields are
only copied, so their type is the type parameter `F`.

`tests/cld3_cli_test.cc` exercises a later interface: `check_workflow`, a
four-argument constructor, `work()`, `get_results()` and a `text` key.
`cld3_cli.cc:28` calls `work()`, but no file at this revision defines it. The
model follows `cld3_cli.h`.

## Model

| member | source | states |
|---|---|---|
| Ascii.LowerChar | cld3_cli.h:32 | `::tolower` on one character leaves no upper-case letter. It keeps every character that is not an upper-case ASCII letter, and it moves an upper-case letter to the lower-case letter at the fixed case offset. |
| Ascii.Lower | cld3_cli.h:31-32 | The lowercased string has the argument's length, and each character is `::tolower` of the argument's character at the same position. This is the lowercasing that `Arguments.GetOutputFormat` applies. |
| Ascii.TransformToLower | cld3_cli.h:31-32 | The in-place lowercasing loop keeps the length. It maps every upper-case ASCII letter to its lower-case letter and leaves every other character as it is. The result has no upper-case letter left. |
| Ascii.LowerIdempotent | cld3_cli.h:32 | Lowercasing an already lowercased string changes nothing. |
| Ascii.LowerEqualIffEqualIgnoringCase | cld3_cli.h:32 | Two strings lowercase to the same string exactly when they have the same length and, position by position, are equal or are the upper- and lower-case forms of one ASCII letter. This definition does not itself use lowercasing. |
| Arguments.GetOutputFormat | cld3_cli.h:25-39 | A missing argument fails with "No <output-format> argument.". Otherwise the call succeeds exactly when the lowercased argument is "json" or "stdout". On success it returns the lowercased argument, which is always one of those two. On failure it gives the "should be either" message. |
| Arguments.OutputFormatIdempotent | cld3_cli.h:31-38 | Feeding an accepted format back in returns it unchanged. |
| Arguments.OutputFormatCaseInsensitive | cld3_cli.h:30-36 | Arguments that differ only in letter case get the same outcome, success or failure. |
| Arguments.OutputFormatAcceptsExactlyCaseVariants | cld3_cli.h:31-36 | The accepted arguments are exactly the case variants of "json" and of "stdout". |
| Arguments.OutputFormatExamples | tests/cld3_cli_test.cc:32-50 | A missing argument, "" and "foo" are rejected. "JSON" gives "json" and "StDoUt" gives "stdout". |
| Arguments.GetNumLangs | cld3_cli.h:41-50 | A missing argument gives the default 1. A present value succeeds exactly when it is positive, and then it is returned unchanged. Every failure carries the `<N>` message. Every successful result is at least 1. |
| Arguments.NumLangsIdempotent | cld3_cli.h:46-49 | Feeding an accepted count back in returns it unchanged. |
| Arguments.NumLangsExamples | tests/cld3_cli_test.cc:72-85 | A missing argument gives 1. -1 and 0 are rejected. 10 gives 10. |
| Cld3Cli.New | cld3_cli.h:54-72 | The constructor stores the input path, output format and count as given. It starts with no results. |
| Cld3Cli.Object | cld3_cli.h:80-86 | The object built for an entry has exactly the keys language, probability, reliable and proportion. |
| Cld3Cli.EntryOf | cld3_cli.h:83-86 | The entry made from a classifier result has as its object the result's language, probability, is_reliable and proportion under the keys language, probability, reliable and proportion. |
| Cld3Cli.ObjectRoundTrip | cld3_cli.h:80-86 | The four-key object built for an entry reads back as that same entry. |
| Cld3Cli.FromObjectRoundTrip | cld3_cli.h:80-86 | An object with exactly the four keys that reads back as an entry is that entry's object, so the object view loses nothing. |
| Cld3Cli.CreateLangEntry | cld3_cli.h:79-90 | Appending one result grows the results by exactly one. Earlier entries stay unchanged in their positions. The new entry's object has exactly the keys language, probability, reliable and proportion, holding the result's language, probability, is_reliable and proportion verbatim. Path, format and count are unchanged. |
| Cld3Cli.CreateLangEntries | cld3_cli.h:79-90 | Repeated calls of `create_lang_entry`, one per result, grow the results by exactly the number of results. Path, format and count are unchanged. |
| Cld3Cli.CreateLangEntriesAppendOnly | cld3_cli.h:88-89 | After any sequence of appends, the results are the old results followed by one entry per result, in call order. Path, format and count never change. |
| Cld3Cli.ValidatedConstructionStaysValid | cld3_cli.cc:27 | An object built from validated arguments starts with no results. Its format is "json" or "stdout" and its count is at least 1, and it stays so under any sequence of appends. |

Note: the message for a bad `<N>` (cld3_cli.h:47) says "non-negative", but the check rejects 0 as well. The model keeps the message text as written and the behaviour as coded. The tests at tests/cld3_cli_test.cc:77-80 confirm the behaviour.

## Left out

- `get_input_path` (cld3_cli.h:14-23): a null check that throws "No <input-path> argument." (cld3_cli.h:15-17), followed by filesystem `is_directory`/`is_regular_file` queries. Only the filesystem queries put it out of reach here. The model takes the input path as an already validated string.
- `print_usage`, `main` and the argument-count check (cld3_cli.cc:8-33): command-line plumbing, error-stream output and exit codes. Only the hand-off of validated arguments to the constructor is reflected, in `Cld3Cli.ValidatedConstructionStaysValid`.
- `operator<<` (cld3_cli.h:75-77): it writes nothing.
- The private getter `get_output_format() const` (cld3_cli.h:66): it is the field `outputFormat`.
- `NNetLanguageIdentifier`: the external classifier. Its `Result` is a plain datatype supplied by the caller.
- jsoncons: the results array is a sequence of four-field records. The one JSON view kept is the four-key object of one entry, needed to state which keys an entry has.
- Floating-point values: `probability` and `proportion` have an opaque type, since they are only copied.
- Arguments.GetNumLangs: takes the integer that `std::stringstream` extraction produces (cld3_cli.h:44-45) rather than the text. Parse failure (0 in C++11) and clamping of out-of-range text to the `int` limits are not modelled, only the null default and the `N <= 0` check.
- Ascii.TransformToLower: ASCII lowercasing only. Locale-dependent `::tolower` behaviour on other characters is not modelled.
- `check_workflow`, `escape_newlines`, `work()`, `get_results()` and the four-argument constructor: the tests use them, but no source at this revision defines them.
- Cld3Cli.New: the constructor's default `N=1` (cld3_cli.h:56) is not a separate call form. The only caller always passes `N`, and a missing `<N>` argument already becomes 1 in `Arguments.GetNumLangs`.
