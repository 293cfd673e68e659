/** The two argument validators of the command-line tool:
    `get_output_format` (cld3_cli.h:25-39) and `get_num_langs`
    (cld3_cli.h:41-50). Each either returns the normalised value or throws
    `std::invalid_argument`, modelled as a `Failure`. */
module Arguments {
  import opened Errors
  import opened Ascii

  /** The C++ `int` the result count is parsed into and stored as. */
  newtype int32 = x: int | -0x8000_0000 <= x < 0x8000_0000

  const Json: string := "json"
  const Stdout: string := "stdout"

  /** The only output formats the tool accepts, in normalised (lowercase) form. */
  const OutputFormats: set<string> := {Json, Stdout}

  const NoOutputFormatMessage: string := "No <output-format> argument."
  const BadOutputFormatMessage: string := "<output-format> should be either \"json\" or \"stdout\"."
  const BadNumLangsMessage: string := "<N> should be a non-negative number."

  /** The result count used when no `<N>` argument is given. */
  const DefaultNumLangs: int32 := 1

  /** Validates the `<output-format>` argument: a missing argument is an
      error; otherwise the argument is lowercased and accepted only when it
      is then "json" or "stdout". */
  function GetOutputFormat(arg: Option<string>): (r: Result<string>)
    ensures arg.None? ==> r == Failure(InvalidArgument(NoOutputFormatMessage))
    ensures arg.Some? ==> (r.Success? <==> Lower(arg.value) in OutputFormats)
    ensures arg.Some? && r.Failure? ==> r.error == InvalidArgument(BadOutputFormatMessage)
    ensures r.Success? ==> arg.Some? && r.value == Lower(arg.value)
    ensures r.Success? ==> r.value in OutputFormats
  {
    match arg
    case None => Failure(InvalidArgument(NoOutputFormatMessage))
    case Some(s) =>
      var format := Lower(s);
      if format != Json && format != Stdout then
        Failure(InvalidArgument(BadOutputFormatMessage))
      else
        Success(format)
  }

  /** Validates the `<N>` argument, given as the integer the stream
      extraction produced: a missing argument means the default 1, a value
      of zero or less is an error, any other value is kept. */
  function GetNumLangs(arg: Option<int32>): (r: Result<int32>)
    ensures arg.None? ==> r == Success(DefaultNumLangs)
    ensures arg.Some? ==> (r.Success? <==> arg.value > 0)
    ensures arg.Some? && r.Success? ==> r.value == arg.value
    ensures r.Failure? ==> r.error == InvalidArgument(BadNumLangsMessage)
    ensures r.Success? ==> r.value >= 1
  {
    match arg
    case None => Success(DefaultNumLangs)
    case Some(n) =>
      if n <= 0 then Failure(InvalidArgument(BadNumLangsMessage)) else Success(n)
  }

  /** A normalised format fed back in is accepted unchanged. */
  lemma OutputFormatIdempotent(arg: Option<string>)
    ensures GetOutputFormat(arg).Success? ==>
      GetOutputFormat(Some(GetOutputFormat(arg).value)) == GetOutputFormat(arg)
  {
    if arg.Some? {
      LowerIdempotent(arg.value);
    }
  }

  /** The validator cannot tell apart arguments that differ only in the
      case of ASCII letters. */
  lemma OutputFormatCaseInsensitive(a: string, b: string)
    requires EqualIgnoringCase(a, b)
    ensures GetOutputFormat(Some(a)) == GetOutputFormat(Some(b))
  {
    LowerEqualIffEqualIgnoringCase(a, b);
  }

  /** The accepted arguments are exactly the case variants of "json" and
      of "stdout". */
  lemma OutputFormatAcceptsExactlyCaseVariants(s: string)
    ensures GetOutputFormat(Some(s)).Success? <==>
      EqualIgnoringCase(s, Json) || EqualIgnoringCase(s, Stdout)
  {
    LowerOfNoUpper(Json);
    LowerOfNoUpper(Stdout);
    LowerEqualIffEqualIgnoringCase(s, Json);
    LowerEqualIffEqualIgnoringCase(s, Stdout);
  }

  /** The behaviour the repository's tests expect of the format check. */
  lemma OutputFormatExamples()
    ensures GetOutputFormat(None).Failure?
    ensures GetOutputFormat(Some("")).Failure?
    ensures GetOutputFormat(Some("foo")).Failure?
    ensures GetOutputFormat(Some("JSON")) == Success("json")
    ensures GetOutputFormat(Some("StDoUt")) == Success("stdout")
  {
    assert Lower("") == "";
    assert Lower("foo") == "foo";
    assert Lower("JSON") == "json";
    assert Lower("StDoUt") == "stdout";
  }

  /** A validated count fed back in is accepted unchanged. */
  lemma NumLangsIdempotent(arg: Option<int32>)
    ensures GetNumLangs(arg).Success? ==>
      GetNumLangs(Some(GetNumLangs(arg).value)) == GetNumLangs(arg)
  {
  }

  /** The behaviour the repository's tests expect of the count check. */
  lemma NumLangsExamples()
    ensures GetNumLangs(None) == Success(1)
    ensures GetNumLangs(Some(-1)).Failure?
    ensures GetNumLangs(Some(0)).Failure?
    ensures GetNumLangs(Some(10)) == Success(10)
  {
  }
}
