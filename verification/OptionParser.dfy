/**
 The option parser of the performance tests: it takes the common options out of argv by
 shifting the rest to the left, in place.
 */
module OptionParser {
  import opened Options

  datatype Arg = Null | Text(s: string)

  // ------------------------------------------------------------------
  // Options
  // ------------------------------------------------------------------

  datatype Field = Threads | OpenMP | Cuda | Hip | Sycl | Repeat

  datatype Kind = TakesInt(field: Field) | Help | Unknown

  datatype Params =
    Params(useThreads: int, useOpenMP: int, useCuda: int, useHip: int, useSycl: int, repeat: int, printHelp: bool)

  /** What the conversion of a value yields; the number is stored even where it is rejected. */
  datatype IntParse = Good(v: int) | NotAnInt(v: int) | OutOfRange(v: int)

  datatype Error = MissingValue(name: string) | BadValue(text: string)

  function ToLower(c: char): char {
    if 'A' <= c <= 'Z' then ((c as int) + 32) as char else c
  }

  function Lower(s: string): string {
    seq(|s|, i requires 0 <= i < |s| => ToLower(s[i]))
  }

  /** string_compare_no_case yields zero. */
  predicate SameNoCase(a: string, b: string) {
    Lower(a) == Lower(b)
  }

  function NameOf(f: Field): string {
    match f
    case Threads => "--threads"
    case OpenMP => "--openmp"
    case Cuda => "--cuda"
    case Hip => "--hip"
    case Sycl => "--sycl"
    case Repeat => "--repeat"
  }

  function KindOf(s: string): Kind {
    if SameNoCase(s, NameOf(Threads)) then TakesInt(Threads)
    else if SameNoCase(s, NameOf(OpenMP)) then TakesInt(OpenMP)
    else if SameNoCase(s, NameOf(Cuda)) then TakesInt(Cuda)
    else if SameNoCase(s, NameOf(Hip)) then TakesInt(Hip)
    else if SameNoCase(s, NameOf(Sycl)) then TakesInt(Sycl)
    else if SameNoCase(s, NameOf(Repeat)) then TakesInt(Repeat)
    else if SameNoCase(s, "-h") || SameNoCase(s, "--help") then Help
    else Unknown
  }

  /** Upper-case letters become lower-case, and nothing else changes. */
  lemma LowerWrittenOut(s: string)
    ensures |Lower(s)| == |s|
    ensures forall i :: 0 <= i < |s| && 'A' <= s[i] <= 'Z' ==>
              'a' <= Lower(s)[i] <= 'z' && Lower(s)[i] as int - 'a' as int == s[i] as int - 'A' as int
    ensures forall i :: 0 <= i < |s| && !('A' <= s[i] <= 'Z') ==> Lower(s)[i] == s[i]
  {
  }

  lemma LowerNames()
    ensures Lower("--threads") == "--threads" && Lower("--openmp") == "--openmp" && Lower("--cuda") == "--cuda"
    ensures Lower("--hip") == "--hip" && Lower("--sycl") == "--sycl" && Lower("--repeat") == "--repeat"
    ensures Lower("-h") == "-h" && Lower("--help") == "--help"
  {
  }

  lemma NamesDiffer()
    ensures "--cuda"[2] == 'c' && "--sycl"[2] == 's' && "--help"[2] == 'h'
    ensures "--openmp"[2] == 'o' && "--repeat"[2] == 'r'
  {
  }

  /** What each literal option is, in any case; whatever is none of them is unknown. */
  lemma KindsWrittenOut(s: string)
    ensures KindOf(s) == TakesInt(Threads) <==> Lower(s) == "--threads"
    ensures KindOf(s) == TakesInt(OpenMP) <==> Lower(s) == "--openmp"
    ensures KindOf(s) == TakesInt(Cuda) <==> Lower(s) == "--cuda"
    ensures KindOf(s) == TakesInt(Hip) <==> Lower(s) == "--hip"
    ensures KindOf(s) == TakesInt(Sycl) <==> Lower(s) == "--sycl"
    ensures KindOf(s) == TakesInt(Repeat) <==> Lower(s) == "--repeat"
    ensures KindOf(s) == Help <==> Lower(s) in {"-h", "--help"}
  {
    LowerNames();
    NamesDiffer();
    hide Lower;
  }

  function SetField(p: Params, f: Field, v: int): Params {
    match f
    case Threads => p.(useThreads := v)
    case OpenMP => p.(useOpenMP := v)
    case Cuda => p.(useCuda := v)
    case Hip => p.(useHip := v)
    case Sycl => p.(useSycl := v)
    case Repeat => p.(repeat := v)
  }

  /** A device index is stored plus one, so that zero means unused. */
  function Bump(f: Field): int {
    if f.Cuda? || f.Hip? || f.Sycl? then 1 else 0
  }

  // ------------------------------------------------------------------
  // What parsing means
  // ------------------------------------------------------------------

  /** What is left in argv after the program name, the parameters, and the error thrown. */
  datatype Parsed = Parsed(rest: seq<string>, params: Params, error: Option<Error>)

  type Conversion = string -> IntParse

  function Parse(args: seq<string>, p: Params, convert: Conversion): Parsed
    decreases |args|
  {
    if args == [] then Parsed([], p, None)
    else
      match KindOf(args[0])
      case Unknown =>
        var r := Parse(args[1..], p, convert);
        r.(rest := [args[0]] + r.rest)
      case Help => Parse(args[1..], p.(printHelp := true), convert)
      case TakesInt(f) =>
        if |args| == 1 then Parsed(args, p, Some(MissingValue(NameOf(f))))
        else if convert(args[1]).Good? then Parse(args[2..], SetField(p, f, convert(args[1]).v + Bump(f)), convert)
        else Parsed(args, SetField(p, f, convert(args[1]).v), Some(BadValue(args[1])))
  }

  /** Whether argument i is the value of the option before it. */
  predicate IsValue(args: seq<string>, i: nat)
    requires i <= |args|
  {
    i > 0 && !IsValue(args, i - 1) && KindOf(args[i - 1]).TakesInt?
  }

  /** The arguments from i on that are neither options nor values of options, in order. */
  function Unrecognised(args: seq<string>, i: nat): seq<string>
    requires i <= |args|
    decreases |args| - i
  {
    if i == |args| then []
    else (if !IsValue(args, i) && KindOf(args[i]).Unknown? then [args[i]] else []) + Unrecognised(args, i + 1)
  }

  predicate HasValue(args: seq<string>, i: nat, convert: Conversion)
    requires i < |args|
  {
    i + 1 < |args| && convert(args[i + 1]).Good?
  }

  /** Every option that needs an integer has one. */
  ghost predicate WellFormedFrom(args: seq<string>, i: nat, convert: Conversion) {
    forall k: nat :: i <= k < |args| && !IsValue(args, k) && KindOf(args[k]).TakesInt? ==> HasValue(args, k, convert)
  }

  /** What one argument that starts an option, or is none, means for the rest. */
  lemma WellFormedStep(args: seq<string>, i: nat, convert: Conversion)
    requires i < |args| && !IsValue(args, i)
    ensures !KindOf(args[i]).TakesInt? ==>
              !IsValue(args, i + 1) && (WellFormedFrom(args, i, convert) <==> WellFormedFrom(args, i + 1, convert))
    ensures KindOf(args[i]).TakesInt? && HasValue(args, i, convert) ==>
              !IsValue(args, i + 2) && (WellFormedFrom(args, i, convert) <==> WellFormedFrom(args, i + 2, convert))
    ensures KindOf(args[i]).TakesInt? && !HasValue(args, i, convert) ==> !WellFormedFrom(args, i, convert)
  {
    hide KindOf;
    if KindOf(args[i]).TakesInt? && HasValue(args, i, convert) {
      assert IsValue(args, i + 1);
    }
  }

  lemma UnrecognisedStep(args: seq<string>, i: nat)
    requires i < |args| && !IsValue(args, i)
    ensures KindOf(args[i]).Unknown? ==> Unrecognised(args, i) == [args[i]] + Unrecognised(args, i + 1)
    ensures KindOf(args[i]).Help? ==> Unrecognised(args, i) == Unrecognised(args, i + 1)
    ensures KindOf(args[i]).TakesInt? && i + 1 < |args| ==> Unrecognised(args, i) == Unrecognised(args, i + 2)
  {
    hide KindOf;
    if KindOf(args[i]).TakesInt? && i + 1 < |args| {
      assert IsValue(args, i + 1);
      assert Unrecognised(args, i + 1) == Unrecognised(args, i + 2);
    }
  }

  lemma {:induction false} ParseFrom(args: seq<string>, i: nat, p: Params, convert: Conversion)
    requires i <= |args| && !IsValue(args, i)
    ensures Parse(args[i..], p, convert).error.None? <==> WellFormedFrom(args, i, convert)
    ensures Parse(args[i..], p, convert).error.None? ==> Parse(args[i..], p, convert).rest == Unrecognised(args, i)
    decreases |args| - i
  {
    hide KindOf, IsValue, WellFormedFrom, Unrecognised, SetField, Bump;
    if i < |args| {
      assert args[i..][0] == args[i] && args[i..][1..] == args[i + 1..];
      WellFormedStep(args, i, convert);
      UnrecognisedStep(args, i);
      match KindOf(args[i])
      case Unknown =>
        ParseFrom(args, i + 1, p, convert);
      case Help =>
        ParseFrom(args, i + 1, p.(printHelp := true), convert);
      case TakesInt(f) =>
        if HasValue(args, i, convert) {
          assert args[i..][1] == args[i + 1] && args[i..][2..] == args[i + 2..];
          ParseFrom(args, i + 2, SetField(p, f, convert(args[i + 1]).v + Bump(f)), convert);
        }
    } else {
      AtEnd(args, p, convert);
    }
  }

  /** The parse of one option with its value, for each literal name: which parameter is set, and
      that device indices are stored plus one. */
  lemma OptionsWrittenOut(s: string, value: string, p: Params, convert: Conversion)
    requires convert(value).Good?
    ensures var n := convert(value).v;
            && (Lower(s) == "--threads" ==> Parse([s, value], p, convert) == Parsed([], p.(useThreads := n), None))
            && (Lower(s) == "--openmp" ==> Parse([s, value], p, convert) == Parsed([], p.(useOpenMP := n), None))
            && (Lower(s) == "--cuda" ==> Parse([s, value], p, convert) == Parsed([], p.(useCuda := n + 1), None))
            && (Lower(s) == "--hip" ==> Parse([s, value], p, convert) == Parsed([], p.(useHip := n + 1), None))
            && (Lower(s) == "--sycl" ==> Parse([s, value], p, convert) == Parsed([], p.(useSycl := n + 1), None))
            && (Lower(s) == "--repeat" ==> Parse([s, value], p, convert) == Parsed([], p.(repeat := n), None))
    ensures Lower(s) in {"-h", "--help"} ==> Parse([s], p, convert) == Parsed([], p.(printHelp := true), None)
  {
    KindsWrittenOut(s);
    hide KindOf, Lower;
    ParseOfNothing(p, convert);
    assert [s, value][2..] == [] && [s][1..] == [];
  }

  lemma ParseOfNothing(p: Params, convert: Conversion)
    ensures forall q: Params :: Parse([], q, convert) == Parsed([], q, None)
  {
  }

  /** An option without a usable value: what is thrown and what is stored before. */
  lemma ErrorsWrittenOut(s: string, value: string, p: Params, convert: Conversion)
    requires !convert(value).Good? && Lower(s) == "--cuda"
    ensures Parse([s], p, convert) == Parsed([s], p, Some(MissingValue("--cuda")))
    ensures Parse([s, value], p, convert)
            == Parsed([s, value], p.(useCuda := convert(value).v), Some(BadValue(value)))
  {
    KindsWrittenOut(s);
    hide KindOf, Lower;
  }

  lemma AtEnd(args: seq<string>, p: Params, convert: Conversion)
    ensures WellFormedFrom(args, |args|, convert) && Unrecognised(args, |args|) == []
    ensures Parse(args[|args|..], p, convert) == Parsed([], p, None)
  {
    assert args[|args|..] == [];
  }

  /** Parsing succeeds exactly when every integer option has its integer, and then leaves
      exactly the unrecognised arguments, in order. */
  lemma ParseIsFilter(args: seq<string>, p: Params, convert: Conversion)
    ensures Parse(args, p, convert).error.None? <==> WellFormedFrom(args, 0, convert)
    ensures Parse(args, p, convert).error.None? ==> Parse(args, p, convert).rest == Unrecognised(args, 0)
  {
    assert args[0..] == args;
    ParseFrom(args, 0, p, convert);
  }

  function GetField(p: Params, f: Field): int {
    match f
    case Threads => p.useThreads
    case OpenMP => p.useOpenMP
    case Cuda => p.useCuda
    case Hip => p.useHip
    case Sycl => p.useSycl
    case Repeat => p.repeat
  }

  lemma SetThenGet(p: Params, f: Field, v: int, g: Field)
    ensures GetField(SetField(p, f, v), g) == if f == g then v else GetField(p, g)
  {
  }

  /** The last place from i on where an option for field f stands. */
  function LastUse(args: seq<string>, f: Field, i: nat): Option<nat>
    requires i <= |args|
    decreases |args| - i
  {
    if i == |args| then None
    else if LastUse(args, f, i + 1).Some? then LastUse(args, f, i + 1)
    else if !IsValue(args, i) && KindOf(args[i]) == TakesInt(f) then Some(i)
    else None
  }

  function ValueAfter(args: seq<string>, f: Field, k: nat, convert: Conversion): int {
    if k + 1 < |args| then convert(args[k + 1]).v + Bump(f) else 0
  }

  function FieldAfter(args: seq<string>, f: Field, i: nat, p: Params, convert: Conversion): int
    requires i <= |args|
  {
    match LastUse(args, f, i)
    case None => GetField(p, f)
    case Some(k) => ValueAfter(args, f, k, convert)
  }

  lemma LastUseStep(args: seq<string>, f: Field, i: nat)
    requires i < |args| && !IsValue(args, i)
    ensures !KindOf(args[i]).TakesInt? ==> LastUse(args, f, i) == LastUse(args, f, i + 1)
    ensures KindOf(args[i]).TakesInt? && i + 1 < |args| ==>
              LastUse(args, f, i) == if LastUse(args, f, i + 2).Some? then LastUse(args, f, i + 2)
                                     else if KindOf(args[i]).field == f then Some(i) else None
  {
    hide KindOf;
    if KindOf(args[i]).TakesInt? && i + 1 < |args| {
      assert IsValue(args, i + 1);
      assert LastUse(args, f, i + 1) == LastUse(args, f, i + 2);
    }
  }

  lemma {:induction false} FieldsFrom(args: seq<string>, i: nat, p: Params, convert: Conversion, g: Field)
    requires i <= |args| && !IsValue(args, i) && Parse(args[i..], p, convert).error.None?
    ensures GetField(Parse(args[i..], p, convert).params, g) == FieldAfter(args, g, i, p, convert)
    decreases |args| - i
  {
    hide KindOf, IsValue, WellFormedFrom, LastUse, SetField, GetField, Bump;
    if i < |args| {
      assert args[i..][0] == args[i] && args[i..][1..] == args[i + 1..];
      WellFormedStep(args, i, convert);
      LastUseStep(args, g, i);
      match KindOf(args[i])
      case Unknown =>
        FieldsFrom(args, i + 1, p, convert, g);
      case Help =>
        FieldsFrom(args, i + 1, p.(printHelp := true), convert, g);
        HelpSetsNoField(p, g);
      case TakesInt(f) =>
        assert args[i..][1] == args[i + 1] && args[i..][2..] == args[i + 2..];
        var v := convert(args[i + 1]).v + Bump(f);
        FieldsFrom(args, i + 2, SetField(p, f, v), convert, g);
        SetThenGet(p, f, v, g);
    } else {
      AtEnd(args, p, convert);
      NoUseAtEnd(args, g);
    }
  }

  lemma HelpSetsNoField(p: Params, g: Field)
    ensures GetField(p.(printHelp := true), g) == GetField(p, g)
  {
  }

  lemma NoUseAtEnd(args: seq<string>, g: Field)
    ensures LastUse(args, g, |args|) == None
  {
  }

  /** Every parameter ends with the value after the last use of its option, plus one for a
      device, and an unused one keeps its value. */
  lemma LastUseWins(args: seq<string>, p: Params, convert: Conversion, f: Field)
    requires Parse(args, p, convert).error.None?
    ensures GetField(Parse(args, p, convert).params, f) == FieldAfter(args, f, 0, p, convert)
  {
    assert args[0..] == args;
    FieldsFrom(args, 0, p, convert, f);
  }

  lemma {:induction false} NothingLeft(args: seq<string>, p: Params, convert: Conversion)
    ensures Parse(args, p, convert).error.None? ==>
              forall k :: 0 <= k < |Parse(args, p, convert).rest| ==> KindOf(Parse(args, p, convert).rest[k]).Unknown?
    decreases |args|
  {
    hide KindOf;
    if args != [] {
      match KindOf(args[0])
      case Unknown =>
        NothingLeft(args[1..], p, convert);
      case Help =>
        NothingLeft(args[1..], p.(printHelp := true), convert);
      case TakesInt(f) =>
        if |args| > 1 && convert(args[1]).Good? {
          NothingLeft(args[2..], SetField(p, f, convert(args[1]).v + Bump(f)), convert);
        }
    }
  }

  lemma {:induction false} ParseOfUnknown(args: seq<string>, p: Params, convert: Conversion)
    requires forall k :: 0 <= k < |args| ==> KindOf(args[k]).Unknown?
    ensures Parse(args, p, convert) == Parsed(args, p, None)
    decreases |args|
  {
    hide KindOf;
    if args != [] {
      ParseOfUnknown(args[1..], p, convert);
    }
  }

  /** Parsing again changes neither the arguments nor the parameters. */
  lemma ParseTwice(args: seq<string>, p: Params, convert: Conversion)
    requires Parse(args, p, convert).error.None?
    ensures var r := Parse(args, p, convert); Parse(r.rest, r.params, convert) == r
  {
    NothingLeft(args, p, convert);
    var r := Parse(args, p, convert);
    ParseOfUnknown(r.rest, r.params, convert);
  }

  // ------------------------------------------------------------------
  // parse_common_options
  // ------------------------------------------------------------------

  class CommonInputParams {
    var useCuda: int
    var useHip: int
    var useSycl: int
    var useOpenMP: int
    var useThreads: int
    var repeat: int
    var printHelp: bool

    constructor ()
      ensures Value() == Params(0, 0, 0, 0, 0, 0, false)
    {
      useCuda, useHip, useSycl, useOpenMP, useThreads, repeat, printHelp := 0, 0, 0, 0, 0, 0, false;
    }

    function Value(): Params
      reads this
    {
      Params(useThreads, useOpenMP, useCuda, useHip, useSycl, repeat, printHelp)
    }

    lemma ValueWrittenOut()
      ensures Value().useThreads == useThreads && Value().useOpenMP == useOpenMP && Value().repeat == repeat
      ensures Value().useCuda == useCuda && Value().useHip == useHip && Value().useSycl == useSycl
      ensures Value().printHelp == printHelp
    {
    }

    method Assign(f: Field, v: int)
      modifies this
      ensures Value() == SetField(old(Value()), f, v)
    {
      match f
      case Threads => useThreads := v;
      case OpenMP => useOpenMP := v;
      case Cuda => useCuda := v;
      case Hip => useHip := v;
      case Sycl => useSycl := v;
      case Repeat => repeat := v;
    }
  }

  /** argc arguments and a null pointer after them. */
  predicate IsArgv(v: seq<Arg>, argc: nat) {
    argc < |v| && v[argc].Null? && forall i :: 0 <= i < argc ==> v[i].Text?
  }

  function TextOf(a: Arg): string {
    if a.Text? then a.s else ""
  }

  function Texts(v: seq<Arg>): seq<string> {
    seq(|v|, i requires 0 <= i < |v| => TextOf(v[i]))
  }

  datatype Checked = NoMatch | Stored | Thrown(error: Error)

  /** check_arg_int. */
  method CheckArgInt(i: nat, argc: nat, argv: array<Arg>, field: Field, params: CommonInputParams,
                     convert: Conversion) returns (r: Checked)
    requires IsArgv(argv[..], argc) && i < argc
    modifies params
    ensures r == NoMatch <==> !SameNoCase(argv[i].s, NameOf(field))
    ensures r == NoMatch ==> params.Value() == old(params.Value())
    ensures r != NoMatch ==>
              if i + 1 == argc then r == Thrown(MissingValue(NameOf(field))) && params.Value() == old(params.Value())
              else && params.Value() == SetField(old(params.Value()), field, convert(argv[i + 1].s).v)
                   && r == if convert(argv[i + 1].s).Good? then Stored else Thrown(BadValue(argv[i + 1].s))
  {
    hide SameNoCase, NameOf;
    if !SameNoCase(argv[i].s, NameOf(field)) {
      return NoMatch;
    }
    if i < argc - 1 {
      var c := convert(argv[i + 1].s);
      params.Assign(field, c.v);
      return if c.Good? then Stored else Thrown(BadValue(argv[i + 1].s));
    } else {
      return Thrown(MissingValue(NameOf(field)));
    }
  }

  /** Moves the tail of argv, with its null pointer, left over the removed arguments. */
  method ShiftLeft(argv: array<Arg>, argIdx: nat, removeFlags: nat, argc: nat)
    requires removeFlags > 0 && argIdx + removeFlags <= argc < argv.Length
    modifies argv
    ensures forall q :: 0 <= q <= argc - removeFlags ==> argv[q] == old(argv[if q < argIdx then q else q + removeFlags])
  {
    var k := argIdx + removeFlags;
    while k <= argc
      invariant argIdx + removeFlags <= k <= argc + 1
      invariant forall q :: 0 <= q < argv.Length ==>
                  argv[q] == old(argv[if argIdx <= q < k - removeFlags then q + removeFlags else q])
    {
      argv[k - removeFlags] := argv[k];
      k := k + 1;
    }
  }

  /** What the checks of one argument decide: how many arguments go, the error thrown, and
      the new parameters. */
  ghost predicate Decided(v: seq<Arg>, i: nat, argc: nat, p: Params, convert: Conversion, removeFlags: nat,
                          error: Option<Error>, p': Params)
    requires IsArgv(v, argc) && i < argc
  {
    match KindOf(v[i].s)
    case Unknown => removeFlags == 0 && error == None && p' == p
    case Help => removeFlags == 1 && error == None && p' == p.(printHelp := true)
    case TakesInt(f) =>
      if i + 1 == argc then error == Some(MissingValue(NameOf(f))) && p' == p
      else if convert(v[i + 1].s).Good?
      then removeFlags == 2 && error == None && p' == SetField(p, f, convert(v[i + 1].s).v + Bump(f))
      else error == Some(BadValue(v[i + 1].s)) && p' == SetField(p, f, convert(v[i + 1].s).v)
  }

  /** The chain of checks for one argument: how many arguments to remove. */
  method CheckOptions(argIdx: nat, argc: nat, argv: array<Arg>, params: CommonInputParams, convert: Conversion)
    returns (removeFlags: nat, error: Option<Error>)
    requires IsArgv(argv[..], argc) && argIdx < argc
    modifies params
    ensures Decided(argv[..], argIdx, argc, old(params.Value()), convert, removeFlags, error, params.Value())
  {
    hide SameNoCase, NameOf;
    removeFlags, error := 0, None;
    var r := CheckArgInt(argIdx, argc, argv, Threads, params, convert);
    if r == NoMatch {
      r := CheckArgInt(argIdx, argc, argv, OpenMP, params, convert);
    }
    if r == NoMatch {
      r := CheckArgInt(argIdx, argc, argv, Cuda, params, convert);
      if r == Stored {
        params.useCuda := params.useCuda + 1;
      }
    }
    if r == NoMatch {
      r := CheckArgInt(argIdx, argc, argv, Hip, params, convert);
      if r == Stored {
        params.useHip := params.useHip + 1;
      }
    }
    if r == NoMatch {
      r := CheckArgInt(argIdx, argc, argv, Sycl, params, convert);
      if r == Stored {
        params.useSycl := params.useSycl + 1;
      }
    }
    if r == NoMatch {
      r := CheckArgInt(argIdx, argc, argv, Repeat, params, convert);
    }
    match r
    case Stored =>
      removeFlags := 2;
    case Thrown(e) =>
      error := Some(e);
    case NoMatch =>
      if SameNoCase(argv[argIdx].s, "-h") || SameNoCase(argv[argIdx].s, "--help") {
        params.printHelp := true;
        removeFlags := 1;
      }
  }

  /** Keeping the arguments before i and parsing the rest gives the expected result. */
  ghost predicate OnTrack(v: seq<Arg>, i: nat, argc: nat, p: Params, convert: Conversion, expected: Parsed) {
    && IsArgv(v, argc) && 1 <= i <= argc
    && var r := Parse(Texts(v[i..argc]), p, convert);
       r.(rest := Texts(v[1..i]) + r.rest) == expected
  }

  lemma Starts(v: seq<Arg>, argc: nat, p: Params, convert: Conversion)
    requires IsArgv(v, argc) && argc > 0
    ensures OnTrack(v, 1, argc, p, convert, Parse(Texts(v[1..argc]), p, convert))
  {
    assert Texts(v[1..1]) == [];
  }

  lemma Finishes(v: seq<Arg>, argc: nat, p: Params, convert: Conversion, expected: Parsed)
    requires OnTrack(v, argc, argc, p, convert, expected)
    ensures Parsed(Texts(v[1..argc]), p, None) == expected
  {
    assert Texts(v[argc..argc]) == [];
  }

  lemma ArgvSlices(v: seq<Arg>, i: nat, argc: nat)
    requires IsArgv(v, argc) && 1 <= i < argc
    ensures Texts(v[i..argc]) == [v[i].s] + Texts(v[i + 1..argc])
    ensures i + 1 < argc ==> Texts(v[i..argc]) == [v[i].s, v[i + 1].s] + Texts(v[i + 2..argc])
    ensures Texts(v[1..i + 1]) == Texts(v[1..i]) + [v[i].s]
    ensures Texts(v[1..argc]) == Texts(v[1..i]) + Texts(v[i..argc])
  {
    hide Texts;
    TextsSplit(v, i, i + 1, argc);
    OneText(v, i);
    TextsSplit(v, 1, i, i + 1);
    TextsSplit(v, 1, i, argc);
    if i + 1 < argc {
      TextsSplit(v, i + 1, i + 2, argc);
      OneText(v, i + 1);
      assert [v[i].s] + ([v[i + 1].s] + Texts(v[i + 2..argc])) == [v[i].s, v[i + 1].s] + Texts(v[i + 2..argc]);
    }
  }

  lemma OneText(v: seq<Arg>, i: nat)
    requires i < |v| && v[i].Text?
    ensures Texts(v[i..i + 1]) == [v[i].s]
  {
  }

  lemma TextsSplit(v: seq<Arg>, lo: nat, mid: nat, hi: nat)
    requires lo <= mid <= hi <= |v|
    ensures Texts(v[lo..hi]) == Texts(v[lo..mid]) + Texts(v[mid..hi])
  {
    assert v[lo..hi] == v[lo..mid] + v[mid..hi];
    TextsConcat(v[lo..mid], v[mid..hi]);
  }

  lemma TextsConcat(u: seq<Arg>, v: seq<Arg>)
    ensures Texts(u + v) == Texts(u) + Texts(v)
  {
  }

  lemma KeepsArgument(v: seq<Arg>, i: nat, argc: nat, p: Params, convert: Conversion, expected: Parsed)
    requires OnTrack(v, i, argc, p, convert, expected) && i < argc && KindOf(v[i].s).Unknown?
    ensures OnTrack(v, i + 1, argc, p, convert, expected)
  {
    hide KindOf, Texts;
    ArgvSlices(v, i, argc);
    var args := Texts(v[i..argc]);
    assert args[0] == v[i].s && args[1..] == Texts(v[i + 1..argc]);
    var tail := Parse(args[1..], p, convert).rest;
    assert Texts(v[1..i]) + ([v[i].s] + tail) == Texts(v[1..i + 1]) + tail;
  }

  lemma Fails(v: seq<Arg>, i: nat, argc: nat, p: Params, convert: Conversion, expected: Parsed, removeFlags: nat,
              e: Error, p': Params)
    requires OnTrack(v, i, argc, p, convert, expected) && i < argc
    requires Decided(v, i, argc, p, convert, removeFlags, Some(e), p')
    ensures Parsed(Texts(v[1..argc]), p', Some(e)) == expected
  {
    hide KindOf, Texts, SetField, Bump, NameOf;
    ArgvSlices(v, i, argc);
    var args := Texts(v[i..argc]);
    assert args[0] == v[i].s;
    if i + 1 == argc {
      assert Texts(v[argc..argc]) == [] by { NoTexts(v, argc); }
      assert |args| == 1;
    } else {
      assert args[1] == v[i + 1].s;
    }
  }

  lemma NoTexts(v: seq<Arg>, argc: nat)
    requires argc <= |v|
    ensures Texts(v[argc..argc]) == []
  {
  }

  lemma RemovesArguments(v: seq<Arg>, v': seq<Arg>, i: nat, argc: nat, p: Params, convert: Conversion, expected: Parsed,
                         removed: nat, p': Params)
    requires OnTrack(v, i, argc, p, convert, expected) && i < argc && removed > 0
    requires Decided(v, i, argc, p, convert, removed, None, p') && i + removed <= argc
    requires IsArgv(v', argc - removed) && v'[1..i] == v[1..i] && v'[i..argc - removed] == v[i + removed..argc]
    ensures OnTrack(v', i, argc - removed, p', convert, expected)
  {
    hide KindOf, Texts, SetField, Bump, NameOf;
    ArgvSlices(v, i, argc);
    var args := Texts(v[i..argc]);
    assert args[0] == v[i].s && args[1..] == Texts(v[i + 1..argc]);
    if removed == 2 {
      assert args[1] == v[i + 1].s && args[2..] == Texts(v[i + 2..argc]);
    }
  }

  lemma EnoughArguments(v: seq<Arg>, i: nat, argc: nat, p: Params, convert: Conversion, removed: nat, p': Params)
    requires IsArgv(v, argc) && i < argc && Decided(v, i, argc, p, convert, removed, None, p')
    ensures i + removed <= argc && (removed == 0 ==> KindOf(v[i].s).Unknown? && p' == p)
  {
    hide KindOf, SetField, Bump, NameOf;
  }

  /** parse_common_options. An error leaves argv compacted up to the offending option. */
  method ParseCommonOptions(argc0: nat, argv: array<Arg>, params: CommonInputParams, convert: Conversion)
    returns (argc: nat, error: Option<Error>)
    requires IsArgv(argv[..], argc0)
    modifies argv, params
    ensures IsArgv(argv[..], argc) && argc <= argc0
    ensures argc0 == 0 ==> argc == 0 && error == None && params.Value() == old(params.Value())
    ensures argc0 > 0 ==> argc > 0 && argv[0] == old(argv[0])
    ensures argc0 > 0 ==> Parsed(Texts(argv[..][1..argc]), params.Value(), error)
                          == Parse(Texts(old(argv[..])[1..argc0]), old(params.Value()), convert)
  {
    hide KindOf, SetField, Bump, Texts, Parse, OnTrack, Decided;
    argc, error := argc0, None;
    if argc == 0 {
      return;
    }
    ghost var expected := Parse(Texts(argv[..][1..argc0]), params.Value(), convert);
    Starts(argv[..], argc, params.Value(), convert);
    var argIdx := 1;
    while argIdx < argc
      invariant IsArgv(argv[..], argc) && argc <= argc0 && 1 <= argIdx <= argc
                && error == None && argv[0] == old(argv[0])
      invariant OnTrack(argv[..], argIdx, argc, params.Value(), convert, expected)
      decreases argc - argIdx
    {
      ghost var before, p := argv[..], params.Value();
      var removeFlags;
      removeFlags, error := CheckOptions(argIdx, argc, argv, params, convert);
      if error.Some? {
        Fails(before, argIdx, argc, p, convert, expected, removeFlags, error.value, params.Value());
        return;
      }
      EnoughArguments(before, argIdx, argc, p, convert, removeFlags, params.Value());
      if removeFlags > 0 {
        ShiftLeft(argv, argIdx, removeFlags, argc);
        Shifted(before, argv[..], argIdx, removeFlags, argc - removeFlags);
        RemovesArguments(before, argv[..], argIdx, argc, p, convert, expected, removeFlags, params.Value());
        argc := argc - removeFlags;
      } else {
        KeepsArgument(before, argIdx, argc, p, convert, expected);
        argIdx := argIdx + 1;
      }
    }
    Finishes(argv[..], argc, params.Value(), convert, expected);
  }

  /** Shifting keeps the front of argv, the null pointer and the arguments still to parse. */
  lemma Shifted(before: seq<Arg>, after: seq<Arg>, i: nat, removed: nat, argc: nat)
    requires 1 <= i <= argc && IsArgv(before, argc + removed) && |after| == |before|
    requires forall q :: 0 <= q <= argc ==> after[q] == before[if q < i then q else q + removed]
    ensures IsArgv(after, argc) && after[0] == before[0]
    ensures after[1..i] == before[1..i] && after[i..argc] == before[i + removed..argc + removed]
  {
  }
}
