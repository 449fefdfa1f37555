/** `ParseCommandLine` of the WAS front end: what each option returned by
    `php_getopt` does to the `CommandLine` settings, and when parsing stops.
    `php_getopt` itself is an oracle: the options it returns, in order,
    and the `php_optind` it leaves behind. */
module WasCommandLine {

  /** `ParseCommandLine`'s "go on" result. */
  const CONTINUE: int := -1
  const EXIT_SUCCESS: int := 0
  const EXIT_FAILURE: int := 1

  /** One result of `php_getopt`: an option letter with its argument (only
      `-d` has one), or `PHP_GETOPT_INVALID_ARG`. */
  datatype Getopt = Opt(c: char, arg: string) | InvalidArg

  /** `-h` and `-?` print the usage and end parsing with success; an
      invalid option prints it and ends parsing with failure. */
  predicate Stops(g: Getopt)
  {
    g.InvalidArg? || g.c == 'h' || g.c == '?'
  }

  /** The INI entries `-p` defines, in order; the JIT one only in a build
      with the JIT. */
  function PrecompileDefines(haveJit: bool): (r: seq<string>)
    ensures |r| == if haveJit then 6 else 5
    ensures r[0] == "html_errors=0" && r[1] == "zend_extension=opcache.so"
    ensures r[2] == "opcache.enable=1" && r[4] == "opcache.file_cache_only=1"
  {
    ["html_errors=0", "zend_extension=opcache.so", "opcache.enable=1",
     "opcache.file_cache=/tmp", "opcache.file_cache_only=1"]
    + (if haveJit then ["opcache.jit=disable"] else [])
  }

  /** The parts of `struct CommandLine` options change; the INI builder is
      the list of entries defined so far. */
  datatype Settings = Settings(defines: seq<string>, iniIgnore: bool, precompile: bool, printSystemId: bool)

  /** The effect of one option that does not stop parsing. Letters the
      switch does not list change nothing. */
  function Apply(s: Settings, g: Getopt, haveJit: bool): Settings
    requires !Stops(g)
  {
    match g.c
    case 'd' => s.(defines := s.defines + [g.arg])
    case 'n' => s.(iniIgnore := true)
    case 'p' => s.(precompile := true, iniIgnore := true, defines := s.defines + PrecompileDefines(haveJit))
    case 'y' => s.(printSystemId := true)
    case _ => s
  }

  /** The settings after the options, up to the first one that stops. */
  function Effect(s: Settings, opts: seq<Getopt>, haveJit: bool): Settings
    decreases |opts|
  {
    if |opts| == 0 || Stops(opts[0]) then s
    else Effect(Apply(s, opts[0], haveJit), opts[1..], haveJit)
  }

  /** The result of `ParseCommandLine` for these options. */
  function Outcome(opts: seq<Getopt>): int
  {
    if |opts| == 0 then CONTINUE
    else if opts[0].InvalidArg? then EXIT_FAILURE
    else if Stops(opts[0]) then EXIT_SUCCESS
    else Outcome(opts[1..])
  }

  /** `struct CommandLine` */
  class CommandLine {
    var defines: seq<string>
    var optind: int
    var iniIgnore: bool
    var precompile: bool
    var printSystemId: bool

    /** `{ .ini_ignore = false }` followed by `php_ini_builder_init`. */
    constructor ()
      ensures defines == [] && optind == 0 && !iniIgnore && !precompile && !printSystemId
    {
      defines := [];
      optind := 0;
      iniIgnore := false;
      precompile := false;
      printSystemId := false;
    }

    function Current(): Settings
      reads this
    {
      Settings(defines, iniIgnore, precompile, printSystemId)
    }

    /** `ParseCommandLine`: `opts` are the results `php_getopt` returns
        before -1, and `finalOptind` the `php_optind` it then leaves.
        `optind` is stored only when the options run out. */
    method Parse(opts: seq<Getopt>, finalOptind: int, haveJit: bool) returns (r: int)
      modifies this
      ensures r == Outcome(opts)
      ensures Current() == Effect(old(Current()), opts, haveJit)
      ensures optind == if r == CONTINUE then finalOptind else old(optind)
    {
      var i := 0;
      while i < |opts|
        invariant 0 <= i <= |opts| && optind == old(optind)
        invariant Effect(Current(), opts[i..], haveJit) == Effect(old(Current()), opts, haveJit)
        invariant Outcome(opts[i..]) == Outcome(opts)
      {
        var g := opts[i];
        assert opts[i..][1..] == opts[i + 1..];
        match g
        case InvalidArg =>
          return EXIT_FAILURE;
        case Opt(c, arg) =>
          if c == 'd' {
            defines := defines + [arg];
          } else if c == 'n' {
            iniIgnore := true;
          } else if c == 'h' || c == '?' {
            return EXIT_SUCCESS;
          } else if c == 'p' {
            precompile := true;
            iniIgnore := true;
            defines := defines + PrecompileDefines(haveJit);
          } else if c == 'y' {
            printSystemId := true;
          }
        i := i + 1;
      }
      optind := finalOptind;
      return CONTINUE;
    }
  }

  /** The first option that stops parsing decides the result: failure for
      an invalid one, success for help; with none, parsing goes on. */
  lemma {:induction false} OutcomeMeaning(opts: seq<Getopt>)
    ensures Outcome(opts) == CONTINUE <==> forall i :: 0 <= i < |opts| ==> !Stops(opts[i])
    ensures Outcome(opts) != CONTINUE ==>
      exists k :: 0 <= k < |opts| && Stops(opts[k]) && (forall i :: 0 <= i < k ==> !Stops(opts[i]))
        && Outcome(opts) == (if opts[k].InvalidArg? then EXIT_FAILURE else EXIT_SUCCESS)
  {
    if |opts| > 0 && !Stops(opts[0]) {
      OutcomeMeaning(opts[1..]);
      assert forall i :: 1 <= i < |opts| ==> opts[i] == opts[1..][i - 1];
      if Outcome(opts) != CONTINUE {
        var k :| 0 <= k < |opts[1..]| && Stops(opts[1..][k]) && (forall i :: 0 <= i < k ==> !Stops(opts[1..][i]))
          && Outcome(opts[1..]) == (if opts[1..][k].InvalidArg? then EXIT_FAILURE else EXIT_SUCCESS);
        assert Stops(opts[k + 1]);
      }
    } else if |opts| > 0 {
      assert Stops(opts[0]);
    }
  }

  /** Options after one that stops are never looked at. */
  lemma {:induction false} StopDiscardsRest(s: Settings, opts: seq<Getopt>, stop: Getopt, rest: seq<Getopt>, haveJit: bool)
    requires Stops(stop)
    requires forall i :: 0 <= i < |opts| ==> !Stops(opts[i])
    ensures Effect(s, opts + [stop] + rest, haveJit) == Effect(s, opts, haveJit)
    ensures Outcome(opts + [stop] + rest) == if stop.InvalidArg? then EXIT_FAILURE else EXIT_SUCCESS
    decreases |opts|
  {
    if |opts| == 0 {
      assert opts + [stop] + rest == [stop] + rest;
    } else {
      assert (opts + [stop] + rest)[1..] == opts[1..] + [stop] + rest;
      StopDiscardsRest(Apply(s, opts[0], haveJit), opts[1..], stop, rest, haveJit);
    }
  }

  /** `-p` turns on precompilation and `-n`'s effect and appends the
      opcache entries after everything defined before it. */
  lemma PrecompileOption(s: Settings, arg: string, haveJit: bool)
    ensures var t := Effect(s, [Opt('p', arg)], haveJit);
      t.precompile && t.iniIgnore && t.printSystemId == s.printSystemId
      && t.defines == s.defines + PrecompileDefines(haveJit)
  {
    assert [Opt('p', arg)][1..] == [];
  }

  /** Entries are only ever appended: the defines before parsing are a
      prefix of those after, and `-n`/`-p`/`-y` are never undone. */
  lemma {:induction false} EffectOnlyAdds(s: Settings, opts: seq<Getopt>, haveJit: bool)
    ensures s.defines <= Effect(s, opts, haveJit).defines
    ensures s.iniIgnore ==> Effect(s, opts, haveJit).iniIgnore
    ensures s.precompile ==> Effect(s, opts, haveJit).precompile
    ensures s.printSystemId ==> Effect(s, opts, haveJit).printSystemId
    decreases |opts|
  {
    if |opts| > 0 && !Stops(opts[0]) {
      EffectOnlyAdds(Apply(s, opts[0], haveJit), opts[1..], haveJit);
    }
  }

  /** Precompiling always ignores the INI file: parsing keeps
      `precompile ==> ini_ignore`. */
  lemma {:induction false} PrecompileIgnoresIni(s: Settings, opts: seq<Getopt>, haveJit: bool)
    requires s.precompile ==> s.iniIgnore
    ensures Effect(s, opts, haveJit).precompile ==> Effect(s, opts, haveJit).iniIgnore
    decreases |opts|
  {
    if |opts| > 0 && !Stops(opts[0]) {
      PrecompileIgnoresIni(Apply(s, opts[0], haveJit), opts[1..], haveJit);
    }
  }

  /** `-d x` adds exactly `x` at the end of the defines. */
  lemma DefineAppends(s: Settings, x: string, haveJit: bool)
    ensures Effect(s, [Opt('d', x)], haveJit) == s.(defines := s.defines + [x])
  {
    assert [Opt('d', x)][1..] == [];
  }
}
