/** Start-up choices in main.go: the command-line fold and the page template
    the web server renders for a mode. */
module Cli {
  import opened Kana

  /** What `main` does with its arguments: print the usage, reject an
      argument, or start the quiz in a mode, as a web server or in the terminal. */
  datatype Launch = ShowUsage | UnknownOption(arg: string) | Start(kanaType: Family, serve: bool)

  /** The arguments that let the fold continue. */
  predicate IsRunOption(arg: string) {
    arg == "--kata" || arg == "--hira" || arg == "serve"
  }

  /** The flags that choose a mode. */
  predicate IsKanaFlag(arg: string) {
    arg == "--kata" || arg == "--hira"
  }

  /** The flag that selects `f`; `Both` has none. */
  function FlagOf(f: Family): string {
    match f
    case Hiragana => "--hira"
    case Katakana => "--kata"
    case Both => ""
  }

  /** The argument loop of `main` (main.go:29-54). Processing stops at the
      first argument that is not a run option: `--help` shows the usage and
      anything else is reported as unknown; neither starts the quiz. */
  method ParseArgs(args: seq<string>) returns (r: Launch)
    ensures r.Start? <==> forall i :: 0 <= i < |args| ==> IsRunOption(args[i])
    ensures r.ShowUsage? <==>
      exists i :: 0 <= i < |args| && args[i] == "--help" && forall j :: 0 <= j < i ==> IsRunOption(args[j])
    ensures r.UnknownOption? ==>
      exists i :: 0 <= i < |args| && args[i] == r.arg && r.arg != "--help" && !IsRunOption(r.arg)
        && forall j :: 0 <= j < i ==> IsRunOption(args[j])
    ensures r.Start? ==> (r.serve <==> "serve" in args)
    // no mode flag means Both; otherwise the last mode flag wins
    ensures r.Start? ==> (r.kanaType == Both <==> forall i :: 0 <= i < |args| ==> !IsKanaFlag(args[i]))
    ensures r.Start? && r.kanaType != Both ==>
      exists i :: 0 <= i < |args| && args[i] == FlagOf(r.kanaType)
        && forall j :: i < j < |args| ==> !IsKanaFlag(args[j])
  {
    var kanaType: Family := Both;
    var chosen := false;
    var runServer := false;
    var n := 0;
    while n < |args|
      invariant 0 <= n <= |args|
      invariant forall j :: 0 <= j < n ==> IsRunOption(args[j])
      invariant runServer <==> "serve" in args[..n]
      invariant !chosen <==> forall j :: 0 <= j < n ==> !IsKanaFlag(args[j])
      invariant !chosen ==> kanaType == Both
      invariant chosen ==> kanaType != Both
      invariant chosen ==>
        exists i :: 0 <= i < n && args[i] == FlagOf(kanaType) && forall j :: i < j < n ==> !IsKanaFlag(args[j])
    {
      var arg := args[n];
      assert args[..n + 1] == args[..n] + [arg];
      if arg == "--help" {
        return ShowUsage;
      } else if arg == "--kata" {
        kanaType, chosen := Katakana, true;
        assert args[n] == FlagOf(kanaType);
      } else if arg == "--hira" {
        kanaType, chosen := Hiragana, true;
        assert args[n] == FlagOf(kanaType);
      } else if arg == "serve" {
        runServer := true;
      } else {
        return UnknownOption(arg);
      }
      n := n + 1;
    }
    assert args[..n] == args;
    r := Start(kanaType, runServer);
  }

  /** The template `indexHandler` renders for a mode (main.go:83-91). */
  function TemplateFor(f: Family): (file: string)
    ensures file == "templates/katakana.html" <==> f == Katakana
    ensures file == "templates/hiragana.html" <==> f == Hiragana
    ensures file == "templates/index.html" <==> f == Both
  {
    match f
    case Katakana => "templates/katakana.html"
    case Hiragana => "templates/hiragana.html"
    case Both => "templates/index.html"
  }
}
