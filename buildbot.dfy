/**
 * buildbot.py: the CI driver. Given a command name and a JSON object of
 * build properties, it builds the argument list of one waf invocation and
 * runs it. This module models the argument lists and the dispatch; running
 * the command, decoding the JSON text and exiting the process are not
 * modelled (the decoder is a parameter of Main, the interpreter's path
 * sys.executable a parameter of every builder).
 *
 * A JSON object is the sequence of its members in document order, with
 * distinct keys, as the dict json.loads builds; iterating it follows that
 * order, as a dict does from Python 3.7 on.
 */
module Buildbot {
  import opened Wrappers

  datatype Json =
    | Null
    | Bool(b: bool)
    | Int(i: int)
    | Str(s: string)
    | Array(items: seq<Json>)
    | Object(members: seq<(string, Json)>)

  type Properties = seq<(string, Json)>

  /** The Python exception a builder raises on a property map it cannot use. */
  datatype Error =
    | KeyError(key: string)
    | NotAString(key: string)
    | NotAnObject(key: string)

  datatype Result<T> = Ok(value: T) | Failed(error: Error)

  /** properties.get(key): the value of the first member with that key. */
  function Get(props: Properties, key: string): (r: Option<Json>)
    ensures r == None <==> forall i :: 0 <= i < |props| ==> props[i].0 != key
    ensures r != None ==> exists i :: 0 <= i < |props| && props[i] == (key, r.value)
  {
    if props == [] then None
    else if props[0].0 == key then Some(props[0].1)
    else Get(props[1..], key)
  }

  /** Python truth value: None, False, 0, "", [] and {} are false. */
  predicate Truthy(v: Option<Json>)
  {
    match v
    case None => false
    case Some(Null) => false
    case Some(Bool(b)) => b
    case Some(Int(i)) => i != 0
    case Some(Str(s)) => s != ""
    case Some(Array(items)) => items != []
    case Some(Object(members)) => members != []
  }

  /** The number a string of decimal digits spells, most significant first. */
  function DigitsValue(s: string): int
  {
    if s == [] then 0 else DigitsValue(s[..|s| - 1]) * 10 + (s[|s| - 1] as int - '0' as int)
  }

  /** The decimal digits of n, as str(int) writes them. */
  function Decimal(n: nat): (r: string)
    ensures |r| > 0 && forall k :: 0 <= k < |r| ==> '0' <= r[k] <= '9'
    ensures DigitsValue(r) == n
  {
    if n < 10 then ["0123456789"[n]]
    else
      var r := Decimal(n / 10) + ["0123456789"[n % 10]];
      assert r[..|r| - 1] == Decimal(n / 10);
      r
  }

  /** str(v). A string inside a container is quoted as repr does, without escapes. */
  function Text(v: Json): string
    decreases v, 1
  {
    match v
    case Null => "None"
    case Bool(b) => if b then "True" else "False"
    case Int(i) => if i < 0 then "-" + Decimal(-i) else Decimal(i)
    case Str(s) => s
    case Array(items) => "[" + ItemsText(v, items) + "]"
    case Object(members) => "{" + MembersText(v, members) + "}"
  }

  /** repr(v) for a value inside a container. */
  function Repr(v: Json): string
    decreases v, 2
  {
    if v.Str? then "'" + v.s + "'" else Text(v)
  }

  function ItemsText(v: Json, items: seq<Json>): string
    requires forall k :: 0 <= k < |items| ==> items[k] < v
    decreases v, 0, |items|
  {
    if items == [] then ""
    else if |items| == 1 then Repr(items[0])
    else Repr(items[0]) + ", " + ItemsText(v, items[1..])
  }

  function MembersText(v: Json, members: seq<(string, Json)>): string
    requires forall k :: 0 <= k < |members| ==> members[k].1 < v
    decreases v, 0, |members|
  {
    if members == [] then ""
    else
      var entry := "'" + members[0].0 + "': " + Repr(members[0].1);
      if |members| == 1 then entry else entry + ", " + MembersText(v, members[1..])
  }

  // ---- get_tool_options ----

  /** The text one tool option adds: ",key" for null, ",key=value" otherwise. */
  function Segment(option: (string, Json)): (r: string)
    ensures |r| > |option.0| && r[0] == ','

  {
    if option.1.Null? then "," + option.0 else "," + option.0 + "=" + Text(option.1)
  }

  /** The strings of parts joined end to end. */
  function Flatten(parts: seq<string>): string
  {
    if parts == [] then "" else Flatten(parts[..|parts| - 1]) + parts[|parts| - 1]
  }

  /** The segment of each option, in order. */
  function Segments(options: seq<(string, Json)>): (r: seq<string>)
    ensures |r| == |options| && forall i :: 0 <= i < |options| ==> r[i] == Segment(options[i])
  {
    seq(|options|, i requires 0 <= i < |options| => Segment(options[i]))
  }

  /** The segments of all the options, in order. */
  function OptionsText(options: seq<(string, Json)>): string
  {
    Flatten(Segments(options))
  }

  /**
   * What get_tool_options returns: "" without a tool_options member,
   * otherwise the segments of its members; a tool_options that is not an
   * object has no items() and fails.
   */
  function ToolOptionsOf(props: Properties): Result<string>
  {
    match Get(props, "tool_options")
    case None => Ok("")
    case Some(Object(options)) => Ok(OptionsText(options))
    case Some(_) => Failed(NotAnObject("tool_options"))
  }

  /** get_tool_options(properties): append one segment per tool option. */
  method GetToolOptions(props: Properties) returns (r: Result<string>)
    ensures r == ToolOptionsOf(props)
  {
    var tool := Get(props, "tool_options");
    if tool == None {
      return Ok("");
    }
    if !tool.value.Object? {
      return Failed(NotAnObject("tool_options"));
    }
    var options := tool.value.members;
    var text := "";
    ghost var segments := Segments(options);
    for i := 0 to |options|
      invariant text == Flatten(segments[..i])
    {
      FlattenSnoc(segments, i);
      text := text + Segment(options[i]);
    }
    assert segments[..|options|] == segments;
    return Ok(text);
  }

  /** Joining one more part onto a prefix appends that part. */
  lemma FlattenSnoc(parts: seq<string>, i: nat)
    requires i < |parts|
    ensures Flatten(parts[..i + 1]) == Flatten(parts[..i]) + parts[i]
  {
    assert parts[..i + 1][..i] == parts[..i];
  }

  lemma FlattenOne(part: string)
    ensures Flatten([part]) == part
  {
    assert [part][..0] == [];
  }

  /** Joining end to end distributes over concatenation. */
  lemma {:induction false} FlattenAppend(a: seq<string>, b: seq<string>)
    ensures Flatten(a + b) == Flatten(a) + Flatten(b)
    decreases |b|
  {
    if b == [] {
      assert a + b == a;
    } else {
      var ab, init, last := a + b, b[..|b| - 1], b[|b| - 1];
      assert ab[..|ab| - 1] == a + init && ab[|ab| - 1] == last;
      FlattenAppend(a, init);
      assert Flatten(ab) == (Flatten(a) + Flatten(init)) + last;
      assert Flatten(b) == Flatten(init) + last;
      assert (Flatten(a) + Flatten(init)) + last == Flatten(a) + (Flatten(init) + last);
    }
  }

  /** The options of a concatenation are the options of each part, in order. */
  lemma OptionsTextAppend(a: seq<(string, Json)>, b: seq<(string, Json)>)
    ensures OptionsText(a + b) == OptionsText(a) + OptionsText(b)
  {
    assert Segments(a + b) == Segments(a) + Segments(b);
    FlattenAppend(Segments(a), Segments(b));
  }

  /** Each option contributes exactly its own segment, in the given order. */
  lemma {:induction false} OptionsTextCons(option: (string, Json), rest: seq<(string, Json)>)
    ensures OptionsText([option] + rest) == Segment(option) + OptionsText(rest)
  {
    OptionsTextAppend([option], rest);
    assert Segments([option]) == [Segment(option)];
    FlattenOne(Segment(option));
  }

  /** A non-empty option list always begins a new comma-separated field. */
  lemma {:induction false} OptionsTextLeadingComma(options: seq<(string, Json)>)
    requires options != []
    ensures |OptionsText(options)| > 0 && OptionsText(options)[0] == ','
  {
    OptionsTextCons(options[0], options[1..]);
    assert [options[0]] + options[1..] == options;
  }

  // ---- the four builders ----

  const VALGRIND_OPTION := ",run_cmd=valgrind --error-exitcode=1 %s"

  /** The members configure must find, of the right kind, to build a command. */
  predicate ConfigureAccepts(props: Properties)
  {
    && (Get(props, "waf_bundle_path") == None || Get(props, "waf_bundle_path").value.Str?)
    && (Get(props, "dependency_project") != None ==> Get(props, "dependency_checkout") != None)
    && Get(props, "cxx_mkspec") != None
    && ToolOptionsOf(props).Ok?
  }

  /** The distclean step, when build_distclean is true. */
  function DistcleanArgs(props: Properties): (r: seq<string>)
    ensures |r| == (if Truthy(Get(props, "build_distclean")) then 1 else 0)
    ensures |r| == 1 ==> r[0] == "distclean"
  {
    if Truthy(Get(props, "build_distclean")) then ["distclean"] else []
  }

  /** The bundle path argument, when waf_bundle_path is given. */
  function BundleArgs(props: Properties): (r: seq<string>)
    ensures |r| <= 1
    ensures |r| == 1 <==> Get(props, "waf_bundle_path") != None && Get(props, "waf_bundle_path").value.Str?
    ensures |r| == 1 ==> r[0] == "--bundle-path=" + Get(props, "waf_bundle_path").value.s
  {
    match Get(props, "waf_bundle_path")
    case Some(Str(path)) => ["--bundle-path=" + path]
    case _ => []
  }

  /** The checkout argument of the dependency project, when one is given. */
  function DependencyArgs(props: Properties): (r: seq<string>)
    ensures |r| <= 1
    ensures |r| == 1 <==> Get(props, "dependency_project") != None && Get(props, "dependency_checkout") != None
    ensures |r| == 1 ==> r[0] == "--" + Text(Get(props, "dependency_project").value) + "-use-checkout="
                                 + Text(Get(props, "dependency_checkout").value)
  {
    match (Get(props, "dependency_project"), Get(props, "dependency_checkout"))
    case (Some(project), Some(checkout)) => ["--" + Text(project) + "-use-checkout=" + Text(checkout)]
    case _ => []
  }

  /**
   * configure(properties): [python, waf], distclean when build_distclean is
   * true, configure and the git protocol, the bundle path and the
   * dependency checkout when given, and the options with cxx_mkspec first.
   * The members are read in that order, so the first one missing or of the
   * wrong kind names the exception.
   */
  function Configure(python: string, props: Properties): (r: Result<seq<string>>)
    ensures r.Ok? <==> ConfigureAccepts(props)
    ensures r.Failed? && r.error.KeyError? ==> Get(props, r.error.key) == None
    ensures r.Failed? && r.error.NotAString? ==> r.error.key == "waf_bundle_path"
  {
    var bundle := Get(props, "waf_bundle_path");
    if bundle != None && !bundle.value.Str? then Failed(NotAString("waf_bundle_path"))
    else if Get(props, "dependency_project") != None && Get(props, "dependency_checkout") == None then
      Failed(KeyError("dependency_checkout"))
    else if Get(props, "cxx_mkspec") == None then Failed(KeyError("cxx_mkspec"))
    else if ToolOptionsOf(props).Failed? then Failed(ToolOptionsOf(props).error)
    else
      var options := "--options=cxx_mkspec=" + Text(Get(props, "cxx_mkspec").value) + ToolOptionsOf(props).value;
      Ok([python, "waf"] + DistcleanArgs(props) + ["configure", "--git-protocol=git@"]
         + BundleArgs(props) + DependencyArgs(props) + [options])
  }

  /** configure's command as the concatenation of its pieces. */
  lemma ConfigureParts(python: string, props: Properties)
    requires ConfigureAccepts(props)
    ensures Configure(python, props).value ==
      [python, "waf"] + DistcleanArgs(props) + ["configure", "--git-protocol=git@"]
      + BundleArgs(props) + DependencyArgs(props)
      + ["--options=cxx_mkspec=" + Text(Get(props, "cxx_mkspec").value) + ToolOptionsOf(props).value]
  {
  }

  /** Positions in a command made of fixed parts and optional single arguments. */
  lemma ArgumentPositions(a: seq<string>, head: seq<string>, D: seq<string>, fixed: seq<string>,
                          B: seq<string>, P: seq<string>, last: string)
    requires |head| == 2 && |fixed| == 2 && |D| <= 1 && |B| <= 1 && |P| <= 1
    requires a == head + D + fixed + B + P + [last]
    ensures |a| == 5 + |D| + |B| + |P|
    ensures a[..2] == head && a[2 + |D|..4 + |D|] == fixed
    ensures |D| == 1 ==> a[2] == D[0]
    ensures |D| == 0 ==> a[2] == fixed[0]
    ensures |B| == 1 ==> a[4 + |D|] == B[0]
    ensures |P| == 1 ==> a[4 + |D| + |B|] == P[0]
    ensures a[|a| - 1] == last
  {
  }

  /**
   * Where each argument of configure's command sits: distclean right after
   * [python, waf] exactly when build_distclean is true, then configure and
   * the git protocol, the bundle path and the dependency checkout each
   * exactly when given, and the options argument last.
   */
  lemma ConfigureLayout(python: string, props: Properties)
    requires ConfigureAccepts(props)
    ensures var a := Configure(python, props).value;
      var d := if Truthy(Get(props, "build_distclean")) then 1 else 0;
      var b := if Get(props, "waf_bundle_path") != None then 1 else 0;
      var p := if Get(props, "dependency_project") != None then 1 else 0;
      && |a| == 5 + d + b + p
      && a[..2] == [python, "waf"]
      && (a[2] == "distclean" <==> d == 1)
      && a[2 + d..4 + d] == ["configure", "--git-protocol=git@"]
      && (b == 1 ==> a[4 + d] == "--bundle-path=" + Get(props, "waf_bundle_path").value.s)
      && (p == 1 ==>
            (a[4 + d + b] == "--" + Text(Get(props, "dependency_project").value) + "-use-checkout="
                             + Text(Get(props, "dependency_checkout").value)))
      && a[|a| - 1] == "--options=cxx_mkspec=" + Text(Get(props, "cxx_mkspec").value) + ToolOptionsOf(props).value
  {
    var options := "--options=cxx_mkspec=" + Text(Get(props, "cxx_mkspec").value) + ToolOptionsOf(props).value;
    var a := Configure(python, props).value;
    var D, B, P := DistcleanArgs(props), BundleArgs(props), DependencyArgs(props);
    assert |B| == if Get(props, "waf_bundle_path") != None then 1 else 0;
    assert |P| == if Get(props, "dependency_project") != None then 1 else 0;
    ConfigureParts(python, props);
    ArgumentPositions(a, [python, "waf"], D, ["configure", "--git-protocol=git@"], B, P, options);
    assert "configure"[0] != "distclean"[0];
  }

  /** build(properties): always the same command; the properties are not read. */
  function Build(python: string, props: Json): (r: seq<string>)
    ensures |r| == 4 && r[0] == python && r[1..] == ["waf", "build", "-v"]
  {
    [python, "waf", "build", "-v"]
  }

  /**
   * run_tests(properties): [python, waf, -v] and one options argument:
   * run_tests,run_always, the valgrind run command when valgrind_run is
   * true, then the tool options.
   */
  function RunTests(python: string, props: Properties): (r: Result<seq<string>>)
    ensures r.Ok? <==> ToolOptionsOf(props).Ok?
    ensures r.Ok? ==>
      var a := r.value;
      var base := "--options=run_tests,run_always";
      && |a| == 4 && a[..3] == [python, "waf", "-v"]
      && (Truthy(Get(props, "valgrind_run")) ==> a[3] == base + VALGRIND_OPTION + ToolOptionsOf(props).value)
      && (!Truthy(Get(props, "valgrind_run")) ==> a[3] == base + ToolOptionsOf(props).value)
  {
    var options := "--options=run_tests,run_always";
    var options := if Truthy(Get(props, "valgrind_run")) then options + VALGRIND_OPTION else options;
    match ToolOptionsOf(props)
    case Failed(e) => Failed(e)
    case Ok(tools) => Ok([python, "waf", "-v"] + [options + tools])
  }

  /** ",".join(parts). */
  function Join(parts: seq<string>): (r: string)
    ensures parts == [] ==> r == ""
    ensures |parts| == 1 ==> r == parts[0]
    ensures |parts| == 2 ==> r == parts[0] + "," + parts[1]
  {
    if parts == [] then "" else if |parts| == 1 then parts[0] else parts[0] + "," + Join(parts[1..])
  }

  /** The install options: install_path=... when given, install_relative when true. */
  function InstallOptions(props: Properties): (r: seq<string>)
    ensures |r| == (if Get(props, "install_path") != None then 1 else 0)
                   + (if Truthy(Get(props, "install_relative")) then 1 else 0)
    ensures Get(props, "install_path") != None ==> r[0] == "install_path=" + Text(Get(props, "install_path").value)
    ensures Truthy(Get(props, "install_relative")) ==> r[|r| - 1] == "install_relative"
  {
    var options := match Get(props, "install_path")
      case Some(path) => ["install_path=" + Text(path)]
      case None => [];
    if Truthy(Get(props, "install_relative")) then options + ["install_relative"] else options
  }

  /**
   * install(properties): [python, waf, -v, install], then one options
   * argument when install_path is given or install_relative is true.
   */
  function Install(python: string, props: Properties): (r: seq<string>)
    ensures |r| == 4 || |r| == 5
    ensures r[..4] == [python, "waf", "-v", "install"]
    ensures |r| == 5 <==> Get(props, "install_path") != None || Truthy(Get(props, "install_relative"))
    ensures |r| == 5 ==> r[4] == "--options=" + Join(InstallOptions(props))
  {
    var command := [python, "waf", "-v", "install"];
    var options := InstallOptions(props);
    if |options| > 0 then command + ["--options=" + Join(options)] else command
  }

  /** The options argument of install, for each combination of the two members. */
  lemma InstallOptionsArgument(python: string, props: Properties)
    ensures var r := Install(python, props);
      var path := Get(props, "install_path");
      var relative := Truthy(Get(props, "install_relative"));
      && (path != None && relative ==>
            r[4] == "--options=" + ("install_path=" + Text(path.value) + "," + "install_relative"))
      && (path != None && !relative ==> r[4] == "--options=" + ("install_path=" + Text(path.value)))
      && (path == None && relative ==> r[4] == "--options=" + "install_relative")
  {
    var options := InstallOptions(props);
    var path := Get(props, "install_path");
    var relative := Truthy(Get(props, "install_relative"));
    if path != None && relative {
      assert options == ["install_path=" + Text(path.value), "install_relative"];
      assert Join(options) == options[0] + "," + options[1];
    } else if path != None {
      assert |options| == 1;
    } else if relative {
      assert |options| == 1;
    }
  }

  // ---- main ----

  /** What a run of main ends with. */
  datatype Outcome =
    | Usage(message: string, status: int)
    | Runs(command: seq<string>)
    | UnknownCommand(message: string)
    | Raises(error: Error)
    | NoProgramName

  /** The argument of a builder that needs a dict, when the properties are not one. */
  const PROPERTIES := "properties"

  /**
   * main(): exactly a command and a properties text are expected after the
   * program name; the text is decoded by loads and the command selects the
   * builder whose argument list is run.
   */
  function Main(argv: seq<string>, python: string, loads: string -> Json): (r: Outcome)
    // Without even a program name, argv[0] raises IndexError in the source.
    ensures |argv| == 0 ==> r == NoProgramName
    ensures |argv| != 3 && |argv| > 0 ==> r == Usage("Usage: " + argv[0] + " <command> <properties>", 0)
    ensures |argv| == 3 && argv[1] !in {"configure", "build", "run_tests", "install"} ==>
      r == UnknownCommand("Unknown command: " + argv[1])
    ensures |argv| == 3 && argv[1] == "build" ==> r == Runs(Build(python, loads(argv[2])))
    ensures |argv| == 3 && argv[1] in {"configure", "run_tests", "install"} && !loads(argv[2]).Object? ==>
      r == Raises(NotAnObject(PROPERTIES))
    ensures |argv| == 3 && argv[1] == "configure" && loads(argv[2]).Object? ==>
      r == Completed(Configure(python, loads(argv[2]).members))
    ensures |argv| == 3 && argv[1] == "run_tests" && loads(argv[2]).Object? ==>
      r == Completed(RunTests(python, loads(argv[2]).members))
    ensures |argv| == 3 && argv[1] == "install" && loads(argv[2]).Object? ==>
      r == Runs(Install(python, loads(argv[2]).members))
    ensures r.Runs? ==> |argv| == 3 && |r.command| >= 4 && r.command[..2] == [python, "waf"]
  {
    if |argv| == 0 then NoProgramName
    else if |argv| != 3 then Usage("Usage: " + argv[0] + " <command> <properties>", 0)
    else
      var cmd := argv[1];
      var properties := loads(argv[2]);
      if cmd == "build" then Runs(Build(python, properties))
      else if cmd !in {"configure", "run_tests", "install"} then UnknownCommand("Unknown command: " + cmd)
      else if !properties.Object? then Raises(NotAnObject(PROPERTIES))
      else if cmd == "configure" then Completed(Configure(python, properties.members))
      else if cmd == "run_tests" then Completed(RunTests(python, properties.members))
      else Runs(Install(python, properties.members))
  }

  /** The command a builder returned is run; its exception propagates. */
  function Completed(res: Result<seq<string>>): (r: Outcome)
    ensures res.Ok? ==> r == Runs(res.value)
    ensures res.Failed? ==> r == Raises(res.error)
  {
    match res
    case Ok(command) => Runs(command)
    case Failed(e) => Raises(e)
  }
}
